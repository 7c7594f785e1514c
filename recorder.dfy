/** `ScreenRecorder` (capture_screen_avi.py) as an object whose methods update
    its session fields in place, each proved to make exactly the transition of
    the corresponding function of module Session. The video writer is an
    object the recorder owns; its ghost `frames` stand for the file's contents. */
module Recorder {
  import opened Wrappers
  import opened Media
  import opened Encoder
  import Session

  /** An open video file: codec, frame rate and geometry fixed when opened. */
  class VideoWriter {
    const path: string
    const fourcc: string
    const fps: int
    const size: Size
    ghost var frames: seq<Size>
    var isOpen: bool

    /** The file as a value. */
    ghost function Value(): Writer
      reads this
    {
      Writer(path, fourcc, fps, size, frames)
    }

    constructor Open(path: string, fourcc: string, fps: int, size: Size)
      ensures Value() == Writer(path, fourcc, fps, size, []) && isOpen
    {
      this.path, this.fourcc, this.fps, this.size := path, fourcc, fps, size;
      frames := [];
      isOpen := true;
    }

    /** Append one frame to the file. */
    method Write(frame: Size)
      requires isOpen && frame == size
      modifies this
      ensures Value() == old(Value()).(frames := old(frames) + [frame]) && isOpen
    {
      frames := frames + [frame];
    }

    /** Flush and close the file; its contents stay as written. */
    method Release()
      modifies this
      ensures Value() == old(Value()) && !isOpen
    {
      isOpen := false;
    }
  }

  class ScreenRecorder {
    const hasScreen: bool
    var recording: bool
    var timer: Option<nat>
    var writer: VideoWriter?
    var targetPath: Option<string>
    var targetSize: Option<Size>

    /** The session fields as a value. */
    ghost function State(): Session.State
      reads this, writer
    {
      Session.State(recording, timer, if writer == null then None else Some(writer.Value()),
                    targetPath, targetSize)
    }

    /** The object invariant: the session invariant, and the writer held is open. */
    ghost predicate Valid()
      reads this, writer
    {
      (writer != null ==> writer.isOpen) && Session.Inv(State())
    }

    /** A recorder starts idle; `hasScreen` is whether a primary screen exists. */
    constructor (hasScreen: bool)
      ensures Valid() && State() == Session.Idle && this.hasScreen == hasScreen
    {
      this.hasScreen := hasScreen;
      recording := false;
      timer := None;
      writer := null;
      targetPath := None;
      targetSize := None;
    }

    /** Open a writer for `path` at `frame`'s size, or raise (null) when the
        video library cannot open it. */
    method InitWriter(frame: Size, fps: int, path: string, opens: bool) returns (w: VideoWriter?)
      ensures (w != null) == opens
      ensures w != null ==> fresh(w) && w.isOpen
      ensures w != null ==>
        w.Value() == Writer(path, ExtensionCodec(path), fps, frame, [])
    {
      var fourcc := FourCC(path);
      FourCCByExtension(path);
      if !opens {
        return null;
      }
      w := new VideoWriter.Open(path, fourcc, fps, frame);
    }

    /** The start button: `choice` is what the file chooser returned ("" when
        cancelled), `fps` the frame-rate selector's value. */
    method StartRecording(choice: string, fps: int)
      requires Valid()
      modifies this
      ensures Valid() && writer == old(writer)
      ensures State() == Session.Start(old(State()), choice, fps)
    {
      if recording {
        return;
      }
      targetPath := Session.ChooseTarget(choice);
      if targetPath.None? {
        return;
      }
      timer := Some(IntervalMs(fps));
      recording := true;
    }

    /** Drop the writer after closing it; nothing to do when there is none. */
    method ReleaseWriter()
      modifies this, writer
      ensures State() == Session.ReleaseWriter(old(State()))
      ensures writer == null
      ensures old(writer) != null ==> !old(writer).isOpen && old(writer).Value() == old(writer.Value())
    {
      if writer != null {
        writer.Release();
        writer := null;
      }
    }

    /** The stop button. */
    method StopRecording()
      requires Valid()
      modifies this, writer
      ensures Valid() && State() == Session.Stop(old(State()))
      ensures old(writer) != null ==> !old(writer).isOpen && old(writer).Value() == old(writer.Value())
    {
      if !recording {
        return;
      }
      timer := None;
      recording := false;
      ReleaseWriter();
      targetPath := None;
      targetSize := None;
    }

    /** Closing the window stops any session first. */
    method CloseEvent()
      requires Valid()
      modifies this, writer
      ensures Valid() && State() == Session.Close(old(State())) && State() == Session.Idle
      ensures old(writer) != null ==> !old(writer).isOpen && old(writer).Value() == old(writer.Value())
    {
      StopRecording();
    }

    /** One timer tick with the grabbed frame's size, the scale selector's
        item, the frame-rate selector's value, and whether the video library
        opens a writer if one is requested. */
    method OnTick(frame: Size, scaleItem: string, fps: int, opens: bool) returns (outcome: Session.Outcome)
      requires Valid()
      modifies this, writer
      ensures Valid()
      ensures Session.Tick(old(State()), hasScreen, Session.TickInput(frame, scaleItem, fps, opens))
              == Session.Step(State(), outcome)
      ensures old(writer) != null ==> writer == old(writer)
      ensures writer != old(writer) ==> fresh(writer)
    {
      if !hasScreen {
        return Session.Skipped;
      }
      if !recording {
        return Session.Skipped;
      }
      var converted := Convert(frame, scaleItem);
      if converted.Failure? {
        return Session.Raised(converted.error);
      }
      outcome := RecordFrame(converted.value, fps, opens);
    }

    /** The recording part of a tick, for a frame that converted: open the
        writer at this frame's size if there is none yet, then write the frame
        at the session's geometry, resized when its size differs. */
    method RecordFrame(bgr: Size, fps: int, opens: bool) returns (outcome: Session.Outcome)
      requires Valid() && recording && bgr.width > 0 && bgr.height > 0
      modifies this, writer
      ensures Valid()
      ensures Session.Record(old(State()), bgr, fps, opens) == Session.Step(State(), outcome)
      ensures old(writer) != null ==> writer == old(writer)
      ensures writer != old(writer) ==> fresh(writer)
    {
      ghost var before := State();
      var openedWriter := false;
      if writer == null {
        var ok := OpenWriter(bgr, fps, opens);
        if !ok {
          return Session.Raised(CannotOpen);
        }
        openedWriter := true;
      }
      assert Session.Record(before, bgr, fps, opens) == Session.WriteFrame(State(), bgr, openedWriter);
      outcome := WriteFrame(bgr, openedWriter);
    }

    /** Open the session's writer at the size of the first converted frame,
        which becomes the session's geometry; nothing changes when the video
        library cannot open it. */
    method OpenWriter(bgr: Size, fps: int, opens: bool) returns (ok: bool)
      requires Valid() && recording && writer == null && bgr.width > 0 && bgr.height > 0
      modifies this
      ensures Valid() && ok == opens
      ensures ok ==> fresh(writer) && State() == old(State()).(
        writer := Some(Writer(targetPath.value, ExtensionCodec(targetPath.value), fps, bgr, [])),
        targetSize := Some(bgr))
      ensures !ok ==> writer == null && State() == old(State())
    {
      ghost var before := State();
      assert before == Session.State(recording, timer, None, targetPath, None);
      var path := targetPath.value;
      var w := InitWriter(bgr, fps, path, opens);
      if w == null {
        return false;
      }
      ghost var file := Writer(path, ExtensionCodec(path), fps, bgr, []);
      assert w.Value() == file;
      assert Session.WriterFits(file, path, bgr);
      writer := w;
      targetSize := Some(bgr);
      assert State() == before.(writer := Some(file), targetSize := Some(bgr));
      return true;
    }

    /** Write the converted frame `bgr` to the open writer, forced to the
        session's geometry. */
    method WriteFrame(bgr: Size, openedWriter: bool) returns (outcome: Session.Outcome)
      requires Valid() && writer != null
      modifies writer
      ensures Valid()
      ensures Session.WriteFrame(old(State()), bgr, openedWriter) == Session.Step(State(), outcome)
    {
      var size := targetSize.value;
      writer.Write(size);
      outcome := Session.Wrote(size, bgr != size, openedWriter);
    }
  }
}
