/** The recording session of `ScreenRecorder` (capture_screen_avi.py) as a
    state machine over values: start, stop, writer release and the per-tick
    capture step, and what a run of ticks does to the output file. */
module Session {
  import opened Wrappers
  import opened Media
  import opened Encoder

  /** The recorder's session fields: the recording flag, the timer (its period
      when armed), the lazily opened writer, the output path and the geometry
      fixed by the first recorded frame. */
  datatype State = State(
    recording: bool,
    timer: Option<nat>,
    writer: Option<Writer>,
    targetPath: Option<string>,
    targetSize: Option<Size>)

  /** What one tick did: nothing, wrote one frame of `size` (after resizing
      the converted frame when its size differed, and after opening the writer
      when this was the first recorded frame), or raised. */
  datatype Outcome =
    | Skipped
    | Wrote(size: Size, resized: bool, openedWriter: bool)
    | Raised(fault: Fault)

  /** The inputs of one tick: the grabbed frame, the scale selector's item,
      the frame-rate selector's value, and whether the video library opens a
      writer if one is requested. */
  datatype TickInput = TickInput(frame: Size, scaleItem: string, fps: int, opens: bool)

  datatype Step = Step(state: State, outcome: Outcome)

  /** The state of a fresh recorder, and of every recorder between sessions. */
  const Idle := State(false, None, None, None, None)

  /** Two handles on the same output file: everything but the frames agrees. */
  predicate SameFile(a: Writer, b: Writer)
  {
    a.path == b.path && a.fourcc == b.fourcc && a.fps == b.fps && a.size == b.size
  }

  /** The writer was opened for the session's path, with the codec of its
      extension (the tag FourCC gives, by FourCCByExtension), at the session's
      geometry, and every frame written to it has exactly that geometry. */
  predicate WriterFits(w: Writer, path: string, size: Size)
  {
    && w.path == path
    && w.fourcc == ExtensionCodec(path)
    && w.size == size
    && size.width > 0 && size.height > 0
    && forall i :: 0 <= i < |w.frames| ==> w.frames[i] == size
  }

  /** The session invariant the recorder keeps. */
  predicate Inv(s: State)
  {
    && (!s.recording ==> s == Idle)
    && (s.recording ==> s.timer.Some? && s.targetPath.Some?)
    && (s.writer.Some? <==> s.targetSize.Some?)
    && (s.writer.Some? ==> s.recording && s.targetPath.Some? && s.targetSize.Some?
                           && WriterFits(s.writer.value, s.targetPath.value, s.targetSize.value))
  }

  /** The output path for what the file chooser returned; "" means cancelled. */
  function ChooseTarget(choice: string): (p: Option<string>)
    ensures p.None? <==> choice == ""
    ensures p.Some? ==> p.value == choice
  {
    if choice == "" then None else Some(choice)
  }

  /** Start a session: ignored while recording; otherwise take the chosen
      path and, unless the choice was cancelled, arm the timer and record. */
  function Start(s: State, choice: string, fps: int): (r: State)
    ensures Inv(s) ==> Inv(r)
    ensures s.recording ==> r == s
    ensures Inv(s) && !s.recording && choice == "" ==> r == s && !r.recording && r.timer.None?
    ensures !s.recording && choice != "" ==>
      && r.recording
      && r.timer == Some(IntervalMs(fps))
      && r.targetPath == Some(choice)
      && r.writer == s.writer && r.targetSize == s.targetSize
  {
    if s.recording then s
    else
      var target := ChooseTarget(choice);
      if target.None? then s.(targetPath := target)
      else s.(timer := Some(IntervalMs(fps)), recording := true, targetPath := target)
  }

  /** Drop the writer, closing it first; nothing to do when there is none. */
  function ReleaseWriter(s: State): (r: State)
    ensures r.writer.None?
    ensures r.(writer := s.writer) == s
  {
    if s.writer.Some? then s.(writer := None) else s
  }

  /** Stop a session: ignored when idle; otherwise disarm the timer, release
      the writer and forget the path and the geometry. */
  function Stop(s: State): (r: State)
    ensures !s.recording ==> r == s
    ensures s.recording ==> r == Idle
    ensures Inv(s) ==> r == Idle
  {
    if !s.recording then s
    else ReleaseWriter(s.(timer := None, recording := false)).(targetPath := None, targetSize := None)
  }

  /** Releasing the writer a second time does nothing. */
  lemma ReleaseTwice(s: State)
    ensures ReleaseWriter(ReleaseWriter(s)) == ReleaseWriter(s)
  {
  }

  /** Stopping a second time does nothing. */
  lemma StopTwice(s: State)
    ensures Stop(Stop(s)) == Stop(s)
  {
  }

  /** Closing the window runs the stop sequence. */
  function Close(s: State): (r: State)
    ensures Inv(s) ==> r == Idle
  {
    Stop(s)
  }

  /** The frames the session's writer has received, [] when there is none. */
  function Frames(s: State): seq<Size>
  {
    if s.writer.Some? then s.writer.value.frames else []
  }

  /** Write one frame, forced to the session's geometry. */
  function WriteFrame(s: State, frame: Size, openedWriter: bool): (r: Step)
    requires Inv(s) && s.writer.Some?
    ensures Inv(r.state) && r.outcome.Wrote?
    ensures r.outcome == Wrote(s.targetSize.value, frame != s.targetSize.value, openedWriter)
    ensures r.state.writer.Some? && SameFile(s.writer.value, r.state.writer.value)
    ensures r.state == s.(writer := r.state.writer)
    ensures Frames(r.state) == Frames(s) + [s.targetSize.value]
  {
    var size := s.targetSize.value;
    var w := s.writer.value;
    Step(s.(writer := Some(w.(frames := w.frames + [size]))), Wrote(size, frame != size, openedWriter))
  }

  /** The recording part of a tick, for a frame that converted: open the
      writer at this frame's size if there is none yet, then write. */
  function Record(s: State, frame: Size, fps: int, opens: bool): (r: Step)
    requires Inv(s) && s.recording && frame.width > 0 && frame.height > 0
    ensures Inv(r.state)
    ensures r.outcome.Wrote? || r == Step(s, Raised(CannotOpen))
    ensures r.outcome.Wrote? ==>
      && Some(r.outcome.size) == r.state.targetSize
      && Frames(r.state) == Frames(s) + [r.outcome.size]
      && r.outcome.resized == (frame != r.outcome.size)
      && r.outcome.openedWriter == s.writer.None?
    ensures s.writer.Some? ==> r.outcome.Wrote? && r.state.writer.Some? && SameFile(s.writer.value, r.state.writer.value)
    ensures s.writer.None? ==>
      && (r.outcome.Wrote? <==> opens)
      && (r.outcome.Wrote? ==> r.state.targetSize == Some(frame) && r.state.writer.value.fps == fps)
    ensures r.state == s.(writer := r.state.writer, targetSize := r.state.targetSize)
  {
    if s.writer.None? then
      match InitWriter(frame, fps, s.targetPath.value, opens)
      case Failure(fault) => Step(s, Raised(fault))
      case Success(w) => WriteFrame(s.(writer := Some(w), targetSize := Some(frame)), frame, true)
    else WriteFrame(s, frame, false)
  }

  /** One timer tick. Without a screen, or while idle, nothing is recorded.
      While recording, the grabbed frame is converted; the first frame that
      converts opens the writer and fixes the session's geometry; the frame
      is then written at that geometry. A tick that raises changes nothing. */
  function Tick(s: State, hasScreen: bool, t: TickInput): (r: Step)
    requires Inv(s)
    ensures Inv(r.state)
    ensures !hasScreen || !s.recording ==> r == Step(s, Skipped)
    ensures !r.outcome.Wrote? ==> r.state == s
    ensures r.outcome.Wrote? ==>
      && Some(r.outcome.size) == r.state.targetSize
      && Frames(r.state) == Frames(s) + [r.outcome.size]
      && r.outcome.resized == (Convert(t.frame, t.scaleItem) != Success(r.outcome.size))
    ensures r.outcome.Wrote? && r.outcome.openedWriter <==> s.writer.None? && r.state.writer.Some?
    ensures s.writer.Some? ==> r.state.writer.Some? && SameFile(s.writer.value, r.state.writer.value)
    ensures s.writer.None? && r.state.writer.Some? ==>
      && Convert(t.frame, t.scaleItem).Success?
      && r.state.targetSize == Some(Convert(t.frame, t.scaleItem).value)
      && r.state.writer.value.fps == t.fps
    ensures s.writer.None? && s.recording && hasScreen && Convert(t.frame, t.scaleItem).Success? ==>
      (r.state.writer.Some? <==> t.opens)
    ensures hasScreen && s.recording && Convert(t.frame, t.scaleItem).Failure? ==>
      r == Step(s, Raised(Convert(t.frame, t.scaleItem).error))
    ensures hasScreen && s.recording && s.writer.Some? && Convert(t.frame, t.scaleItem).Success? ==>
      r.outcome.Wrote?
    ensures hasScreen && s.recording && s.writer.None? && Convert(t.frame, t.scaleItem).Success? && !t.opens ==>
      r == Step(s, Raised(CannotOpen))
    ensures r.state == s.(writer := r.state.writer, targetSize := r.state.targetSize)
  {
    if !hasScreen || !s.recording then Step(s, Skipped)
    else
      match Convert(t.frame, t.scaleItem)
      case Failure(fault) => Step(s, Raised(fault))
      case Success(frame) => Record(s, frame, t.fps, t.opens)
  }

  /** The state after a sequence of ticks, and what each tick did. */
  datatype Run = Run(state: State, outcomes: seq<Outcome>)

  function RunTicks(s: State, hasScreen: bool, ticks: seq<TickInput>): (r: Run)
    requires Inv(s)
    ensures Inv(r.state) && |r.outcomes| == |ticks|
    decreases |ticks|
  {
    if ticks == [] then Run(s, [])
    else
      var step := Tick(s, hasScreen, ticks[0]);
      var rest := RunTicks(step.state, hasScreen, ticks[1..]);
      Run(rest.state, [step.outcome] + rest.outcomes)
  }

  /** The sizes of the frames written by a sequence of ticks, in order. */
  function Written(outs: seq<Outcome>): seq<Size>
  {
    if outs == [] then []
    else (if outs[0].Wrote? then [outs[0].size] else []) + Written(outs[1..])
  }

  /** How many of a sequence of ticks opened a writer. */
  function OpenCount(outs: seq<Outcome>): nat
  {
    if outs == [] then 0
    else (if outs[0].Wrote? && outs[0].openedWriter then 1 else 0) + OpenCount(outs[1..])
  }

  /** The first tick of a run, as the state it leaves for the rest: its frame
      (if any) is the file's only change, and the rest of the run starts from it. */
  lemma FirstStep(s: State, hasScreen: bool, ticks: seq<TickInput>) returns (next: State)
    requires Inv(s) && ticks != []
    ensures Inv(next)
    ensures var r := RunTicks(s, hasScreen, ticks);
      && |r.outcomes| > 0
      && Frames(next) == Frames(s) + (if r.outcomes[0].Wrote? then [r.outcomes[0].size] else [])
      && RunTicks(next, hasScreen, ticks[1..]) == Run(r.state, r.outcomes[1..])
  {
    next := Tick(s, hasScreen, ticks[0]).state;
  }

  /** Within one session the output file receives exactly the frames the
      ticks report as written, in order. */
  lemma {:induction false} RunFrames(s: State, hasScreen: bool, ticks: seq<TickInput>)
    requires Inv(s)
    ensures var r := RunTicks(s, hasScreen, ticks);
      Frames(r.state) == Frames(s) + Written(r.outcomes)
    decreases |ticks|
  {
    if ticks != [] {
      var next := FirstStep(s, hasScreen, ticks);
      RunFrames(next, hasScreen, ticks[1..]);
      var r := RunTicks(s, hasScreen, ticks);
      WrittenStep(Frames(s), Frames(next), Frames(r.state), r.outcomes);
    }
  }

  /** A file that takes the first outcome's frame and then the rest's has
      taken the frames of all the outcomes. */
  lemma WrittenStep(before: seq<Size>, mid: seq<Size>, after: seq<Size>, outs: seq<Outcome>)
    requires |outs| > 0
    requires mid == before + (if outs[0].Wrote? then [outs[0].size] else [])
    requires after == mid + Written(outs[1..])
    ensures after == before + Written(outs)
  {
  }

  /** Within one session an open writer stays the same file, and the writer
      is opened at most once, and not at all when one is already open. */
  lemma {:induction false} RunOpensOnce(s: State, hasScreen: bool, ticks: seq<TickInput>)
    requires Inv(s)
    ensures var r := RunTicks(s, hasScreen, ticks);
      && OpenCount(r.outcomes) <= (if s.writer.Some? then 0 else 1)
      && (s.writer.Some? ==> r.state.writer.Some? && SameFile(s.writer.value, r.state.writer.value))
      && (s.writer.None? && r.state.writer.None? ==> OpenCount(r.outcomes) == 0)
    decreases |ticks|
  {
    if ticks != [] {
      var step := Tick(s, hasScreen, ticks[0]);
      RunOpensOnce(step.state, hasScreen, ticks[1..]);
      var r := RunTicks(s, hasScreen, ticks);
      assert r.outcomes[1..] == RunTicks(step.state, hasScreen, ticks[1..]).outcomes;
    }
  }

  /** Within one session every frame written has the geometry the session
      ends with: the output file's frame size never changes. */
  lemma {:induction false} RunKeepsGeometry(s: State, hasScreen: bool, ticks: seq<TickInput>)
    requires Inv(s)
    ensures var r := RunTicks(s, hasScreen, ticks);
      forall i :: 0 <= i < |r.outcomes| && r.outcomes[i].Wrote? ==> Some(r.outcomes[i].size) == r.state.targetSize
    decreases |ticks|
  {
    if ticks != [] {
      var step := Tick(s, hasScreen, ticks[0]);
      var rest := RunTicks(step.state, hasScreen, ticks[1..]);
      RunKeepsGeometry(step.state, hasScreen, ticks[1..]);
      RunOpensOnce(step.state, hasScreen, ticks[1..]);
      var r := RunTicks(s, hasScreen, ticks);
      assert r.outcomes == [step.outcome] + rest.outcomes;
      if step.outcome.Wrote? {
        assert rest.state.targetSize == step.state.targetSize;
      }
      forall i | 0 <= i < |r.outcomes| && r.outcomes[i].Wrote?
        ensures Some(r.outcomes[i].size) == r.state.targetSize
      {
        if i > 0 {
          assert r.outcomes[i] == rest.outcomes[i - 1];
        }
      }
    }
  }

  /** `n` copies of `x`. */
  function Repeat<T>(x: T, n: nat): (r: seq<T>)
    ensures |r| == n
  {
    if n == 0 then [] else [x] + Repeat(x, n - 1)
  }

  /** Appending one `x` and then n - 1 more is appending n. */
  lemma AppendRepeat<T>(xs: seq<T>, x: T, n: nat)
    requires n > 0
    ensures (xs + [x]) + Repeat(x, n - 1) == xs + Repeat(x, n)
  {
  }

  /** Once the writer is open, a tick whose frame converts appends one frame
      of the session's geometry and changes nothing else. */
  lemma SteadyTick(s: State, t: TickInput)
    requires Inv(s) && s.writer.Some?
    requires Convert(t.frame, t.scaleItem).Success?
    ensures var size := s.targetSize.value;
      Tick(s, true, t) == Step(
        s.(writer := Some(s.writer.value.(frames := s.writer.value.frames + [size]))),
        Wrote(size, Convert(t.frame, t.scaleItem).value != size, false))
  {
  }

  /** Once the writer is open, every tick of a steady capture (a screen, and a
      frame that converts) appends exactly one frame of the session's
      geometry, without reopening. */
  lemma {:induction false} SteadyRun(s: State, t: TickInput, n: nat)
    requires Inv(s) && s.writer.Some?
    requires Convert(t.frame, t.scaleItem).Success?
    ensures var size := s.targetSize.value;
      var r := RunTicks(s, true, Repeat(t, n));
      && r.outcomes == Repeat(Wrote(size, Convert(t.frame, t.scaleItem).value != size, false), n)
      && r.state == s.(writer := Some(s.writer.value.(frames := s.writer.value.frames + Repeat(size, n))))
    decreases n
  {
    var size := s.targetSize.value;
    var w := s.writer.value;
    var out := Wrote(size, Convert(t.frame, t.scaleItem).value != size, false);
    var ticks := Repeat(t, n);
    if n > 0 {
      var next := SteadyFirst(s, t, n);
      SteadyRun(next, t, n - 1);
      var rest := RunTicks(next, true, Repeat(t, n - 1));
      assert rest.outcomes == Repeat(out, n - 1);
      assert Repeat(out, n) == [out] + rest.outcomes;
      AppendRepeat(w.frames, size, n);
    } else {
      assert w.frames + [] == w.frames;
    }
  }

  /** The first tick of a steady run appends one frame and leaves the rest
      of the run to start from there. */
  lemma SteadyFirst(s: State, t: TickInput, n: nat) returns (next: State)
    requires Inv(s) && s.writer.Some?
    requires Convert(t.frame, t.scaleItem).Success? && n > 0
    ensures var size := s.targetSize.value;
      && next == s.(writer := Some(s.writer.value.(frames := s.writer.value.frames + [size])))
      && Inv(next) && next.writer.Some? && next.targetSize == s.targetSize
      && var rest := RunTicks(next, true, Repeat(t, n - 1));
        RunTicks(s, true, Repeat(t, n))
        == Run(rest.state, [Wrote(size, Convert(t.frame, t.scaleItem).value != size, false)] + rest.outcomes)
  {
    SteadyTick(s, t);
    next := Tick(s, true, t).state;
    assert Repeat(t, n) == [t] + Repeat(t, n - 1);
  }

  /** The first recorded tick of a session opens the writer at the converted
      frame's size, for the session's path and the selector's frame rate, and
      writes that frame unchanged. */
  lemma FirstTick(s: State, t: TickInput)
    requires Inv(s) && s.recording && s.writer.None? && t.opens
    requires Convert(t.frame, t.scaleItem).Success?
    ensures var size := Convert(t.frame, t.scaleItem).value;
      var path := s.targetPath.value;
      Tick(s, true, t) == Step(
        s.(writer := Some(Writer(path, FourCC(path), t.fps, size, [size])), targetSize := Some(size)),
        Wrote(size, false, true))
  {
    var size := Convert(t.frame, t.scaleItem).value;
    var path := s.targetPath.value;
    var w := Writer(path, FourCC(path), t.fps, size, []);
    assert InitWriter(size, t.fps, path, true) == Success(w);
    var withWriter := s.(writer := Some(w), targetSize := Some(size));
    assert Tick(s, true, t) == WriteFrame(withWriter, size, true);
    var written := WriteFrame(withWriter, size, true);
    assert [] + [size] == [size];
    assert written.state.writer == Some(Writer(path, FourCC(path), t.fps, size, [size]));
    assert written.outcome == Wrote(size, false, true);
    assert written.state == withWriter.(writer := written.state.writer);
  }

  /** "out.mp4" is written with the "mp4v" codec. */
  lemma OutMp4Codec()
    ensures FourCC("out.mp4") == "mp4v"
  {
    var ext := "out.mp4"[3..];
    assert ext == ".mp4";
    assert Lower(ext) == ".mp4" by {
      assert Lower(ext)[0] == '.' && Lower(ext)[1] == 'm';
      assert Lower(ext)[2] == 'p' && Lower(ext)[3] == '4';
    }
    FourCCByExtension("out.mp4");
  }

  /** A full session: at 20 frames per second and scale 1/2, recording to
      "out.mp4" and capturing 40 frames of 1920x1080 opens the writer once,
      with codec "mp4v", 20 fps and geometry 960x540, writes 40 frames of
      960x540, and stopping returns the recorder to idle. */
  lemma Scenario()
    ensures var s := Start(Idle, "out.mp4", 20);
      var t := TickInput(Size(1920, 1080), "1/2", 20, true);
      var r := RunTicks(s, true, Repeat(t, 40));
      var size := Size(960, 540);
      && s.timer == Some(50)
      && r.outcomes == [Wrote(size, false, true)] + Repeat(Wrote(size, false, false), 39)
      && r.state.writer == Some(Writer("out.mp4", "mp4v", 20, size, Repeat(size, 40)))
      && Stop(r.state) == Idle
  {
    var s := Start(Idle, "out.mp4", 20);
    var t := TickInput(Size(1920, 1080), "1/2", 20, true);
    var size := Size(960, 540);
    assert Convert(t.frame, t.scaleItem) == Success(size);
    OutMp4Codec();
    FirstTick(s, t);
    var first := Tick(s, true, t);
    SteadyRun(first.state, t, 39);
    assert Repeat(t, 40) == [t] + Repeat(t, 39);
  }
}
