# Screen recorder session model

A Dafny model of the recording session of `ScreenRecorder`, the desktop
screen recorder in `capture_screen_avi.py`. The recorder grabs the screen on
a timer and shows a preview. While a session is active it converts each grab,
opens a video writer on the first recorded frame and appends every frame to
the file at the geometry that first frame fixed.

Only the session logic is modelled. A frame is its `Size` (width, height),
and the pixels are not modelled. The screen grab, the pixel conversion and
the encoder become inputs:

- whether a primary screen exists;
- the grabbed frame's size;
- the scale selector's item and the frame-rate selector's value;
- what the file chooser returned;
- whether the video library manages to open the file.

The video file is an object whose ghost `frames` record, in order, the size
of every frame written to it.

Files:

- `wrappers.dfy`: `Option` (Python's `None`) and `Result` (a value or a
  raised exception).
- `media.dfy` (module `Media`): the scale-factor table, the truncating
  downscale, the frame conversion and its failures, and the timer period.
- `encoder.dfy` (module `Encoder`): the file-name suffix as `pathlib`
  computes it, the codec choice by extension, the writer value and its
  opening. `FourCCByExtension` states the codec rule without the
  last-separator and last-dot scans: the codec is "mp4v" exactly when the
  path ends in ".mp4" (any letter case) after a non-empty file name.
- `session.dfy` (module `Session`): the session fields as a value, with
  `Start`, `Stop`, `ReleaseWriter`, `Close` and `Tick` as functions and
  the invariant `Inv` they keep. `RunTicks` runs a sequence of ticks, and
  lemmas cover any such run. `Scenario` proves a whole session: 20 fps,
  scale 1/2, "out.mp4", 40 grabs of 1920x1080.
- `recorder.dfy` (module `Recorder`): the classes `VideoWriter` and
  `ScreenRecorder`. Their methods update the fields in place, as the source
  does. The constructor, `StartRecording`, `StopRecording`, `CloseEvent`,
  `OnTick` and the tick's steps `RecordFrame`, `OpenWriter` and
  `WriteFrame` keep `Valid()`, and each states its whole new state as a
  `Session.State` (for the public methods, the transition of the matching
  `Session` function). `ReleaseWriter` makes the
  `Session.ReleaseWriter` transition from any state and neither requires
  nor ensures `Valid()`. `InitWriter` only builds a writer and touches no
  field of the recorder.

Session invariant (`Session.Inv`):

- An idle recorder has no timer, no writer, no path and no geometry.
- A recording recorder has an armed timer and a path.
- The writer exists exactly when the geometry is fixed.
- A writer was opened for the session's path, with its extension's codec.
- Every frame in the writer's file has the session's geometry.

Notes on what the source does:

- Ticks happen only during a session. The timer is armed only by start and
  disarmed by stop, so the preview is not refreshed while idle. `Tick` still
  defines the idle case, which does nothing.
- A writer that fails to open does not end the session by itself. The tick
  raises and changes none of the recorder's fields. The exception escapes
  the timer slot, and no exception hook is installed
  (capture_screen_avi.py:127-128, 218-222), so under PyQt5 5.5 or later the
  application aborts there.
- The file's frame rate is the selector's value at the first recorded tick.
  The timer period is computed from its value at start.

## Model

| member | source | states |
|---|---|---|
| `Media.ScaleFactor` | capture_screen_avi.py:119-121 | an item has a factor exactly when it is one of the selector's four items; item i scales by 1/(i+1); any other item finds no factor (KeyError) |
| `Media.Shrink` | capture_screen_avi.py:196-198 | the scaled dimension is the largest whole number r with r·d ≤ dim, i.e. truncation of dim/d |
| `Media.Convert` | capture_screen_avi.py:191-202 | an unknown item raises UnknownScale, and a known item that fails raises EmptyFrame; for item i the converted frame is (⌊W/(i+1)⌋, ⌊H/(i+1)⌋), and conversion succeeds exactly when both are non-zero; a converted frame is never larger than the grab |
| `Media.IntervalMs` | capture_screen_avi.py:138-139 | the period is the largest whole number of milliseconds that fits max(1, fps) times into 1000 |
| `Media.IntervalBounds` | capture_screen_avi.py:73-74 | over the selector's range 1..60 the period lies between 16 and 1000 ms |
| `Encoder.LastIndex` | capture_screen_avi.py:125 | the result is -1 or a position holding the character, and no later position holds it |
| `Encoder.FileName` | capture_screen_avi.py:125 | the file name is the tail of the path, contains no separator, and is either the whole path or preceded by a separator |
| `Encoder.Suffix` | capture_screen_avi.py:125 | the extension is empty or a tail of the name, shorter than it, made of a dot and at least one character, with no further dot; it is non-empty exactly when the name has a dot that is neither its first nor its last character and no dot after it |
| `Encoder.FourCC` | capture_screen_avi.py:125 | the codec tag is "mp4v" or "XVID" |
| `Encoder.FourCCByExtension` | capture_screen_avi.py:125 | the tag is "mp4v" exactly when the path ends in ".mp4", in any letter case, after a non-empty file name |
| `Encoder.InitWriter` | capture_screen_avi.py:123-129 | opening fails with CannotOpen exactly when the library cannot open the file; on success the writer is empty and has the path, frame rate and frame size asked for, and its codec is "mp4v" for ".mp4" paths and "XVID" otherwise |
| `Session.ChooseTarget` | capture_screen_avi.py:113-117 | a cancelled (empty) choice gives no path; any other choice is the path |
| `Session.Start` | capture_screen_avi.py:131-144 | keeps the invariant; while recording nothing changes; from idle, a cancelled choice leaves the state unchanged with the timer not armed; otherwise recording starts with the timer at IntervalMs(fps), the chosen path, and no writer or geometry yet |
| `Session.ReleaseWriter` | capture_screen_avi.py:161-167 | afterwards there is no writer and every other field is as before |
| `Session.ReleaseTwice` | capture_screen_avi.py:161-167 | releasing twice is the same as releasing once |
| `Session.Stop` | capture_screen_avi.py:146-155 | when idle nothing changes; when recording every session field is reset (timer stopped, no writer, no path, no geometry); from any valid state the result is the idle state |
| `Session.StopTwice` | capture_screen_avi.py:146-155 | stopping twice is the same as stopping once |
| `Session.Close` | capture_screen_avi.py:157-159 | closing the window leaves a valid recorder idle, with no writer |
| `Session.WriteFrame` | capture_screen_avi.py:211-215 | the frame written has the session's geometry, whatever the converted size (resized exactly when that differs); the file gains exactly that frame and keeps its path, codec, rate and size |
| `Session.Record` | capture_screen_avi.py:204-215 | with a writer, always writes without reopening; without one, writes exactly when the library opens the file, which fixes the geometry to this frame and the rate to the selector's; a failed open raises CannotOpen and changes nothing; only the writer and the geometry ever change |
| `Session.Tick` | capture_screen_avi.py:169-215 | keeps the invariant; without a screen or while idle writes nothing and changes nothing; a frame that fails to convert raises that conversion's error and changes nothing; with a writer open, a frame that converts is always written; without one, a frame that converts when the library cannot open the file raises CannotOpen and changes nothing; a written frame has the session's geometry and is appended to the file; a writer is opened only when none exists, exactly when the library opens the file, and an open writer stays the same file; only the writer and the geometry ever change |
| `Session.RunTicks` | capture_screen_avi.py:98-99 | any sequence of ticks keeps the invariant and reports one outcome per tick |
| `Session.RunFrames` | capture_screen_avi.py:204-215 | over a sequence of ticks the file receives exactly the frames the ticks report written, in order |
| `Session.RunOpensOnce` | capture_screen_avi.py:204-209 | within a session the writer is opened at most once, never while one is open, and an open writer stays the same file |
| `Session.RunKeepsGeometry` | capture_screen_avi.py:211-215 | every frame written within a session has the geometry the session ends with |
| `Session.FirstTick` | capture_screen_avi.py:204-209 | the first recorded tick opens the writer for the session's path and codec at the converted frame's size and the selector's rate, and writes that frame unresized |
| `Session.SteadyRun` | capture_screen_avi.py:211-215 | once the writer is open, n steady ticks append n frames of the session's geometry and open nothing |
| `Session.Scenario` | capture_screen_avi.py:131-215 | 20 fps, scale 1/2, "out.mp4", 40 grabs of 1920x1080: the timer is armed at 50 ms; the writer opens once, on the first tick, with "mp4v", 20 fps and 960x540; 40 frames of 960x540 are written; stopping returns to idle |
| `Recorder.VideoWriter.Open` | capture_screen_avi.py:126 | a new writer is open, empty, with the path, codec, rate and size given |
| `Recorder.VideoWriter.Write` | capture_screen_avi.py:215 | only a frame of the size the writer was opened with may be written, and the file gains exactly that frame |
| `Recorder.VideoWriter.Release` | capture_screen_avi.py:164 | the writer is closed and the file keeps what was written |
| `Recorder.ScreenRecorder.constructor` | capture_screen_avi.py:98-107 | a new recorder is valid and idle |
| `Recorder.ScreenRecorder.InitWriter` | capture_screen_avi.py:123-129 | returns a fresh open writer exactly when the library opens the file, empty, with the path, rate and size given and codec "mp4v" for ".mp4" paths and "XVID" otherwise |
| `Recorder.ScreenRecorder.StartRecording` | capture_screen_avi.py:131-144 | keeps the object valid and makes the `Session.Start` transition; the writer is untouched |
| `Recorder.ScreenRecorder.ReleaseWriter` | capture_screen_avi.py:161-167 | makes the `Session.ReleaseWriter` transition; a writer that was held is closed with its file intact |
| `Recorder.ScreenRecorder.StopRecording` | capture_screen_avi.py:146-155 | keeps the object valid and makes the `Session.Stop` transition; a writer that was held is closed |
| `Recorder.ScreenRecorder.CloseEvent` | capture_screen_avi.py:157-159 | runs the stop sequence: the recorder ends idle and a writer that was held is closed |
| `Recorder.ScreenRecorder.OnTick` | capture_screen_avi.py:169-215 | keeps the object valid and makes the `Session.Tick` transition with the same outcome; an existing writer is never replaced, and a new one is fresh |
| `Recorder.ScreenRecorder.RecordFrame` | capture_screen_avi.py:204-215 | makes the `Session.Record` transition; an existing writer is never replaced |
| `Recorder.ScreenRecorder.OpenWriter` | capture_screen_avi.py:204-209 | opens a fresh writer for the session's path, codec and the frame's size and fixes the geometry, or changes nothing when the library cannot open the file |
| `Recorder.ScreenRecorder.WriteFrame` | capture_screen_avi.py:211-215 | makes the `Session.WriteFrame` transition: one frame at the session's geometry is appended |

## Left out

- Widget construction, layout, labels and button enabling
  (capture_screen_avi.py:58-95, 141-142, 150-151). These are UI with no
  session logic.
- The file dialog and its default name (capture_screen_avi.py:113-116). The
  chooser's answer is an input string, and "" means cancelled.
- The screen grab, device-pixel-ratio handling and preview scaling
  (capture_screen_avi.py:173-185). These are calls into the GUI toolkit and
  only affect what is shown.
- Pixel contents and the conversions `qimage_from_pixmap`, `qimage_to_numpy`,
  `cvtColor` and `resize` (capture_screen_avi.py:40-54, 191-213). These are
  foreign library calls. A frame is its size. A converted frame with a zero
  dimension raises `EmptyFrame`, as the image library refuses one.
- `last_frame_time` (capture_screen_avi.py:102, 144). It is written and
  never read.
- Real-time timer scheduling and overrun. These belong to the GUI event
  loop. A session is a sequence of ticks.
- Media.Shrink: models `int(dim * s)` for s in {1, 1/2, 1/3, 1/4} as the
  integer division dim / d. For 1/2 and 1/4 the floating-point product is
  exact. For 1/3, `dim * (1/3)` rounded to nearest with ties to even gives
  exactly dim/3 when dim is a multiple of 3 below 2^53, and stays below
  the next whole number otherwise. When dim/3 is a power of two the error
  of the exact product is exactly half the spacing below it, and only the
  tie-to-even rule rounds it up to dim/3. So the truncation agrees for
  every screen dimension. That argument is not proved in Dafny.
- Media.IntervalMs: models `int(1000 / max(1, fps))` as integer division.
  This agrees with the floating-point quotient, because a quotient that is
  not whole is at least 1/fps away from a whole number.
- Encoder.Suffix: follows `pathlib`'s rule on POSIX paths as given. It does
  not normalise trailing separators, repeated separators or "."
  components, and it ignores Windows separators. The writer's path is the
  chooser's string as returned, while the source opens `str(Path(choice))`,
  its normalised form (so "dir//x.mp4" is opened as "dir/x.mp4").
- Encoder.FourCC: lower-cases ASCII letters only. Python lower-cases all of
  Unicode, but no non-ASCII character lowers to '.', 'm', 'p' or '4'.
- Recorder.VideoWriter.Write: requires a frame of the writer's own size.
  The video library skips a frame of any other size without an error; the
  model makes that size a proof obligation at the call instead, which the
  recorder meets because every frame is forced to the session's geometry.
- Recorder.VideoWriter.Release: never raises. The source swallows a failing
  release and drops the writer either way, so the recorder's resulting
  state is the same.
- Recorder.ScreenRecorder.InitWriter: does not build the writer object that
  failed to open. The source discards that object without using it.
- The raised exceptions (`KeyError`, the writer's `RuntimeError`, the image
  library's errors) are outcomes of the tick, not exceptions propagating to
  the event loop. The tick changes nothing in every such case, as in the
  source.
- Session.RunTicks: a run goes on past a `Raised` outcome. Under the default
  PyQt5 runtime the exception escaping `_on_tick` aborts the application, so
  the ticks after it are a continuation the source never reaches unless an
  exception hook is installed. The lemmas about runs hold for every prefix
  that ends at the first `Raised` outcome as well.
- main.py: it only loads a UI description into a window and has no session
  logic.
