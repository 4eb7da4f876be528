# FaceDataRecorder record-mode capture, modelled in Dafny

FaceDataRecorder is an iOS app. It samples ARKit face tracking on a timer and
records each sampled frame's mesh vertices, transforms, blend shapes and texture
coordinates. It writes one JPEG per sampled frame on a background queue and, when
capture stops, one text file `faceData.txt` with one line per record.

This project models the record-mode controller in `ViewController` and the two
pure helpers it uses:

- `file_names.dfy`, module `FileNames`: the image file name `String(format: "%04d", num) + ".jpg"`,
  a reader for the digits, and the proof that a name reads back as its frame number.
- `geometry.dfy`, module `Geometry`: ARKit's frame, anchor and camera as datatypes, the
  texture-coordinate map of `getFrameData` and `getFrameData` itself. The camera's
  `projectPoint` is a function field of `Camera` that the model leaves uninterpreted.
- `data_file.dfy`, module `DataFile`: joining the records' renderings with `"\n"`, a
  line splitter, and the round trip between them.
- `capture.dfy`, module `Capture`: the controller state as a value (`Recorder`), one
  function per operation (`Initial`, `WithFps`, `WithCapturing`, `Started`,
  `Recorded`, `Finished`, `Stopped`), the invariant `Inv`, lemmas about them, and the
  class `ViewController`. Its fields are the source's properties and its methods are
  proved to follow those functions.
- `wrappers.dfy`, module `Wrappers`: `Option`, for Swift's `T?`.

The asynchronous image writes are counted in the field `pending`. It holds the
frame numbers of the writes that have entered `dispatchGroup` and not yet left it,
so `|pending|` is the group's count. `RecordData` adds the write, `FinishWrite`
removes it as the background queue finishes it, and `StopCapture` finishes every
remaining write before it returns, as `dispatchGroup.wait()` does. Three ghost logs
support the proofs:

- `issued`: the numbers handed out this session;
- `completed`: the writes that have left the group;
- `saved`: the writes that produced a file.

The invariant `Inv` ties these together:

- the counter equals the buffer length;
- the issued numbers are 0..n-1;
- pending plus completed is exactly the multiset of issued numbers;
- the setting lies in [1, 60];
- the settings control is enabled exactly when not capturing;
- nothing is pending while idle.

`getFrameData` returns nil only when the first anchor is not an `ARFaceAnchor`.
It indexes `anchors[0]` unguarded, so an empty anchor list traps
(ViewController.swift:188). The model's frames have at least one anchor
(`Capture.Sampleable`).

## Model

| member | source | states |
|---|---|---|
| `Capture.ClampFps` | FaceDataRecorder/ViewController.swift:42-47 | the observed `fps` always lands in [1, 60]; a value in range is kept, one below becomes 1, one above becomes 60 |
| `Capture.WithFpsValid` | FaceDataRecorder/ViewController.swift:42-47 | assigning `fps` keeps the controller invariant, and the stored value equals the assigned one exactly when that lies in [1, 60] |
| `Capture.InitialValid` | FaceDataRecorder/ViewController.swift:61-64 | after startup the invariant holds and the controller is idle with the settings control enabled; a stored nonzero setting in range is used as is, and a stored zero leaves the default 24 |
| `Capture.WithCapturingEnables` | FaceDataRecorder/ViewController.swift:28-32 | after any assignment to `isCapturing` the settings control is enabled exactly when not capturing, and the buffer and the pending writes are untouched |
| `Capture.StartedValid` | FaceDataRecorder/ViewController.swift:137-152 | starting from idle empties the buffer, resets the counter to 0, sets capturing, disables the settings control, keeps the setting, and re-establishes the invariant |
| `Capture.RecordedValid` | FaceDataRecorder/ViewController.swift:167-184 | a tick keeps the invariant; a frame without a face leaves the state identical; a frame with one appends exactly its record, queues one write numbered with the pre-increment counter (a number not issued before), and increments the counter by 1 |
| `Capture.FinishedValid` | FaceDataRecorder/ViewController.swift:175-180 | a finishing write leaves the group: the outstanding count drops by one, the invariant holds, and a successful write adds its frame to the saved images |
| `Capture.OutstandingIsEntersMinusLeaves` | FaceDataRecorder/ViewController.swift:174-179 | the outstanding count is the number of `enter` calls minus the number of `leave` calls |
| `Capture.IssuedIsRange` | FaceDataRecorder/ViewController.swift:172-183 | the image numbers handed out in a session are exactly 0, 1, ..., n-1 for n records |
| `Capture.TicksNumberConsecutively` | FaceDataRecorder/ViewController.swift:167-184 | any run of ticks appends exactly the frames' records in order, advances the counter by their number, and queues one write for each of the next consecutive numbers |
| `Capture.StoppedAccountsForAll` | FaceDataRecorder/ViewController.swift:154-165 | after stop capturing is off and the settings control is on; no write is outstanding, and every write queued in the session left the group exactly once, also when none was queued; every saved image belongs to a recorded frame; the buffer and counter are kept |
| `Capture.SessionOfFaceFrames` | FaceDataRecorder/ViewController.swift:137-184 | start, n ticks that all see a face, then stop: n records; the data file has n lines; writes 0..n-1 all accounted for, none outstanding; with no write failure this session's writes saved exactly images 0..n-1 |
| `Capture.SavedImagesAreDistinctFiles` | FaceDataRecorder/ViewController.swift:172-177 | the images a session has saved are as many distinct files as saved frame numbers, each the number of a recorded frame |
| `Capture.ViewController.constructor` | FaceDataRecorder/ViewController.swift:58-64 | the object starts in the state `Initial(lastFps)`, which satisfies the invariant |
| `Capture.ViewController.SetFps` | FaceDataRecorder/ViewController.swift:42-47 | assigning `fps` stores the clamped value, changes nothing else and keeps the invariant |
| `Capture.ViewController.SetCapturing` | FaceDataRecorder/ViewController.swift:28-32 | assigning `isCapturing` also sets the settings control to its negation and changes nothing else |
| `Capture.ViewController.StartCapture` | FaceDataRecorder/ViewController.swift:137-152 | the new state is `Started` of the old one and the invariant holds |
| `Capture.ViewController.RecordData` | FaceDataRecorder/ViewController.swift:167-184 | the new state is `Recorded` of the old one for the sampled frame and the invariant holds |
| `Capture.ViewController.FinishWrite` | FaceDataRecorder/ViewController.swift:175-180 | the new state is `Finished` of the old one; consistency is kept and so is the invariant |
| `Capture.ViewController.StopCapture` | FaceDataRecorder/ViewController.swift:154-165 | returns only with no write outstanding, in the state `Stopped` of the old one, and returns the data file's text: the records' renderings joined by newlines |
| `FileNames.ImageNameShape` | FaceDataRecorder/ViewController.swift:177 | an image name is at least four decimal digits followed by ".jpg"; the digits read back as the frame number; there are exactly four of them when the number is below 10000, and from 10000 on they are the plain numeral without padding |
| `FileNames.ImageNameExamples` | FaceDataRecorder/ViewController.swift:177 | frame 7 is named "0007.jpg" and frame 12345 "12345.jpg" |
| `FileNames.ImageNameInjective` | FaceDataRecorder/ViewController.swift:177 | equal image names come from equal frame numbers |
| `FileNames.ImageNamesCount` | FaceDataRecorder/ViewController.swift:177 | a set of frame numbers names exactly as many image files as it has members |
| `FileNames.DecimalReadsBack` | FaceDataRecorder/ViewController.swift:177 | the decimal numeral that `%d` prints reads back as its number |
| `FileNames.DecimalLength` | FaceDataRecorder/ViewController.swift:177 | a numeral has at most k digits exactly when the number is below 10^k |
| `Geometry.TextureCoordinates` | FaceDataRecorder/ViewController.swift:195-207 | one texture coordinate per vertex, the i-th being that of the i-th vertex |
| `Geometry.UvSwapsAxes` | FaceDataRecorder/ViewController.swift:199-206 | u times the image width is the projected y and v times the image height is the projected x, where the projection uses the viewport (height, width) |
| `Geometry.UvInUnitSquareIff` | FaceDataRecorder/ViewController.swift:199-206 | a texture coordinate lies in the unit square exactly when its vertex projects inside the swapped viewport; nothing is clamped |
| `Geometry.TextureCoordinatesAppend` | FaceDataRecorder/ViewController.swift:195 | the map neither reorders nor drops vertices: it distributes over concatenation |
| `Geometry.GetFrameData` | FaceDataRecorder/ViewController.swift:186-209 | no record exactly when the first anchor is not a face anchor; otherwise the record carries the face's vertices, transform and blend shapes, the camera transform, and one texture coordinate per vertex |
| `DataFile.SplitJoin` | FaceDataRecorder/ViewController.swift:160 | lines without newlines, joined with "\n" and cut at newlines again, come back unchanged |
| `DataFile.FaceDataLines` | FaceDataRecorder/ViewController.swift:159-161 | n records give a file of n lines, the k-th being the k-th record's rendering, provided no rendering holds a newline; no records give an empty file |

## Left out

- ARKit session handling is not modelled: `initTracking`, `session.run`/`pause` and the delegate callbacks (ViewController.swift:77-105, 130-135) call into a framework that is not visible. The stop forced by the error handler and by `viewWillDisappear` is `StopCapture`.
- `camera.projectPoint` is a function field of `Camera` and stays uninterpreted. The model transform `simd_mul(modelMatrix, (x, y, z, 1))` is computed in exact real arithmetic, so single-precision rounding, infinities and NaN are not modelled.
- Capture.ClampFps: the setting is an exact `real`, so NaN is not modelled. A NaN parsed from the settings text or loaded from storage passes Swift's `min(max(x, 1.0), 60.0)` unchanged, so the source's value is then outside [1, 60].
- Geometry.UvOf: requires a positive image resolution, because the model's real division needs a nonzero divisor; the source's float division by zero would give infinity or NaN instead.
- File I/O is not modelled: directory creation, `String.write` and JPEG encoding. Whether an image write produced a file is the parameter `ok`. `StopCapture` returns the text it would write instead of writing it.
- Threading is reduced to counting: `DispatchQueue`, `DispatchGroup` and `autoreleasepool`. Writes finish one at a time through `FinishWrite`, in any order, and `StopCapture` finishes all remaining ones, which stands for `dispatchGroup.wait()`.
- The repeating timer at `1/fps` is not modelled. Each firing is an explicit `RecordData` call, allowed only while capturing, because the timer exists exactly then.
- The UI is out of scope: buttons, the info label, `refreshInfo`, `captureMode`, the settings alert and the status bar. The settings button's enabled state is the field `settingEnabled`. Its value before the first assignment to `isCapturing` (the storyboard's) is taken to be enabled.
- `UserDefaults` persistence is not modelled. The stored setting read at startup is the constructor's parameter `lastFps`.
- The parse of the settings text `Double(...)!` is not modelled. `SetFps` receives the parsed value.
- `folderName` depends on the clock and a date formatter, so the folder path is not modelled. The source does not guarantee a fresh folder: the name `MMdd_HHmmss` has one-second resolution and no year, and `createDirectory` under `try?` reuses an existing folder. The ghost set `saved` holds only the images written in the current session, so files left in a reused folder by an earlier session are not modelled.
- `CaptureData` and its `str` renderer are not part of this model. The renderer is a parameter `render`.
- Crash paths are preconditions:
  - `anchors[0]` on an empty anchor list (`Sampleable`);
  - `stopCapture` before any `startCapture`, when `fpsTimer`, `folderPath` and `captureData` are still nil (`sessionOpen`);
  - `session.currentFrame!`, which the model avoids by taking the frame as a parameter.
- The counter is an unbounded `nat`. Swift's 64-bit `Int` overflow trap is not modelled, and neither is any width limit of `%d`.
- Each tick's record and image are assumed to come from one frame. The source reads `session.currentFrame` twice within one tick.
