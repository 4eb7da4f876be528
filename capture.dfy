/**
 * The record-mode capture controller of `ViewController`
 * (FaceDataRecorder/ViewController.swift:28-50, 137-184): the `fps` and
 * `isCapturing` observers, `startCapture`, one timer tick `recordData`, and
 * `stopCapture` with its wait for the outstanding image writes.
 *
 * `Recorder` is the controller's state as a value and the functions over it say
 * what each operation does; the class `ViewController` below holds the same state
 * in fields and its methods are proved to follow those functions.
 */
module Capture {
  import opened Wrappers
  import opened Geometry
  import FileNames
  import DataFile

  const MinFps: real := 1.0
  const MaxFps: real := 60.0
  /** The initial value of the `fps` property. */
  const DefaultFps: real := 24.0

  function Min(a: real, b: real): real { if a <= b then a else b }
  function Max(a: real, b: real): real { if a >= b then a else b }

  /** The `fps` observer: `min(max(fps, 1.0), 60.0)`. */
  function ClampFps(x: real): (r: real)
    ensures MinFps <= r <= MaxFps
    ensures MinFps <= x <= MaxFps ==> r == x
    ensures x < MinFps ==> r == MinFps
    ensures x > MaxFps ==> r == MaxFps
  {
    Min(Max(x, MinFps), MaxFps)
  }

  /**
   * The controller's state. `pending` holds the frame numbers of the image writes
   * queued and not yet finished, so `|pending|` is the count `dispatchGroup`
   * keeps. `issued` (the numbers handed to writes in this session, in order),
   * `completed` (writes that left the group) and `saved` (writes whose JPEG file
   * was produced) are logs for the proofs. `sessionOpen` is false until the first
   * `startCapture` sets `captureData`, `folderPath` and `fpsTimer`.
   */
  datatype Recorder = Recorder(
    isCapturing: bool,
    settingEnabled: bool,
    fps: real,
    sessionOpen: bool,
    captureData: seq<CaptureData>,
    currentCaptureFrame: nat,
    pending: multiset<nat>,
    issued: seq<nat>,
    completed: multiset<nat>,
    saved: set<nat>)

  /** What the controller keeps true at every point, also while `stopCapture` waits. */
  ghost predicate Consistent(s: Recorder)
  {
    && MinFps <= s.fps <= MaxFps
    && s.settingEnabled == !s.isCapturing
    && (s.isCapturing ==> s.sessionOpen)
    && s.currentCaptureFrame == |s.captureData| == |s.issued|
    && (forall i :: 0 <= i < |s.issued| ==> s.issued[i] == i)
    && s.pending + s.completed == multiset(s.issued)
    && (forall k :: k in s.saved ==> k in s.completed)
  }

  /** Between operations: consistent, and no write is outstanding while idle. */
  ghost predicate Inv(s: Recorder)
  {
    Consistent(s) && (!s.isCapturing ==> s.pending == multiset{})
  }

  /** The frames the source can sample without trapping: `anchors[0]` exists; the division needs a nonzero resolution. */
  predicate Sampleable(frame: Frame)
  {
    |frame.anchors| > 0 && PositiveSize(frame.camera.imageResolution)
  }

  /** The state after the property initialisers and `viewDidLoad`, given the stored setting. */
  function Initial(lastFps: real): Recorder
  {
    var fps := if lastFps != 0.0 then ClampFps(lastFps) else DefaultFps;
    Recorder(false, true, fps, false, [], 0, multiset{}, [], multiset{}, {})
  }

  /** Assigning `fps`, with its observer. */
  function WithFps(s: Recorder, x: real): Recorder
  {
    s.(fps := ClampFps(x))
  }

  /** Assigning `isCapturing`, with its observer. */
  function WithCapturing(s: Recorder, b: bool): Recorder
  {
    s.(isCapturing := b, settingEnabled := !b)
  }

  /** `startCapture`. */
  function Started(s: Recorder): Recorder
  {
    WithCapturing(
      s.(captureData := [], currentCaptureFrame := 0, sessionOpen := true,
         issued := [], completed := multiset{}, saved := {}),
      true)
  }

  /** `recordData`: one timer tick sampling `frame`. */
  function Recorded(s: Recorder, frame: Frame): Recorder
    requires Sampleable(frame)
  {
    match GetFrameData(frame)
    case None => s
    case Some(data) =>
      var num := s.currentCaptureFrame;
      s.(captureData := s.captureData + [data],
         pending := s.pending + multiset{num},
         issued := s.issued + [num],
         currentCaptureFrame := num + 1)
  }

  /** The background write of image `num` finishes (`dispatchGroup.leave()`); `ok` says whether a file came out. */
  function Finished(s: Recorder, num: nat, ok: bool): Recorder
    requires num in s.pending
  {
    s.(pending := s.pending - multiset{num},
       completed := s.completed + multiset{num},
       saved := if ok then s.saved + {num} else s.saved)
  }

  /** `stopCapture`, once `dispatchGroup.wait()` has returned; `ok` says which writes produced a file. */
  function Stopped(s: Recorder, ok: nat -> bool): Recorder
  {
    var t := WithCapturing(s, false);
    t.(pending := multiset{},
       completed := t.completed + t.pending,
       saved := t.saved + set k | k in t.pending && ok(k))
  }

  /** Successive ticks. */
  function RunTicks(s: Recorder, frames: seq<Frame>): Recorder
    requires forall k :: 0 <= k < |frames| ==> Sampleable(frames[k])
    decreases |frames|
  {
    if frames == [] then s else RunTicks(Recorded(s, frames[0]), frames[1..])
  }

  /** The records that the given frames yield, in order: one per frame whose first anchor is a face. */
  function Samples(frames: seq<Frame>): (r: seq<CaptureData>)
    requires forall k :: 0 <= k < |frames| ==> Sampleable(frames[k])
    ensures |r| <= |frames|
  {
    if frames == [] then []
    else
      assert Sampleable(frames[0]);
      match GetFrameData(frames[0])
      case None => Samples(frames[1..])
      case Some(data) => [data] + Samples(frames[1..])
  }

  function Range(lo: nat, hi: nat): (r: seq<nat>)
    requires lo <= hi
    ensures |r| == hi - lo && forall i :: 0 <= i < |r| ==> r[i] == lo + i
  {
    seq(hi - lo, i requires 0 <= i < hi - lo => lo + i)
  }

  // ---------------------------------------------------------------------------
  // Properties of the operations

  /**
   * The setting loaded at startup lies in [1, 60]: a nonzero stored value goes
   * through the observer and is kept when already in range; zero leaves 24.
   */
  lemma InitialValid(lastFps: real)
    ensures Inv(Initial(lastFps))
    ensures !Initial(lastFps).isCapturing && Initial(lastFps).settingEnabled
    ensures MinFps <= lastFps <= MaxFps ==> Initial(lastFps).fps == lastFps
    ensures lastFps == 0.0 ==> Initial(lastFps).fps == DefaultFps
  {
  }

  /** Assigning `fps` keeps the invariant; a value in range is stored unchanged, any other is clamped. */
  lemma WithFpsValid(s: Recorder, x: real)
    requires Inv(s)
    ensures Inv(WithFps(s, x))
    ensures MinFps <= WithFps(s, x).fps <= MaxFps
    ensures MinFps <= x <= MaxFps <==> WithFps(s, x).fps == x
  {
  }

  /** After any assignment to `isCapturing` the settings control is enabled exactly when not capturing. */
  lemma WithCapturingEnables(s: Recorder, b: bool)
    ensures WithCapturing(s, b).isCapturing == b
    ensures WithCapturing(s, b).settingEnabled <==> !b
    ensures WithCapturing(s, b).captureData == s.captureData
    ensures WithCapturing(s, b).pending == s.pending
  {
  }

  /** `startCapture` empties the buffer, resets the counter and starts capturing, keeping the invariant. */
  lemma StartedValid(s: Recorder)
    requires Inv(s) && !s.isCapturing
    ensures var t := Started(s);
      && Inv(t)
      && t.captureData == [] && t.currentCaptureFrame == 0
      && t.isCapturing && !t.settingEnabled && t.sessionOpen
      && t.fps == s.fps && t.pending == multiset{}
  {
  }

  /**
   * A tick keeps the invariant. Without face data nothing changes; with it
   * exactly one record is appended, one write is queued under the counter's
   * value before the increment, and the counter moves by one.
   */
  lemma RecordedValid(s: Recorder, frame: Frame)
    requires Inv(s) && s.isCapturing && Sampleable(frame)
    ensures var t := Recorded(s, frame);
      && Inv(t) && t.isCapturing
      && (!frame.anchors[0].FaceAnchor? ==> t == s)
      && (frame.anchors[0].FaceAnchor? ==>
            && t.captureData == s.captureData + [GetFrameData(frame).value]
            && t.currentCaptureFrame == s.currentCaptureFrame + 1
            && t.pending == s.pending + multiset{s.currentCaptureFrame}
            && t.issued == s.issued + [s.currentCaptureFrame]
            && s.currentCaptureFrame !in s.issued)
  {
  }

  /** A finished write leaves the group: the invariant holds and the outstanding count drops by one. */
  lemma FinishedValid(s: Recorder, num: nat, ok: bool)
    requires Consistent(s) && num in s.pending
    ensures var t := Finished(s, num, ok);
      && Consistent(t)
      && (Inv(s) ==> Inv(t))
      && |t.pending| == |s.pending| - 1
      && (ok ==> num in t.saved)
      && (!ok ==> t.saved == s.saved)
  {
  }

  /** Every write ever queued has entered the group once and either left it or is still pending. */
  lemma OutstandingIsEntersMinusLeaves(s: Recorder)
    requires Consistent(s)
    ensures |s.pending| == |s.issued| - |s.completed|
  {
    assert |s.pending + s.completed| == |multiset(s.issued)|;
  }

  /**
   * `stopCapture` returns with capturing off, the settings control enabled and
   * no write outstanding: every write queued in the session has been accounted
   * for exactly once, and every image produced belongs to a recorded frame.
   * The buffer and the counter are left as they were.
   */
  lemma StoppedAccountsForAll(s: Recorder, ok: nat -> bool)
    requires Consistent(s)
    ensures var t := Stopped(s, ok);
      && Inv(t)
      && !t.isCapturing && t.settingEnabled
      && t.pending == multiset{}
      && t.completed == multiset(t.issued)
      && |t.completed| == t.currentCaptureFrame
      && t.captureData == s.captureData && t.currentCaptureFrame == s.currentCaptureFrame
      && (forall k :: k in t.saved ==> k < t.currentCaptureFrame)
  {
    var t := Stopped(s, ok);
    forall k | k in t.saved ensures k < t.currentCaptureFrame {
      assert k in multiset(t.issued);
      var i :| 0 <= i < |t.issued| && t.issued[i] == k;
    }
  }

  /** The numbers issued in a session are always 0, 1, ..., n - 1 for n records. */
  lemma IssuedIsRange(s: Recorder)
    requires Consistent(s)
    ensures s.issued == Range(0, s.currentCaptureFrame)
  {
  }

  lemma RangeSplit(lo: nat, mid: nat, hi: nat)
    requires lo <= mid <= hi
    ensures Range(lo, hi) == Range(lo, mid) + Range(mid, hi)
  {
  }

  /**
   * Ticks while capturing append exactly the frames' records, in order, and
   * queue one write for each of the next image numbers, consecutively.
   */
  lemma {:induction false} TicksNumberConsecutively(s: Recorder, frames: seq<Frame>)
    requires Inv(s) && s.isCapturing
    requires forall k :: 0 <= k < |frames| ==> Sampleable(frames[k])
    decreases |frames|
    ensures var t := RunTicks(s, frames);
      && Inv(t) && t.isCapturing
      && t.captureData == s.captureData + Samples(frames)
      && t.currentCaptureFrame == s.currentCaptureFrame + |Samples(frames)|
      && t.pending == s.pending + multiset(Range(s.currentCaptureFrame, t.currentCaptureFrame))
      && t.completed == s.completed && t.fps == s.fps
  {
    if frames == [] {
      assert Range(s.currentCaptureFrame, s.currentCaptureFrame) == [];
    } else {
      var s1 := Recorded(s, frames[0]);
      RecordedValid(s, frames[0]);
      TicksNumberConsecutively(s1, frames[1..]);
      var t := RunTicks(s1, frames[1..]);
      assert t == RunTicks(s, frames);
      var lo, mid, hi := s.currentCaptureFrame, s1.currentCaptureFrame, t.currentCaptureFrame;
      RangeSplit(lo, mid, hi);
      if frames[0].anchors[0].FaceAnchor? {
        assert Range(lo, mid) == [lo];
        assert Samples(frames) == [GetFrameData(frames[0]).value] + Samples(frames[1..]);
        assert t.captureData == s.captureData + Samples(frames);
      } else {
        assert Range(lo, mid) == [];
        assert Samples(frames) == Samples(frames[1..]);
      }
    }
  }

  /**
   * A whole session: start, n ticks that all see a face, stop. The buffer holds
   * n records, the file has n lines when no rendering holds a newline, the
   * image numbers 0 .. n-1 have all been written or have failed, nothing is
   * outstanding, and with no failures the images are exactly those of 0 .. n-1.
   */
  lemma SessionOfFaceFrames(s: Recorder, frames: seq<Frame>, ok: nat -> bool, render: CaptureData -> string)
    requires Inv(s) && !s.isCapturing
    requires forall k :: 0 <= k < |frames| ==> Sampleable(frames[k]) && frames[k].anchors[0].FaceAnchor?
    requires forall d :: DataFile.IsLine(render(d))
    ensures var t := Stopped(RunTicks(Started(s), frames), ok);
      && |t.captureData| == t.currentCaptureFrame == |frames|
      && t.pending == multiset{}
      && t.completed == multiset(Range(0, |frames|))
      && (forall k :: k in t.saved ==> k < |frames|)
      && ((forall k :: ok(k)) ==> forall k: nat :: k < |frames| ==> k in t.saved)
      && (frames != [] ==> |DataFile.SplitLines(DataFile.FaceDataText(render, t.captureData))| == |frames|)
  {
    var s0 := Started(s);
    StartedValid(s);
    AllFacesSampled(frames);
    TicksNumberConsecutively(s0, frames);
    var s1 := RunTicks(s0, frames);
    IssuedIsRange(s1);
    StoppedAccountsForAll(s1, ok);
    var t := Stopped(s1, ok);
    if forall k :: ok(k) {
      forall k: nat | k < |frames| ensures k in t.saved {
        assert Range(0, |frames|)[k] == k;
        assert k in s1.pending;
      }
    }
    DataFile.FaceDataLines(render, t.captureData);
  }

  lemma {:induction false} AllFacesSampled(frames: seq<Frame>)
    requires forall k :: 0 <= k < |frames| ==> Sampleable(frames[k]) && frames[k].anchors[0].FaceAnchor?
    ensures |Samples(frames)| == |frames|
  {
    if frames != [] {
      AllFacesSampled(frames[1..]);
    }
  }

  /**
   * The images a session has produced are as many distinct `%04d.jpg` files as
   * there are saved frame numbers, and all of them are names of recorded frames.
   */
  lemma SavedImagesAreDistinctFiles(s: Recorder)
    requires Consistent(s)
    ensures |set k | k in s.saved :: FileNames.ImageName(k)| == |s.saved|
    ensures forall k :: k in s.saved ==> k < s.currentCaptureFrame
  {
    FileNames.ImageNamesCount(s.saved);
    forall k | k in s.saved ensures k < s.currentCaptureFrame {
      assert k in multiset(s.issued);
      var i :| 0 <= i < |s.issued| && s.issued[i] == k;
    }
  }

  /** Waiting for a write that has just finished gives the same end state as waiting for it still pending. */
  lemma FinishedThenStopped(s: Recorder, num: nat, ok: nat -> bool)
    requires num in s.pending
    ensures Stopped(Finished(s, num, ok(num)), ok) == Stopped(s, ok)
  {
    var f := Finished(s, num, ok(num));
    assert f.completed + f.pending == s.completed + s.pending;
    var rest := set k | k in f.pending && ok(k);
    var all := set k | k in s.pending && ok(k);
    assert f.saved + rest == s.saved + all by {
      forall k | k in all ensures k in f.saved + rest {
        if k != num {
          assert k in f.pending;
        }
      }
    }
  }

  /** Once no write is outstanding and capturing is off, the wait has nothing left to do. */
  lemma StoppedWhenDrained(s: Recorder, ok: nat -> bool)
    requires !s.isCapturing && s.settingEnabled && s.pending == multiset{}
    ensures Stopped(s, ok) == s
  {
    assert (set k | k in s.pending && ok(k)) == {};
  }

  // ---------------------------------------------------------------------------
  // The controller object

  class ViewController {
    var isCapturing: bool
    /** `settingButton.isEnabled`. */
    var settingEnabled: bool
    var fps: real
    var sessionOpen: bool
    var captureData: seq<CaptureData>
    var currentCaptureFrame: nat
    /** Image writes queued on `saveQueue` and not yet finished, by frame number. */
    var pending: multiset<nat>
    ghost var issued: seq<nat>
    ghost var completed: multiset<nat>
    ghost var saved: set<nat>

    ghost function Model(): Recorder
      reads this
    {
      Recorder(isCapturing, settingEnabled, fps, sessionOpen, captureData,
               currentCaptureFrame, pending, issued, completed, saved)
    }

    ghost predicate Valid()
      reads this
    {
      Inv(Model())
    }

    /** The count `dispatchGroup` keeps: writes entered and not yet left. */
    function Outstanding(): nat
      reads this
    {
      |pending|
    }

    /** The property initialisers followed by `viewDidLoad`, which reloads the stored `fps`. */
    constructor (lastFps: real)
      ensures Valid() && Model() == Initial(lastFps)
    {
      isCapturing := false;
      settingEnabled := true;
      fps := DefaultFps;
      sessionOpen := false;
      captureData := [];
      currentCaptureFrame := 0;
      pending := multiset{};
      issued := [];
      completed := multiset{};
      saved := {};
      new;
      if lastFps != 0.0 {
        SetFps(lastFps);
      }
      InitialValid(lastFps);
    }

    /** `fps = x`, after which the observer clamps the stored value. */
    method SetFps(x: real)
      modifies this
      ensures Model() == WithFps(old(Model()), x)
      ensures old(Valid()) ==> Valid()
    {
      fps := x;
      fps := ClampFps(fps);
    }

    /** `isCapturing = b`, after which the observer sets the settings control. */
    method SetCapturing(b: bool)
      modifies this
      ensures Model() == WithCapturing(old(Model()), b)
    {
      isCapturing := b;
      settingEnabled := !isCapturing;
    }

    /** Called only from the capture button, on its not-capturing branch. */
    method StartCapture()
      requires Valid() && !isCapturing
      modifies this
      ensures Valid() && Model() == Started(old(Model()))
    {
      StartedValid(Model());
      captureData := [];
      currentCaptureFrame := 0;
      sessionOpen := true;
      issued, completed, saved := [], multiset{}, {};
      SetCapturing(true);
    }

    /** One tick of the timer, which runs only while capturing. */
    method RecordData(frame: Frame)
      requires Valid() && isCapturing && Sampleable(frame)
      modifies this
      ensures Valid() && Model() == Recorded(old(Model()), frame)
    {
      RecordedValid(Model(), frame);
      var data := GetFrameData(frame);
      if data.None? {
        return;
      }
      captureData := captureData + [data.value];
      var num := currentCaptureFrame;
      pending := pending + multiset{num};
      issued := issued + [num];
      currentCaptureFrame := currentCaptureFrame + 1;
    }

    /** The background write of image `num` finishes and leaves the group. */
    method FinishWrite(num: nat, ok: bool)
      requires Consistent(Model()) && num in pending
      modifies this
      ensures Consistent(Model()) && Model() == Finished(old(Model()), num, ok)
      ensures old(Valid()) ==> Valid()
    {
      FinishedValid(Model(), num, ok);
      pending := pending - multiset{num};
      completed := completed + multiset{num};
      if ok {
        saved := saved + {num};
      }
    }

    /**
     * `stopCapture`: capturing stops, the records' renderings joined by
     * newlines are the text written to the data file, and the call returns
     * once every outstanding write has finished. A session must have been
     * started before: the source dereferences `fpsTimer` and `folderPath`.
     */
    method StopCapture(render: CaptureData -> string, ok: nat -> bool) returns (text: string)
      requires Valid() && sessionOpen
      modifies this
      ensures Valid() && Model() == Stopped(old(Model()), ok)
      ensures Outstanding() == 0
      ensures text == DataFile.FaceDataText(render, captureData)
    {
      SetCapturing(false);
      text := DataFile.FaceDataText(render, captureData);
      while pending != multiset{}
        invariant Consistent(Model()) && !isCapturing
        invariant Stopped(Model(), ok) == Stopped(old(Model()), ok)
        decreases |pending|
      {
        var num :| num in pending;
        FinishedThenStopped(Model(), num, ok);
        FinishWrite(num, ok(num));
      }
      StoppedWhenDrained(Model(), ok);
      StoppedAccountsForAll(old(Model()), ok);
    }
  }
}
