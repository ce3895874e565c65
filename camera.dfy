/** `src/camera.py`: the capture burst. The device is an "opens" flag plus the outcome of each
    `cap.read()`; a successful read carries the path the frame is written to (a timestamped name under
    `data/captured`, chosen by the wall clock, so it is an input here). */
module Camera {
  import opened Text
  import opened Effects

  /** The texts this module prints or raises. */
  const ImageSavedMsg: string := "✅ Image "
  const SavedMsg: string := " saved: "
  const CaptureFailedMsg: string := "⚠️ Failed to capture image "
  const OpenFailedMsg: string := "❌ Failed to open camera."
  const OpenedMsg: string := "📷 Camera opened successfully."

  datatype ReadOutcome = Frame(path: string) | NoFrame

  /** `cv2.VideoCapture(0)`: whether `isOpened()` holds, and what the successive reads return. A read past
      the end of `outcomes` fails. */
  datatype Device = Device(opens: bool, outcomes: seq<ReadOutcome>)

  function ReadAt(d: Device, i: nat): ReadOutcome {
    if i < |d.outcomes| then d.outcomes[i] else NoFrame
  }

  /** The path read `i` saves, if any. */
  function SavedBy(d: Device, i: nat): seq<string> {
    match ReadAt(d, i) case Frame(p) => [p] case NoFrame => []
  }

  /** The paths saved by the first `n` reads, in read order. */
  function SavedPaths(d: Device, n: nat): seq<string> {
    if n == 0 then [] else SavedPaths(d, n - 1) + SavedBy(d, n - 1)
  }

  /** What read `i` (0-based) leaves behind: a saved frame is announced and followed by the pacing
      sleep; a failed read is only reported. Images are numbered from 1 in the messages. */
  function ReadEffect(d: Device, i: nat, delay: real): seq<Event> {
    match ReadAt(d, i)
    case Frame(p) => [FrameSaved(p), Printed(ImageSavedMsg + Decimal(i + 1) + SavedMsg + p), Slept(delay)]
    case NoFrame => [Printed(CaptureFailedMsg + Decimal(i + 1))]
  }

  /** The effects of the first `n` reads. */
  function ReadEffects(d: Device, n: nat, delay: real): seq<Event> {
    if n == 0 then [] else ReadEffects(d, n - 1, delay) + ReadEffect(d, n - 1, delay)
  }

  /** `capture_images(num_images, delay)`: the saved paths and the effects, release included. */
  function Capture(d: Device, numImages: nat, delay: real): (seq<string>, seq<Event>) {
    if !d.opens then ([], [Printed(OpenFailedMsg)])
    else (SavedPaths(d, numImages),
          [Printed(OpenedMsg)] + ReadEffects(d, numImages, delay) + [CameraReleased])
  }

  /** `capture_images`: the `for i in range(num_images)` loop that keeps only successful reads. */
  method CaptureImages(d: Device, numImages: nat, delay: real) returns (capturedFiles: seq<string>, effects: seq<Event>)
    ensures (capturedFiles, effects) == Capture(d, numImages, delay)
  {
    if !d.opens {
      return [], [Printed(OpenFailedMsg)];
    }
    effects := [Printed(OpenedMsg)];
    capturedFiles := [];
    for i := 0 to numImages
      invariant capturedFiles == SavedPaths(d, i)
      invariant effects == [Printed(OpenedMsg)] + ReadEffects(d, i, delay)
    {
      var ret := ReadAt(d, i);
      ghost var before := effects;
      CaptureStep(d, i, delay);
      if ret.NoFrame? {
        effects := effects + [Printed(CaptureFailedMsg + Decimal(i + 1))];
        assert effects == before + ReadEffect(d, i, delay);
        continue;
      }
      effects := effects + [FrameSaved(ret.path)];
      effects := effects + [Printed(ImageSavedMsg + Decimal(i + 1) + SavedMsg + ret.path)];
      capturedFiles := capturedFiles + [ret.path];
      effects := effects + [Slept(delay)];
      assert effects == before + ReadEffect(d, i, delay);
    }
    effects := effects + [CameraReleased];
  }

  /** One more read extends the saved paths and the effects by what that read leaves behind. */
  lemma CaptureStep(d: Device, i: nat, delay: real)
    ensures SavedPaths(d, i + 1) == SavedPaths(d, i) + SavedBy(d, i)
    ensures [Printed(OpenedMsg)] + ReadEffects(d, i + 1, delay)
         == [Printed(OpenedMsg)] + ReadEffects(d, i, delay) + ReadEffect(d, i, delay)
  {
  }

  /** A saved path comes from a successful read among the first `n`, and every such read is saved. */
  lemma {:induction false} SavedPathsAreFrames(d: Device, n: nat)
    ensures |SavedPaths(d, n)| <= n
    ensures forall p :: p in SavedPaths(d, n) <==> exists i :: 0 <= i < n && ReadAt(d, i) == Frame(p)
  {
    if n > 0 {
      SavedPathsAreFrames(d, n - 1);
      forall p | p in SavedPaths(d, n) ensures exists i :: 0 <= i < n && ReadAt(d, i) == Frame(p) {
        if p !in SavedPaths(d, n - 1) {
          assert ReadAt(d, n - 1) == Frame(p);
        }
      }
    }
  }

  /** The frames the first `n` events of a trace write, in order. */
  function FramesTo(t: seq<Event>, n: nat): (paths: seq<string>)
    requires n <= |t|
    ensures |paths| <= n
  {
    if n == 0 then [] else FramesTo(t, n - 1) + (if t[n - 1].FrameSaved? then [t[n - 1].path] else [])
  }

  /** The frames a trace writes, in order. */
  function FramesWritten(t: seq<Event>): (paths: seq<string>)
    ensures |paths| <= |t|
  {
    FramesTo(t, |t|)
  }

  lemma {:induction false} FramesAgree(s: seq<Event>, u: seq<Event>, n: nat)
    requires n <= |s| && n <= |u|
    requires forall i :: 0 <= i < n ==> s[i] == u[i]
    ensures FramesTo(s, n) == FramesTo(u, n)
  {
    if n > 0 {
      FramesAgree(s, u, n - 1);
      assert s[n - 1] == u[n - 1];
    }
  }

  lemma {:induction false} FramesConcatTo(a: seq<Event>, b: seq<Event>, k: nat)
    requires k <= |b|
    ensures FramesTo(a + b, |a| + k) == FramesTo(a, |a|) + FramesTo(b, k)
  {
    if k == 0 {
      FramesAgree(a + b, a, |a|);
    } else {
      FramesConcatTo(a, b, k - 1);
      assert (a + b)[|a| + k - 1] == b[k - 1];
      var f := if b[k - 1].FrameSaved? then [b[k - 1].path] else [];
      assert FramesTo(a, |a|) + FramesTo(b, k - 1) + f == FramesTo(a, |a|) + (FramesTo(b, k - 1) + f);
    }
  }

  lemma FramesWrittenConcat(a: seq<Event>, b: seq<Event>)
    ensures FramesWritten(a + b) == FramesWritten(a) + FramesWritten(b)
  {
    FramesConcatTo(a, b, |b|);
  }

  /** A frame written at `k` is followed by its announcement and a pacing sleep. */
  ghost predicate AnnouncedAt(t: seq<Event>, k: int)
    requires 0 <= k < |t|
  {
    t[k].FrameSaved? ==> k + 2 < |t| && t[k + 1].Printed? && t[k + 2].Slept?
  }

  /** A sleep at `k` comes two events after a written frame. */
  ghost predicate SleepFollowsAt(t: seq<Event>, k: int)
    requires 0 <= k < |t|
  {
    t[k].Slept? ==> 2 <= k && t[k - 2].FrameSaved?
  }

  /** Every frame written is followed by its announcement and a pacing sleep, and every sleep follows a
      written frame that way. */
  ghost predicate Paced(t: seq<Event>) {
    forall k :: 0 <= k < |t| ==> AnnouncedAt(t, k) && SleepFollowsAt(t, k)
  }

  lemma PacedConcat(a: seq<Event>, b: seq<Event>)
    requires Paced(a) && Paced(b)
    ensures Paced(a + b)
  {
    var t := a + b;
    forall k | 0 <= k < |t| ensures AnnouncedAt(t, k) && SleepFollowsAt(t, k) {
      if k < |a| {
        assert AnnouncedAt(a, k) && SleepFollowsAt(a, k);
        assert t[k] == a[k];
        if a[k].FrameSaved? {
          assert t[k + 1] == a[k + 1] && t[k + 2] == a[k + 2];
        }
        if a[k].Slept? {
          assert t[k - 2] == a[k - 2];
        }
      } else {
        var j := k - |a|;
        assert AnnouncedAt(b, j) && SleepFollowsAt(b, j);
        assert t[k] == b[j];
        if b[j].FrameSaved? {
          assert t[k + 1] == b[j + 1] && t[k + 2] == b[j + 2];
        }
        if b[j].Slept? {
          assert t[k - 2] == b[j - 2];
        }
      }
    }
  }

  /** One read's effects: the frame it writes, if any, paced by its sleep, and no release. */
  lemma ReadEffectShape(d: Device, i: nat, delay: real)
    ensures Paced(ReadEffect(d, i, delay))
    ensures CameraReleased !in ReadEffect(d, i, delay)
  {
    var e := ReadEffect(d, i, delay);
    forall k | 0 <= k < |e| ensures AnnouncedAt(e, k) && SleepFollowsAt(e, k) {
    }
  }

  /** One read writes the frame it saves. */
  lemma ReadEffectFrames(d: Device, i: nat, delay: real)
    ensures FramesWritten(ReadEffect(d, i, delay)) == SavedBy(d, i)
  {
    var e := ReadEffect(d, i, delay);
    match ReadAt(d, i)
    case Frame(p) =>
      assert FramesTo(e, 1) == [p];
      assert FramesWritten(e) == FramesTo(e, 2) == [p];
    case NoFrame =>
  }

  /** The frames written are exactly the paths returned, in the same order; the pacing sleep comes right
      after the announcement of each saved frame and nowhere else. */
  lemma SleepsFollowFrames(d: Device, n: nat, delay: real)
    ensures FramesWritten(ReadEffects(d, n, delay)) == SavedPaths(d, n)
    ensures Paced(ReadEffects(d, n, delay))
    ensures CameraReleased !in ReadEffects(d, n, delay)
  {
    ReadsWriteSavedPaths(d, n, delay);
    ReadsArePaced(d, n, delay);
    ReadsDoNotRelease(d, n, delay);
  }

  lemma {:induction false} ReadsWriteSavedPaths(d: Device, n: nat, delay: real)
    ensures FramesWritten(ReadEffects(d, n, delay)) == SavedPaths(d, n)
  {
    if n > 0 {
      ReadsWriteSavedPaths(d, n - 1, delay);
      ReadEffectFrames(d, n - 1, delay);
      FramesWrittenConcat(ReadEffects(d, n - 1, delay), ReadEffect(d, n - 1, delay));
    }
  }

  lemma {:induction false} ReadsArePaced(d: Device, n: nat, delay: real)
    ensures Paced(ReadEffects(d, n, delay))
  {
    if n > 0 {
      ReadsArePaced(d, n - 1, delay);
      ReadEffectShape(d, n - 1, delay);
      PacedConcat(ReadEffects(d, n - 1, delay), ReadEffect(d, n - 1, delay));
    }
  }

  lemma {:induction false} ReadsDoNotRelease(d: Device, n: nat, delay: real)
    ensures CameraReleased !in ReadEffects(d, n, delay)
  {
    if n > 0 {
      ReadsDoNotRelease(d, n - 1, delay);
      ReadEffectShape(d, n - 1, delay);
    }
  }

  /** `capture_images` returns at most `num_images` paths; a device that does not open yields `[]` and only
      an error message; one that opens is released exactly once, last, and nothing is written otherwise. */
  lemma CaptureContract(d: Device, numImages: nat, delay: real)
    ensures var (paths, t) := Capture(d, numImages, delay);
            && |paths| <= numImages
            && (!d.opens ==> paths == [] && t == [Printed(OpenFailedMsg)])
            && (d.opens ==> FramesWritten(t) == paths && t[|t| - 1] == CameraReleased
                            && forall k :: 0 <= k < |t| - 1 ==> t[k] != CameraReleased)
  {
    SavedPathsAreFrames(d, numImages);
    SleepsFollowFrames(d, numImages, delay);
    if d.opens {
      var r := ReadEffects(d, numImages, delay);
      FramesAroundReads(r);
      ReleasedOnceLast(r);
    }
  }

  /** The opening message and the release write no frame. */
  lemma FramesAroundReads(r: seq<Event>)
    ensures FramesWritten([Printed(OpenedMsg)] + r + [CameraReleased]) == FramesWritten(r)
  {
    FramesWrittenConcat([Printed(OpenedMsg)], r);
    FramesWrittenConcat([Printed(OpenedMsg)] + r, [CameraReleased]);
    assert FramesWritten([Printed(OpenedMsg)]) == [];
    assert FramesWritten([CameraReleased]) == [];
  }

  /** Reads that do not release, framed by the opening message and the release: the release is last and
      happens once. */
  lemma ReleasedOnceLast(r: seq<Event>)
    requires CameraReleased !in r
    ensures var t := [Printed(OpenedMsg)] + r + [CameraReleased];
            t[|t| - 1] == CameraReleased && forall k :: 0 <= k < |t| - 1 ==> t[k] != CameraReleased
  {
    var t := [Printed(OpenedMsg)] + r + [CameraReleased];
    forall k | 0 <= k < |t| - 1 ensures t[k] != CameraReleased {
      if k > 0 {
        assert t[k] == r[k - 1];
      }
    }
  }

  /** An event of the capture itself: a message, a written frame, a pacing sleep or the release. */
  predicate IsCameraEvent(e: Event) {
    e.Printed? || e.FrameSaved? || e.Slept? || e.CameraReleased?
  }

  lemma {:induction false} ReadEffectsAreCameraEvents(d: Device, n: nat, delay: real)
    ensures forall e :: e in ReadEffects(d, n, delay) ==> IsCameraEvent(e)
  {
    if n > 0 {
      ReadEffectsAreCameraEvents(d, n - 1, delay);
    }
  }

  /** `capture_images` only prints and drives the camera: it never logs a detection, alerts or touches the port. */
  lemma CaptureOnlyTouchesCamera(d: Device, numImages: nat, delay: real)
    ensures forall e :: e in Capture(d, numImages, delay).1 ==> IsCameraEvent(e)
  {
    ReadEffectsAreCameraEvents(d, numImages, delay);
  }
}
