/** `manual_trigger.py`: one manual capture, a decision on the first frame, and the Telegram and e-mail
    notifications. The classifier is a parameter (`predict(path)` gives the name and the confidence),
    `fmt` is the `:.2f` formatting, and each notifier call is one event. The script has no `try`, so a
    notifier call that raises ends the run there. */
module ManualTrigger {
  import opened Common
  import opened Text
  import opened Effects
  import opened Camera
  import Pipeline

  /** `VERIFIED_LABEL`; the same name, and so the same substring test, as the main pipeline's. */
  const VerifiedLabel: string := "Authorized"

  /** The texts this module prints or raises. */
  const AuthorizedMessage: string := "✅ Authorized detected ("
  const IntruderMessage: string := "🚨 Intruder detected! Confidence: "
  const AuthorizedCaption: string := "Authorized Person"
  const IntruderCaption: string := "Intruder Alert"
  const PredictionMsg: string := "🧠 Prediction: "
  const CapturingMsg: string := "📸 Capturing images..."

  /** The notifier call with number `index` (0-based, in call order) raises with this message. */
  datatype CallFailure = CallFailure(index: nat, message: string)

  /** `VERIFIED_LABEL.lower() in name.lower()`. */
  predicate IsVerifiedLabel(name: string) {
    Contains(Lower(name), Lower(VerifiedLabel))
  }

  /** The notifier calls the branch for one frame intends, in order. */
  function Calls(img: string, name: string, confidence: real, fmt: real -> string): (calls: seq<Event>)
    ensures forall e :: e in calls ==> IsAlert(e)
  {
    if IsVerifiedLabel(name) then
      [TgMessage(AuthorizedMessage + fmt(confidence) + ")"), TgPhoto(img, AuthorizedCaption)]
    else
      [TgMessage(IntruderMessage + fmt(confidence)), TgPhoto(img, IntruderCaption),
       LocationLookup, EmailAlert(img)]
  }

  /** The calls actually made: all of them, or those up to and including the one that raises. */
  function Attempt(calls: seq<Event>, failure: Option<CallFailure>): (Outcome<()>, seq<Event>) {
    if failure.Some? && failure.value.index < |calls| then (Raise(failure.value.message), calls[..failure.value.index + 1])
    else (Return(()), calls)
  }

  /** The notifier call with number `k` is the one that raises. */
  predicate Raises(failure: Option<CallFailure>, k: nat) {
    failure.Some? && failure.value.index == k
  }

  /** The body of the `for img in image_paths` loop for the first image: the prediction is printed and
      the branch's calls are made. */
  function Classify(img: string, predict: string -> (string, real), fmt: real -> string, failure: Option<CallFailure>)
    : (Outcome<()>, seq<Event>)
  {
    var (name, confidence) := predict(img);
    var (o, made) := Attempt(Calls(img, name, confidence, fmt), failure);
    (o, [Printed(PredictionMsg + name + " (" + fmt(confidence) + ")")] + made)
  }

  /** `run_manual_trigger()`: the capture of five frames two seconds apart, then the first frame decides. */
  function ManualRun(d: Device, predict: string -> (string, real), fmt: real -> string, failure: Option<CallFailure>)
    : (Outcome<()>, seq<Event>)
  {
    var (paths, captured) := Capture(d, 5, 2.0);
    var start := [Printed(CapturingMsg)] + captured;
    if paths == [] then (Return(()), start)
    else var (o, t) := Classify(paths[0], predict, fmt, failure); (o, start + t)
  }

  /** `run_manual_trigger`: the loop returns from either branch of its first pass. */
  method RunManualTrigger(d: Device, predict: string -> (string, real), fmt: real -> string, failure: Option<CallFailure>)
    returns (o: Outcome<()>, trace: seq<Event>)
    ensures (o, trace) == ManualRun(d, predict, fmt, failure)
  {
    trace := [Printed(CapturingMsg)];
    var imagePaths, captured := CaptureImages(d, 5, 2.0);
    trace := trace + captured;
    for i := 0 to |imagePaths|
      invariant i == 0
      invariant trace == [Printed(CapturingMsg)] + captured
    {
      var img := imagePaths[i];
      var (name, confidence) := predict(img);
      trace := trace + [Printed(PredictionMsg + name + " (" + fmt(confidence) + ")")];
      ghost var calls := Calls(img, name, confidence, fmt);
      ghost var prefix := trace;
      FirstFrameDecides(d, predict, fmt, failure);
      if IsVerifiedLabel(name) {
        trace := trace + [TgMessage(AuthorizedMessage + fmt(confidence) + ")")];
        assert trace == prefix + calls[..1];
        if Raises(failure, 0) { return Raise(failure.value.message), trace; }
        trace := trace + [TgPhoto(img, AuthorizedCaption)];
        assert trace == prefix + calls && calls[..2] == calls;
        if Raises(failure, 1) { return Raise(failure.value.message), trace; }
        return Return(()), trace;
      } else {
        trace := trace + [TgMessage(IntruderMessage + fmt(confidence))];
        assert trace == prefix + calls[..1];
        if Raises(failure, 0) { return Raise(failure.value.message), trace; }
        trace := trace + [TgPhoto(img, IntruderCaption)];
        assert trace == prefix + calls[..2];
        if Raises(failure, 1) { return Raise(failure.value.message), trace; }
        trace := trace + [LocationLookup];
        assert trace == prefix + calls[..3];
        if Raises(failure, 2) { return Raise(failure.value.message), trace; }
        trace := trace + [EmailAlert(img)];
        assert trace == prefix + calls && calls[..4] == calls;
        if Raises(failure, 3) { return Raise(failure.value.message), trace; }
        return Return(()), trace;
      }
    }
    o := Return(());
  }

  /** With a captured frame, the run is the capture followed by the prediction line and the calls made. */
  lemma FirstFrameDecides(d: Device, predict: string -> (string, real), fmt: real -> string, failure: Option<CallFailure>)
    requires Capture(d, 5, 2.0).0 != []
    ensures var img := Capture(d, 5, 2.0).0[0];
            var (name, confidence) := predict(img);
            var (o, made) := Attempt(Calls(img, name, confidence, fmt), failure);
            ManualRun(d, predict, fmt, failure)
            == (o, [Printed(CapturingMsg)] + Capture(d, 5, 2.0).1
                   + [Printed(PredictionMsg + name + " (" + fmt(confidence) + ")")] + made)
  {
    var img := Capture(d, 5, 2.0).0[0];
    var (name, confidence) := predict(img);
    var made := Attempt(Calls(img, name, confidence, fmt), failure).1;
    var start := [Printed(CapturingMsg)] + Capture(d, 5, 2.0).1;
    var head := [Printed(PredictionMsg + name + " (" + fmt(confidence) + ")")];
    assert Classify(img, predict, fmt, failure).1 == head + made;
    assert start + (head + made) == start + head + made;
  }

  /** The notification calls of a run: none without a captured frame; otherwise the first frame's
      intended calls, up to the one that raises. No other frame is classified or named in any call. */
  lemma ManualAlerts(d: Device, predict: string -> (string, real), fmt: real -> string, failure: Option<CallFailure>)
    ensures var (paths, _) := Capture(d, 5, 2.0);
            var (o, t) := ManualRun(d, predict, fmt, failure);
            && (paths == [] ==> o == Return(()) && NoAlerts(t) && Alerts(t) == [])
            && (paths != [] ==>
                  var (name, confidence) := predict(paths[0]);
                  Alerts(t) == Attempt(Calls(paths[0], name, confidence, fmt), failure).1
                  && o == Attempt(Calls(paths[0], name, confidence, fmt), failure).0)
  {
    var (paths, captured) := Capture(d, 5, 2.0);
    var start := [Printed(CapturingMsg)] + captured;
    CaptureOnlyTouchesCamera(d, 5, 2.0);
    assert NoAlerts(start);
    if paths == [] {
      NoAlertsHasNone(start);
    } else {
      var (name, confidence) := predict(paths[0]);
      var calls := Calls(paths[0], name, confidence, fmt);
      var made := Attempt(calls, failure).1;
      assert made == calls || made == calls[..failure.value.index + 1];
      assert forall e :: e in made ==> e in calls;
      QuietThenAlerts(start, Printed(PredictionMsg + name + " (" + fmt(confidence) + ")"), made);
    }
  }

  /** A quiet prefix and one printed line, then notifier calls only: the calls are the alerts. */
  lemma QuietThenAlerts(start: seq<Event>, head: Event, made: seq<Event>)
    requires NoAlerts(start) && head.Printed?
    requires forall e :: e in made ==> IsAlert(e)
    ensures Alerts(start + ([head] + made)) == made
  {
    NoAlertsHasNone(start);
    AlertsConcat(start, [head] + made);
    AlertsConcat([head], made);
    Single(head);
    AllAlerts(made);
  }

  /** A trace made only of notifier calls is its own list of notification calls. */
  lemma AllAlerts(t: seq<Event>)
    requires forall e :: e in t ==> IsAlert(e)
    ensures Alerts(t) == t
  {
    AllAlertsTo(t, |t|);
  }

  lemma {:induction false} AllAlertsTo(t: seq<Event>, n: nat)
    requires n <= |t| && forall e :: e in t ==> IsAlert(e)
    ensures AlertsTo(t, n) == t[..n]
  {
    if n > 0 {
      AllAlertsTo(t, n - 1);
      assert t[n - 1] in t;
      assert t[..n] == t[..n - 1] + [t[n - 1]];
    }
  }

  /** A name containing "authorized" gets a message then the photo, and neither the location lookup nor
      the e-mail; any other name gets message, photo, location, e-mail, in that order. Both carry the
      confidence and the first frame's path. */
  lemma CallsByLabel(img: string, name: string, confidence: real, fmt: real -> string)
    ensures IsVerifiedLabel(name) ==>
              Calls(img, name, confidence, fmt) == [TgMessage(AuthorizedMessage + fmt(confidence) + ")"),
                                                     TgPhoto(img, AuthorizedCaption)]
    ensures IsVerifiedLabel(name) ==>
              LocationLookup !in Calls(img, name, confidence, fmt) && EmailAlert(img) !in Calls(img, name, confidence, fmt)
    ensures !IsVerifiedLabel(name) ==>
              Calls(img, name, confidence, fmt)
              == [TgMessage(IntruderMessage + fmt(confidence)), TgPhoto(img, IntruderCaption),
                  LocationLookup, EmailAlert(img)]
  {
  }

  /** The manual trigger and the main pipeline apply the same test to the name. */
  lemma SameTestAsPipeline(name: string)
    ensures IsVerifiedLabel(name) <==> Pipeline.IsVerifiedName(name)
  {
  }

  /** The test is a substring test: a name "Unauthorized" passes it. */
  lemma UnauthorizedPasses()
    ensures IsVerifiedLabel("Unauthorized")
  {
    assert OccursAt(Lower("Unauthorized"), Lower(VerifiedLabel), 2) by {
      assert Lower("Unauthorized")[2..12] == "authorized";
    }
  }

  /** A run without a raising call makes every intended call; a raising call is the last one made. */
  lemma AttemptContract(calls: seq<Event>, failure: Option<CallFailure>)
    ensures Attempt(calls, failure).0.Return? <==> failure.None? || failure.value.index >= |calls|
    ensures Attempt(calls, failure).0.Return? ==> Attempt(calls, failure).1 == calls
    ensures Attempt(calls, failure).0.Raise? ==>
              var made := Attempt(calls, failure).1;
              && made == calls[..|made|] && |made| == failure.value.index + 1
              && made[|made| - 1] == calls[failure.value.index]
              && Attempt(calls, failure).0.error == failure.value.message
  {
  }
}
