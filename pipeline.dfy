/** `main.py`: the detection pipeline. `run_pipeline` captures a burst, verifies it and acts on the first
    frame that yields a score; `wait_and_run_pipeline` runs it once after a trigger; the `__main__` loop
    repeats trigger, run and resume until a decisive result or a missing trigger.
    Every collaborator is an input: the camera `Device`, the serial `Session`s, the enrolled map with its
    embedding and distance functions, the clock reading `log_event` formats, and the exception (if any)
    each fallible call raises. Messages handed to `log_callback` are `Note` events (in `__main__` the
    callback is `print`); `f"{score:.2f}"` is the abstract `fmt`. */
module Pipeline {
  import opened Common
  import opened Text
  import opened Effects
  import opened Matching
  import opened Camera
  import opened SerialListener
  import opened DetectionLog
  import PredictWithEmbed

  /** `THRESHOLD` and `VERIFIED_LABEL`. */
  const Threshold: real := 0.4
  const VerifiedLabel: string := "Authorized"

  /** The burst `run_pipeline` asks for: `capture_images(num_images=5, delay=2)`. */
  const NumImages: nat := 5
  const CaptureDelay: real := 2.0

  /** The messages the pipeline hands to its log callback (`Note`) or prints, and the command it writes
      back to the sensor. */
  const EmailNote: string := "📧 Sending email alert..."
  const EmailFailedNote: string := "⚠️ Email failed: "
  const TelegramNote: string := "📨 Sending Telegram alert..."
  const TelegramFailedNote: string := "⚠️ Telegram failed: "
  const AuthorizedNote: string := "✅ Authorized person detected: "
  const AuthorizedUnsureNote: string := "⚠️ Authorized person detected, but score above threshold: "
  const IntruderNote: string := "🚨 Intruder detected: "
  const IntruderUnsureNote: string := "⚠️ Detected potential intruder, but score above threshold: "
  const NoConclusionNote: string := "⚠️ No conclusive prediction made."
  const CapturingNote: string := "\n📸 Capturing images..."
  const NoImagesNote: string := "❌ No images captured."
  const FlaskStartNote: string := "🔌 Flask-triggered detection started..."
  const NoTriggerNote: string := "❌ Trigger not received. Exiting."
  const ResumeNoPortMsg: string := "⚠️ Resume send failed: 'NoneType' object has no attribute 'write'"
  const ResumeFailedMsg: string := "⚠️ Resume send failed: "
  const HandledMsg: string := "✅ Detection handled. Exiting."
  const SendingResumeMsg: string := "📨 Sending 'resume' to ESP32..."
  const WaitingMsg: string := "\n🔁 Waiting for next trigger...\n"
  const ExitingMsg: string := "👋 Exiting program."
  const StartingMsg: string := "🔌 Starting intruder detection system..."
  const ResumeCommand: string := "resume\n"

  /** What `run_pipeline` and `wait_and_run_pipeline` return. */
  datatype PipelineResult = Authorized | Intruder | Inconclusive | NoTrigger

  /** The strings the pipeline returns. */
  const AuthorizedText: string := "authorized"
  const IntruderText: string := "intruder"
  const NoneText: string := "none"
  const NoTriggerText: string := "no_trigger"

  /** The string each result is returned as. */
  function ResultText(r: PipelineResult): (s: string)
    ensures s in {AuthorizedText, IntruderText, NoneText, NoTriggerText}
  {
    match r
    case Authorized => AuthorizedText
    case Intruder => IntruderText
    case Inconclusive => NoneText
    case NoTrigger => NoTriggerText
  }

  /** The enrolled map `embeddings_db` with the embedding and distance functions of the predictor. */
  datatype Predictor<!E> = Predictor(db: seq<Person<E>>, embed: string -> Option<E>, dist: (E, E) -> real)

  /** What the world does during one run: the camera, the clock reading, and the exception message (if
      any) of creating or appending to the local log, of the database insert, of `send_alert`, of
      `send_tg_location` and of `send_telegram_alert`. */
  datatype RunEnv = RunEnv(
    camera: Device, timestamp: string,
    localError: Option<string>, dbError: Option<string>,
    emailError: Option<string>, locationError: Option<string>, telegramError: Option<string>)

  /** `VERIFIED_LABEL.lower() in name.lower()`. */
  predicate IsVerifiedName(name: string) {
    Contains(Lower(name), Lower(VerifiedLabel))
  }

  /** The status `log_event` writes for a confident match of `name`. */
  function StatusFor(name: string): string {
    if IsVerifiedName(name) then AuthorizedStatus else AlertStatus
  }

  /** `f"{score:.2f}"`: an infinite score prints as `inf`. */
  function ScoreText(s: Score, fmt: real -> string): string {
    match s
    case Infinite => "inf"
    case Finite(v) => fmt(v)
  }

  /** The message an attempt logs when it fails, and nothing when it succeeds. */
  function FailureNote(prefix: string, err: Option<string>): seq<Event> {
    match err case Some(e) => [Note(prefix + e)] case None => []
  }

  /** The email attempt of the intruder branch, in its own `try`. */
  function EmailAttempt(path: string, err: Option<string>): seq<Event> {
    [Note(EmailNote)] + ([EmailAlert(path)] + FailureNote(EmailFailedNote, err))
  }

  /** The Telegram attempt: the location lookup and the send share one `try`, so a failing lookup skips
      the send. */
  function TelegramAttempt(path: string, lookupError: Option<string>, sendError: Option<string>): seq<Event> {
    [Note(TelegramNote)]
    + ([LocationLookup]
       + (if lookupError.Some? then FailureNote(TelegramFailedNote, lookupError)
          else [TelegramAlert(path)] + FailureNote(TelegramFailedNote, sendError)))
  }

  /** The two alert attempts of the intruder branch; a failing email does not stop the Telegram attempt. */
  function AlertTrace(path: string, env: RunEnv): seq<Event> {
    EmailAttempt(path, env.emailError) + TelegramAttempt(path, env.locationError, env.telegramError)
  }

  /** The separators around the score in a decision message. */
  const ScoreOpen: string := " ("
  const ScoreClose: string := ") - "

  /** `f"{name} ({score:.2f}) - {img_path}"`, the result as the decision messages show it. */
  function Shown(r: PredictWithEmbed.FrameResult, fmt: real -> string): string
    requires r.score.Some?
  {
    r.name + ScoreOpen + ScoreText(r.score.value, fmt) + ScoreClose + r.path
  }

  /** The body of the results loop for the first result that carries a score: it always returns. */
  function Decide(r: PredictWithEmbed.FrameResult, env: RunEnv, fmt: real -> string): (d: (Outcome<PipelineResult>, seq<Event>))
    requires r.score.Some?
    ensures d.0 != Return(NoTrigger)
  {
    var s := r.score.value;
    var shown := Shown(r, fmt);
    if IsVerifiedName(r.name) then
      if Below(s, Threshold) then
        var (o, logged) := LogEvent(env.timestamp, AuthorizedStatus, r.path, env.localError, env.dbError);
        (if o.Raise? then Raise(o.error) else Return(Authorized), [Note(AuthorizedNote + shown)] + logged)
      else (Return(Inconclusive), [Note(AuthorizedUnsureNote + shown)])
    else if Below(s, Threshold) then
      var (o, logged) := LogEvent(env.timestamp, AlertStatus, r.path, env.localError, env.dbError);
      var t := [Note(IntruderNote + shown)] + logged;
      if o.Raise? then (Raise(o.error), t) else (Return(Intruder), t + AlertTrace(r.path, env))
    else (Return(Inconclusive), [Note(IntruderUnsureNote + shown)])
  }

  /** `for name, img_path, score in results`: results without a score are skipped, the first with one
      decides, and running out of results is inconclusive. */
  function Conclude(results: seq<PredictWithEmbed.FrameResult>, env: RunEnv, fmt: real -> string): (d: (Outcome<PipelineResult>, seq<Event>))
    ensures d.0 != Return(NoTrigger)
  {
    if results == [] then (Return(Inconclusive), [Note(NoConclusionNote)])
    else if results[0].score.None? then Conclude(results[1..], env, fmt)
    else Decide(results[0], env, fmt)
  }

  /** The announcement and the capture burst that open every run. */
  function Start(env: RunEnv): seq<Event> {
    [Note(CapturingNote)] + Capture(env.camera, NumImages, CaptureDelay).1
  }

  /** The list `verify_captured_images` returns for the captured paths. */
  function Results<E>(p: Predictor<E>, env: RunEnv): seq<PredictWithEmbed.FrameResult> {
    PredictWithEmbed.VerifyAll(Capture(env.camera, NumImages, CaptureDelay).0, p.embed, p.db, p.dist)
  }

  /** `run_pipeline(log_callback)`: the result (or the exception `log_event` lets through) and the effects. */
  function RunPipeline<E>(p: Predictor<E>, env: RunEnv, fmt: real -> string): (d: (Outcome<PipelineResult>, seq<Event>))
    ensures d.0 != Return(NoTrigger)
  {
    if Capture(env.camera, NumImages, CaptureDelay).0 == [] then
      (Return(Inconclusive), Start(env) + [Note(NoImagesNote)])
    else
      var (o, t) := Conclude(Results(p, env), env, fmt);
      (o, Start(env) + t)
  }

  /** Result `i` is the first one that carries a score. */
  ghost predicate FirstScoredAt(results: seq<PredictWithEmbed.FrameResult>, i: int) {
    0 <= i < |results| && results[i].score.Some? && forall k :: 0 <= k < i ==> results[k].score.None?
  }

  lemma FirstScoredUnique(results: seq<PredictWithEmbed.FrameResult>, i: int, j: int)
    requires FirstScoredAt(results, i) && FirstScoredAt(results, j)
    ensures i == j
  {
  }

  /** Either some result is the first scored one, or none carries a score. */
  lemma {:induction false} FirstScoredOrUnscored(results: seq<PredictWithEmbed.FrameResult>)
    ensures (exists i :: FirstScoredAt(results, i)) || forall k :: 0 <= k < |results| ==> results[k].score.None?
  {
    if results != [] {
      if results[0].score.Some? {
        assert FirstScoredAt(results, 0);
      } else {
        var rest := results[1..];
        FirstScoredOrUnscored(rest);
        assert forall k :: 0 <= k < |rest| ==> rest[k] == results[k + 1];
        if i :| FirstScoredAt(rest, i) {
          assert FirstScoredAt(results, i + 1);
        }
      }
    }
  }

  /** The results loop acts on the first scored result alone, and is inconclusive when there is none. */
  lemma {:induction false} ConcludeDecides(results: seq<PredictWithEmbed.FrameResult>, env: RunEnv, fmt: real -> string)
    ensures (forall k :: 0 <= k < |results| ==> results[k].score.None?) ==>
              Conclude(results, env, fmt) == (Return(Inconclusive), [Note(NoConclusionNote)])
    ensures forall i :: FirstScoredAt(results, i) ==> Conclude(results, env, fmt) == Decide(results[i], env, fmt)
  {
    if results != [] && results[0].score.None? {
      var rest := results[1..];
      ConcludeDecides(rest, env, fmt);
      assert forall k :: 0 <= k < |rest| ==> rest[k] == results[k + 1];
      forall i | FirstScoredAt(results, i) ensures Conclude(results, env, fmt) == Decide(results[i], env, fmt) {
        assert FirstScoredAt(rest, i - 1);
      }
    }
  }

  /** Frames after the first scored one are never examined: whatever follows, that one decides. */
  lemma LaterFramesIgnored(pre: seq<PredictWithEmbed.FrameResult>, r: PredictWithEmbed.FrameResult,
                           post: seq<PredictWithEmbed.FrameResult>, env: RunEnv, fmt: real -> string)
    requires forall k :: 0 <= k < |pre| ==> pre[k].score.None?
    requires r.score.Some?
    ensures Conclude(pre + [r] + post, env, fmt) == Decide(r, env, fmt)
  {
    var results := pre + [r] + post;
    assert results[|pre|] == r;
    assert forall k :: 0 <= k < |pre| ==> results[k] == pre[k];
    assert FirstScoredAt(results, |pre|);
    ConcludeDecides(results, env, fmt);
  }

  /** Which way the decisive result goes: `authorized` needs a label containing "authorized" and a score
      strictly below the threshold, `intruder` a label without it and the same score; a score at or above
      the threshold is `none`, and a failing `log_event` is the only exception. */
  lemma DecideOutcome(r: PredictWithEmbed.FrameResult, env: RunEnv, fmt: real -> string)
    requires r.score.Some?
    ensures var o := Decide(r, env, fmt).0;
            var confident := Below(r.score.value, Threshold);
            var logged := env.localError.None? && env.dbError.None?;
            && (o == Return(Authorized) <==> IsVerifiedName(r.name) && confident && logged)
            && (o == Return(Intruder) <==> !IsVerifiedName(r.name) && confident && logged)
            && (o == Return(Inconclusive) <==> !confident)
            && (o.Raise? <==> confident && !logged)
            && (o.Raise? ==> o.error == if env.localError.Some? then env.localError.value else env.dbError.value)
  {
  }

  /** The email attempt calls the mail channel once, whether it fails or not, and writes no record. */
  lemma EmailAttemptAlerts(path: string, err: Option<string>)
    ensures Alerts(EmailAttempt(path, err)) == [EmailAlert(path)]
    ensures NoRecords(EmailAttempt(path, err))
  {
    var failure := FailureNote(EmailFailedNote, err);
    NoAlertsHasNone(failure);
    AlertsCons(EmailAlert(path), failure);
    AlertsCons(Note(EmailNote), [EmailAlert(path)] + failure);
    NoRecordsCons(EmailAlert(path), failure);
    NoRecordsCons(Note(EmailNote), [EmailAlert(path)] + failure);
  }

  /** The Telegram attempt always looks the location up, and sends the alert exactly when the lookup
      succeeds; it writes no record. */
  lemma TelegramAttemptAlerts(path: string, lookupError: Option<string>, sendError: Option<string>)
    ensures Alerts(TelegramAttempt(path, lookupError, sendError)) == [LocationLookup] + (if lookupError.None? then [TelegramAlert(path)] else [])
    ensures NoRecords(TelegramAttempt(path, lookupError, sendError))
  {
    var failure := FailureNote(TelegramFailedNote, if lookupError.Some? then lookupError else sendError);
    var rest := if lookupError.Some? then failure else [TelegramAlert(path)] + failure;
    NoAlertsHasNone(failure);
    if lookupError.None? {
      AlertsCons(TelegramAlert(path), failure);
      NoRecordsCons(TelegramAlert(path), failure);
    }
    AlertsCons(LocationLookup, rest);
    AlertsCons(Note(TelegramNote), [LocationLookup] + rest);
    NoRecordsCons(LocationLookup, rest);
    NoRecordsCons(Note(TelegramNote), [LocationLookup] + rest);
  }

  /** The alerts of the intruder branch: email, then the location lookup, then Telegram unless the lookup
      failed, whatever the email attempt did. */
  lemma AlertTraceAlerts(path: string, env: RunEnv)
    ensures Alerts(AlertTrace(path, env)) == [EmailAlert(path), LocationLookup] + (if env.locationError.None? then [TelegramAlert(path)] else [])
    ensures NoRecords(AlertTrace(path, env))
  {
    EmailAttemptAlerts(path, env.emailError);
    TelegramAttemptAlerts(path, env.locationError, env.telegramError);
    AlertsConcat(EmailAttempt(path, env.emailError), TelegramAttempt(path, env.locationError, env.telegramError));
  }

  /** What the decisive result records and sends: one line for a confident result whose local write
      succeeds, with the status its label calls for, and alerts only when the run returns `intruder`. */
  lemma DecideRecords(r: PredictWithEmbed.FrameResult, env: RunEnv, fmt: real -> string)
    requires r.score.Some?
    ensures var (o, t) := Decide(r, env, fmt);
            && AppendedLines(t) == (if Below(r.score.value, Threshold) && env.localError.None?
                                    then [FormatLine(env.timestamp, StatusFor(r.name), r.path)] else [])
            && Alerts(t) == (if o == Return(Intruder)
                             then [EmailAlert(r.path), LocationLookup] + (if env.locationError.None? then [TelegramAlert(r.path)] else [])
                             else [])
  {
    if Below(r.score.value, Threshold) {
      ConfidentRecords(r, env, fmt);
    } else {
      UnsureRecords(r, env, fmt);
    }
  }

  lemma ConfidentRecords(r: PredictWithEmbed.FrameResult, env: RunEnv, fmt: real -> string)
    requires r.score.Some? && Below(r.score.value, Threshold)
    ensures var (o, t) := Decide(r, env, fmt);
            && AppendedLines(t) == (if env.localError.None? then [FormatLine(env.timestamp, StatusFor(r.name), r.path)] else [])
            && Alerts(t) == (if o == Return(Intruder)
                             then [EmailAlert(r.path), LocationLookup] + (if env.locationError.None? then [TelegramAlert(r.path)] else [])
                             else [])
  {
    var logged := LogEvent(env.timestamp, StatusFor(r.name), r.path, env.localError, env.dbError).1;
    var head, rest := DecisionShape(r, env, fmt);
    if Decide(r, env, fmt).0 == Return(Intruder) {
      AlertTraceAlerts(r.path, env);
      NoRecordsAppendsNone(AlertTrace(r.path, env));
    }
    LoggedThenQuiet(head, logged, rest);
  }

  /** An unsure decision is a single note. */
  lemma UnsureRecords(r: PredictWithEmbed.FrameResult, env: RunEnv, fmt: real -> string)
    requires r.score.Some? && !Below(r.score.value, Threshold)
    ensures Decide(r, env, fmt).0 == Return(Inconclusive)
    ensures AppendedLines(Decide(r, env, fmt).1) == [] && Alerts(Decide(r, env, fmt).1) == []
  {
    var head := if IsVerifiedName(r.name) then Note(AuthorizedUnsureNote + Shown(r, fmt)) else Note(IntruderUnsureNote + Shown(r, fmt));
    assert Decide(r, env, fmt).1 == [head];
    Single(head);
  }

  /** A confident decision is a note, the `log_event` effects, and the alert trace when it returns
      `intruder`. */
  lemma DecisionShape(r: PredictWithEmbed.FrameResult, env: RunEnv, fmt: real -> string) returns (head: Event, rest: seq<Event>)
    requires r.score.Some? && Below(r.score.value, Threshold)
    ensures head.Note?
    ensures rest == if Decide(r, env, fmt).0 == Return(Intruder) then AlertTrace(r.path, env) else []
    ensures Decide(r, env, fmt).1 == [head] + LogEvent(env.timestamp, StatusFor(r.name), r.path, env.localError, env.dbError).1 + rest
  {
    head := if IsVerifiedName(r.name) then Note(AuthorizedNote + Shown(r, fmt)) else Note(IntruderNote + Shown(r, fmt));
    var (o, t) := Decide(r, env, fmt);
    var logged := LogEvent(env.timestamp, StatusFor(r.name), r.path, env.localError, env.dbError).1;
    rest := if o == Return(Intruder) then AlertTrace(r.path, env) else [];
    if o != Return(Intruder) {
      assert t == [head] + logged + [];
    }
  }

  /** A note, the `log_event` effects, then `rest`: the lines are those `log_event` appends and those of
      `rest`, and the alerts are those of `rest`. */
  lemma LoggedThen(head: Event, logged: seq<Event>, rest: seq<Event>)
    requires head.Note? && NoAlerts(logged)
    ensures AppendedLines([head] + logged + rest) == AppendedLines(logged) + AppendedLines(rest)
    ensures Alerts([head] + logged + rest) == Alerts(rest)
  {
    Single(head);
    NoAlertsHasNone(logged);
    AppendedLinesConcat([head], logged);
    AlertsConcat([head], logged);
    AppendedLinesConcat([head] + logged, rest);
    AlertsConcat([head] + logged, rest);
  }

  /** The same, when `rest` appends no line. */
  lemma LoggedThenQuiet(head: Event, logged: seq<Event>, rest: seq<Event>)
    requires head.Note? && NoAlerts(logged) && AppendedLines(rest) == []
    ensures AppendedLines([head] + logged + rest) == AppendedLines(logged)
    ensures Alerts([head] + logged + rest) == Alerts(rest)
  {
    LoggedThen(head, logged, rest);
    AppendEmpty(AppendedLines(logged));
  }

  /** The capture burst neither records nor alerts. */
  lemma StartIsQuiet(env: RunEnv)
    ensures NoAlerts(Start(env)) && NoRecords(Start(env))
    ensures Alerts(Start(env)) == [] && AppendedLines(Start(env)) == []
  {
    CaptureOnlyTouchesCamera(env.camera, NumImages, CaptureDelay);
    NoAlertsHasNone(Start(env));
    NoRecordsAppendsNone(Start(env));
  }

  /** An empty capture returns `none` at once: no line is logged, no alert is sent. */
  lemma EmptyCaptureIsNone<E>(p: Predictor<E>, env: RunEnv, fmt: real -> string)
    requires Capture(env.camera, NumImages, CaptureDelay).0 == []
    ensures var (o, t) := RunPipeline(p, env, fmt);
            && o == Return(Inconclusive) && NoRecords(t) && NoAlerts(t)
            && AppendedLines(t) == [] && t[|t| - 1] == Note(NoImagesNote)
  {
    StartIsQuiet(env);
    var t := RunPipeline(p, env, fmt).1;
    NoAlertsHasNone(t);
    NoRecordsAppendsNone(t);
  }

  /** A run whose results hold a scored one is decided by the first of them, after the capture burst. */
  lemma PipelineDecidedBy<E>(p: Predictor<E>, env: RunEnv, fmt: real -> string, i: int)
    requires FirstScoredAt(Results(p, env), i)
    ensures RunPipeline(p, env, fmt) == (Decide(Results(p, env)[i], env, fmt).0, Start(env) + Decide(Results(p, env)[i], env, fmt).1)
  {
    ConcludeDecides(Results(p, env), env, fmt);
  }

  /** A run with no scored result returns `none` without logging or alerting. */
  lemma PipelineUnscored<E>(p: Predictor<E>, env: RunEnv, fmt: real -> string)
    requires forall k :: 0 <= k < |Results(p, env)| ==> Results(p, env)[k].score.None?
    ensures var (o, t) := RunPipeline(p, env, fmt);
            o == Return(Inconclusive) && NoRecords(t) && NoAlerts(t)
  {
    ConcludeDecides(Results(p, env), env, fmt);
    StartIsQuiet(env);
  }

  /** A run decided by result `i`: its outcome is that result's, the lines and alerts are those of
      the decision, and the capture burst adds none. */
  lemma DecidedRun<E>(p: Predictor<E>, env: RunEnv, fmt: real -> string, i: int)
    requires FirstScoredAt(Results(p, env), i)
    ensures var r := Results(p, env)[i];
            var (o, t) := RunPipeline(p, env, fmt);
            var confident := Below(r.score.value, Threshold);
            var logged := env.localError.None? && env.dbError.None?;
            && (o == Return(Authorized) <==> IsVerifiedName(r.name) && confident && logged)
            && (o == Return(Intruder) <==> !IsVerifiedName(r.name) && confident && logged)
            && AppendedLines(t) == (if confident && env.localError.None? then [FormatLine(env.timestamp, StatusFor(r.name), r.path)] else [])
            && Alerts(t) == (if o == Return(Intruder)
                             then [EmailAlert(r.path), LocationLookup] + (if env.locationError.None? then [TelegramAlert(r.path)] else [])
                             else [])
  {
    var r := Results(p, env)[i];
    PipelineDecidedBy(p, env, fmt, i);
    DecideOutcome(r, env, fmt);
    DecideRecords(r, env, fmt);
    StartIsQuiet(env);
    QuietPrefix(Start(env), Decide(r, env, fmt).1);
  }

  /** `run_pipeline` returns `"authorized"` exactly when the first scored frame carries a label containing
      "authorized" with a score below 0.4 and `log_event` succeeds; then one `AUTHORIZED` line is logged
      for that frame and no alert is sent. */
  lemma AuthorizedExactlyWhen<E>(p: Predictor<E>, env: RunEnv, fmt: real -> string)
    ensures RunPipeline(p, env, fmt).0 == Return(Authorized) <==>
              exists i :: FirstScoredAt(Results(p, env), i) && IsVerifiedName(Results(p, env)[i].name)
                       && Below(Results(p, env)[i].score.value, Threshold) && env.localError.None? && env.dbError.None?
    ensures RunPipeline(p, env, fmt).0 == Return(Authorized) ==>
              exists i :: FirstScoredAt(Results(p, env), i)
                       && AppendedLines(RunPipeline(p, env, fmt).1) == [FormatLine(env.timestamp, AuthorizedStatus, Results(p, env)[i].path)]
                       && Alerts(RunPipeline(p, env, fmt).1) == []
  {
    var results := Results(p, env);
    FirstScoredOrUnscored(results);
    if i :| FirstScoredAt(results, i) {
      DecidedRun(p, env, fmt, i);
      forall j | FirstScoredAt(results, j) ensures j == i {
        FirstScoredUnique(results, i, j);
      }
    } else {
      PipelineUnscored(p, env, fmt);
    }
  }

  /** `run_pipeline` returns `"intruder"` exactly when the first scored frame has a label without
      "authorized", a score below 0.4 and `log_event` succeeds; then one `ALERT` line is logged for that
      frame, and the alerts are email, location lookup and Telegram (skipped when the lookup fails). */
  lemma IntruderExactlyWhen<E>(p: Predictor<E>, env: RunEnv, fmt: real -> string)
    ensures RunPipeline(p, env, fmt).0 == Return(Intruder) <==>
              exists i :: FirstScoredAt(Results(p, env), i) && !IsVerifiedName(Results(p, env)[i].name)
                       && Below(Results(p, env)[i].score.value, Threshold) && env.localError.None? && env.dbError.None?
    ensures RunPipeline(p, env, fmt).0 == Return(Intruder) ==>
              exists i :: FirstScoredAt(Results(p, env), i)
                       && AppendedLines(RunPipeline(p, env, fmt).1) == [FormatLine(env.timestamp, AlertStatus, Results(p, env)[i].path)]
                       && Alerts(RunPipeline(p, env, fmt).1) ==
                            [EmailAlert(Results(p, env)[i].path), LocationLookup]
                            + (if env.locationError.None? then [TelegramAlert(Results(p, env)[i].path)] else [])
  {
    var results := Results(p, env);
    FirstScoredOrUnscored(results);
    if i :| FirstScoredAt(results, i) {
      DecidedRun(p, env, fmt, i);
      forall j | FirstScoredAt(results, j) ensures j == i {
        FirstScoredUnique(results, i, j);
      }
    } else {
      PipelineUnscored(p, env, fmt);
    }
  }

  /** The `ALERT` line is written before any alert is attempted. */
  lemma LineBeforeAlerts(r: PredictWithEmbed.FrameResult, env: RunEnv, fmt: real -> string)
    requires r.score.Some? && Decide(r, env, fmt).0 == Return(Intruder)
    ensures var t := Decide(r, env, fmt).1;
            && t[1] == LineAppended(FormatLine(env.timestamp, AlertStatus, r.path))
            && forall j :: 0 <= j < |t| && IsAlert(t[j]) ==> 1 < j
  {
  }

  /** Every `none` outcome returns without logging and without alerting. */
  lemma NoneNeverLogs<E>(p: Predictor<E>, env: RunEnv, fmt: real -> string)
    requires RunPipeline(p, env, fmt).0 == Return(Inconclusive)
    ensures NoRecords(RunPipeline(p, env, fmt).1) && NoAlerts(RunPipeline(p, env, fmt).1)
  {
    var results := Results(p, env);
    FirstScoredOrUnscored(results);
    StartIsQuiet(env);
    if Capture(env.camera, NumImages, CaptureDelay).0 == [] {
      EmptyCaptureIsNone(p, env, fmt);
    } else if i :| FirstScoredAt(results, i) {
      PipelineDecidedBy(p, env, fmt, i);
      DecideOutcome(results[i], env, fmt);
    } else {
      PipelineUnscored(p, env, fmt);
    }
  }

  /** A verdict with a label containing "authorized" always has a score below the threshold, so the
      "Authorized person detected, but score above threshold" branch is never taken. */
  lemma AuthorizedAboveThresholdUnreachable<E>(path: string, embedding: Option<E>, db: seq<Person<E>>, dist: (E, E) -> real)
    ensures var v := PredictWithEmbed.Verdict(path, embedding, db, dist);
            v.score.Some? && IsVerifiedName(v.name) ==> Below(v.score.value, Threshold)
  {
    var v := PredictWithEmbed.Verdict(path, embedding, db, dist);
    if v.score.Some? && !Below(v.score.value, Threshold) {
      IntruderIsNotVerified();
    }
  }

  lemma IntruderIsNotVerified()
    ensures !IsVerifiedName("Intruder")
  {
    assert |Lower("Intruder")| < |Lower(VerifiedLabel)|;
  }

  /** When no enrolled name contains "authorized" (case-insensitively), `run_pipeline` never returns
      `"authorized"`: a confident match of an enrolled person is treated as an intruder. */
  lemma PlainNamesNeverAuthorized<E>(p: Predictor<E>, env: RunEnv, fmt: real -> string)
    requires forall k :: 0 <= k < |p.db| ==> !IsVerifiedName(p.db[k].name)
    ensures RunPipeline(p, env, fmt).0 != Return(Authorized)
  {
    var results := Results(p, env);
    AuthorizedExactlyWhen(p, env, fmt);
    forall i | FirstScoredAt(results, i) && Below(results[i].score.value, Threshold)
      ensures !IsVerifiedName(results[i].name)
    {
      var paths := Capture(env.camera, NumImages, CaptureDelay).0;
      var e := p.embed(paths[i]);
      assert results[i] == PredictWithEmbed.Verdict(paths[i], e, p.db, p.dist);
      FlattenNames(p.db);
      var j :| 0 <= j < |Flatten(p.db)| && Flatten(p.db)[j].name == results[i].name;
      var k :| 0 <= k < |p.db| && p.db[k].name == Flatten(p.db)[j].name;
    }
  }

  /** `wait_and_run_pipeline(log_callback)`: `None` while the wait is still blocked; otherwise the result
      (or the exception of the run, which leaves the port open) and the effects. */
  function WaitAndRun<E>(p: Predictor<E>, s: Session, env: RunEnv, fmt: real -> string): (Option<Outcome<PipelineResult>>, seq<Event>) {
    var (w, heard) := Listen(s);
    var start := [Note(FlaskStartNote)] + heard;
    match w
    case Blocked => (None, start)
    case NoHandle => (Some(Return(NoTrigger)), start + [Note(NoTriggerNote)])
    case Triggered =>
      var (o, t) := RunPipeline(p, env, fmt);
      if o.Raise? then (Some(o), start + t) else (Some(o), start + t + [PortClosed])
  }

  /** Without a handle the single-shot run returns `"no_trigger"` and never touches the camera; with one it
      returns what the pipeline returns and then closes the port, exactly once and last. */
  lemma WaitAndRunContract<E>(p: Predictor<E>, s: Session, env: RunEnv, fmt: real -> string)
    ensures var (r, t) := WaitAndRun(p, s, env, fmt);
            && (r.None? <==> Listen(s).0 == Blocked)
            && (r == Some(Return(NoTrigger)) <==> Listen(s).0 == NoHandle)
            && (Listen(s).0 != Triggered ==> forall e :: e in t ==> !e.FrameSaved? && !e.CameraReleased? && !e.PortClosed?)
            && (Listen(s).0 == Triggered ==> r == Some(RunPipeline(p, env, fmt).0))
            && (Listen(s).0 == Triggered && r.value.Return? ==> t[|t| - 1] == PortClosed && forall j :: 0 <= j < |t| - 1 ==> t[j] != PortClosed)
  {
    if Listen(s).0 == Triggered {
      TriggeredWait(p, s, env, fmt);
    } else {
      UntriggeredWait(p, s, env, fmt);
    }
  }

  /** A wait that ends without a handle, or never ends, prints and logs only. */
  lemma UntriggeredWait<E>(p: Predictor<E>, s: Session, env: RunEnv, fmt: real -> string)
    requires Listen(s).0 != Triggered
    ensures var (r, t) := WaitAndRun(p, s, env, fmt);
            && (r.None? <==> Listen(s).0 == Blocked)
            && (r == Some(Return(NoTrigger)) <==> Listen(s).0 == NoHandle)
            && forall e :: e in t ==> !e.FrameSaved? && !e.CameraReleased? && !e.PortClosed?
  {
    ListenEvents(s);
  }

  /** A triggered wait returns what the pipeline returns and, unless it raised, closes the port last. */
  lemma TriggeredWait<E>(p: Predictor<E>, s: Session, env: RunEnv, fmt: real -> string)
    requires Listen(s).0 == Triggered
    ensures var (r, t) := WaitAndRun(p, s, env, fmt);
            && r == Some(RunPipeline(p, env, fmt).0)
            && (r.value.Return? ==> t[|t| - 1] == PortClosed && forall j :: 0 <= j < |t| - 1 ==> t[j] != PortClosed)
  {
    var (o, run) := RunPipeline(p, env, fmt);
    if o.Return? {
      ListenEvents(s);
      RunLeavesPort(p, env, fmt);
      ClosedLast([Note(FlaskStartNote)] + Listen(s).1 + run);
    }
  }

  /** Closing the port after a trace that never closes it closes it exactly once, last. */
  lemma ClosedLast(body: seq<Event>)
    requires forall e :: e in body ==> !TouchesPort(e) || e.PortOpened?
    ensures var t := body + [PortClosed];
            t[|t| - 1] == PortClosed && forall j :: 0 <= j < |t| - 1 ==> t[j] != PortClosed
  {
    var t := body + [PortClosed];
    forall j | 0 <= j < |t| - 1 ensures t[j] != PortClosed {
      assert t[j] == body[j] && body[j] in body;
    }
  }

  /** An event on the serial port. */
  predicate TouchesPort(e: Event) {
    e.PortOpened? || e.PortWritten? || e.PortClosed?
  }

  lemma DecideLeavesPort(r: PredictWithEmbed.FrameResult, env: RunEnv, fmt: real -> string)
    requires r.score.Some?
    ensures forall e :: e in Decide(r, env, fmt).1 ==> !TouchesPort(e)
  {
    var status := if IsVerifiedName(r.name) then AuthorizedStatus else AlertStatus;
    var logged := LogEvent(env.timestamp, status, r.path, env.localError, env.dbError).1;
    assert forall e :: e in logged ==> !TouchesPort(e);
    AlertTraceLeavesPort(r.path, env);
  }

  lemma AlertTraceLeavesPort(path: string, env: RunEnv)
    ensures forall e :: e in AlertTrace(path, env) ==> !TouchesPort(e)
  {
    assert forall e :: e in EmailAttempt(path, env.emailError) ==> !TouchesPort(e);
    assert forall e :: e in TelegramAttempt(path, env.locationError, env.telegramError) ==> !TouchesPort(e);
  }

  /** A run of the pipeline neither opens, writes nor closes the port: that is left to its caller. */
  lemma RunLeavesPort<E>(p: Predictor<E>, env: RunEnv, fmt: real -> string)
    ensures forall e :: e in RunPipeline(p, env, fmt).1 ==> !TouchesPort(e)
  {
    CaptureOnlyTouchesCamera(env.camera, NumImages, CaptureDelay);
    var results := Results(p, env);
    FirstScoredOrUnscored(results);
    if Capture(env.camera, NumImages, CaptureDelay).0 != [] {
      if i :| FirstScoredAt(results, i) {
        PipelineDecidedBy(p, env, fmt, i);
        DecideLeavesPort(results[i], env, fmt);
      } else {
        ConcludeDecides(results, env, fmt);
      }
    }
  }

  /** One pass of the `__main__` loop: the trigger session, the run's environment, the session of the
      resume handshake's own `wait_for_trigger()`, and the exception `ser.write` raises, if any. */
  datatype Cycle = Cycle(trigger: Session, run: RunEnv, resume: Session, writeError: Option<string>)

  /** How the program ends: still waiting in `wait_for_trigger` when the cycles run out, `break` after a
      missing handle, `break` after a decisive result, or an exception out of `run_pipeline`. */
  datatype Exit = StillRunning | Stopped | Handled(result: PipelineResult) | Crashed(error: string)

  /** The resume handshake: wait for another trigger, write `resume`, pause and close; any exception is
      printed and swallowed. The flag says the second wait is still blocked. */
  function Resume(c: Cycle): (bool, seq<Event>) {
    var (w, heard) := Listen(c.resume);
    match w
    case Blocked => (true, heard)
    case NoHandle => (false, heard + [Printed(ResumeNoPortMsg)])
    case Triggered =>
      match c.writeError
      case Some(e) => (false, heard + [Printed(ResumeFailedMsg + e)])
      case None => (false, heard + [PortWritten(ResumeCommand), Slept(0.5), PortClosed])
  }

  /** What a pass does once `run_pipeline` has returned `o` with effects `t`: an exception ends the
      program, a decisive result closes the port and ends it, and `"none"` closes the port and attempts
      the resume handshake. `None` when the loop goes round again. */
  function Handle(o: Outcome<PipelineResult>, t: seq<Event>, c: Cycle): (Option<Exit>, seq<Event>) {
    if o.Raise? then (Some(Crashed(o.error)), t)
    else if o.value.Intruder? || o.value.Authorized? then
      (Some(Handled(o.value)), t + [PortClosed, Printed(HandledMsg)])
    else
      var (blocked, resumed) := Resume(c);
      var t' := t + [PortClosed, Printed(SendingResumeMsg)] + resumed;
      if blocked then (Some(StillRunning), t') else (None, t' + [Printed(WaitingMsg)])
  }

  /** One pass of the loop: `None` when it goes round again, else how the program ends. */
  function Step<E>(p: Predictor<E>, c: Cycle, fmt: real -> string): (Option<Exit>, seq<Event>) {
    var (w, heard) := Listen(c.trigger);
    match w
    case Blocked => (Some(StillRunning), heard)
    case NoHandle => (Some(Stopped), heard + [Printed(ExitingMsg)])
    case Triggered =>
      var (o, t) := RunPipeline(p, c.run, fmt);
      var (x, rest) := Handle(o, t, c);
      (x, heard + rest)
  }

  /** The passes of the loop, one per cycle. */
  function Passes<E>(p: Predictor<E>, cycles: seq<Cycle>, fmt: real -> string): (ps: seq<(Option<Exit>, seq<Event>)>)
    ensures |ps| == |cycles|
    ensures forall i :: 0 <= i < |cycles| ==> ps[i] == Step(p, cycles[i], fmt)
  {
    seq(|cycles|, i requires 0 <= i < |cycles| => Step(p, cycles[i], fmt))
  }

  /** The loop from pass `k` on: it stops at the first pass that ends the program. */
  function LoopFrom(ps: seq<(Option<Exit>, seq<Event>)>, k: nat): (Exit, seq<Event>)
    requires k <= |ps|
    decreases |ps| - k
  {
    if k == |ps| then (StillRunning, [])
    else if ps[k].0.Some? then (ps[k].0.value, ps[k].1)
    else var (x, t) := LoopFrom(ps, k + 1); (x, ps[k].1 + t)
  }

  /** The whole `__main__` block. */
  function Main<E>(p: Predictor<E>, cycles: seq<Cycle>, fmt: real -> string): (Exit, seq<Event>) {
    var (x, t) := LoopFrom(Passes(p, cycles, fmt), 0);
    (x, [Printed(StartingMsg)] + t)
  }

  /** The resume handshake: `ser = wait_for_trigger()`, then `write`, `sleep` and `close`, inside a `try`
      that prints and swallows the exception. */
  method SendResume(c: Cycle) returns (blocked: bool, trace: seq<Event>)
    ensures (blocked, trace) == Resume(c)
    ensures blocked <==> Listen(c.resume).0 == Blocked
    ensures PortWritten(ResumeCommand) in trace <==> Listen(c.resume).0 == Triggered && c.writeError.None?
  {
    ResumeContract(c);
    var w, heard := WaitForTrigger(c.resume);
    if w == Blocked {
      return true, heard;
    }
    if w == NoHandle {
      return false, heard + [Printed(ResumeNoPortMsg)];
    }
    if c.writeError.Some? {
      return false, heard + [Printed(ResumeFailedMsg + c.writeError.value)];
    }
    return false, heard + [PortWritten(ResumeCommand), Slept(0.5), PortClosed];
  }

  /** The rest of the `while True` body once `run_pipeline` has returned. */
  method AfterRun(o: Outcome<PipelineResult>, t: seq<Event>, c: Cycle) returns (x: Option<Exit>, trace: seq<Event>)
    ensures (x, trace) == Handle(o, t, c)
    ensures o != Return(NoTrigger) ==> (x.None? <==> o == Return(Inconclusive) && Listen(c.resume).0 != Blocked)
    ensures o != Return(NoTrigger) ==> forall r :: x == Some(Handled(r)) <==> o == Return(r) && (r.Intruder? || r.Authorized?)
    ensures forall e :: x == Some(Crashed(e)) <==> o == Raise(e)
    ensures o.Return? ==> |trace| > |t| && trace[|t|] == PortClosed
  {
    if o != Return(NoTrigger) {
      HandleOutcome(o, t, c);
    }
    HandleEffects(o, t, c);
    if o.Raise? {
      return Some(Crashed(o.error)), t;
    }
    if o.value.Intruder? || o.value.Authorized? {
      return Some(Handled(o.value)), t + [PortClosed, Printed(HandledMsg)];
    }
    var blocked, resumed := SendResume(c);
    trace := t + [PortClosed, Printed(SendingResumeMsg)] + resumed;
    if blocked {
      return Some(StillRunning), trace;
    }
    return None, trace + [Printed(WaitingMsg)];
  }

  /** One pass of the `while True` body. */
  method Pass<E>(p: Predictor<E>, c: Cycle, fmt: real -> string) returns (x: Option<Exit>, trace: seq<Event>)
    ensures (x, trace) == Step(p, c, fmt)
    ensures x == Some(Stopped) <==> Listen(c.trigger).0 == NoHandle
    ensures x.None? <==> Listen(c.trigger).0 == Triggered && RunPipeline(p, c.run, fmt).0 == Return(Inconclusive)
                         && Listen(c.resume).0 != Blocked
    ensures PortWritten(ResumeCommand) in trace ==> Listen(c.resume).0 == Triggered && c.writeError.None?
  {
    StepContract(p, c, fmt);
    var w, heard := WaitForTrigger(c.trigger);
    if w == Blocked {
      return Some(StillRunning), heard;
    }
    if w == NoHandle {
      return Some(Stopped), heard + [Printed(ExitingMsg)];
    }
    var run := RunPipeline(p, c.run, fmt);
    var rest;
    x, rest := AfterRun(run.0, run.1, c);
    trace := heard + rest;
  }

  /** The `while True` loop of `__main__`. */
  method DetectionLoop<E>(p: Predictor<E>, cycles: seq<Cycle>, fmt: real -> string) returns (exit: Exit, trace: seq<Event>)
    ensures (exit, trace) == Main(p, cycles, fmt)
  {
    ghost var ps := Passes(p, cycles, fmt);
    ghost var goal := Main(p, cycles, fmt);
    trace := [Printed(StartingMsg)];
    var k := 0;
    while k < |cycles|
      invariant k <= |cycles|
      invariant goal == (LoopFrom(ps, k).0, trace + LoopFrom(ps, k).1)
    {
      var x, t := Pass(p, cycles[k], fmt);
      assert ps[k] == (x, t);
      LoopStep(ps, k, trace);
      trace := trace + t;
      if x.Some? {
        return x.value, trace;
      }
      k := k + 1;
    }
    assert trace + [] == trace;
    return StillRunning, trace;
  }

  /** One pass of the loop after the passes before it. */
  lemma LoopStep(ps: seq<(Option<Exit>, seq<Event>)>, k: nat, before: seq<Event>)
    requires k < |ps|
    ensures ps[k].0.Some? ==> LoopFrom(ps, k) == (ps[k].0.value, ps[k].1)
    ensures ps[k].0.None? ==> (LoopFrom(ps, k).0 == LoopFrom(ps, k + 1).0
                               && before + LoopFrom(ps, k).1 == (before + ps[k].1) + LoopFrom(ps, k + 1).1)
  {
  }

  /** The handshake's wait blocks exactly when `wait_for_trigger` does, and `resume` is written exactly
      when a second trigger arrives and the write succeeds. */
  lemma ResumeContract(c: Cycle)
    ensures Resume(c).0 <==> Listen(c.resume).0 == Blocked
    ensures PortWritten(ResumeCommand) in Resume(c).1 <==> Listen(c.resume).0 == Triggered && c.writeError.None?
  {
    ListenContract(c.resume);
  }

  /** After the run: the loop goes round again exactly when the run returned `none` and the resume
      handshake's wait ended, and it ends as handled exactly on a decisive result. */
  lemma HandleOutcome(o: Outcome<PipelineResult>, t: seq<Event>, c: Cycle)
    requires o != Return(NoTrigger)
    ensures var x := Handle(o, t, c).0;
            && (x.None? <==> o == Return(Inconclusive) && Listen(c.resume).0 != Blocked)
            && (forall r :: x == Some(Handled(r)) <==> o == Return(r) && (r.Intruder? || r.Authorized?))
            && (forall e :: x == Some(Crashed(e)) <==> o == Raise(e))
            && x != Some(Stopped)
  {
    ResumeContract(c);
  }

  /** After the run: the port is closed right after the run's effects whenever the run returned, and
      `resume` is written only after a second trigger and a successful write. */
  lemma HandleEffects(o: Outcome<PipelineResult>, t: seq<Event>, c: Cycle)
    ensures var rest := Handle(o, t, c).1;
            && (o.Return? ==> |rest| > |t| && rest[|t|] == PortClosed)
            && (PortWritten(ResumeCommand) in rest ==> PortWritten(ResumeCommand) in t || (Listen(c.resume).0 == Triggered && c.writeError.None?))
  {
    ResumeContract(c);
  }

  /** A pass goes round again exactly when a trigger arrives, the run returns `none`, and the resume
      handshake's wait ends; a decisive result ends the program as handled, a missing handle stops it.
      `resume` is written only after a second trigger. */
  lemma StepContract<E>(p: Predictor<E>, c: Cycle, fmt: real -> string)
    ensures var (x, t) := Step(p, c, fmt);
            && (x.None? <==> Listen(c.trigger).0 == Triggered && RunPipeline(p, c.run, fmt).0 == Return(Inconclusive)
                             && Listen(c.resume).0 != Blocked)
            && (x == Some(Stopped) <==> Listen(c.trigger).0 == NoHandle)
            && (forall r :: (x == Some(Handled(r)) <==>
                               Listen(c.trigger).0 == Triggered && RunPipeline(p, c.run, fmt).0 == Return(r) && (r.Intruder? || r.Authorized?)))
            && (PortWritten(ResumeCommand) in t ==> Listen(c.resume).0 == Triggered && c.writeError.None?)
  {
    ListenContract(c.trigger);
    var (w, heard) := Listen(c.trigger);
    if w == Triggered {
      var run := RunPipeline(p, c.run, fmt);
      var (x, rest) := Handle(run.0, run.1, c);
      assert Step(p, c, fmt) == (x, heard + rest);
      RunLeavesPort(p, c.run, fmt);
      HandleOutcome(run.0, run.1, c);
      HandleEffects(run.0, run.1, c);
      assert PortWritten(ResumeCommand) !in heard;
    }
  }

  /** The program ends with the first pass that does not go round again. */
  lemma {:induction false} LoopEndsAtFirstExit(ps: seq<(Option<Exit>, seq<Event>)>, k: nat, j: nat)
    requires k <= j < |ps|
    requires forall m :: k <= m < j ==> ps[m].0.None?
    requires ps[j].0.Some?
    ensures LoopFrom(ps, k).0 == ps[j].0.value
    decreases j - k
  {
    if k < j {
      LoopEndsAtFirstExit(ps, k + 1, j);
    }
  }

  /** While every pass goes round again, the program is still waiting when the cycles run out. */
  lemma {:induction false} LoopRunsOut(ps: seq<(Option<Exit>, seq<Event>)>, k: nat)
    requires k <= |ps|
    requires forall m :: k <= m < |ps| ==> ps[m].0.None?
    ensures LoopFrom(ps, k).0 == StillRunning
    decreases |ps| - k
  {
    if k < |ps| {
      LoopRunsOut(ps, k + 1);
    }
  }

  /** The program ends as the first pass that does not go round again says: stopped for a missing
      handle, handled only for `"intruder"` or `"authorized"`, crashed for an exception out of the run. */
  lemma MainExit<E>(p: Predictor<E>, cycles: seq<Cycle>, fmt: real -> string, j: nat)
    requires j < |cycles|
    requires forall m :: 0 <= m < j ==> Step(p, cycles[m], fmt).0.None?
    requires Step(p, cycles[j], fmt).0.Some?
    ensures Main(p, cycles, fmt).0 == Step(p, cycles[j], fmt).0.value
    ensures Main(p, cycles, fmt).0.Handled? ==> (Main(p, cycles, fmt).0.result.Intruder? || Main(p, cycles, fmt).0.result.Authorized?)
  {
    LoopEndsAtFirstExit(Passes(p, cycles, fmt), 0, j);
    StepContract(p, cycles[j], fmt);
  }
}
