/** The observable side effects of the system, recorded in the order they happen. Every call into a
    collaborator the model does not contain (camera, serial port, notifiers, database) is one event. */
module Effects {

  datatype Event =
    | Note(text: string)                              // one `log_callback(msg)` message
    | Printed(text: string)                           // one `print(msg)` that bypasses the log callback
    | FrameSaved(path: string)                        // `cv2.imwrite` of one captured frame
    | Slept(seconds: real)                            // `time.sleep`
    | CameraReleased                                  // `cap.release()`
    | PortOpened                                      // `serial.Serial(...)` succeeded
    | PortWritten(data: string)                       // `ser.write(data)`
    | PortClosed                                      // `ser.close()`
    | LineAppended(line: string)                      // one line written to the local detections log
    | RowInserted(timestamp: string, status: string, path: string)  // one `log_detection_to_db` call
    | EmailAlert(path: string)                        // one `send_alert(path)` call
    | LocationLookup                                  // one `send_tg_location()` call
    | TelegramAlert(path: string)                     // one `send_telegram_alert(path, location)` call
    | TgMessage(text: string)                         // one `send_tg_message(text)` call
    | TgPhoto(path: string, caption: string)          // one `send_tg_photo(path, caption)` call

  /** The event is a call to one of the notification channels. */
  predicate IsAlert(e: Event) {
    e.EmailAlert? || e.LocationLookup? || e.TelegramAlert? || e.TgMessage? || e.TgPhoto?
  }

  /** The event writes a detection record to the local log or to the database. */
  predicate IsRecordWrite(e: Event) {
    e.LineAppended? || e.RowInserted?
  }

  /** The lines the first `n` events of a trace append to the local detections log, in order. */
  function LinesTo(t: seq<Event>, n: nat): (lines: seq<string>)
    requires n <= |t|
    ensures |lines| <= n
  {
    if n == 0 then [] else LinesTo(t, n - 1) + (if t[n - 1].LineAppended? then [t[n - 1].line] else [])
  }

  /** The lines a trace appends to the local detections log, in order. */
  function AppendedLines(t: seq<Event>): (lines: seq<string>)
    ensures |lines| <= |t|
  {
    LinesTo(t, |t|)
  }

  /** The messages the first `n` events of a trace hand to the log callback, in order. */
  function NotesTo(t: seq<Event>, n: nat): (msgs: seq<string>)
    requires n <= |t|
    ensures |msgs| <= n
  {
    if n == 0 then [] else NotesTo(t, n - 1) + (if t[n - 1].Note? then [t[n - 1].text] else [])
  }

  /** The messages a trace hands to its log callback, in order. */
  function Notes(t: seq<Event>): (msgs: seq<string>)
    ensures |msgs| <= |t|
  {
    NotesTo(t, |t|)
  }

  /** The notification calls among the first `n` events of a trace, in order. */
  function AlertsTo(t: seq<Event>, n: nat): (calls: seq<Event>)
    requires n <= |t|
    ensures |calls| <= n
  {
    if n == 0 then [] else AlertsTo(t, n - 1) + (if IsAlert(t[n - 1]) then [t[n - 1]] else [])
  }

  /** The notification calls of a trace, in order. */
  function Alerts(t: seq<Event>): (calls: seq<Event>)
    ensures |calls| <= |t|
  {
    AlertsTo(t, |t|)
  }

  /** The filters look only at the events they are given: two traces that agree on their first `n`
      events have the same filtered prefixes, and the filtered prefixes of `a + b` that reach into `b`
      are those of `a` followed by those of `b`. */
  lemma {:induction false} LinesAgree(s: seq<Event>, u: seq<Event>, n: nat)
    requires n <= |s| && n <= |u|
    requires forall i :: 0 <= i < n ==> s[i] == u[i]
    ensures LinesTo(s, n) == LinesTo(u, n)
  {
    if n > 0 {
      LinesAgree(s, u, n - 1);
      assert s[n - 1] == u[n - 1];
    }
  }

  lemma {:induction false} LinesConcatTo(a: seq<Event>, b: seq<Event>, k: nat)
    requires k <= |b|
    ensures LinesTo(a + b, |a| + k) == LinesTo(a, |a|) + LinesTo(b, k)
  {
    if k == 0 {
      LinesAgree(a + b, a, |a|);
    } else {
      LinesConcatTo(a, b, k - 1);
      assert (a + b)[|a| + k - 1] == b[k - 1];
      var e := b[k - 1];
      var l := if e.LineAppended? then [e.line] else [];
      assert LinesTo(a, |a|) + LinesTo(b, k - 1) + l == LinesTo(a, |a|) + (LinesTo(b, k - 1) + l);
    }
  }

  lemma {:induction false} NotesAgree(s: seq<Event>, u: seq<Event>, n: nat)
    requires n <= |s| && n <= |u|
    requires forall i :: 0 <= i < n ==> s[i] == u[i]
    ensures NotesTo(s, n) == NotesTo(u, n)
  {
    if n > 0 {
      NotesAgree(s, u, n - 1);
      assert s[n - 1] == u[n - 1];
    }
  }

  lemma {:induction false} NotesConcatTo(a: seq<Event>, b: seq<Event>, k: nat)
    requires k <= |b|
    ensures NotesTo(a + b, |a| + k) == NotesTo(a, |a|) + NotesTo(b, k)
  {
    if k == 0 {
      NotesAgree(a + b, a, |a|);
    } else {
      NotesConcatTo(a, b, k - 1);
      assert (a + b)[|a| + k - 1] == b[k - 1];
      var e := b[k - 1];
      var m := if e.Note? then [e.text] else [];
      assert NotesTo(a, |a|) + NotesTo(b, k - 1) + m == NotesTo(a, |a|) + (NotesTo(b, k - 1) + m);
    }
  }

  lemma {:induction false} AlertsAgree(s: seq<Event>, u: seq<Event>, n: nat)
    requires n <= |s| && n <= |u|
    requires forall i :: 0 <= i < n ==> s[i] == u[i]
    ensures AlertsTo(s, n) == AlertsTo(u, n)
  {
    if n > 0 {
      AlertsAgree(s, u, n - 1);
      assert s[n - 1] == u[n - 1];
    }
  }

  lemma {:induction false} AlertsConcatTo(a: seq<Event>, b: seq<Event>, k: nat)
    requires k <= |b|
    ensures AlertsTo(a + b, |a| + k) == AlertsTo(a, |a|) + AlertsTo(b, k)
  {
    if k == 0 {
      AlertsAgree(a + b, a, |a|);
    } else {
      AlertsConcatTo(a, b, k - 1);
      assert (a + b)[|a| + k - 1] == b[k - 1];
      var e := b[k - 1];
      var c := if IsAlert(e) then [e] else [];
      assert AlertsTo(a, |a|) + AlertsTo(b, k - 1) + c == AlertsTo(a, |a|) + (AlertsTo(b, k - 1) + c);
    }
  }

  lemma AppendedLinesConcat(a: seq<Event>, b: seq<Event>)
    ensures AppendedLines(a + b) == AppendedLines(a) + AppendedLines(b)
  {
    LinesConcatTo(a, b, |b|);
  }

  lemma NotesConcat(a: seq<Event>, b: seq<Event>)
    ensures Notes(a + b) == Notes(a) + Notes(b)
  {
    NotesConcatTo(a, b, |b|);
  }

  lemma AlertsConcat(a: seq<Event>, b: seq<Event>)
    ensures Alerts(a + b) == Alerts(a) + Alerts(b)
  {
    AlertsConcatTo(a, b, |b|);
  }

  /** No notification channel is called. */
  predicate NoAlerts(t: seq<Event>) {
    forall e :: e in t ==> !IsAlert(e)
  }

  /** No detection record is written. */
  predicate NoRecords(t: seq<Event>) {
    forall e :: e in t ==> !IsRecordWrite(e)
  }

  lemma {:induction false} NoAlertsTo(t: seq<Event>, n: nat)
    requires n <= |t| && NoAlerts(t)
    ensures AlertsTo(t, n) == []
  {
    if n > 0 {
      NoAlertsTo(t, n - 1);
      assert t[n - 1] in t;
    }
  }

  lemma NoAlertsHasNone(t: seq<Event>)
    requires NoAlerts(t)
    ensures Alerts(t) == []
  {
    NoAlertsTo(t, |t|);
  }

  lemma {:induction false} NoRecordsTo(t: seq<Event>, n: nat)
    requires n <= |t| && NoRecords(t)
    ensures LinesTo(t, n) == []
  {
    if n > 0 {
      NoRecordsTo(t, n - 1);
      assert t[n - 1] in t;
    }
  }

  lemma NoRecordsAppendsNone(t: seq<Event>)
    requires NoRecords(t)
    ensures AppendedLines(t) == []
  {
    NoRecordsTo(t, |t|);
  }

  /** A prefix that appends no line and sends no alert leaves both filters to what follows it. */
  lemma QuietPrefix(a: seq<Event>, b: seq<Event>)
    requires AppendedLines(a) == [] && Alerts(a) == []
    ensures AppendedLines(a + b) == AppendedLines(b) && Alerts(a + b) == Alerts(b)
  {
    AppendedLinesConcat(a, b);
    AlertsConcat(a, b);
    assert [] + AppendedLines(b) == AppendedLines(b);
    assert [] + Alerts(b) == Alerts(b);
  }

  /** The alerts of a trace that starts with `x`. */
  lemma AlertsCons(x: Event, rest: seq<Event>)
    ensures Alerts([x] + rest) == (if IsAlert(x) then [x] else []) + Alerts(rest)
  {
    AlertsConcat([x], rest);
    Single(x);
  }

  /** A trace that starts with an event other than a record write, and writes no record after it. */
  lemma NoRecordsCons(x: Event, rest: seq<Event>)
    requires !IsRecordWrite(x) && NoRecords(rest)
    ensures NoRecords([x] + rest)
  {
  }

  /** The filters on a single event. */
  lemma Single(e: Event)
    ensures Alerts([e]) == if IsAlert(e) then [e] else []
    ensures AppendedLines([e]) == if e.LineAppended? then [e.line] else []
  {
  }
}
