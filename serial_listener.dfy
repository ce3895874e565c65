/** `src/serial_listener.py`: waiting for the motion sensor. The port is an input: whether
    `serial.Serial(...)` opens (or the `SerialException` it raises), then the successive results of
    `readline()`, already decoded. A read may also raise a `SerialException` or be interrupted by Ctrl+C.
    Messages the function prints are `Printed` events; the open port is the `PortOpened` event. */
module SerialListener {
  import opened Common
  import opened Text
  import opened Effects

  /** `SERIAL_PORT`. */
  const SerialPort: string := "COM3"

  /** The texts this module prints or raises. */
  const ReceivedMsg: string := "📨 Received: "
  const SerialErrorMsg: string := "❌ Serial connection error: "
  const InterruptMsg: string := "\n🚪 Exiting via Ctrl+C"
  const MotionMsg: string := "🎯 Motion detected via ESP!"
  const ListeningMsg: string := "🔌 Listening to serial port "
  const ListeningForMsg: string := " for 'motion'..."
  /** The word whose presence in a received line means motion. */
  const MotionWord: string := "motion"

  /** One `ser.readline()` as the loop sees it. */
  datatype SerialRead = Line(text: string) | ReadError(message: string) | Interrupt

  /** A listening session: `openError` is the message of the exception opening the port raises, if any. */
  datatype Session = Session(openError: Option<string>, lines: seq<SerialRead>)

  /** `"motion" in line` after `line = ....strip().lower()`. */
  predicate IsMotion(text: string) {
    Contains(Lower(Strip(text)), MotionWord)
  }

  /** A read that makes `wait_for_trigger` return: a motion line, a serial error or an interrupt. */
  predicate Ends(r: SerialRead) {
    !r.Line? || IsMotion(r.text)
  }

  /** How `wait_for_trigger()` ends: it returns the open port, it returns `None`, or it is still reading
      when the reads listed in the session run out (the real loop keeps waiting, timing out every second). */
  datatype Wait = Triggered | NoHandle | Blocked

  /** The echo of one line: `📨 Received: ...` with the stripped, lowercased text, unless that is empty. */
  function Echo(text: string): seq<Event> {
    var line := Lower(Strip(text));
    if line == "" then [] else [Printed(ReceivedMsg + line)]
  }

  /** The reads from position `i` on: how the wait ends, and what is printed. */
  function ListenFrom(lines: seq<SerialRead>, i: nat): (Wait, seq<Event>)
    requires i <= |lines|
    decreases |lines| - i
  {
    if i == |lines| then (Blocked, [])
    else match lines[i]
      case ReadError(e) => (NoHandle, [Printed(SerialErrorMsg + e)])
      case Interrupt => (NoHandle, [Printed(InterruptMsg)])
      case Line(text) =>
        if IsMotion(text) then (Triggered, Echo(text) + [Printed(MotionMsg)])
        else
          var r := ListenFrom(lines, i + 1);
          (r.0, Echo(text) + r.1)
  }

  /** `wait_for_trigger()`: how it ends, and its effects. */
  function Listen(s: Session): (Wait, seq<Event>) {
    match s.openError
    case Some(e) => (NoHandle, [Printed(SerialErrorMsg + e)])
    case None =>
      var r := ListenFrom(s.lines, 0);
      (r.0, [PortOpened, Printed(ListeningMsg + SerialPort + ListeningForMsg)] + r.1)
  }

  /** `wait_for_trigger`: opens the port, announces itself, then reads until the wait ends. */
  method WaitForTrigger(s: Session) returns (w: Wait, trace: seq<Event>)
    ensures (w, trace) == Listen(s)
  {
    if s.openError.Some? {
      return NoHandle, [Printed(SerialErrorMsg + s.openError.value)];
    }
    var rest;
    w, rest := ReadUntilEnd(s.lines);
    trace := [PortOpened, Printed(ListeningMsg + SerialPort + ListeningForMsg)] + rest;
  }

  /** The `while True` read loop of `wait_for_trigger`, over the reads the port delivers. */
  method ReadUntilEnd(lines: seq<SerialRead>) returns (w: Wait, trace: seq<Event>)
    ensures (w, trace) == ListenFrom(lines, 0)
  {
    trace := [];
    var i := 0;
    while i < |lines|
      invariant i <= |lines|
      invariant ListenFrom(lines, 0).0 == ListenFrom(lines, i).0
      invariant ListenFrom(lines, 0).1 == trace + ListenFrom(lines, i).1
    {
      var read := lines[i];
      ghost var before := trace;
      if !read.Line? || IsMotion(read.text) {
        ListenEndsAt(lines, i);
      }
      if read.ReadError? {
        trace := trace + [Printed(SerialErrorMsg + read.message)];
        return NoHandle, trace;
      }
      if read.Interrupt? {
        trace := trace + [Printed(InterruptMsg)];
        return NoHandle, trace;
      }
      trace := trace + Echo(read.text);
      if IsMotion(read.text) {
        trace := trace + [Printed(MotionMsg)];
        assert trace == before + ListenFrom(lines, i).1;
        return Triggered, trace;
      }
      ListenStep(lines, i, before);
      i := i + 1;
    }
    assert trace + [] == trace;
    return Blocked, trace;
  }

  /** A read that ends the wait: an error or an interrupt prints its message, a motion line its echo and
      the detection message. */
  lemma ListenEndsAt(lines: seq<SerialRead>, i: nat)
    requires i < |lines| && Ends(lines[i])
    ensures ListenFrom(lines, i).0 == if lines[i].Line? then Triggered else NoHandle
    ensures ListenFrom(lines, i).1 == match lines[i]
                                     case ReadError(e) => [Printed(SerialErrorMsg + e)]
                                     case Interrupt => [Printed(InterruptMsg)]
                                     case Line(text) => Echo(text) + [Printed(MotionMsg)]
  {
  }

  /** One ignored line: its echo is printed and the wait goes on with the next read. */
  lemma ListenStep(lines: seq<SerialRead>, i: nat, before: seq<Event>)
    requires i < |lines|
    requires lines[i].Line? && !IsMotion(lines[i].text)
    ensures ListenFrom(lines, i).0 == ListenFrom(lines, i + 1).0
    ensures before + ListenFrom(lines, i).1 == before + Echo(lines[i].text) + ListenFrom(lines, i + 1).1
  {
  }

  /** An occurrence of a word with no whitespace at either end lies inside the stripped part of `s`. */
  lemma OccurrenceInsideStrip(s: string, sub: string, a: nat, b: nat, i: nat)
    requires a <= b <= |s| && |sub| > 0 && OccursAt(s, sub, i)
    requires forall k :: 0 <= k < a ==> IsSpace(s[k])
    requires forall k :: b <= k < |s| ==> IsSpace(s[k])
    requires !IsSpace(sub[0]) && !IsSpace(sub[|sub| - 1])
    ensures a <= i && i + |sub| <= b && OccursAt(s[a..b], sub, i - a)
  {
    assert s[i] == sub[0] && s[i + |sub| - 1] == sub[|sub| - 1];
    var inner, whole := s[a..b][i - a..i - a + |sub|], s[i..i + |sub|];
    assert forall t :: 0 <= t < |sub| ==> inner[t] == whole[t];
    assert inner == whole;
  }

  /** An occurrence inside a slice is an occurrence in the whole string. */
  lemma ContainsOfSlice(s: string, sub: string, a: nat, b: nat)
    requires a <= b <= |s| && Contains(s[a..b], sub)
    ensures Contains(s, sub)
  {
    var i :| 0 <= i <= |s[a..b]| - |sub| && OccursAt(s[a..b], sub, i);
    var whole, inner := s[a + i..a + i + |sub|], s[a..b][i..i + |sub|];
    assert forall t :: 0 <= t < |sub| ==> whole[t] == inner[t];
    assert whole == inner;
    assert OccursAt(s, sub, a + i);
  }

  /** Surrounding whitespace does not matter: the test is `"motion"` anywhere in the lowercased line. */
  lemma MotionMatchIgnoresPadding(text: string)
    ensures IsMotion(text) <==> Contains(Lower(text), MotionWord)
  {
    var a := SkipSpaces(text, 0);
    var b := DropTrailingSpaces(text, a, |text|);
    var low := Lower(text);
    LowerSlice(text, a, b);
    if IsMotion(text) {
      ContainsOfSlice(low, MotionWord, a, b);
    }
    if Contains(low, MotionWord) {
      var i :| 0 <= i <= |low| - |MotionWord| && OccursAt(low, MotionWord, i);
      SkipSpacesSkips(text, 0);
      DropTrailingSpacesDrops(text, a, |text|);
      LowerKeepsSpaces(text, 0, a);
      LowerKeepsSpaces(text, b, |text|);
      OccurrenceInsideStrip(low, MotionWord, a, b, i);
    }
  }

  /** The first read from position `i` on that ends the wait, if any. */
  ghost predicate FirstEnd(lines: seq<SerialRead>, i: nat, j: int) {
    i <= j < |lines| && Ends(lines[j]) && forall k :: i <= k < j ==> !Ends(lines[k])
  }

  /** From position `i` on, the wait is triggered exactly when the first read that ends it is a motion
      line, ends without a handle when that read is an error or an interrupt, and is still blocked when no
      read ends it. */
  lemma {:induction false} ListenFromCases(lines: seq<SerialRead>, i: nat)
    requires i <= |lines|
    ensures ListenFrom(lines, i).0 == Triggered <==> exists j :: FirstEnd(lines, i, j) && lines[j].Line?
    ensures ListenFrom(lines, i).0 == NoHandle <==> exists j :: FirstEnd(lines, i, j) && !lines[j].Line?
    ensures ListenFrom(lines, i).0 == Blocked <==> forall k :: i <= k < |lines| ==> !Ends(lines[k])
    decreases |lines| - i
  {
    if i < |lines| {
      assert FirstEnd(lines, i, i) <==> Ends(lines[i]);
      if !Ends(lines[i]) {
        ListenFromCases(lines, i + 1);
        forall j | FirstEnd(lines, i, j) ensures FirstEnd(lines, i + 1, j) { }
        forall j | FirstEnd(lines, i + 1, j) ensures FirstEnd(lines, i, j) { }
      } else {
        forall j | FirstEnd(lines, i, j) ensures j == i { }
      }
    }
  }

  /** The reads only print. */
  lemma {:induction false} ListenFromPrints(lines: seq<SerialRead>, i: nat)
    requires i <= |lines|
    ensures forall e :: e in ListenFrom(lines, i).1 ==> e.Printed?
    decreases |lines| - i
  {
    if i < |lines| && lines[i].Line? && !IsMotion(lines[i].text) {
      ListenFromPrints(lines, i + 1);
    }
  }

  /** The wait only prints and opens the port, and opens it exactly when opening succeeds. */
  lemma ListenEvents(s: Session)
    ensures forall e :: e in Listen(s).1 ==> e.Printed? || e.PortOpened?
    ensures PortOpened in Listen(s).1 <==> s.openError.None?
  {
    ListenFromPrints(s.lines, 0);
    if s.openError.None? {
      assert Listen(s).1[0] == PortOpened;
    }
  }

  /** `wait_for_trigger` returns the port exactly when it opens and a line containing "motion" arrives
      before any serial error or interrupt; it returns `None` when opening fails or an error or interrupt
      comes first. It only prints and opens the port: the port it returns is still open, and nothing is
      written, closed or sent. */
  lemma ListenContract(s: Session)
    ensures Listen(s).0 == Triggered <==> s.openError.None? && exists j :: FirstEnd(s.lines, 0, j) && s.lines[j].Line?
    ensures Listen(s).0 == NoHandle <==> s.openError.Some? || exists j :: FirstEnd(s.lines, 0, j) && !s.lines[j].Line?
    ensures Listen(s).0 == Blocked <==> s.openError.None? && forall k :: 0 <= k < |s.lines| ==> !Ends(s.lines[k])
    ensures forall e :: e in Listen(s).1 ==> e.Printed? || e.PortOpened?
    ensures PortOpened in Listen(s).1 <==> s.openError.None?
  {
    ListenFromCases(s.lines, 0);
    ListenEvents(s);
  }
}
