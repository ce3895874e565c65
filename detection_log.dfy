/** The detections log `logs/detections.log`: one line `"{timestamp} | {status} | {image_path}"` per
    decisive detection, written by `log_event` in `main.py` and read back by `app.py` and
    `utils/import_logs_to_db.py`, which both split a stripped line on `" | "`. */
module DetectionLog {
  import opened Common
  import opened Text
  import opened Effects

  /** The field separator of a log line. */
  const Delim: string := " | "

  /** The status written for an accepted face, and for an intruder. */
  const AuthorizedStatus: string := "AUTHORIZED"
  const AlertStatus: string := "ALERT"

  /** The line `log_event` appends, newline included. */
  function FormatLine(timestamp: string, status: string, path: string): string {
    timestamp + Delim + status + Delim + path + "\n"
  }

  /** `log_event(status, image_path)`, with `timestamp` the formatted clock reading. `localError` is the
      exception that creating the log directory or appending to the log raises, if any; `dbError` the one
      `log_detection_to_db` raises. Neither is caught. */
  function LogEvent(timestamp: string, status: string, path: string, localError: Option<string>, dbError: Option<string>)
    : (r: (Outcome<()>, seq<Event>))
    ensures r.0.Return? <==> localError.None? && dbError.None?
    ensures localError.Some? ==> r == (Raise(localError.value), [])
    ensures localError.None? && dbError.Some? ==> r.0 == Raise(dbError.value)
    ensures AppendedLines(r.1) == if localError.None? then [FormatLine(timestamp, status, path)] else []
    ensures localError.None? ==> r.1 == [LineAppended(FormatLine(timestamp, status, path)), RowInserted(timestamp, status, path)]
  {
    if localError.Some? then (Raise(localError.value), [])
    else
      var t := [LineAppended(FormatLine(timestamp, status, path)), RowInserted(timestamp, status, path)];
      assert AppendedLines(t) == LinesTo(t, 1) + [];
      (if dbError.Some? then Raise(dbError.value) else Return(()), t)
  }

  /** `line.strip().split(" | ")`, the parse both readers apply. */
  function Fields(line: string): (parts: seq<string>)
    ensures |parts| >= 1
  {
    Split(Strip(line), Delim)
  }

  /** A field the parser gives back unchanged when it stands between two separators. */
  predicate InnerField(f: string) {
    !Contains(f, Delim) && !EndsWith(f, " |")
  }

  /** The fields of a record that `Fields` recovers from its line: no field holds the separator, the first
      two do not end with `" |"` (which would form a separator with the one that follows), the timestamp
      does not start with whitespace and the path does not end with it (`strip()` would remove it), and
      neither is empty (the stripped separator next to it would lose its space). */
  predicate Writable(timestamp: string, status: string, path: string) {
    && InnerField(timestamp) && InnerField(status) && !Contains(path, Delim)
    && |timestamp| > 0 && !IsSpace(timestamp[0])
    && |path| > 0 && !IsSpace(path[|path| - 1])
  }

  /** Without the separator, `split` leaves the string whole. */
  lemma SplitNoSep(s: string, sep: string)
    requires |sep| > 0 && !Contains(s, sep)
    ensures Split(s, sep) == [s]
  {
  }

  /** When the first occurrence of the separator ends `x`, `split` cuts `x` off and goes on with the rest. */
  lemma SplitFirst(x: string, sep: string, rest: string)
    requires |sep| > 0
    requires forall j :: 0 <= j < |x| ==> !OccursAt(x + sep + rest, sep, j)
    ensures Split(x + sep + rest, sep) == [x] + Split(rest, sep)
  {
    var s := x + sep + rest;
    assert OccursAt(s, sep, |x|) by {
      assert s[|x|..|x| + |sep|] == sep;
    }
    assert FindFrom(s, sep, 0) == Some(|x|);
    assert s[..|x|] == x;
    assert s[|x| + |sep|..] == rest;
  }

  /** A field that neither holds the separator nor ends with `" |"` holds no separator that starts inside it. */
  lemma NoEarlyDelim(x: string, rest: string)
    requires InnerField(x)
    ensures forall j :: 0 <= j < |x| ==> !OccursAt(x + Delim + rest, Delim, j)
  {
    var s := x + Delim + rest;
    assert forall k :: 0 <= k < |x| ==> s[k] == x[k];
    assert s[|x|] == ' ';
    forall j | 0 <= j < |x| ensures !OccursAt(s, Delim, j) {
      if j + 3 <= |x| {
        var inX, inS := x[j..j + 3], s[j..j + 3];
        assert forall t :: 0 <= t < 3 ==> inX[t] == inS[t];
        assert inX == inS;
        assert !OccursAt(x, Delim, j);
      } else if j == |x| - 1 {
        assert s[j + 1] == ' ';
        assert j + 3 <= |s| ==> s[j..j + 3][1] == s[j + 1];
      } else {
        var tail := x[|x| - 2..];
        assert tail[0] == s[j] && tail[1] == s[j + 1];
        assert tail != " |";
        assert j + 3 <= |s| ==> s[j..j + 3][0] == s[j] && s[j..j + 3][1] == s[j + 1];
      }
    }
  }

  /** `strip()` of a string that is a core without surrounding whitespace followed by whitespace. */
  lemma StripTrimmed(core: string, tail: string)
    requires |core| > 0 && !IsSpace(core[0]) && !IsSpace(core[|core| - 1])
    requires forall k :: 0 <= k < |tail| ==> IsSpace(tail[k])
    ensures Strip(core + tail) == core
  {
    var s := core + tail;
    assert SkipSpaces(s, 0) == 0;
    assert DropTrailingSpaces(s, 0, |s|) == |core| by {
      DropTrailingSpacesOf(s, |core|, |s|);
    }
    assert s[0..|core|] == core;
  }

  /** Trailing whitespace down to `stop`, whose previous character is not whitespace, is dropped exactly. */
  lemma {:induction false} DropTrailingSpacesOf(s: string, stop: nat, hi: nat)
    requires 0 < stop <= hi <= |s| && !IsSpace(s[stop - 1])
    requires forall k :: stop <= k < hi ==> IsSpace(s[k])
    ensures DropTrailingSpaces(s, 0, hi) == stop
    decreases hi
  {
    if hi > stop {
      DropTrailingSpacesOf(s, stop, hi - 1);
    }
  }

  /** Round trip: a record with writable fields is read back field for field from the line `log_event` writes. */
  lemma FieldsRoundTrip(timestamp: string, status: string, path: string)
    requires Writable(timestamp, status, path)
    ensures Fields(FormatLine(timestamp, status, path)) == [timestamp, status, path]
  {
    var body := timestamp + Delim + status + Delim + path;
    assert FormatLine(timestamp, status, path) == body + "\n";
    StripRecord(timestamp, status, path);
    SplitRecord(timestamp, status, path);
  }

  /** `strip()` removes only the newline from a record line. */
  lemma StripRecord(timestamp: string, status: string, path: string)
    requires |timestamp| > 0 && !IsSpace(timestamp[0]) && |path| > 0 && !IsSpace(path[|path| - 1])
    ensures Strip(timestamp + Delim + status + Delim + path + "\n") == timestamp + Delim + status + Delim + path
  {
    var body := timestamp + Delim + status + Delim + path;
    assert body[0] == timestamp[0];
    assert body[|body| - 1] == path[|path| - 1];
    StripTrimmed(body, "\n");
  }

  /** Splitting the joined fields on the separator gives the fields back. */
  lemma SplitRecord(timestamp: string, status: string, path: string)
    requires InnerField(timestamp) && InnerField(status) && !Contains(path, Delim)
    ensures Split(timestamp + Delim + status + Delim + path, Delim) == [timestamp, status, path]
  {
    var rest := status + Delim + path;
    assert timestamp + Delim + status + Delim + path == timestamp + Delim + rest;
    NoEarlyDelim(timestamp, rest);
    SplitFirst(timestamp, Delim, rest);
    NoEarlyDelim(status, path);
    SplitFirst(status, Delim, path);
    SplitNoSep(path, Delim);
  }

  /** A string without a `'|'` is an inner field. */
  lemma NoBarIsInnerField(f: string)
    requires forall k :: 0 <= k < |f| ==> f[k] != '|'
    ensures InnerField(f)
  {
    forall i | 0 <= i <= |f| - |Delim| ensures !OccursAt(f, Delim, i) {
      assert f[i..i + 3][1] == f[i + 1];
    }
    if |f| >= 2 {
      assert f[|f| - 2..][1] == f[|f| - 1];
    }
  }

  /** The shape `%Y-%m-%d %H:%M:%S` of `time.strftime`, with any digits. */
  predicate IsTimestamp(ts: string) {
    && |ts| == 19
    && (forall k :: 0 <= k < 19 && k !in {4, 7, 10, 13, 16} ==> '0' <= ts[k] <= '9')
    && ts[4] == '-' && ts[7] == '-' && ts[10] == ' ' && ts[13] == ':' && ts[16] == ':'
  }

  /** Every record the pipeline writes reads back unchanged, provided only that the image path is non-empty,
      holds no separator and does not end with whitespace: the clock's timestamps and the two statuses
      always qualify. */
  lemma PipelineRecordsRoundTrip(timestamp: string, status: string, path: string)
    requires IsTimestamp(timestamp)
    requires status == AuthorizedStatus || status == AlertStatus
    requires |path| > 0 && !IsSpace(path[|path| - 1]) && !Contains(path, Delim)
    ensures Fields(FormatLine(timestamp, status, path)) == [timestamp, status, path]
  {
    assert forall k :: 0 <= k < |timestamp| ==> timestamp[k] != '|' by {
      forall k | 0 <= k < |timestamp| ensures timestamp[k] != '|' {
        if k !in {4, 7, 10, 13, 16} {
          assert '0' <= timestamp[k] <= '9';
        }
      }
    }
    NoBarIsInnerField(timestamp);
    NoBarIsInnerField(status);
    assert !IsSpace(timestamp[0]) by {
      assert '0' <= timestamp[0] <= '9';
    }
    FieldsRoundTrip(timestamp, status, path);
  }
}
