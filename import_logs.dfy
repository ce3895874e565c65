/** `utils/import_logs_to_db.py`: copies every record of the local detections log into the database.
    The file's lines (or its absence) are an input; each `log_detection_to_db` call is a `RowInserted`
    event, and a failing insert is described by its position among the inserts and its message. */
module ImportLogs {
  import opened Common
  import opened Text
  import opened Effects
  import opened DetectionLog

  /** The texts this module prints or raises. */
  const NotFoundMsg: string := "❌ Log file not found."
  const ImportedMsg: string := "✅ Existing logs imported to NeonDB."

  /** One record of the log. */
  datatype Row = Row(timestamp: string, status: string, path: string)

  /** The insert with number `index` (0-based, in call order) raises an exception with this message. */
  datatype InsertFailure = InsertFailure(index: nat, message: string)

  /** The line passes the `if not line or "|" not in line: continue` filter and splits into three fields. */
  predicate IsRecordLine(line: string) {
    var l := Strip(line);
    l != "" && Contains(l, "|") && |Split(l, Delim)| == 3
  }

  function RowOf(line: string): Row
    requires IsRecordLine(line)
  {
    var parts := Split(Strip(line), Delim);
    Row(parts[0], parts[1], parts[2])
  }

  /** The rows of the record lines among the first `n` lines, in file order. */
  function Rows(lines: seq<string>, n: nat): (rows: seq<Row>)
    requires n <= |lines|
    ensures |rows| <= n
  {
    if n == 0 then []
    else Rows(lines, n - 1) + (if IsRecordLine(lines[n - 1]) then [RowOf(lines[n - 1])] else [])
  }

  /** One `log_detection_to_db` call per row, in order. */
  function Inserts(rows: seq<Row>): seq<Event> {
    if rows == [] then []
    else var r := rows[|rows| - 1]; Inserts(rows[..|rows| - 1]) + [RowInserted(r.timestamp, r.status, r.path)]
  }

  lemma InsertsSnoc(rows: seq<Row>, r: Row)
    ensures Inserts(rows + [r]) == Inserts(rows) + [RowInserted(r.timestamp, r.status, r.path)]
  {
    assert (rows + [r])[..|rows|] == rows;
  }

  /** `import_existing_logs()`: its outcome and its effects. */
  function Import(file: Option<seq<string>>, failure: Option<InsertFailure>): (Outcome<()>, seq<Event>) {
    match file
    case None => (Return(()), [Printed(NotFoundMsg)])
    case Some(lines) =>
      var rows := Rows(lines, |lines|);
      if failure.Some? && failure.value.index < |rows| then
        (Raise(failure.value.message), Inserts(rows[..failure.value.index + 1]))
      else (Return(()), Inserts(rows) + [Printed(ImportedMsg)])
  }

  /** The body of the `for line in file` loop up to the insert: the stripped line, skipped when empty or
      without `"|"`, split on `" | "` and kept when it has three fields. */
  method ParseRecord(raw: string) returns (row: Option<Row>)
    ensures row.Some? <==> IsRecordLine(raw)
    ensures row.Some? ==> row.value == RowOf(raw)
  {
    var line := Strip(raw);
    if line == "" || !Contains(line, "|") {
      return None;
    }
    var parts := Split(line, Delim);
    if |parts| != 3 {
      return None;
    }
    var timestamp, status, imagePath := parts[0], parts[1], parts[2];
    return Some(Row(timestamp, status, imagePath));
  }

  /** `import_existing_logs`: the `for line in file` loop. */
  method ImportExistingLogs(file: Option<seq<string>>, failure: Option<InsertFailure>) returns (o: Outcome<()>, trace: seq<Event>)
    ensures (o, trace) == Import(file, failure)
  {
    if file.None? {
      return Return(()), [Printed(NotFoundMsg)];
    }
    var lines := file.value;
    trace := [];
    for i := 0 to |lines|
      invariant trace == Inserts(Rows(lines, i))
      invariant failure.Some? ==> failure.value.index >= |Rows(lines, i)|
    {
      var row := ParseRecord(lines[i]);
      ImportStep(lines, i);
      if row.Some? {
        trace := trace + [RowInserted(row.value.timestamp, row.value.status, row.value.path)];
        if failure.Some? && failure.value.index == |Rows(lines, i)| {
          ImportStopsAt(lines, i + 1, failure.value);
          return Raise(failure.value.message), trace;
        }
      }
    }
    ImportCompletes(lines, failure);
    o, trace := Return(()), trace + [Printed(ImportedMsg)];
  }

  /** One line of the loop: a line that is not a record adds no row and no insert; a record line adds its
      row and one insert. */
  lemma ImportStep(lines: seq<string>, i: nat)
    requires i < |lines|
    ensures !IsRecordLine(lines[i]) ==> Rows(lines, i + 1) == Rows(lines, i)
    ensures IsRecordLine(lines[i]) ==>
              var r := RowOf(lines[i]);
              && Rows(lines, i + 1) == Rows(lines, i) + [r]
              && |Rows(lines, i + 1)| == |Rows(lines, i)| + 1
              && Inserts(Rows(lines, i + 1)) == Inserts(Rows(lines, i)) + [RowInserted(r.timestamp, r.status, r.path)]
  {
    if IsRecordLine(lines[i]) {
      InsertsSnoc(Rows(lines, i), RowOf(lines[i]));
    } else {
      assert Rows(lines, i + 1) == Rows(lines, i) + [];
    }
  }

  /** An insert that raises ends the import with the inserts made so far, the raising one included. */
  lemma ImportStopsAt(lines: seq<string>, n: nat, f: InsertFailure)
    requires 0 < n <= |lines| && |Rows(lines, n)| == f.index + 1
    ensures Import(Some(lines), Some(f)) == (Raise(f.message), Inserts(Rows(lines, n)))
  {
    RowsPrefix(lines, n, |lines|);
  }

  /** Without a raising insert among the rows, every row is inserted and the success message follows. */
  lemma ImportCompletes(lines: seq<string>, failure: Option<InsertFailure>)
    requires failure.Some? ==> failure.value.index >= |Rows(lines, |lines|)|
    ensures Import(Some(lines), failure) == (Return(()), Inserts(Rows(lines, |lines|)) + [Printed(ImportedMsg)])
  {
  }

  /** The rows of the first `n` lines are the first rows of the first `m`: inserts follow file order. */
  lemma {:induction false} RowsPrefix(lines: seq<string>, n: nat, m: nat)
    requires n <= m <= |lines|
    ensures |Rows(lines, n)| <= |Rows(lines, m)| && Rows(lines, n) == Rows(lines, m)[..|Rows(lines, n)|]
    decreases m
  {
    if n < m {
      RowsPrefix(lines, n, m - 1);
    }
  }

  /** The emptiness and `"|"` tests never reject a line that splits into three fields: the field count
      alone decides which lines are imported. */
  lemma PrefilterIsRedundant(line: string)
    requires |Split(Strip(line), Delim)| == 3
    ensures IsRecordLine(line)
  {
    var l := Strip(line);
    match FindFrom(l, Delim, 0)
    case Some(i) =>
      assert l[i..i + 3][1] == l[i + 1] == '|';
      assert OccursAt(l, "|", i + 1) by {
        assert l[i + 1..i + 2] == "|";
      }
    case None =>
  }

  /** The lines that `log_event` writes, one per record. */
  function LogLines(rows: seq<Row>): (lines: seq<string>)
    ensures |lines| == |rows|
    ensures forall i :: 0 <= i < |rows| ==> lines[i] == FormatLine(rows[i].timestamp, rows[i].status, rows[i].path)
  {
    seq(|rows|, i requires 0 <= i < |rows| => FormatLine(rows[i].timestamp, rows[i].status, rows[i].path))
  }

  /** Every record written with writable fields is imported unchanged, in order, one insert per line. */
  lemma ImportRoundTrip(rows: seq<Row>)
    requires forall i :: 0 <= i < |rows| ==> Writable(rows[i].timestamp, rows[i].status, rows[i].path)
    ensures Rows(LogLines(rows), |rows|) == rows
  {
    ImportRoundTripUpTo(rows, |rows|);
  }

  lemma {:induction false} ImportRoundTripUpTo(rows: seq<Row>, n: nat)
    requires n <= |rows|
    requires forall i :: 0 <= i < |rows| ==> Writable(rows[i].timestamp, rows[i].status, rows[i].path)
    ensures Rows(LogLines(rows), n) == rows[..n]
  {
    if n > 0 {
      var r, lines := rows[n - 1], LogLines(rows);
      assert rows[..n] == rows[..n - 1] + [r];
      ImportRoundTripUpTo(rows, n - 1);
      RecordLineRoundTrip(r);
      RowsOfRecordLine(lines, n);
    }
  }

  lemma RowsOfRecordLine(lines: seq<string>, n: nat)
    requires 0 < n <= |lines| && IsRecordLine(lines[n - 1])
    ensures Rows(lines, n) == Rows(lines, n - 1) + [RowOf(lines[n - 1])]
  {
  }

  /** The line written for one writable record is a record line that gives that record back. */
  lemma RecordLineRoundTrip(r: Row)
    requires Writable(r.timestamp, r.status, r.path)
    ensures IsRecordLine(FormatLine(r.timestamp, r.status, r.path))
    ensures RowOf(FormatLine(r.timestamp, r.status, r.path)) == r
  {
    FieldsRoundTrip(r.timestamp, r.status, r.path);
    PrefilterIsRedundant(FormatLine(r.timestamp, r.status, r.path));
  }
}
