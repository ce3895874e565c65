/** `app.py`: the two queries behind the Streamlit dashboard. The log file's lines (or its absence) and
    the capture directory's listing with creation times are inputs; the rendering is not modelled. */
module Dashboard {
  import opened Common
  import opened Text
  import opened DetectionLog

  /** `CAPTURE_DIR`. */
  const CaptureDir: string := "data/captured"

  /** A line `read_latest_log` accepts: it holds `"ALERT"` and its stripped text has exactly three fields. */
  predicate IsAlertRecord(line: string) {
    Contains(line, "ALERT") && |Fields(line)| == 3
  }

  /** `(timestamp, image_path)` of an accepted line; the status field is dropped. */
  function AlertOf(line: string): (string, string)
    requires IsAlertRecord(line)
  {
    (Fields(line)[0], Fields(line)[2])
  }

  /** The position the scan from the last line back to the first stops at: the last accepted line. */
  function LastAlertIndex(lines: seq<string>): (r: Option<nat>)
    ensures r.Some? ==> r.value < |lines| && IsAlertRecord(lines[r.value])
    ensures r.Some? ==> forall k :: r.value < k < |lines| ==> !IsAlertRecord(lines[k])
    ensures r.None? ==> forall k :: 0 <= k < |lines| ==> !IsAlertRecord(lines[k])
  {
    if lines == [] then None
    else if IsAlertRecord(lines[|lines| - 1]) then Some(|lines| - 1)
    else
      var init := lines[..|lines| - 1];
      assert forall k :: 0 <= k < |init| ==> init[k] == lines[k];
      LastAlertIndex(init)
  }

  /** What the scan returns. */
  function LatestAlert(lines: seq<string>): Option<(string, string)> {
    match LastAlertIndex(lines)
    case None => None
    case Some(j) => Some(AlertOf(lines[j]))
  }

  /** `read_latest_log()`: `file` is the list `f.readlines()` returns, or `None` when the log does not exist.
      The result `None` stands for `(None, None)`. */
  method ReadLatestLog(file: Option<seq<string>>) returns (r: Option<(string, string)>)
    ensures file.None? ==> r.None?
    ensures file.Some? ==> r == LatestAlert(file.value)
  {
    if file.None? {
      return None;
    }
    var lines := file.value;
    var i := |lines|;
    while i > 0
      invariant 0 <= i <= |lines|
      invariant forall k :: i <= k < |lines| ==> !IsAlertRecord(lines[k])
    {
      var line := lines[i - 1];
      if Contains(line, "ALERT") {
        var parts := Fields(line);
        if |parts| == 3 {
          return Some((parts[0], parts[2]));
        }
      }
      i := i - 1;
    }
    return None;
  }

  /** An alert that `log_event` appends is what the dashboard shows next, timestamp and image path intact. */
  lemma AppendedAlertIsShown(lines: seq<string>, timestamp: string, path: string)
    requires Writable(timestamp, AlertStatus, path)
    ensures LatestAlert(lines + [FormatLine(timestamp, AlertStatus, path)]) == Some((timestamp, path))
  {
    var line := FormatLine(timestamp, AlertStatus, path);
    FieldsRoundTrip(timestamp, AlertStatus, path);
    assert OccursAt(line, "ALERT", |timestamp| + 3) by {
      assert line[|timestamp| + 3..|timestamp| + 8] == AlertStatus;
    }
    assert (lines + [line])[|lines + [line]| - 1] == line;
  }

  /** One entry of the capture directory and its `os.path.getctime`. */
  datatype Entry = Entry(name: string, ctime: real)

  /** A name `glob.glob(os.path.join(CAPTURE_DIR, "*.jpg"))` returns: it ends with `.jpg` and, as glob
      skips hidden files, does not start with a dot. */
  predicate IsGlobJpg(name: string) {
    EndsWith(name, ".jpg") && !StartsWith(name, ".")
  }

  /** The glob's matches, in listing order. */
  function Jpgs(listing: seq<Entry>): (js: seq<Entry>)
    ensures forall e :: e in js <==> e in listing && IsGlobJpg(e.name)
  {
    if listing == [] then []
    else Jpgs(listing[..|listing| - 1]) + (if IsGlobJpg(listing[|listing| - 1].name) then [listing[|listing| - 1]] else [])
  }

  function CTimes(js: seq<Entry>): (ts: seq<real>)
    ensures |ts| == |js| && forall i :: 0 <= i < |js| ==> ts[i] == js[i].ctime
  {
    seq(|js|, i requires 0 <= i < |js| => js[i].ctime)
  }

  /** `get_latest_captured_image()`: `None` without a match, else the path of the first match with the
      greatest creation time (`max` keeps the first of equal keys). */
  function LatestCapturedImage(listing: seq<Entry>): (r: Option<string>)
    ensures r.None? <==> forall e :: e in listing ==> !IsGlobJpg(e.name)
    ensures r.Some? ==> exists e :: e in listing && IsGlobJpg(e.name) && r.value == CaptureDir + "/" + e.name
                                 && forall g :: g in listing && IsGlobJpg(g.name) ==> g.ctime <= e.ctime
    ensures r.Some? ==> exists i :: IsFirstMax(CTimes(Jpgs(listing)), i) && r.value == CaptureDir + "/" + Jpgs(listing)[i].name
  {
    var js := Jpgs(listing);
    if js == [] then None
    else
      var i := FirstMaxIndex(CTimes(js));
      assert forall g :: g in js ==> g.ctime <= js[i].ctime by {
        forall g | g in js ensures g.ctime <= js[i].ctime {
          var j :| 0 <= j < |js| && js[j] == g;
          assert CTimes(js)[j] <= CTimes(js)[i];
        }
      }
      Some(CaptureDir + "/" + js[i].name)
  }
}
