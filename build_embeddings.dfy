/** `face_auth/build_embeddings.py`: enrolment. Every regular file of the known-faces directory is
    embedded and stored under its name without the extension, in a dictionary that keeps insertion order.
    The directory listing (or its absence), the embedding call, a failing model load and a failing write
    are inputs; the dictionary that reaches the pickle file is the value the run returns. */
module BuildEmbeddings {
  import opened Common
  import opened Text
  import opened Effects

  /** `MODEL_NAME`. */
  const ModelName: string := "Facenet"

  /** The texts this module prints or raises. */
  const SkipMsg: string := "[WARN] Skipping '"
  const SkipReasonMsg: string := "' due to detection failure."
  const FailedMsg: string := "[ERROR] Failed to process "
  const NoEmbeddingsError: string := "No embeddings were generated. Check face images or detection settings."
  const StoredMsg: string := "[SUCCESS] Stored "
  const StoredAtMsg: string := " embeddings at: "
  const NoDirectoryError: string := "Known faces directory not found: "
  const LoadingMsg: string := "[INFO] Loading DeepFace backend model: "
  const LoadedMsg: string := "[INFO] Model loaded successfully."
  const ScanningMsg: string := "[INFO] Scanning known faces in: "

  /** One name `os.listdir` returns and whether `os.path.isfile` holds for it. */
  datatype DirEntry = DirEntry(name: string, isFile: bool)

  /** What `get_embedding` ends with: the vector `model.predict(face)[0].tolist()`, or the exception it
      caught and printed (the function then returns `None`). */
  datatype EmbedResult = Embedded(vector: seq<real>) | Failed(error: string)

  /** One entry of `embeddings_db`. */
  datatype Enrolled = Enrolled(name: string, vector: seq<real>)

  /** `os.path.join(directory, name)` for a name without separators. */
  function Join(directory: string, name: string): string {
    if directory == "" || EndsWith(directory, "/") then directory + name else directory + "/" + name
  }

  /** The position of the last `.` in `s`. */
  function LastDot(s: string): (r: Option<nat>)
    ensures r.Some? ==> r.value < |s| && s[r.value] == '.' && forall j :: r.value < j < |s| ==> s[j] != '.'
    ensures r.None? ==> forall j :: 0 <= j < |s| ==> s[j] != '.'
  {
    if s == [] then None
    else if s[|s| - 1] == '.' then Some(|s| - 1)
    else LastDot(s[..|s| - 1])
  }

  predicate AllDots(s: string) {
    forall j :: 0 <= j < |s| ==> s[j] == '.'
  }

  /** `os.path.splitext(name)[0]`: the name up to its last dot, unless only dots precede that dot (a
      leading-dot name such as `.jpg` has no extension). */
  function Stem(name: string): string {
    match LastDot(name)
    case None => name
    case Some(i) => if AllDots(name[..i]) then name else name[..i]
  }

  /** The stem drops exactly the extension: the last dot and what follows it, when something other
      than dots precedes that dot; otherwise the name is kept whole. */
  lemma StemSpec(name: string)
    ensures Stem(name) == name[..|Stem(name)|]
    ensures Stem(name) != name ==>
              && name[|Stem(name)|] == '.' && !AllDots(Stem(name))
              && forall j :: |Stem(name)| < j < |name| ==> name[j] != '.'
    ensures (forall i :: 0 <= i < |name| && name[i] == '.' && !AllDots(name[..i]) ==>
               exists j :: i < j < |name| && name[j] == '.') ==> Stem(name) == name
    ensures (exists i :: 0 <= i < |name| && name[i] == '.' && !AllDots(name[..i])) ==> Stem(name) != name
  {
    match LastDot(name)
    case None =>
    case Some(k) =>
      if !AllDots(name[..k]) {
        assert Stem(name) == name[..k];
      } else {
        forall i | 0 <= i < |name| && name[i] == '.'
          ensures AllDots(name[..i])
        {
          assert i <= k;
          assert forall j :: 0 <= j < i ==> name[..i][j] == name[..k][j];
        }
      }
  }

  lemma StemExamples()
    ensures Stem("alice.jpg") == "alice"
    ensures Stem("bob.smith.png") == "bob.smith"
    ensures Stem(".jpg") == ".jpg"
    ensures Stem("carol") == "carol"
  {
    assert LastDot("alice.jpg") == Some(5) by {
      assert "alice.jpg"[..8] == "alice.jp";
      assert "alice.jp"[..7] == "alice.j";
      assert "alice.j"[..6] == "alice.";
    }
    assert "alice.jpg"[..5] == "alice" && !AllDots("alice") by {
      assert "alice"[0] == 'a';
    }
    assert LastDot("bob.smith.png") == Some(9) by {
      assert "bob.smith.png"[..12] == "bob.smith.pn";
      assert "bob.smith.pn"[..11] == "bob.smith.p";
      assert "bob.smith.p"[..10] == "bob.smith.";
    }
    assert "bob.smith.png"[..9] == "bob.smith" && !AllDots("bob.smith") by {
      assert "bob.smith"[0] == 'b';
    }
    assert LastDot(".jpg") == Some(0) by {
      assert ".jpg"[..3] == ".jp";
      assert ".jp"[..2] == ".j";
      assert ".j"[..1] == ".";
    }
    assert ".jpg"[..0] == "";
    assert LastDot("carol") == None by {
      assert forall j :: 0 <= j < 5 ==> "carol"[j] != '.';
    }
  }

  /** The keys of the dictionary, in its order. */
  function Keys(db: seq<Enrolled>): (ks: seq<string>)
    ensures |ks| == |db| && forall i :: 0 <= i < |db| ==> ks[i] == db[i].name
  {
    seq(|db|, i requires 0 <= i < |db| => db[i].name)
  }

  /** A dictionary holds each key once. */
  predicate UniqueKeys(db: seq<Enrolled>) {
    forall i, j :: 0 <= i < j < |db| ==> db[i].name != db[j].name
  }

  /** The position of `name` among the keys. */
  function IndexOf(db: seq<Enrolled>, name: string): (r: Option<nat>)
    ensures r.Some? ==> r.value < |db| && db[r.value].name == name && forall j :: 0 <= j < r.value ==> db[j].name != name
    ensures r.None? ==> forall j :: 0 <= j < |db| ==> db[j].name != name
  {
    if db == [] then None
    else if db[0].name == name then Some(0)
    else match IndexOf(db[1..], name)
      case None => None
      case Some(i) => Some(i + 1)
  }

  /** `db.get(name)`. */
  function Lookup(db: seq<Enrolled>, name: string): (r: Option<seq<real>>)
    ensures r.None? <==> name !in Keys(db)
  {
    match IndexOf(db, name)
    case None => None
    case Some(i) => Some(db[i].vector)
  }

  /** `db[name] = vector`: an existing key keeps its position and takes the new value; a new key goes at
      the end. */
  function Put(db: seq<Enrolled>, name: string, vector: seq<real>): (r: seq<Enrolled>)
    ensures name in Keys(db) ==> Keys(r) == Keys(db)
    ensures name !in Keys(db) ==> Keys(r) == Keys(db) + [name]
  {
    match IndexOf(db, name)
    case None => db + [Enrolled(name, vector)]
    case Some(i) => db[i := Enrolled(name, vector)]
  }

  /** After `db[name] = vector` the key holds the new value, no other key's value changes, and keys
      stay unique. */
  lemma PutLookup(db: seq<Enrolled>, name: string, vector: seq<real>)
    ensures Lookup(Put(db, name, vector), name) == Some(vector)
    ensures forall other :: other != name ==> Lookup(Put(db, name, vector), other) == Lookup(db, other)
    ensures UniqueKeys(db) ==> UniqueKeys(Put(db, name, vector))
  {
    PutHits(db, name, vector);
    forall other | other != name ensures Lookup(Put(db, name, vector), other) == Lookup(db, other) {
      PutKeepsOther(db, name, vector, other);
    }
    if UniqueKeys(db) {
      PutKeepsUnique(db, name, vector);
    }
  }

  /** `Put` leaves the key at every existing position, and what it appends is the new key. */
  lemma PutNames(db: seq<Enrolled>, name: string, vector: seq<real>)
    ensures |db| <= |Put(db, name, vector)| <= |db| + 1
    ensures forall j :: 0 <= j < |db| ==> Put(db, name, vector)[j].name == db[j].name
    ensures |Put(db, name, vector)| == |db| + 1 ==> Put(db, name, vector)[|db|] == Enrolled(name, vector)
  {
  }

  /** The first position holding `name` is the one `IndexOf` finds. */
  lemma IndexOfIs(db: seq<Enrolled>, name: string, i: nat)
    requires i < |db| && db[i].name == name
    requires forall j :: 0 <= j < i ==> db[j].name != name
    ensures IndexOf(db, name) == Some(i)
  {
  }

  /** A name held at no position is not found. */
  lemma IndexOfAbsent(db: seq<Enrolled>, name: string)
    requires forall j :: 0 <= j < |db| ==> db[j].name != name
    ensures IndexOf(db, name) == None
  {
  }

  lemma PutHits(db: seq<Enrolled>, name: string, vector: seq<real>)
    ensures Lookup(Put(db, name, vector), name) == Some(vector)
  {
    PutNames(db, name, vector);
    match IndexOf(db, name)
    case None =>
      IndexOfIs(Put(db, name, vector), name, |db|);
    case Some(i) =>
      IndexOfIs(Put(db, name, vector), name, i);
  }

  lemma PutKeepsOther(db: seq<Enrolled>, name: string, vector: seq<real>, other: string)
    requires other != name
    ensures Lookup(Put(db, name, vector), other) == Lookup(db, other)
  {
    var r := Put(db, name, vector);
    PutNames(db, name, vector);
    match IndexOf(db, other)
    case None =>
      IndexOfAbsent(r, other);
    case Some(i) =>
      IndexOfIs(r, other, i);
  }

  lemma PutKeepsUnique(db: seq<Enrolled>, name: string, vector: seq<real>)
    requires UniqueKeys(db)
    ensures UniqueKeys(Put(db, name, vector))
  {
    PutNames(db, name, vector);
  }

  /** The entry yields a vector that is stored: a regular file whose embedding succeeded and is non-empty
      (an empty list is false in the `if embedding:` test). */
  predicate Stored(directory: string, embed: string -> EmbedResult, e: DirEntry) {
    e.isFile && embed(Join(directory, e.name)).Embedded? && embed(Join(directory, e.name)).vector != []
  }

  /** The dictionary after the first `n` entries. */
  function Enroll(directory: string, entries: seq<DirEntry>, embed: string -> EmbedResult, n: nat): seq<Enrolled>
    requires n <= |entries|
  {
    if n == 0 then []
    else
      var db := Enroll(directory, entries, embed, n - 1);
      var e := entries[n - 1];
      if Stored(directory, embed, e) then Put(db, Stem(e.name), embed(Join(directory, e.name)).vector) else db
  }

  /** What one entry prints: nothing for a non-file or a stored vector; the caught exception and the
      skip warning for a failed embedding; the warning alone for an empty one. */
  function EntryEffects(directory: string, embed: string -> EmbedResult, e: DirEntry): seq<Event> {
    var path := Join(directory, e.name);
    var skip := Printed(SkipMsg + e.name + SkipReasonMsg);
    if !e.isFile then []
    else match embed(path)
      case Failed(err) => [Printed(FailedMsg + path + ": " + err), skip]
      case Embedded(v) => if v == [] then [skip] else []
  }

  function ScanEffects(directory: string, entries: seq<DirEntry>, embed: string -> EmbedResult, n: nat): seq<Event>
    requires n <= |entries|
  {
    if n == 0 then [] else ScanEffects(directory, entries, embed, n - 1) + EntryEffects(directory, embed, entries[n - 1])
  }

  /** What the run does after the scan: refuse an empty dictionary, else write it (which may fail) and
      report how many entries were stored. */
  function Finish(db: seq<Enrolled>, outputPath: string, writeError: Option<string>): (Outcome<seq<Enrolled>>, seq<Event>) {
    if db == [] then (Raise(NoEmbeddingsError), [])
    else if writeError.Some? then (Raise(writeError.value), [])
    else (Return(db), [Printed(StoredMsg + Decimal(|db|) + StoredAtMsg + outputPath)])
  }

  /** `build_embeddings()`: `listing` is `None` when the directory does not exist. A `Return` carries the
      dictionary written to the pickle file. */
  function Build(directory: string, listing: Option<seq<DirEntry>>, modelError: Option<string>,
                 embed: string -> EmbedResult, outputPath: string, writeError: Option<string>)
    : (Outcome<seq<Enrolled>>, seq<Event>)
  {
    if listing.None? then (Raise(NoDirectoryError + directory), [])
    else
      var loading := [Printed(LoadingMsg + ModelName)];
      if modelError.Some? then (Raise(modelError.value), loading)
      else
        var entries := listing.value;
        var start := loading + [Printed(LoadedMsg), Printed(ScanningMsg + directory)];
        var (o, tail) := Finish(Enroll(directory, entries, embed, |entries|), outputPath, writeError);
        (o, start + ScanEffects(directory, entries, embed, |entries|) + tail)
  }

  /** `build_embeddings`: the `for filename in os.listdir(...)` loop that fills `embeddings_db`. */
  method BuildEmbeddingsDb(directory: string, listing: Option<seq<DirEntry>>, modelError: Option<string>,
                           embed: string -> EmbedResult, outputPath: string, writeError: Option<string>)
    returns (o: Outcome<seq<Enrolled>>, trace: seq<Event>)
    ensures (o, trace) == Build(directory, listing, modelError, embed, outputPath, writeError)
  {
    if listing.None? {
      return Raise(NoDirectoryError + directory), [];
    }
    trace := [Printed(LoadingMsg + ModelName)];
    if modelError.Some? {
      return Raise(modelError.value), trace;
    }
    trace := trace + [Printed(LoadedMsg)];
    var embeddingsDb: seq<Enrolled> := [];
    trace := trace + [Printed(ScanningMsg + directory)];
    ghost var start := trace;
    assert start == [Printed(LoadingMsg + ModelName)]
                    + [Printed(LoadedMsg), Printed(ScanningMsg + directory)];
    var entries := listing.value;
    for i := 0 to |entries|
      invariant embeddingsDb == Enroll(directory, entries, embed, i)
      invariant trace == start + ScanEffects(directory, entries, embed, i)
    {
      var filename := entries[i].name;
      var filepath := Join(directory, filename);
      if !entries[i].isFile {
        continue;
      }
      var name := Stem(filename);
      var embedding := embed(filepath);
      if embedding.Failed? {
        trace := trace + [Printed(FailedMsg + filepath + ": " + embedding.error)];
      }
      if embedding.Embedded? && embedding.vector != [] {
        embeddingsDb := Put(embeddingsDb, name, embedding.vector);
      } else {
        trace := trace + [Printed(SkipMsg + filename + SkipReasonMsg)];
      }
    }
    assert trace + [] == trace;
    if embeddingsDb == [] {
      return Raise(NoEmbeddingsError), trace;
    }
    if writeError.Some? {
      return Raise(writeError.value), trace;
    }
    o := Return(embeddingsDb);
    trace := trace + [Printed(StoredMsg + Decimal(|embeddingsDb|) + StoredAtMsg + outputPath)];
  }

  /** The vector of the last stored entry among the first `n` whose stem is `name`: the reference
      reading of "a later file with the same stem overwrites the earlier one". */
  function LastFor(directory: string, entries: seq<DirEntry>, embed: string -> EmbedResult, name: string, n: nat)
    : (r: Option<seq<real>>)
    requires n <= |entries|
    ensures r.Some? ==> exists i :: 0 <= i < n && Stored(directory, embed, entries[i]) && Stem(entries[i].name) == name
                                  && r.value == embed(Join(directory, entries[i].name)).vector
    ensures r.None? ==> forall i :: 0 <= i < n && Stored(directory, embed, entries[i]) ==> Stem(entries[i].name) != name
  {
    if n == 0 then None
    else
      var e := entries[n - 1];
      if Stored(directory, embed, e) && Stem(e.name) == name then Some(embed(Join(directory, e.name)).vector)
      else LastFor(directory, entries, embed, name, n - 1)
  }

  /** The dictionary maps each stem to the vector of the last stored file with that stem and holds no
      other key (non-files, failed and empty embeddings leave no trace in it); each key appears once. */
  lemma {:induction false} EnrollIsLastWriteWins(directory: string, entries: seq<DirEntry>, embed: string -> EmbedResult, n: nat)
    requires n <= |entries|
    ensures UniqueKeys(Enroll(directory, entries, embed, n))
    ensures forall name :: Lookup(Enroll(directory, entries, embed, n), name) == LastFor(directory, entries, embed, name, n)
  {
    if n > 0 {
      EnrollIsLastWriteWins(directory, entries, embed, n - 1);
      forall name ensures Lookup(Enroll(directory, entries, embed, n), name) == LastFor(directory, entries, embed, name, n) {
        EnrollStep(directory, entries, embed, n, name);
      }
    }
  }

  /** One entry's step for one name: the lookup follows `LastFor` from `n - 1` entries to `n`, and the
      keys stay unique. */
  lemma EnrollStep(directory: string, entries: seq<DirEntry>, embed: string -> EmbedResult, n: nat, name: string)
    requires 0 < n <= |entries|
    requires UniqueKeys(Enroll(directory, entries, embed, n - 1))
    requires Lookup(Enroll(directory, entries, embed, n - 1), name) == LastFor(directory, entries, embed, name, n - 1)
    ensures UniqueKeys(Enroll(directory, entries, embed, n))
    ensures Lookup(Enroll(directory, entries, embed, n), name) == LastFor(directory, entries, embed, name, n)
  {
    var e := entries[n - 1];
    var db := Enroll(directory, entries, embed, n - 1);
    if Stored(directory, embed, e) {
      PutLookup(db, Stem(e.name), embed(Join(directory, e.name)).vector);
    }
  }

  /** An entry that is not stored (not a regular file, or a failed or empty embedding) leaves the
      dictionary, its keys and their order, exactly as it was. */
  lemma SkippedEntryChangesNothing(directory: string, entries: seq<DirEntry>, embed: string -> EmbedResult, n: nat)
    requires 0 < n <= |entries| && !Stored(directory, embed, entries[n - 1])
    ensures Enroll(directory, entries, embed, n) == Enroll(directory, entries, embed, n - 1)
  {
  }

  /** A stored entry whose stem is already a key keeps that key's position; a new stem is appended. */
  lemma StoredEntryPosition(directory: string, entries: seq<DirEntry>, embed: string -> EmbedResult, n: nat)
    requires 0 < n <= |entries| && Stored(directory, embed, entries[n - 1])
    ensures var before := Keys(Enroll(directory, entries, embed, n - 1));
            var name := Stem(entries[n - 1].name);
            && (name in before ==> Keys(Enroll(directory, entries, embed, n)) == before)
            && (name !in before ==> Keys(Enroll(directory, entries, embed, n)) == before + [name])
  {
  }

  /** A missing directory raises before the model is loaded, printing nothing; an empty dictionary
      raises before anything is written; a successful run returns a non-empty dictionary whose keys
      are exactly the stems of the stored files. */
  lemma BuildContract(directory: string, listing: Option<seq<DirEntry>>, modelError: Option<string>,
                      embed: string -> EmbedResult, outputPath: string, writeError: Option<string>)
    ensures var (o, trace) := Build(directory, listing, modelError, embed, outputPath, writeError);
            && (listing.None? ==> o == Raise(NoDirectoryError + directory) && trace == [])
            && (listing.Some? && modelError.None? && Enroll(directory, listing.value, embed, |listing.value|) == [] ==>
                  o == Raise(NoEmbeddingsError))
            && (o.Return? ==>
                  && listing.Some? && modelError.None? && writeError.None? && o.value != []
                  && o.value == Enroll(directory, listing.value, embed, |listing.value|)
                  && UniqueKeys(o.value)
                  && forall name :: name in Keys(o.value) <==>
                       exists i :: 0 <= i < |listing.value| && Stored(directory, embed, listing.value[i])
                                   && Stem(listing.value[i].name) == name)
  {
    if listing.Some? {
      var entries := listing.value;
      EnrollIsLastWriteWins(directory, entries, embed, |entries|);
      var db := Enroll(directory, entries, embed, |entries|);
      forall name ensures name in Keys(db) <==>
                          exists i :: 0 <= i < |entries| && Stored(directory, embed, entries[i]) && Stem(entries[i].name) == name
      {
        assert Lookup(db, name) == LastFor(directory, entries, embed, name, |entries|);
      }
    }
  }
}
