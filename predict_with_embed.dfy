/** `src/predict_with_embed.py`: the matcher used by the detection pipeline. The enrolled map is
    `name -> [reference embeddings]`, searched by nested loops; a face is accepted with a STRICT
    threshold. Embedding extraction (DeepFace) is the abstract `embed`, cosine distance the abstract `dist`. */
module PredictWithEmbed {
  import opened Common
  import opened Matching

  /** `THRESHOLD`, the cosine-distance bound below which a match is accepted. */
  const Threshold: real := 0.4

  /** One `(name, img_path, score)` tuple of `verify_captured_images`; `score` is `None` when no embedding was found. */
  datatype FrameResult = FrameResult(name: string, path: string, score: Option<Score>)

  /** `compare_embedding`: the nested loops over the enrolled map, keeping a pair only when strictly closer. */
  method CompareEmbedding<E>(embedding: E, db: seq<Person<E>>, dist: (E, E) -> real)
    returns (bestMatch: Option<string>, bestScore: Score)
    ensures Match(bestMatch, bestScore) == BestMatch(embedding, Flatten(db), dist)
  {
    bestMatch, bestScore := None, Infinite;
    for k := 0 to |db|
      invariant Match(bestMatch, bestScore) == BestMatch(embedding, Flatten(db[..k]), dist)
    {
      var person := db[k];
      ghost var before := Flatten(db[..k]);
      assert before + PairsOf(person)[..0] == before;
      for j := 0 to |person.refs|
        invariant Match(bestMatch, bestScore) == BestMatch(embedding, before + PairsOf(person)[..j], dist)
      {
        var score := dist(embedding, person.refs[j]);
        InnerStep(embedding, before, person, j, dist);
        if Improves(score, bestScore) {
          bestScore := Finite(score);
          bestMatch := Some(person.name);
        }
      }
      assert PairsOf(person)[..|person.refs|] == PairsOf(person);
      FlattenSnoc(db, k);
    }
    assert db[..|db|] == db;
  }

  /** What one iteration of `verify_captured_images` appends for the image at `path`. */
  function Verdict<E>(path: string, embedding: Option<E>, db: seq<Person<E>>, dist: (E, E) -> real): (r: FrameResult)
    ensures r.path == path
    ensures r.score.None? <==> embedding.None?
    ensures embedding.None? ==> r.name == "Unknown"
    ensures embedding.Some? ==> r.score == Some(BestMatch(embedding.value, Flatten(db), dist).score)
    ensures r.score.Some? && !Below(r.score.value, Threshold) ==> r.name == "Intruder"
    ensures r.score.Some? && Below(r.score.value, Threshold) ==>
              exists j :: 0 <= j < |Flatten(db)| && Flatten(db)[j].name == r.name
                       && r.score.value == Finite(dist(embedding.value, Flatten(db)[j].embedding))
    ensures embedding.Some? && Below(BestMatch(embedding.value, Flatten(db), dist).score, Threshold) ==>
              r.name == BestMatch(embedding.value, Flatten(db), dist).name.value
  {
    match embedding
    case None => FrameResult("Unknown", path, None)
    case Some(e) =>
      var m := BestMatch(e, Flatten(db), dist);
      if Below(m.score, Threshold) then FrameResult(m.name.value, path, Some(m.score))
      else FrameResult("Intruder", path, Some(m.score))
  }

  /** The list `verify_captured_images` returns: one verdict per path, in path order. */
  function VerifyAll<E>(paths: seq<string>, embed: string -> Option<E>, db: seq<Person<E>>, dist: (E, E) -> real)
    : (results: seq<FrameResult>)
    ensures |results| == |paths|
    ensures forall i :: 0 <= i < |paths| ==> results[i] == Verdict(paths[i], embed(paths[i]), db, dist)
  {
    seq(|paths|, i requires 0 <= i < |paths| => Verdict(paths[i], embed(paths[i]), db, dist))
  }

  /** `verify_captured_images`: one result per captured path, appended in a loop. */
  method VerifyCapturedImages<E>(paths: seq<string>, embed: string -> Option<E>, db: seq<Person<E>>, dist: (E, E) -> real)
    returns (results: seq<FrameResult>)
    ensures |results| == |paths|
    ensures forall i :: 0 <= i < |paths| ==> results[i].path == paths[i]
    ensures results == VerifyAll(paths, embed, db, dist)
  {
    results := [];
    for i := 0 to |paths|
      invariant results == VerifyAll(paths[..i], embed, db, dist)
    {
      var path := paths[i];
      var embedding := embed(path);
      if embedding.None? {
        results := results + [FrameResult("Unknown", path, None)];
        assert paths[..i + 1] == paths[..i] + [path];
        continue;
      }
      var name, score := CompareEmbedding(embedding.value, db, dist);
      if Below(score, Threshold) {
        results := results + [FrameResult(name.value, path, Some(score))];
      } else {
        results := results + [FrameResult("Intruder", path, Some(score))];
      }
      assert paths[..i + 1] == paths[..i] + [path];
    }
    assert paths[..|paths|] == paths;
  }

  /** A failed embedding, and a match exactly at the threshold, both report no accepted identity:
      the first as `"Unknown"` without a score, the second as `"Intruder"` with its score. */
  lemma ThresholdIsStrict<E>(path: string, e: E, name: string, ref: E, dist: (E, E) -> real)
    requires dist(e, ref) == Threshold
    ensures Verdict(path, None, [Person(name, [ref])], dist) == FrameResult("Unknown", path, None)
    ensures Verdict(path, Some(e), [Person(name, [ref])], dist) == FrameResult("Intruder", path, Some(Finite(Threshold)))
  {
    assert Flatten([Person(name, [ref])]) == [Ref(name, ref)] by {
      assert [Person(name, [ref])][..0] == [];
    }
  }

  /** Nothing enrolled, or only empty reference lists: every embedded face is an `"Intruder"` at infinite distance. */
  lemma EmptyEnrollmentGivesIntruder<E>(path: string, e: E, db: seq<Person<E>>, dist: (E, E) -> real)
    requires forall k :: 0 <= k < |db| ==> db[k].refs == []
    ensures BestMatch(e, Flatten(db), dist) == Match(None, Infinite)
    ensures Verdict(path, Some(e), db, dist) == FrameResult("Intruder", path, Some(Infinite))
  {
    FlattenOfEmptyLists(db);
  }

  lemma {:induction false} FlattenOfEmptyLists<E>(db: seq<Person<E>>)
    requires forall k :: 0 <= k < |db| ==> db[k].refs == []
    ensures Flatten(db) == []
  {
    if db != [] {
      FlattenOfEmptyLists(db[..|db| - 1]);
    }
  }
}
