/** `face_auth/trigger.py`: the single-capture verifier. Its enrolled map is `name -> [reference
    embeddings]` like the pipeline's, but it accepts with an INCLUSIVE threshold and reports a dict
    `{"status", "identity", "distance"}`. Cosine distance is the abstract `dist`. */
module FaceTrigger {
  import opened Common
  import opened Matching

  /** `THRESHOLD`, the default of `verify_embedding`'s `threshold` parameter. */
  const Threshold: real := 0.4

  /** `verify_embedding`: the nested loops keep the first closest pair, then `min_distance <= threshold`
      decides between an authorized result naming that pair's owner and an intruder result naming nobody. */
  method VerifyEmbedding<E>(target: E, known: seq<Person<E>>, dist: (E, E) -> real, threshold: real)
    returns (v: Verification)
    ensures v == Judge(BestMatch(target, Flatten(known), dist), threshold)
    ensures v.status == "authorized" <==> (|Flatten(known)| > 0 && BestMatch(target, Flatten(known), dist).score.value <= threshold)
    ensures v.status == "authorized" ==> v.identity == BestMatch(target, Flatten(known), dist).name
    ensures v.status != "authorized" ==> v == Verification("intruder", None, v.distance)
  {
    var minDistance := Infinite;
    var bestMatch: Option<string> := None;
    for k := 0 to |known|
      invariant Match(bestMatch, minDistance) == BestMatch(target, Flatten(known[..k]), dist)
    {
      var name := known[k].name;
      var embeddings := known[k].refs;
      ghost var before := Flatten(known[..k]);
      assert before + PairsOf(known[k])[..0] == before;
      for j := 0 to |embeddings|
        invariant Match(bestMatch, minDistance) == BestMatch(target, before + PairsOf(known[k])[..j], dist)
      {
        var distance := dist(target, embeddings[j]);
        InnerStep(target, before, known[k], j, dist);
        if Improves(distance, minDistance) {
          minDistance := Finite(distance);
          bestMatch := Some(name);
        }
      }
      assert PairsOf(known[k])[..|embeddings|] == PairsOf(known[k]);
      FlattenSnoc(known, k);
    }
    assert known[..|known|] == known;
    if AtMost(minDistance, threshold) {
      v := Verification("authorized", bestMatch, minDistance);
    } else {
      v := Verification("intruder", None, minDistance);
    }
  }

  /** The call `verify_embedding(embedding, known_embeddings)` uses the default threshold, and a reference
      exactly at that distance is accepted, because the comparison is `<=`. */
  lemma DefaultThresholdIsInclusive<E>(target: E, name: string, ref: E, dist: (E, E) -> real)
    requires dist(target, ref) == Threshold
    ensures Judge(BestMatch(target, Flatten([Person(name, [ref])]), dist), Threshold)
              == Verification("authorized", Some(name), Finite(Threshold))
  {
    assert Flatten([Person(name, [ref])]) == [Ref(name, ref)] by {
      assert [Person(name, [ref])][..0] == [];
    }
  }
}
