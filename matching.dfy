/** The nearest-reference search that the three matchers of the system run, stated once. Embeddings are
    opaque values of type `E`; the distance between two of them is an uninterpreted real-valued function. */
module Matching {
  import opened Common

  /** One reference embedding and the name it was enrolled under. */
  datatype Ref<E> = Ref(name: string, embedding: E)

  /** One entry `name -> [references]` of an enrolled map whose values are lists. */
  datatype Person<E> = Person(name: string, refs: seq<E>)

  /** What a search ends with: `(best_match, best_score)`, which is `(None, inf)` before any comparison. */
  datatype Match = Match(name: Option<string>, score: Score)

  /** The references of one person, in list order. */
  function PairsOf<E>(p: Person<E>): (r: seq<Ref<E>>)
    ensures |r| == |p.refs|
    ensures forall j :: 0 <= j < |r| ==> r[j] == Ref(p.name, p.refs[j])
  {
    seq(|p.refs|, j requires 0 <= j < |p.refs| => Ref(p.name, p.refs[j]))
  }

  /** The (name, reference) pairs of a list-valued map, in the order its nested loops visit them. */
  function Flatten<E>(db: seq<Person<E>>): seq<Ref<E>> {
    if db == [] then [] else Flatten(db[..|db| - 1]) + PairsOf(db[|db| - 1])
  }

  /** The distances from `target` to each reference, in order. */
  function Distances<E>(target: E, refs: seq<Ref<E>>, dist: (E, E) -> real): (ds: seq<real>)
    ensures |ds| == |refs|
    ensures forall j :: 0 <= j < |refs| ==> ds[j] == dist(target, refs[j].embedding)
  {
    seq(|refs|, j requires 0 <= j < |refs| => dist(target, refs[j].embedding))
  }

  /** The result of scanning `refs` in order and keeping a reference only when it is strictly closer
      than the best so far: the closest reference, the earliest of several equally close ones. */
  function BestMatch<E>(target: E, refs: seq<Ref<E>>, dist: (E, E) -> real): (m: Match)
    ensures m.name.Some? <==> |refs| > 0
    ensures m.score.Finite? <==> |refs| > 0
  {
    if |refs| == 0 then Match(None, Infinite)
    else
      var i := FirstMinIndex(Distances(target, refs, dist));
      Match(Some(refs[i].name), Finite(dist(target, refs[i].embedding)))
  }

  /** The search returns the first closest reference: its name and its distance. */
  lemma BestMatchIsFirstMin<E>(target: E, refs: seq<Ref<E>>, dist: (E, E) -> real)
    requires |refs| > 0
    ensures exists i :: IsFirstMin(Distances(target, refs, dist), i)
                     && BestMatch(target, refs, dist) == Match(Some(refs[i].name), Finite(dist(target, refs[i].embedding)))
  {
    var i := FirstMinIndex(Distances(target, refs, dist));
    assert IsFirstMin(Distances(target, refs, dist), i);
  }

  /** One more step of the scan: a reference replaces the best match exactly when it is strictly closer. */
  lemma BestMatchSnoc<E>(target: E, refs: seq<Ref<E>>, r: Ref<E>, dist: (E, E) -> real)
    ensures var m := BestMatch(target, refs, dist);
            var d := dist(target, r.embedding);
            BestMatch(target, refs + [r], dist) == if Improves(d, m.score) then Match(Some(r.name), Finite(d)) else m
  {
    var ds := Distances(target, refs + [r], dist);
    assert ds[..|ds| - 1] == Distances(target, refs, dist);
  }

  /** The prefix of the list-valued map covered by the outer loop grows by one person's references. */
  lemma FlattenSnoc<E>(db: seq<Person<E>>, k: nat)
    requires k < |db|
    ensures Flatten(db[..k + 1]) == Flatten(db[..k]) + PairsOf(db[k])
  {
    assert db[..k + 1][..k] == db[..k];
  }

  /** The inner loop's step: one more reference of `p` is compared. */
  lemma InnerStep<E>(target: E, before: seq<Ref<E>>, p: Person<E>, j: nat, dist: (E, E) -> real)
    requires j < |p.refs|
    ensures var m := BestMatch(target, before + PairsOf(p)[..j], dist);
            var d := dist(target, p.refs[j]);
            BestMatch(target, before + PairsOf(p)[..j + 1], dist) == if Improves(d, m.score) then Match(Some(p.name), Finite(d)) else m
  {
    assert before + PairsOf(p)[..j + 1] == before + PairsOf(p)[..j] + [Ref(p.name, p.refs[j])];
    BestMatchSnoc(target, before + PairsOf(p)[..j], Ref(p.name, p.refs[j]), dist);
  }

  /** The closest score is no larger than any distance, and is the distance of the named reference. */
  lemma BestMatchIsMinimal<E>(target: E, refs: seq<Ref<E>>, dist: (E, E) -> real)
    requires |refs| > 0
    ensures var m := BestMatch(target, refs, dist);
            && (forall j :: 0 <= j < |refs| ==> m.score.value <= dist(target, refs[j].embedding))
            && (exists j :: 0 <= j < |refs| && refs[j].name == m.name.value && dist(target, refs[j].embedding) == m.score.value)
  {
    var ds := Distances(target, refs, dist);
    var i := FirstMinIndex(ds);
    assert forall j :: 0 <= j < |refs| ==> ds[i] <= ds[j];
  }

  /** The threshold rule shared by `face_auth/trigger.py` and `face_auth/verify_faces.py`. */
  datatype Verification = Verification(status: string, identity: Option<string>, distance: Score)

  /** `{"status": "authorized", "identity": best, ...}` when the distance is at most the threshold,
      `{"status": "intruder", "identity": None, ...}` otherwise. */
  function Judge(m: Match, threshold: real): (v: Verification)
    requires m.name.Some? <==> m.score.Finite?
    ensures v.distance == m.score
    ensures v.status == "authorized" <==> AtMost(m.score, threshold)
    ensures v.status == "authorized" || v.status == "intruder"
    ensures v.status == "authorized" ==> v.identity == m.name && v.identity.Some?
    ensures v.status == "intruder" ==> v.identity.None?
  {
    if AtMost(m.score, threshold) then Verification("authorized", m.name, m.score)
    else Verification("intruder", None, m.score)
  }

  /** With nothing enrolled, every face is an intruder, whatever the threshold. */
  lemma EmptyEnrollmentIsIntruder<E>(target: E, dist: (E, E) -> real, threshold: real)
    ensures Judge(BestMatch(target, [], dist), threshold) == Verification("intruder", None, Infinite)
  {
  }

  /** Every flattened reference carries the name of one of the enrolled persons. */
  lemma {:induction false} FlattenNames<E>(db: seq<Person<E>>)
    ensures forall j :: 0 <= j < |Flatten(db)| ==> exists k :: 0 <= k < |db| && db[k].name == Flatten(db)[j].name
  {
    if db != [] {
      var init, last := db[..|db| - 1], db[|db| - 1];
      FlattenNames(init);
      forall j | 0 <= j < |Flatten(db)| ensures exists k :: 0 <= k < |db| && db[k].name == Flatten(db)[j].name {
        if j < |Flatten(init)| {
          var k :| 0 <= k < |init| && init[k].name == Flatten(init)[j].name;
          assert db[k] == init[k];
        } else {
          assert Flatten(db)[j] == PairsOf(last)[j - |Flatten(init)|];
          assert db[|db| - 1] == last;
        }
      }
    } else {
      assert Flatten(db) == [];
    }
  }
}
