/** Value types shared by the whole model, and the two selection rules (first minimum, first maximum)
    that several loops of the system implement. */
module Common {

  datatype Option<T> = None | Some(value: T)

  /** What a Python call does: it returns a value, or it raises an exception whose `str(e)` is `error`. */
  datatype Outcome<T> = Return(value: T) | Raise(error: string)

  /** A distance as the matchers hold it: a finite real, or `float("inf")`, the start value of their searches. */
  datatype Score = Finite(value: real) | Infinite

  /** Appending an empty sequence, on either side, changes nothing. */
  lemma AppendEmpty<T>(s: seq<T>)
    ensures s + [] == s && [] + s == s
  {
  }

  /** `s < t` for a Python float `s` that may be infinite. */
  predicate Below(s: Score, t: real) {
    s.Finite? && s.value < t
  }

  /** `s <= t` for a Python float `s` that may be infinite. */
  predicate AtMost(s: Score, t: real) {
    s.Finite? && s.value <= t
  }

  /** `d < s` for a finite `d`: every finite distance is below infinity. */
  predicate Improves(d: real, s: Score) {
    s.Infinite? || d < s.value
  }

  /** `i` is the first position holding the smallest value of `ds`. */
  ghost predicate IsFirstMin(ds: seq<real>, i: int) {
    && 0 <= i < |ds|
    && (forall j :: 0 <= j < |ds| ==> ds[i] <= ds[j])
    && (forall j :: 0 <= j < i ==> ds[i] < ds[j])
  }

  /** `i` is the first position holding the largest value of `ks`. */
  ghost predicate IsFirstMax(ks: seq<real>, i: int) {
    && 0 <= i < |ks|
    && (forall j :: 0 <= j < |ks| ==> ks[j] <= ks[i])
    && (forall j :: 0 <= j < i ==> ks[j] < ks[i])
  }

  /** The index a left-to-right scan that replaces its candidate only on a strictly smaller value ends with. */
  function FirstMinIndex(ds: seq<real>): (i: nat)
    requires |ds| > 0
    ensures IsFirstMin(ds, i)
  {
    if |ds| == 1 then 0
    else
      var k := FirstMinIndex(ds[..|ds| - 1]);
      if ds[|ds| - 1] < ds[k] then |ds| - 1 else k
  }

  /** The index a left-to-right scan that replaces its candidate only on a strictly larger value ends with. */
  function FirstMaxIndex(ks: seq<real>): (i: nat)
    requires |ks| > 0
    ensures IsFirstMax(ks, i)
  {
    if |ks| == 1 then 0
    else
      var k := FirstMaxIndex(ks[..|ks| - 1]);
      if ks[k] < ks[|ks| - 1] then |ks| - 1 else k
  }
}
