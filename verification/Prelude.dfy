/** Small shared vocabulary: optional values, and facts about sequences that
    stand for Python lists and for the key order of Python dicts. */
module Prelude {

  datatype Option<+T> = None | Some(value: T)

  /** No element occurs twice. */
  ghost predicate Distinct<T>(s: seq<T>) {
    forall i, j :: 0 <= i < j < |s| ==> s[i] != s[j]
  }

  function ToSet<T>(s: seq<T>): (r: set<T>) {
    set x | x in s
  }

  /** Two distinct lists over the same elements have the same length. */
  lemma {:induction false} DistinctCardinality<T>(s: seq<T>)
    requires Distinct(s)
    ensures |ToSet(s)| == |s|
  {
    if s == [] {
      assert ToSet(s) == {};
    } else {
      var front := s[..|s| - 1];
      DistinctCardinality(front);
      assert ToSet(s) == ToSet(front) + {s[|s| - 1]};
      assert s[|s| - 1] !in ToSet(front);
    }
  }

  /** `list(dict.fromkeys(s))`: first occurrences, in order. */
  function FromKeys<T(==, !new)>(s: seq<T>): (r: seq<T>)
    ensures forall x :: x in r <==> x in s
    ensures Distinct(r)
  {
    if s == [] then []
    else
      var front := FromKeys(s[..|s| - 1]);
      var x := s[|s| - 1];
      assert s == s[..|s| - 1] + [x];
      if x in front then front else front + [x]
  }

  /** Of two elements kept, the one kept first was met before the other. */
  lemma {:induction false} FromKeysInOrder<T(!new)>(s: seq<T>, i: nat, j: nat) returns (p: nat)
    requires i < j < |FromKeys(s)|
    ensures p < |s| && s[p] == FromKeys(s)[i] && FromKeys(s)[j] !in s[..p + 1]
  {
    var n := |s| - 1;
    var front := FromKeys(s[..n]);
    if j < |front| {
      p := FromKeysInOrder(s[..n], i, j);
      assert s[..n][..p + 1] == s[..p + 1];
    } else {
      assert front[i] in s[..n] && s[n] !in s[..n];
      p :| 0 <= p < n && s[p] == front[i];
      assert forall x :: x in s[..p + 1] ==> x in s[..n];
    }
  }

  lemma {:induction false} InPair<T>(a: T, b: T)
    ensures a in [a, b] && b in [a, b] && a in [a]
  {
    assert [a, b][0] == a && [a, b][1] == b && [a][0] == a;
  }
}
