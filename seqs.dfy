/** Sequence helpers shared by the list edits and the cashflow arithmetic. */
module Seqs {

  /** Array.prototype.filter: the elements that `keep` accepts, in their original order. */
  function Filter<T>(s: seq<T>, keep: T -> bool): seq<T> {
    if s == [] then []
    else if keep(s[|s| - 1]) then Filter(s[..|s| - 1], keep) + [s[|s| - 1]]
    else Filter(s[..|s| - 1], keep)
  }

  /** No two elements share a key. */
  predicate DistinctKeys<T>(s: seq<T>, key: T -> string) {
    forall i, j | 0 <= i < j < |s| :: key(s[i]) != key(s[j])
  }

  function Sum(s: seq<real>): real {
    if s == [] then 0.0 else Sum(s[..|s| - 1]) + s[|s| - 1]
  }

  lemma {:induction false} FilterMembership<T>(s: seq<T>, keep: T -> bool)
    ensures |Filter(s, keep)| <= |s|
    ensures forall x {:trigger x in Filter(s, keep)} :: x in Filter(s, keep) ==> x in s && keep(x)
    ensures forall x {:trigger x in s} :: x in s && keep(x) ==> x in Filter(s, keep)
  {
    if s != [] {
      FilterMembership(s[..|s| - 1], keep);
      assert s == s[..|s| - 1] + [s[|s| - 1]];
    }
  }

  /** Filtering splits over concatenation, so it keeps the relative order of the survivors. */
  lemma {:induction false} FilterAppend<T>(a: seq<T>, b: seq<T>, keep: T -> bool)
    ensures Filter(a + b, keep) == Filter(a, keep) + Filter(b, keep)
    decreases |b|
  {
    if b == [] {
      assert a + b == a;
    } else {
      var b' := b[..|b| - 1];
      assert (a + b)[..|a + b| - 1] == a + b';
      assert (a + b)[|a + b| - 1] == b[|b| - 1];
      FilterAppend(a, b', keep);
    }
  }

  /** Filtering keeps every element when `keep` accepts them all. */
  lemma {:induction false} FilterKeepsAll<T>(s: seq<T>, keep: T -> bool)
    requires forall x | x in s :: keep(x)
    ensures Filter(s, keep) == s
  {
    if s != [] {
      assert forall x | x in s[..|s| - 1] :: x in s;
      FilterKeepsAll(s[..|s| - 1], keep);
      assert s == s[..|s| - 1] + [s[|s| - 1]];
    }
  }

  lemma {:induction false} FilterKeepsDistinct<T>(s: seq<T>, keep: T -> bool, key: T -> string)
    requires DistinctKeys(s, key)
    ensures DistinctKeys(Filter(s, keep), key)
  {
    if s != [] {
      var init := s[..|s| - 1];
      var last := s[|s| - 1];
      FilterKeepsDistinct(init, keep, key);
      FilterMembership(init, keep);
      if keep(last) {
        var f := Filter(init, keep);
        forall i | 0 <= i < |f| ensures key(f[i]) != key(last) {
          assert f[i] in f;
          assert f[i] in init;
          var k :| 0 <= k < |init| && init[k] == f[i];
          assert s[k] == f[i];
        }
      }
    }
  }

  lemma {:induction false} SumAppend(a: seq<real>, b: seq<real>)
    ensures Sum(a + b) == Sum(a) + Sum(b)
    decreases |b|
  {
    if b == [] {
      assert a + b == a;
    } else {
      var b' := b[..|b| - 1];
      assert (a + b)[..|a + b| - 1] == a + b';
      SumAppend(a, b');
    }
  }
}
