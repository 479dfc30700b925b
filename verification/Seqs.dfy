/** Sequences without repetition: removing and inserting an element. */
module Seqs {
  ghost predicate Distinct(s: seq<nat>) {
    forall i, j :: 0 <= i < j < |s| ==> s[i] != s[j]
  }

  function Remove<T>(s: seq<T>, i: nat): seq<T>
    requires i < |s|
  {
    s[..i] + s[i + 1..]
  }

  function Insert<T>(s: seq<T>, i: nat, x: T): seq<T>
    requires i <= |s|
  {
    s[..i] + [x] + s[i..]
  }

  /** A position after the removal of position `j`, as a position before it. */
  function Before(j: nat, i: nat): nat {
    if i < j then i else i + 1
  }

  lemma RemoveAt(s: seq<nat>, j: nat)
    requires j < |s|
    ensures |Remove(s, j)| == |s| - 1
    ensures forall i :: 0 <= i < |s| - 1 ==> Remove(s, j)[i] == s[Before(j, i)]
    ensures Distinct(s) ==> Distinct(Remove(s, j)) && s[j] !in Remove(s, j)
    ensures forall x :: x in s && x != s[j] ==> x in Remove(s, j)
    ensures forall x :: x in Remove(s, j) ==> x in s
  {
    var r := Remove(s, j);
    assert forall i :: 0 <= i < |r| ==> r[i] == s[Before(j, i)];
    forall x | x in s && x != s[j]
      ensures x in r
    {
      var o :| 0 <= o < |s| && s[o] == x;
      assert r[if o < j then o else o - 1] == x;
    }
  }

  lemma InsertAt(s: seq<nat>, k: nat, x: nat)
    requires k <= |s|
    ensures |Insert(s, k, x)| == |s| + 1
    ensures forall i :: 0 <= i <= |s| ==> Insert(s, k, x)[i] == if i < k then s[i] else if i == k then x else s[i - 1]
    ensures x in Insert(s, k, x)
    ensures forall y :: y in s ==> y in Insert(s, k, x)
  {
    var r := Insert(s, k, x);
    assert r[k] == x;
    forall y | y in s
      ensures y in r
    {
      var o :| 0 <= o < |s| && s[o] == y;
      assert r[if o < k then o else o + 1] == y;
    }
  }

  /** A sequence is free of repetition just when no element occurs twice. */
  lemma {:induction false} DistinctOccurs(s: seq<nat>)
    ensures Distinct(s) <==> forall x :: multiset(s)[x] <= 1
  {
    if s != [] {
      var n := |s| - 1;
      DistinctOccurs(s[..n]);
      assert s == s[..n] + [s[n]];
      if Distinct(s) {
        assert s[n] !in s[..n];
      } else if Distinct(s[..n]) {
        var i :| 0 <= i < n && s[i] == s[n];
        assert s[..n][i] == s[n];
        assert multiset(s[..n])[s[n]] >= 1;
        assert multiset(s)[s[n]] > 1;
      } else {
        var x :| multiset(s[..n])[x] > 1;
        assert multiset(s)[x] > 1;
      }
    }
  }

  /** The same elements in another order. */
  lemma Reordered(a: seq<nat>, b: seq<nat>)
    requires multiset(a) == multiset(b)
    ensures Distinct(a) ==> Distinct(b)
    ensures forall x :: x in a <==> x in b
  {
    DistinctOccurs(a);
    DistinctOccurs(b);
    forall x
      ensures x in a <==> x in b
    {
      assert x in a <==> x in multiset(a);
      assert x in b <==> x in multiset(b);
    }
  }
}
