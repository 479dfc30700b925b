/**
 * The circular sentinel lists of sxe-list. Objects are numbered from 0, and the sentinel of list `l` is node
 * `base + l`, so links are node numbers; `|next|` stands for NULL.
 */
module SxeList {
  import opened Bytes
  import opened Seqs

  /** Position `i` on the ring of the objects of `q` and the sentinel `s`. */
  function RingAt(q: seq<nat>, s: nat, i: int): nat {
    if 0 <= i < |q| then q[i] else s
  }

  ghost predicate Ring(next: seq<nat>, prev: seq<nat>, q: seq<nat>, s: nat) {
    && s < |next| == |prev|
    && next[s] == RingAt(q, s, 0) && prev[s] == RingAt(q, s, |q| - 1)
    && (forall i :: 0 <= i < |q| ==> q[i] < |next| && q[i] != s)
    && (forall i {:trigger next[q[i]]} {:trigger prev[q[i]]} :: 0 <= i < |q| ==>
          next[q[i]] == RingAt(q, s, i + 1) && prev[q[i]] == RingAt(q, s, i - 1))
  }

  lemma RingLinks(next: seq<nat>, prev: seq<nat>, q: seq<nat>, s: nat, i: int)
    requires Ring(next, prev, q, s) && -1 <= i <= |q|
    ensures RingAt(q, s, i) < |next| == |prev|
    ensures i < |q| ==> next[RingAt(q, s, i)] == RingAt(q, s, i + 1)
    ensures i >= 0 ==> prev[RingAt(q, s, i)] == RingAt(q, s, i - 1)
  {
  }

  /** Node `x` linked in between the neighbours `a` and `b`. */
  function InNext(next: seq<nat>, a: nat, b: nat, x: nat): (r: seq<nat>)
    requires a < |next| && x < |next|
    ensures |r| == |next|
  {
    next[x := b][a := x]
  }

  function InPrev(prev: seq<nat>, a: nat, b: nat, x: nat): (r: seq<nat>)
    requires b < |prev| && x < |prev|
    ensures |r| == |prev|
  {
    prev[x := a][b := x]
  }

  /** Different positions of the ring hold different nodes. */
  lemma RingDistinct(q: seq<nat>, s: nat, i: nat, j: int)
    requires Distinct(q) && s !in q && i < |q| && -1 <= j <= |q|
    ensures RingAt(q, s, i) == RingAt(q, s, j) ==> i == j
  {
    if 0 <= j < |q| {
      assert i < j ==> q[i] != q[j];
      assert j < i ==> q[j] != q[i];
    }
  }

  /** The links of an object that was on the ring before `x` was linked in at place `k`. */
  lemma LinksAfterInsert(next: seq<nat>, prev: seq<nat>, q: seq<nat>, s: nat, k: nat, x: nat, o: nat)
    requires Ring(next, prev, q, s) && Distinct(q) && s !in q && k <= |q| && x < |next| && x != s && x !in q && o < |q|
    ensures RingAt(q, s, k - 1) < |next| == |prev| && RingAt(q, s, k) < |next| && q[o] < |next|
    ensures var a, b := RingAt(q, s, k - 1), RingAt(q, s, k);
      && InNext(next, a, b, x)[q[o]] == (if o == k - 1 then x else RingAt(q, s, o + 1))
      && InPrev(prev, a, b, x)[q[o]] == (if o == k then x else RingAt(q, s, o - 1))
  {
    RingLinks(next, prev, q, s, k - 1);
    RingLinks(next, prev, q, s, k);
    RingLinks(next, prev, q, s, o);
    hide Ring;
    RingDistinct(q, s, o, k - 1);
    RingDistinct(q, s, o, k);
    hide Distinct;
  }

  lemma InsertRingAt(q: seq<nat>, s: nat, k: nat, x: nat, j: int)
    requires k <= |q| && -1 <= j <= |q| + 1
    ensures |Insert(q, k, x)| == |q| + 1
    ensures j < k ==> RingAt(Insert(q, k, x), s, j) == RingAt(q, s, j)
    ensures j == k ==> RingAt(Insert(q, k, x), s, j) == x
    ensures j > k ==> RingAt(Insert(q, k, x), s, j) == RingAt(q, s, j - 1)
  {
    InsertAt(q, k, x);
  }

  /** The links of the object at place `i` of a ring that gained `x` at place `k`. */
  ghost predicate LinkedAt(next: seq<nat>, prev: seq<nat>, r: seq<nat>, s: nat, i: nat) {
    && i < |r| && r[i] < |next| == |prev| && r[i] != s
    && next[r[i]] == RingAt(r, s, i + 1) && prev[r[i]] == RingAt(r, s, i - 1)
  }

  lemma InsertedBefore(next: seq<nat>, prev: seq<nat>, q: seq<nat>, s: nat, k: nat, x: nat, i: nat)
    requires Ring(next, prev, q, s) && Distinct(q) && s !in q && k <= |q| && x < |next| && x != s && x !in q && i < k
    ensures RingAt(q, s, k - 1) < |next| == |prev| && RingAt(q, s, k) < |next|
    ensures LinkedAt(InNext(next, RingAt(q, s, k - 1), RingAt(q, s, k), x), InPrev(prev, RingAt(q, s, k - 1), RingAt(q, s, k), x),
                     Insert(q, k, x), s, i)
  {
    hide Ring, Insert, Distinct, InNext, InPrev;
    InsertRingAt(q, s, k, x, i);
    InsertRingAt(q, s, k, x, i + 1);
    InsertRingAt(q, s, k, x, i - 1);
    LinksAfterInsert(next, prev, q, s, k, x, i);
  }

  lemma InsertedAfter(next: seq<nat>, prev: seq<nat>, q: seq<nat>, s: nat, k: nat, x: nat, i: nat)
    requires Ring(next, prev, q, s) && Distinct(q) && s !in q && k <= |q| && x < |next| && x != s && x !in q && k < i <= |q|
    ensures RingAt(q, s, k - 1) < |next| == |prev| && RingAt(q, s, k) < |next|
    ensures LinkedAt(InNext(next, RingAt(q, s, k - 1), RingAt(q, s, k), x), InPrev(prev, RingAt(q, s, k - 1), RingAt(q, s, k), x),
                     Insert(q, k, x), s, i)
  {
    hide Ring, Insert, Distinct, InNext, InPrev;
    InsertRingAt(q, s, k, x, i);
    InsertRingAt(q, s, k, x, i + 1);
    InsertRingAt(q, s, k, x, i - 1);
    LinksAfterInsert(next, prev, q, s, k, x, i - 1);
  }

  lemma InsertedHere(next: seq<nat>, prev: seq<nat>, q: seq<nat>, s: nat, k: nat, x: nat)
    requires Ring(next, prev, q, s) && s !in q && k <= |q| && x < |next| && x != s && x !in q
    ensures RingAt(q, s, k - 1) < |next| == |prev| && RingAt(q, s, k) < |next|
    ensures LinkedAt(InNext(next, RingAt(q, s, k - 1), RingAt(q, s, k), x), InPrev(prev, RingAt(q, s, k - 1), RingAt(q, s, k), x),
                     Insert(q, k, x), s, k)
  {
    RingLinks(next, prev, q, s, k - 1);
    RingLinks(next, prev, q, s, k);
    hide Ring, Insert;
    InsertRingAt(q, s, k, x, k);
    InsertRingAt(q, s, k, x, k + 1);
    InsertRingAt(q, s, k, x, k - 1);
  }

  lemma InsertRing(next: seq<nat>, prev: seq<nat>, q: seq<nat>, s: nat, k: nat, x: nat)
    requires Ring(next, prev, q, s) && Distinct(q) && s !in q && k <= |q| && x < |next| && x != s && x !in q
    ensures RingAt(q, s, k - 1) < |next| == |prev| && RingAt(q, s, k) < |next|
    ensures Ring(InNext(next, RingAt(q, s, k - 1), RingAt(q, s, k), x), InPrev(prev, RingAt(q, s, k - 1), RingAt(q, s, k), x),
                 Insert(q, k, x), s)
  {
    var a, b, r := RingAt(q, s, k - 1), RingAt(q, s, k), Insert(q, k, x);
    SentinelAfterInsert(next, prev, q, s, k, x);
    var next', prev' := InNext(next, a, b, x), InPrev(prev, a, b, x);
    InsertedHere(next, prev, q, s, k, x);
    forall i | 0 <= i < |r|
      ensures LinkedAt(next', prev', r, s, i)
    {
      if i < k {
        InsertedBefore(next, prev, q, s, k, x, i);
      } else if i > k {
        InsertedAfter(next, prev, q, s, k, x, i);
      }
    }
    hide InNext, InPrev, Insert;
    LinkedIsRing(next', prev', r, s);
  }

  lemma LinkedIsRing(next: seq<nat>, prev: seq<nat>, r: seq<nat>, s: nat)
    requires s < |next| == |prev| && next[s] == RingAt(r, s, 0) && prev[s] == RingAt(r, s, |r| - 1)
    requires forall i :: 0 <= i < |r| ==> LinkedAt(next, prev, r, s, i)
    ensures Ring(next, prev, r, s)
  {
    forall i | 0 <= i < |r|
      ensures r[i] < |next| && r[i] != s && next[r[i]] == RingAt(r, s, i + 1) && prev[r[i]] == RingAt(r, s, i - 1)
    {
      assert LinkedAt(next, prev, r, s, i);
    }
  }

  lemma SentinelAfterInsert(next: seq<nat>, prev: seq<nat>, q: seq<nat>, s: nat, k: nat, x: nat)
    requires Ring(next, prev, q, s) && k <= |q| && x < |next| && x != s
    ensures RingAt(q, s, k - 1) < |next| == |prev| && RingAt(q, s, k) < |next|
    ensures var a, b, r := RingAt(q, s, k - 1), RingAt(q, s, k), Insert(q, k, x);
      InNext(next, a, b, x)[s] == RingAt(r, s, 0) && InPrev(prev, a, b, x)[s] == RingAt(r, s, |r| - 1)
  {
    InsertAt(q, k, x);
    RingLinks(next, prev, q, s, k - 1);
    RingLinks(next, prev, q, s, k);
  }

  /** Node `x` unlinked from between the neighbours `a` and `b`. */
  function OutNext(next: seq<nat>, a: nat, b: nat, x: nat): (r: seq<nat>)
    requires a < |next| && x < |next|
    ensures |r| == |next|
  {
    next[a := b][x := |next|]
  }

  function OutPrev(prev: seq<nat>, a: nat, b: nat, x: nat): (r: seq<nat>)
    requires b < |prev| && x < |prev|
    ensures |r| == |prev|
  {
    prev[b := a][x := |prev|]
  }

  /** The links of an object that stays on the ring when the one at place `k` is linked out. */
  lemma LinksAfterRemove(next: seq<nat>, prev: seq<nat>, q: seq<nat>, s: nat, k: nat, o: nat)
    requires Ring(next, prev, q, s) && Distinct(q) && s !in q && k < |q| && o < |q| && o != k
    ensures RingAt(q, s, k - 1) < |next| == |prev| && RingAt(q, s, k + 1) < |next| && q[k] < |next| && q[o] < |next|
    ensures var a, b := RingAt(q, s, k - 1), RingAt(q, s, k + 1);
      && OutNext(next, a, b, q[k])[q[o]] == RingAt(q, s, if o == k - 1 then k + 1 else o + 1)
      && OutPrev(prev, a, b, q[k])[q[o]] == RingAt(q, s, if o == k + 1 then k - 1 else o - 1)
  {
    RingLinks(next, prev, q, s, k - 1);
    RingLinks(next, prev, q, s, k + 1);
    RingLinks(next, prev, q, s, k);
    RingLinks(next, prev, q, s, o);
    hide Ring;
    RingDistinct(q, s, o, k - 1);
    RingDistinct(q, s, o, k + 1);
    RingDistinct(q, s, o, k);
    hide Distinct;
  }

  lemma RemovedAt(next: seq<nat>, prev: seq<nat>, q: seq<nat>, s: nat, k: nat, i: nat)
    requires Ring(next, prev, q, s) && Distinct(q) && s !in q && k < |q| && i < |q| - 1
    ensures RingAt(q, s, k - 1) < |next| == |prev| && RingAt(q, s, k + 1) < |next| && q[k] < |next|
    ensures |Remove(q, k)| == |q| - 1
    ensures var a, b, r := RingAt(q, s, k - 1), RingAt(q, s, k + 1), Remove(q, k);
      && r[i] < |next| && r[i] != s
      && OutNext(next, a, b, q[k])[r[i]] == RingAt(r, s, i + 1) && OutPrev(prev, a, b, q[k])[r[i]] == RingAt(r, s, i - 1)
  {
    LinksAfterRemove(next, prev, q, s, k, if i < k then i else i + 1);
    RemoveAt(q, k);
    hide Ring, Distinct, Remove, OutNext, OutPrev;
  }

  lemma SentinelAfterRemove(next: seq<nat>, prev: seq<nat>, q: seq<nat>, s: nat, k: nat)
    requires Ring(next, prev, q, s) && k < |q|
    ensures RingAt(q, s, k - 1) < |next| == |prev| && RingAt(q, s, k + 1) < |next| && q[k] < |next|
    ensures var a, b, r := RingAt(q, s, k - 1), RingAt(q, s, k + 1), Remove(q, k);
      && OutNext(next, a, b, q[k])[s] == RingAt(r, s, 0) && OutPrev(prev, a, b, q[k])[s] == RingAt(r, s, |r| - 1)
  {
    RemoveAt(q, k);
    RingLinks(next, prev, q, s, k - 1);
    RingLinks(next, prev, q, s, k + 1);
  }

  lemma RemoveRing(next: seq<nat>, prev: seq<nat>, q: seq<nat>, s: nat, k: nat)
    requires Ring(next, prev, q, s) && Distinct(q) && s !in q && k < |q|
    ensures RingAt(q, s, k - 1) < |next| == |prev| && RingAt(q, s, k + 1) < |next| && q[k] < |next|
    ensures Ring(OutNext(next, RingAt(q, s, k - 1), RingAt(q, s, k + 1), q[k]),
                 OutPrev(prev, RingAt(q, s, k - 1), RingAt(q, s, k + 1), q[k]), Remove(q, k), s)
  {
    SentinelAfterRemove(next, prev, q, s, k);
    var r := Remove(q, k);
    var a, b := RingAt(q, s, k - 1), RingAt(q, s, k + 1);
    var next', prev' := OutNext(next, a, b, q[k]), OutPrev(prev, a, b, q[k]);
    forall i | 0 <= i < |r|
      ensures r[i] < |next'| && r[i] != s
      ensures next'[r[i]] == RingAt(r, s, i + 1) && prev'[r[i]] == RingAt(r, s, i - 1)
    {
      RemovedAt(next, prev, q, s, k, i);
    }
  }

  /** Changing nodes that are not on a ring leaves it as it was. */
  lemma RingFrame(next: seq<nat>, prev: seq<nat>, next': seq<nat>, prev': seq<nat>, q: seq<nat>, s: nat)
    requires Ring(next, prev, q, s) && |next'| == |prev'| == |next|
    requires next'[s] == next[s] && prev'[s] == prev[s]
    requires forall i :: 0 <= i < |q| ==> q[i] < |next| && next'[q[i]] == next[q[i]] && prev'[q[i]] == prev[q[i]]
    ensures Ring(next', prev', q, s)
  {
  }

  /** List `l` holds the objects of `q`, from its head to its tail. */
  ghost predicate QueueOk(base: nat, next: seq<nat>, prev: seq<nat>, id: seq<nat>, l: nat, q: seq<nat>) {
    && Ring(next, prev, q, base + l) && Distinct(q)
    && base + l < |id| && id[base + l] == l && OnList(base, id, l, q)
  }

  /** The objects of `q` carry the id of list `l`. */
  ghost predicate OnList(base: nat, id: seq<nat>, l: nat, q: seq<nat>) {
    forall i :: 0 <= i < |q| ==> q[i] < base && q[i] < |id| && id[q[i]] == l
  }

  ghost predicate ListsOk(base: nat, next: seq<nat>, prev: seq<nat>, id: seq<nat>, length: seq<nat>, queues: seq<seq<nat>>) {
    && |next| == |prev| == |id| == base + |queues| && |length| == |queues|
    && (forall l :: 0 <= l < |queues| ==> length[l] == |queues[l]|)
    && (forall l :: 0 <= l < |queues| ==> QueueOk(base, next, prev, id, l, queues[l]))
  }

  /** The nodes that linking `x` in or out of list `l` may change. */
  ghost predicate OnlyList(base: nat, next: seq<nat>, next': seq<nat>, q: seq<nat>, l: nat, x: nat) {
    && |next'| == |next|
    && forall n :: 0 <= n < |next| && n != x && n != base + l && n !in q ==> next'[n] == next[n]
  }

  lemma OtherQueue(base: nat, next: seq<nat>, prev: seq<nat>, id: seq<nat>, next': seq<nat>, prev': seq<nat>, id': seq<nat>,
                   l: nat, q: seq<nat>, x: nat, m: nat, r: seq<nat>)
    requires QueueOk(base, next, prev, id, l, q) && QueueOk(base, next, prev, id, m, r) && m != l
    requires OnlyList(base, next, next', q, l, x) && OnlyList(base, prev, prev', q, l, x) && OnlyList(base, id, id', q, l, x)
    requires x < base && x !in r && |next| == |prev| == |id|
    ensures QueueOk(base, next', prev', id', m, r)
  {
    hide Distinct, Ring;
    forall i | 0 <= i < |r|
      ensures r[i] !in q && r[i] != x && r[i] < base
    {
      assert id[r[i]] == m;
    }
    Unchanged(base, next, next', q, l, x, m, r);
    Unchanged(base, prev, prev', q, l, x, m, r);
    Unchanged(base, id, id', q, l, x, m, r);
    hide OnlyList;
    RingFrame(next, prev, next', prev', r, base + m);
  }

  lemma Unchanged(base: nat, next: seq<nat>, next': seq<nat>, q: seq<nat>, l: nat, x: nat, m: nat, r: seq<nat>)
    requires OnlyList(base, next, next', q, l, x) && m != l && x < base && base + m < |next|
    requires forall i :: 0 <= i < |q| ==> q[i] < base
    requires forall i :: 0 <= i < |r| ==> r[i] !in q && r[i] != x && r[i] < base && r[i] < |next|
    ensures |next'| == |next| && next'[base + m] == next[base + m]
    ensures forall i :: 0 <= i < |r| ==> next'[r[i]] == next[r[i]]
  {
  }

  lemma InsertChanges(base: nat, next: seq<nat>, prev: seq<nat>, id: seq<nat>, l: nat, q: seq<nat>, k: nat, x: nat)
    requires QueueOk(base, next, prev, id, l, q) && k <= |q| && x < base && x < |id| && x < |next|
    ensures RingAt(q, base + l, k - 1) < |next| == |prev| && RingAt(q, base + l, k) < |next|
    ensures var a, b := RingAt(q, base + l, k - 1), RingAt(q, base + l, k);
      OnlyList(base, next, InNext(next, a, b, x), q, l, x) && OnlyList(base, prev, InPrev(prev, a, b, x), q, l, x)
    ensures OnlyList(base, id, id[x := l], q, l, x)
  {
    hide Distinct;
    RingLinks(next, prev, q, base + l, k - 1);
    RingLinks(next, prev, q, base + l, k);
  }

  lemma InsertQueue(base: nat, next: seq<nat>, prev: seq<nat>, id: seq<nat>, l: nat, q: seq<nat>, k: nat, x: nat)
    requires QueueOk(base, next, prev, id, l, q) && k <= |q| && x < base && x < |id| && x < |next| && x !in q
    ensures RingAt(q, base + l, k - 1) < |next| == |prev| && RingAt(q, base + l, k) < |next|
    ensures var a, b := RingAt(q, base + l, k - 1), RingAt(q, base + l, k);
      QueueOk(base, InNext(next, a, b, x), InPrev(prev, a, b, x), id[x := l], l, Insert(q, k, x))
  {
    hide Insert, Distinct, InNext, InPrev, RingAt;
    InsertRing(next, prev, q, base + l, k, x);
    InsertDistinct(q, k, x);
    InsertBelow(base, id, l, q, k, x);
    hide Ring, OnList;
  }

  lemma InsertBelow(base: nat, id: seq<nat>, l: nat, q: seq<nat>, k: nat, x: nat)
    requires x < base && x < |id| && k <= |q| && OnList(base, id, l, q)
    ensures OnList(base, id[x := l], l, Insert(q, k, x))
  {
    InsertAt(q, k, x);
  }

  lemma InsertDistinct(q: seq<nat>, k: nat, x: nat)
    requires Distinct(q) && k <= |q| && x !in q
    ensures Distinct(Insert(q, k, x))
  {
    InsertAt(q, k, x);
    var r := Insert(q, k, x);
    hide Insert;
    forall i, j | 0 <= i < j < |r|
      ensures r[i] != r[j]
    {
      if i != k && j != k {
        assert q[if i < k then i else i - 1] != q[if j < k then j else j - 1];
      }
    }
  }

  /** Linking an object that is on no list in at place `k` of list `l`. */
  lemma InsertOk(base: nat, next: seq<nat>, prev: seq<nat>, id: seq<nat>, length: seq<nat>, queues: seq<seq<nat>>, l: nat, k: nat, x: nat)
    requires ListsOk(base, next, prev, id, length, queues) && l < |queues| && k <= |queues[l]| && x < base
    requires forall m :: 0 <= m < |queues| ==> x !in queues[m]
    ensures RingAt(queues[l], base + l, k - 1) < |next| == |prev| && RingAt(queues[l], base + l, k) < |next|
    ensures var a, b := RingAt(queues[l], base + l, k - 1), RingAt(queues[l], base + l, k);
      ListsOk(base, InNext(next, a, b, x), InPrev(prev, a, b, x), id[x := l], length[l := length[l] + 1],
              queues[l := Insert(queues[l], k, x)])
  {
    var q := queues[l];
    assert QueueOk(base, next, prev, id, l, q);
    InsertQueue(base, next, prev, id, l, q, k, x);
    InsertChanges(base, next, prev, id, l, q, k, x);
    InsertAt(q, k, x);
    hide QueueOk, OnlyList, Insert;
    var a, b := RingAt(q, base + l, k - 1), RingAt(q, base + l, k);
    forall m | 0 <= m < |queues| && m != l
      ensures QueueOk(base, InNext(next, a, b, x), InPrev(prev, a, b, x), id[x := l], m, queues[m])
    {
      OtherQueue(base, next, prev, id, InNext(next, a, b, x), InPrev(prev, a, b, x), id[x := l], l, q, x, m, queues[m]);
    }
  }

  lemma RemoveQueue(base: nat, next: seq<nat>, prev: seq<nat>, id: seq<nat>, l: nat, q: seq<nat>, k: nat)
    requires QueueOk(base, next, prev, id, l, q) && k < |q|
    ensures RingAt(q, base + l, k - 1) < |next| == |prev| && RingAt(q, base + l, k + 1) < |next| && q[k] < |next| && q[k] < base
    ensures var a, b := RingAt(q, base + l, k - 1), RingAt(q, base + l, k + 1);
      && QueueOk(base, OutNext(next, a, b, q[k]), OutPrev(prev, a, b, q[k]), id, l, Remove(q, k))
      && OnlyList(base, next, OutNext(next, a, b, q[k]), q, l, q[k]) && OnlyList(base, prev, OutPrev(prev, a, b, q[k]), q, l, q[k])
  {
    RemoveRing(next, prev, q, base + l, k);
    hide Ring;
    RemoveAt(q, k);
    hide Remove;
  }

  /** Unlinking the object at place `k` of list `l`. */
  lemma RemoveOk(base: nat, next: seq<nat>, prev: seq<nat>, id: seq<nat>, length: seq<nat>, queues: seq<seq<nat>>, l: nat, k: nat)
    requires ListsOk(base, next, prev, id, length, queues) && l < |queues| && k < |queues[l]|
    ensures RingAt(queues[l], base + l, k - 1) < |next| == |prev| && RingAt(queues[l], base + l, k + 1) < |next| && queues[l][k] < |next|
    ensures length[l] > 0
    ensures var a, b, x := RingAt(queues[l], base + l, k - 1), RingAt(queues[l], base + l, k + 1), queues[l][k];
      ListsOk(base, OutNext(next, a, b, x), OutPrev(prev, a, b, x), id, length[l := length[l] - 1],
              queues[l := Remove(queues[l], k)])
  {
    var q := queues[l];
    assert QueueOk(base, next, prev, id, l, q);
    RemoveQueue(base, next, prev, id, l, q, k);
    RemoveAt(q, k);
    var a, b, x := RingAt(q, base + l, k - 1), RingAt(q, base + l, k + 1), q[k];
    forall m | 0 <= m < |queues| && m != l
      ensures x !in queues[m]
    {
      NotOnBoth(base, next, prev, id, l, q, m, queues[m], k);
    }
    hide QueueOk, Remove;
    assert OnlyList(base, id, id, q, l, x);
    hide OnlyList;
    forall m | 0 <= m < |queues| && m != l
      ensures QueueOk(base, OutNext(next, a, b, x), OutPrev(prev, a, b, x), id, m, queues[m])
    {
      OtherQueue(base, next, prev, id, OutNext(next, a, b, x), OutPrev(prev, a, b, x), id, l, q, x, m, queues[m]);
    }
  }

  lemma NotOnBoth(base: nat, next: seq<nat>, prev: seq<nat>, id: seq<nat>, l: nat, q: seq<nat>, m: nat, r: seq<nat>, k: nat)
    requires QueueOk(base, next, prev, id, l, q) && QueueOk(base, next, prev, id, m, r) && l != m && k < |q|
    ensures q[k] !in r
  {
    hide Ring, Distinct;
  }

  // ---------------------------------------------------------------- the operations

  lemma EmptyLists(base: nat, next: seq<nat>, prev: seq<nat>, id: seq<nat>, length: seq<nat>, queues: seq<seq<nat>>)
    requires |next| == |prev| == |id| == base + |queues| && |length| == |queues|
    requires forall l :: 0 <= l < |queues| ==> length[l] == 0 && queues[l] == []
    requires forall l {:trigger queues[l]} :: 0 <= l < |queues| ==> next[base + l] == base + l && prev[base + l] == base + l && id[base + l] == l
    ensures ListsOk(base, next, prev, id, length, queues)
  {
    forall l | 0 <= l < |queues|
      ensures QueueOk(base, next, prev, id, l, queues[l])
    {
    }
  }

  lemma HeadAndTail(base: nat, next: seq<nat>, prev: seq<nat>, id: seq<nat>, length: seq<nat>, queues: seq<seq<nat>>, l: nat)
    requires ListsOk(base, next, prev, id, length, queues) && l < |queues|
    ensures base + l < |next| == |prev|
    ensures next[base + l] == RingAt(queues[l], base + l, 0) && prev[base + l] == RingAt(queues[l], base + l, |queues[l]| - 1)
    ensures base + l < |id| && id[base + l] == l
    ensures next[base + l] == base + l <==> queues[l] == []
    ensures prev[base + l] == base + l <==> queues[l] == []
  {
    assert QueueOk(base, next, prev, id, l, queues[l]);
    hide Distinct;
  }

  lemma PlaceOnList(base: nat, next: seq<nat>, prev: seq<nat>, id: seq<nat>, length: seq<nat>, queues: seq<seq<nat>>, l: nat, k: nat)
    requires ListsOk(base, next, prev, id, length, queues) && l < |queues| && k < |queues[l]|
    ensures var q, s, x := queues[l], base + l, queues[l][k];
      && x < base && x < |next| == |prev| == |id| && next[x] == RingAt(q, s, k + 1) && prev[x] == RingAt(q, s, k - 1) && id[x] == l
      && RingAt(q, s, k + 1) < |next| && RingAt(q, s, k - 1) < |next| && next[x] != x && prev[x] != x
    ensures Distinct(queues[l])
  {
    assert QueueOk(base, next, prev, id, l, queues[l]);
    RingDistinct(queues[l], base + l, k, k + 1);
    RingDistinct(queues[l], base + l, k, k - 1);
    RingLinks(next, prev, queues[l], base + l, k - 1);
    RingLinks(next, prev, queues[l], base + l, k + 1);
    hide Distinct;
  }

  /** Some lists of the objects 0 .. base - 1. */
  class Lists {
    const base: nat
    const number: nat
    var next: seq<nat>
    var prev: seq<nat>
    var id: seq<nat>
    var length: seq<nat>
    ghost var queues: seq<seq<nat>>

    ghost predicate Valid()
      reads this
    {
      |queues| == number && ListsOk(base, next, prev, id, length, queues)
    }

    ghost predicate Loose(x: nat)
      reads this`queues
    {
      x < base && forall l :: 0 <= l < |queues| ==> x !in queues[l]
    }

    constructor (base: nat, number: nat)
      ensures Valid() && this.base == base && this.number == number
      ensures queues == seq(number, _ => [])
    {
      this.base, this.number := base, number;
      var nulls := seq(base, _ => base + number);
      next, prev := nulls + seq(number, l => base + l), nulls + seq(number, l => base + l);
      id := seq(base, _ => 0) + seq(number, l => l);
      length, queues := seq(number, _ => 0), seq(number, _ => []);
      new;
      EmptyLists(base, next, prev, id, length, queues);
    }

    /** Pushes an object onto the tail of a list. */
    method Push(l: nat, x: nat)
      requires Valid() && l < number && Loose(x)
      modifies this
      ensures Valid() && queues == old(queues)[l := old(queues)[l] + [x]]
    {
      hide ListsOk;
      ghost var q := queues[l];
      InsertOk(base, next, prev, id, length, queues, l, |q|, x);
      HeadAndTail(base, next, prev, id, length, queues, l);
      Sizes(base, next, prev, id, length, queues);
      assert Insert(q, |q|, x) == q + [x];
      ghost var next0, prev0 := next, prev;
      var s := base + l;
      next := next[x := s];
      prev := prev[x := prev[s]];
      prev := prev[s := x];
      next := next[prev[x] := x];
      id := id[x := id[s]];
      length := length[l := length[l] + 1];
      queues := queues[l := queues[l] + [x]];
      assert next == InNext(next0, prev0[s], s, x) && prev == InPrev(prev0, prev0[s], s, x);
    }

    /** Unshifts an object onto the head of a list. */
    method Unshift(l: nat, x: nat)
      requires Valid() && l < number && Loose(x)
      modifies this
      ensures Valid() && queues == old(queues)[l := [x] + old(queues)[l]]
    {
      hide ListsOk;
      ghost var q := queues[l];
      InsertOk(base, next, prev, id, length, queues, l, 0, x);
      HeadAndTail(base, next, prev, id, length, queues, l);
      Sizes(base, next, prev, id, length, queues);
      assert Insert(q, 0, x) == [x] + q;
      ghost var next0, prev0 := next, prev;
      var s := base + l;
      prev := prev[x := s];
      next := next[x := next[s]];
      next := next[s := x];
      prev := prev[next[x] := x];
      id := id[x := id[s]];
      length := length[l := length[l] + 1];
      queues := queues[l := [x] + queues[l]];
      assert next == InNext(next0, s, next0[s], x) && prev == InPrev(prev0, s, next0[s], x);
    }

    /** Removes an object, which is at place `k`, from a list. */
    method Remove(l: nat, x: nat, ghost k: nat)
      requires Valid() && l < number && k < |queues[l]| && queues[l][k] == x
      modifies this
      ensures Valid() && queues == old(queues)[l := Seqs.Remove(old(queues)[l], k)] && Loose(x)
    {
      hide ListsOk;
      ghost var q, next0, prev0 := queues[l], next, prev;
      RemoveOk(base, next, prev, id, length, queues, l, k);
      PlaceOnList(base, next, prev, id, length, queues, l, k);
      Sizes(base, next, prev, id, length, queues);
      NowLoose(base, next, prev, id, length, queues, l, k);
      prev := prev[next[x] := prev[x]];
      next := next[prev[x] := next[x]];
      prev := prev[x := |prev|];
      next := next[x := |next|];
      length := length[l := length[l] - 1];
      queues := queues[l := Seqs.Remove(queues[l], k)];
    }

    /** Pops an object off the tail of a list. */
    method Pop(l: nat) returns (x: Option<nat>)
      requires Valid() && l < number
      modifies this
      ensures Valid()
      ensures x.None? <==> old(queues)[l] == []
      ensures x.None? ==> queues == old(queues)
      ensures x.Some? ==> old(queues)[l] == queues[l] + [x.value] && queues == old(queues)[l := queues[l]] && Loose(x.value)
    {
      hide ListsOk;
      HeadAndTail(base, next, prev, id, length, queues, l);
      var node := prev[base + l];
      if node == base + l {
        return None;
      }
      ghost var q := queues[l];
      Remove(l, node, |q| - 1);
      assert q == Seqs.Remove(q, |q| - 1) + [node];
      return Some(node);
    }

    /** Shifts an object off the head of a list. */
    method Shift(l: nat) returns (x: Option<nat>)
      requires Valid() && l < number
      modifies this
      ensures Valid()
      ensures x.None? <==> old(queues)[l] == []
      ensures x.None? ==> queues == old(queues)
      ensures x.Some? ==> old(queues)[l] == [x.value] + queues[l] && queues == old(queues)[l := queues[l]] && Loose(x.value)
    {
      hide ListsOk;
      HeadAndTail(base, next, prev, id, length, queues, l);
      var node := next[base + l];
      if node == base + l {
        return None;
      }
      ghost var q := queues[l];
      Remove(l, node, 0);
      assert q == [node] + Seqs.Remove(q, 0);
      return Some(node);
    }

    method PeekHead(l: nat) returns (x: Option<nat>)
      requires Valid() && l < number
      ensures x == if queues[l] == [] then None else Some(queues[l][0])
    {
      hide ListsOk;
      HeadAndTail(base, next, prev, id, length, queues, l);
      x := if next[base + l] == base + l then None else Some(next[base + l]);
    }

    method PeekTail(l: nat) returns (x: Option<nat>)
      requires Valid() && l < number
      ensures x == if queues[l] == [] then None else Some(queues[l][|queues[l]| - 1])
    {
      hide ListsOk;
      HeadAndTail(base, next, prev, id, length, queues, l);
      x := if prev[base + l] == base + l then None else Some(prev[base + l]);
    }
  }

  /** A walker over one list: the node it stands on, and the one before; the sentinel stands for neither. */
  class ListWalker {
    const lists: Lists
    const list: nat
    var node: nat
    var back: nat

    function Sentinel(): nat {
      lists.base + list
    }

    /** Both nodes are objects or the sentinel of the list. */
    ghost predicate Valid()
      reads this
    {
      && list < lists.number
      && (node < lists.base || node == Sentinel()) && (back < lists.base || back == Sentinel())
    }

    constructor (lists: Lists, list: nat)
      requires list < lists.number
      ensures Valid() && this.lists == lists && this.list == list && node == back == Sentinel()
    {
      this.lists, this.list := lists, list;
      node, back := lists.base + list, lists.base + list;
    }

    /** Starts the walk again. */
    method Construct()
      requires Valid()
      modifies this
      ensures Valid() && node == back == Sentinel()
    {
      node, back := Sentinel(), Sentinel();
    }

    /** The object that the walker stands on. */
    function Find(): (x: Option<nat>)
      reads this
      ensures Valid() ==> (x == None <==> node == Sentinel())
      ensures x.Some? ==> x.value == node
    {
      if node != Sentinel() then Some(node) else None
    }

    /** Goes back to the node before, once. */
    method Back() returns (x: Option<nat>)
      requires Valid()
      modifies this
      ensures Valid() && back == Sentinel() && node == (if old(back) == Sentinel() then old(node) else old(back))
      ensures x == if old(back) == Sentinel() then None else Some(old(back))
    {
      x := None;
      if back != Sentinel() {
        node := back;
        back := Sentinel();
        x := Some(node);
      }
    }

    /** Steps to the next object; the walker stands at place `k`, or at the head when `k` is -1. */
    method Step(ghost k: int) returns (x: Option<nat>)
      requires Valid() && lists.Valid() && -1 <= k < |lists.queues[list]| && node == RingAt(lists.queues[list], Sentinel(), k)
      modifies this
      ensures Valid() && back == old(node) && node == RingAt(lists.queues[list], Sentinel(), k + 1)
      ensures x == if k + 1 < |lists.queues[list]| then Some(lists.queues[list][k + 1]) else None
    {
      RingNode(lists.base, lists.next, lists.prev, lists.id, lists.length, lists.queues, list, k);
      hide ListsOk;
      back := node;
      node := lists.next[node];
      x := if node != Sentinel() then Some(node) else None;
    }
  }

  lemma RingNode(base: nat, next: seq<nat>, prev: seq<nat>, id: seq<nat>, length: seq<nat>, queues: seq<seq<nat>>, l: nat, k: int)
    requires ListsOk(base, next, prev, id, length, queues) && l < |queues| && -1 <= k < |queues[l]|
    ensures RingAt(queues[l], base + l, k) < |next| && next[RingAt(queues[l], base + l, k)] == RingAt(queues[l], base + l, k + 1)
    ensures k + 1 < |queues[l]| ==> queues[l][k + 1] < base
  {
    assert QueueOk(base, next, prev, id, l, queues[l]);
    RingLinks(next, prev, queues[l], base + l, k);
    hide Distinct;
  }

  lemma Sizes(base: nat, next: seq<nat>, prev: seq<nat>, id: seq<nat>, length: seq<nat>, queues: seq<seq<nat>>)
    requires ListsOk(base, next, prev, id, length, queues)
    ensures |next| == |prev| == |id| == base + |queues| && |length| == |queues|
  {
  }

  lemma NowLoose(base: nat, next: seq<nat>, prev: seq<nat>, id: seq<nat>, length: seq<nat>, queues: seq<seq<nat>>, l: nat, k: nat)
    requires ListsOk(base, next, prev, id, length, queues) && l < |queues| && k < |queues[l]|
    ensures var r := queues[l := Remove(queues[l], k)]; forall m :: 0 <= m < |r| ==> queues[l][k] !in r[m]
  {
    var q, r := queues[l], queues[l := Remove(queues[l], k)];
    assert QueueOk(base, next, prev, id, l, q);
    RemoveAt(q, k);
    hide QueueOk, Remove;
    forall m | 0 <= m < |r| && m != l
      ensures q[k] !in r[m]
    {
      NotOnBoth(base, next, prev, id, l, q, m, queues[m], k);
    }
  }
}
