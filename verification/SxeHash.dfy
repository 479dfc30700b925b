/** sxe-hash: a hash table whose buckets are states of a pool. State 0 holds unused elements and state 1 new ones. */
module SxeHash {
  import opened Bytes
  import opened Seqs
  import opened PoolWalk
  import opened SxePool

  const UNUSED: nat := 0
  const NEW: nat := 1
  const RESERVED: nat := 2

  /** The first element of a bucket with the key. */
  function FirstWith(q: seq<nat>, keys: seq<bytes>, key: bytes): (x: Option<nat>)
    requires forall i :: 0 <= i < |q| ==> q[i] < |keys|
  {
    if q == [] then None else if keys[q[0]] == key then Some(q[0]) else FirstWith(q[1..], keys, key)
  }

  /** It is none when no element of the bucket has the key, and otherwise the one inserted first. */
  lemma {:induction false} FirstWithIs(q: seq<nat>, keys: seq<bytes>, key: bytes, count: seq<nat>)
    requires (forall i :: 0 <= i < |q| ==> q[i] < |keys|) && Ordered(q, count)
    ensures FirstWith(q, keys, key).None? <==> forall y :: y in q ==> keys[y] != key
    ensures FirstWith(q, keys, key).Some? ==>
      var x := FirstWith(q, keys, key).value;
      x in q && keys[x] == key && forall y :: y in q && keys[y] == key && y != x ==> count[x] < count[y]
  {
    if q != [] {
      var rest := q[1..];
      assert forall i :: 0 <= i < |rest| ==> rest[i] == q[i + 1];
      assert Ordered(rest, count);
      FirstWithIs(rest, keys, key, count);
      assert forall y :: y in q <==> y == q[0] || y in rest;
      forall y | y in rest
        ensures count[q[0]] < count[y]
      {
        var i :| 0 <= i < |rest| && rest[i] == y;
        assert count[q[0]] < count[q[i + 1]];
      }
    }
  }

  lemma {:induction false} FirstWithAppend(q: seq<nat>, keys: seq<bytes>, key: bytes, x: nat)
    requires (forall i :: 0 <= i < |q| ==> q[i] < |keys|) && x < |keys|
    ensures FirstWith(q + [x], keys, key) ==
      if FirstWith(q, keys, key).Some? then FirstWith(q, keys, key) else if keys[x] == key then Some(x) else None
  {
    if q == [] {
      assert q + [x] == [x] && [x][1..] == [];
    } else {
      FirstWithAppend(q[1..], keys, key, x);
      assert (q + [x])[1..] == q[1..] + [x];
    }
  }

  /** Removing an element that is not the one found changes nothing. */
  lemma {:induction false} FirstWithRemove(q: seq<nat>, keys: seq<bytes>, key: bytes, k: nat)
    requires (forall i :: 0 <= i < |q| ==> q[i] < |keys|) && k < |q| && Some(q[k]) != FirstWith(q, keys, key)
    ensures forall i :: 0 <= i < |Remove(q, k)| ==> Remove(q, k)[i] < |keys|
    ensures FirstWith(Remove(q, k), keys, key) == FirstWith(q, keys, key)
  {
    if k == 0 {
      assert Remove(q, 0) == q[1..];
    } else {
      assert Remove(q, k)[1..] == Remove(q[1..], k - 1) && Remove(q, k)[0] == q[0];
      if keys[q[0]] != key {
        FirstWithRemove(q[1..], keys, key, k - 1);
      }
    }
  }

  lemma {:induction false} FirstWithKeys(q: seq<nat>, keys: seq<bytes>, keys': seq<bytes>, key: bytes)
    requires |keys| == |keys'| && forall i :: 0 <= i < |q| ==> q[i] < |keys| && keys'[q[i]] == keys[q[i]]
    ensures FirstWith(q, keys', key) == FirstWith(q, keys, key)
  {
    if q != [] {
      FirstWithKeys(q[1..], keys, keys', key);
    }
  }

  function Bucket(hash: bytes -> nat, number: nat, key: bytes): (b: nat)
    requires number > 0
    ensures RESERVED <= b < number + RESERVED
  {
    hash(key) % number + RESERVED
  }

  /** The elements in the table are in the buckets of their keys. */
  ghost predicate Bucketed(hash: bytes -> nat, p: Pool, keys: seq<bytes>) {
    && PoolOk(p) && |keys| == |p.state| > 0 && |p.queues| == |keys| + RESERVED
    && forall x {:trigger p.state[x]} :: 0 <= x < |keys| && p.state[x] >= RESERVED ==> p.state[x] == Bucket(hash, |keys|, keys[x])
  }

  lemma BucketInRange(p: Pool, keys: seq<bytes>, s: nat)
    requires PoolOk(p) && |keys| == |p.state| && s < |p.queues|
    ensures forall i :: 0 <= i < |p.queues[s]| ==> p.queues[s][i] < |keys|
    ensures Ordered(p.queues[s], p.count)
  {
  }

  /** The element that a key leads to. */
  ghost function Entry(hash: bytes -> nat, p: Pool, keys: seq<bytes>, key: bytes): Option<nat>
    requires Bucketed(hash, p, keys)
  {
    BucketInRange(p, keys, Bucket(hash, |keys|, key));
    FirstWith(p.queues[Bucket(hash, |keys|, key)], keys, key)
  }

  /** A key leads to nothing when it is not in the table, and otherwise to the element that was added with it first. */
  lemma EntryIs(hash: bytes -> nat, p: Pool, keys: seq<bytes>, key: bytes)
    requires Bucketed(hash, p, keys)
    ensures Entry(hash, p, keys, key).None? <==> forall x :: 0 <= x < |keys| && p.state[x] >= RESERVED ==> keys[x] != key
    ensures Entry(hash, p, keys, key).Some? ==>
      var x := Entry(hash, p, keys, key).value;
      && x < |keys| && p.state[x] >= RESERVED && keys[x] == key
      && forall y :: 0 <= y < |keys| && p.state[y] >= RESERVED && keys[y] == key && y != x ==> p.count[x] < p.count[y]
  {
    var b := Bucket(hash, |keys|, key);
    BucketInRange(p, keys, b);
    FirstWithIs(p.queues[b], keys, key, p.count);
    forall x | x in p.queues[b]
      ensures x < |keys| && p.state[x] == b
    {
      OnQueue(p, b, Place(p.queues[b], x));
    }
    forall x | 0 <= x < |keys| && p.state[x] >= RESERVED && keys[x] == key
      ensures x in p.queues[b]
    {
      InOneQueue(p, x);
    }
    hide PoolOk, FirstWith, Bucket;
  }

  /** Moving an element from outside the table to the bucket of its key adds it. */
  lemma AddEntry(hash: bytes -> nat, p: Pool, keys: seq<bytes>, x: nat, key: bytes)
    requires Bucketed(hash, p, keys) && x < |keys| && p.state[x] < RESERVED
    ensures var p' := Move(p, x, Bucket(hash, |keys|, keys[x]));
      && Bucketed(hash, p', keys)
      && Entry(hash, p', keys, key) ==
         if key == keys[x] && Entry(hash, p, keys, key).None? then Some(x) else Entry(hash, p, keys, key)
  {
    var b := Bucket(hash, |keys|, key);
    var to := Bucket(hash, |keys|, keys[x]);
    MoveOk(p, x, to);
    MoveIs(p, x, to, b);
    BucketInRange(p, keys, b);
    hide PoolOk, Move, Bucket;
    if b == to {
      FirstWithAppend(p.queues[b], keys, key, x);
    }
    EntryHasKey(hash, p, keys, key);
  }

  lemma EntryHasKey(hash: bytes -> nat, p: Pool, keys: seq<bytes>, key: bytes)
    requires Bucketed(hash, p, keys)
    ensures Entry(hash, p, keys, key).Some? ==> Entry(hash, p, keys, key).value < |keys| && keys[Entry(hash, p, keys, key).value] == key
  {
    hide PoolOk;
    EntryIs(hash, p, keys, key);
  }

  /** The oldest element of the table with the key that is not `x`; none when there is no other one. */
  ghost predicate OldestOther(p: Pool, keys: seq<bytes>, key: bytes, x: nat, r: Option<nat>) {
    && |p.state| == |p.count| == |keys|
    && match r
       case None => forall y {:trigger keys[y]} :: 0 <= y < |keys| && y != x && p.state[y] >= RESERVED ==> keys[y] != key
       case Some(e) =>
         && e < |keys| && e != x && p.state[e] >= RESERVED && keys[e] == key
         && forall y {:trigger keys[y]} :: 0 <= y < |keys| && y != x && y != e && p.state[y] >= RESERVED && keys[y] == key ==>
              p.count[e] < p.count[y]
  }

  /** When an element leaves the table, its key leads to the next oldest element with the key, or to none. */
  lemma NextEntry(hash: bytes -> nat, p: Pool, keys: seq<bytes>, x: nat, to: nat, key: bytes)
    requires Bucketed(hash, p, keys) && x < |keys| && to < RESERVED && Bucketed(hash, Move(p, x, to), keys)
    ensures OldestOther(p, keys, key, x, Entry(hash, Move(p, x, to), keys, key))
  {
    MoveIs(p, x, to, UNUSED);
    EntryIs(hash, Move(p, x, to), keys, key);
    hide PoolOk, Move, Entry, Bucket;
  }

  /** Moving an element out of the table, or outside it, leaves the keys that do not lead to it alone. */
  lemma DropEntry(hash: bytes -> nat, p: Pool, keys: seq<bytes>, x: nat, to: nat, key: bytes)
    requires Bucketed(hash, p, keys) && x < |keys| && to < RESERVED
    ensures var p' := Move(p, x, to);
      && Bucketed(hash, p', keys) && (Entry(hash, p, keys, key) != Some(x) ==> Entry(hash, p', keys, key) == Entry(hash, p, keys, key))
      && OldestOther(p, keys, key, x, Entry(hash, p', keys, key))
  {
    var b := Bucket(hash, |keys|, key);
    MoveOk(p, x, to);
    MoveIs(p, x, to, b);
    BucketInRange(p, keys, b);
    if p.state[x] == b {
      InOneQueue(p, x);
      if Entry(hash, p, keys, key) != Some(x) {
        FirstWithRemove(p.queues[b], keys, key, Place(p.queues[b], x));
      }
    }
    hide PoolOk, Move, Bucket, FirstWith, OldestOther;
    NextEntry(hash, p, keys, x, to, key);
  }

  /** Changing the key of an element outside the table changes no entry. */
  lemma KeyEntry(hash: bytes -> nat, p: Pool, keys: seq<bytes>, x: nat, k: bytes, key: bytes)
    requires Bucketed(hash, p, keys) && x < |keys| && p.state[x] < RESERVED
    ensures Bucketed(hash, p, keys[x := k]) && Entry(hash, p, keys[x := k], key) == Entry(hash, p, keys, key)
  {
    var b := Bucket(hash, |keys|, key);
    BucketInRange(p, keys, b);
    forall i | 0 <= i < |p.queues[b]|
      ensures p.queues[b][i] != x
    {
      OnQueue(p, b, i);
    }
    hide PoolOk;
    FirstWithKeys(p.queues[b], keys, keys[x := k], key);
  }

  /** With no moves in between, a walk goes down its queue. */
  lemma PlainStep(p: Pool, s: nat, w: Walker, i: nat)
    requires PoolOk(p) && s < |p.queues| && InPool(p, w) && i < |p.queues[s]| && w.node == Some(p.queues[s][i])
    ensures StepWalker(p, s, w).node == OnPlace(p.queues[s], i + 1)
  {
    OnQueue(p, s, i);
    assert Ordered(p.queues[s], p.count);
    OrderedDistinct(p.queues[s], p.count);
    hide PoolOk, Ordered;
  }

  lemma FirstStep(p: Pool, s: nat)
    requires PoolOk(p) && s < |p.queues|
    ensures StepWalker(p, s, START).node == OnPlace(p.queues[s], 0)
  {
    hide PoolOk;
  }

  class Hash {
    const hash: bytes -> nat
    const number: nat
    const pool: PoolArray
    var keys: seq<bytes>

    ghost predicate Valid()
      reads this, pool, pool.lists
    {
      && pool.Valid() && pool.number == number == |keys| && pool.states == number + RESERVED && Bucketed(hash, pool.Model(), keys)
    }

    /** The element that a key leads to. */
    ghost function Table(key: bytes): Option<nat>
      requires Valid()
      reads this, pool, pool.lists
    {
      Entry(hash, pool.Model(), keys, key)
    }

    constructor (hash: bytes -> nat, number: nat)
      requires number > 0
      ensures Valid() && fresh(pool) && fresh(pool.lists) && this.hash == hash && this.number == number
      ensures pool.Model() == NewPool(number, number + RESERVED)
      ensures forall key :: Table(key).None?
    {
      this.hash, this.number := hash, number;
      pool := new PoolArray(number, number + RESERVED);
      keys := seq(number, _ => []);
      new;
      forall key
        ensures Entry(hash, pool.Model(), keys, key).None?
      {
        EntryIs(hash, pool.Model(), keys, key);
      }
      hide PoolOk, Entry;
    }

    /** Takes the oldest unused element, unless none is left. */
    method Take() returns (x: Option<nat>)
      requires Valid()
      modifies pool, pool.lists
      ensures Valid()
      ensures x.None? <==> old(pool.Model()).queues[UNUSED] == []
      ensures x.None? ==> pool.Model() == old(pool.Model())
      ensures x == OnPlace(old(pool.Model()).queues[UNUSED], 0)
      ensures x.Some? ==> x.value < number && old(pool.Model()).state[x.value] == UNUSED
      ensures x.Some? ==> pool.Model() == Move(old(pool.Model()), x.value, NEW)
      ensures forall key :: Table(key) == old(Table(key))
    {
      ghost var p := pool.Model();
      hide PoolOk, Move, Entry;
      x := pool.SetOldestElementState(UNUSED, NEW);
      if x.Some? {
        OnQueue(p, UNUSED, 0);
        TakenKeeps(hash, p, keys, x.value, NEW);
      }
    }

    /** Writes the key of an element that is not in the table. */
    method SetKey(x: nat, key: bytes)
      requires Valid() && x < number && pool.Model().state[x] < RESERVED
      modifies `keys
      ensures Valid() && keys == old(keys)[x := key]
      ensures forall k :: Table(k) == old(Table(k))
    {
      hide PoolOk, Entry;
      forall k
        ensures Bucketed(hash, pool.Model(), keys[x := key])
        ensures Entry(hash, pool.Model(), keys[x := key], k) == Entry(hash, pool.Model(), keys, k)
      {
        KeyEntry(hash, pool.Model(), keys, x, key, k);
      }
      hide Bucketed;
      keys := keys[x := key];
    }

    /** Adds a new element under its key. */
    method Add(x: nat)
      requires Valid() && x < number && pool.Model().state[x] == NEW
      modifies pool, pool.lists
      ensures Valid() && pool.Model() == Move(old(pool.Model()), x, Bucket(hash, number, keys[x]))
      ensures forall key :: Table(key) == if key == keys[x] && old(Table(key)).None? then Some(x) else old(Table(key))
    {
      ghost var p := pool.Model();
      var b := Bucket(hash, number, keys[x]);
      hide PoolOk, Move, Entry, Bucket;
      pool.SetIndexedElementState(x, NEW, b);
      forall key
        ensures Bucketed(hash, pool.Model(), keys)
        ensures Entry(hash, pool.Model(), keys, key) ==
          if key == keys[x] && Entry(hash, p, keys, key).None? then Some(x) else Entry(hash, p, keys, key)
      {
        AddEntry(hash, p, keys, x, key);
      }
    }

    /** Gives an element back, whatever state it is in. */
    method Give(x: nat)
      requires Valid() && x < number
      modifies pool, pool.lists
      ensures Valid() && pool.Model() == Move(old(pool.Model()), x, UNUSED)
      ensures forall key :: old(Table(key)) != Some(x) ==> Table(key) == old(Table(key))
      ensures forall key :: OldestOther(old(pool.Model()), keys, key, x, Table(key))
    {
      ghost var p := pool.Model();
      hide PoolOk, Move, Entry, OldestOther;
      var state := pool.IndexToState(x);
      pool.SetIndexedElementState(x, state, UNUSED);
      GivenKeeps(hash, p, keys, x, UNUSED);
    }

    /** Looks a key up: walks the bucket of the key to the first element with it. */
    method Look(key: bytes) returns (x: Option<nat>)
      requires Valid()
      ensures x == Table(key)
    {
      var b := Bucket(hash, number, key);
      ghost var p := pool.Model();
      ghost var q := p.queues[b];
      BucketInRange(p, keys, b);
      hide PoolOk, Ordered, StepWalker, Bucketed, FirstWith;
      assert q[0..] == q;
      var walker := new PoolWalker(pool, b);
      FirstStep(p, b);
      ghost var i := 0;
      x := walker.Step();
      while x.Some? && keys[x.value] != key
        invariant walker.Valid() && fresh(walker) && fresh(walker.listWalker) && 0 <= i <= |q|
        invariant x == walker.Model().node == OnPlace(q, i)
        invariant FirstWith(q[i..], keys, key) == FirstWith(q, keys, key)
        decreases |q| - i
      {
        ghost var w := walker.Model();
        SkipFirst(q, keys, key, i);
        x := walker.Step();
        PlainStep(p, b, w, i);
        i := i + 1;
      }
      FoundFirst(q, keys, key, i);
    }
  }

  lemma SkipFirst(q: seq<nat>, keys: seq<bytes>, key: bytes, i: nat)
    requires i < |q| && (forall j :: 0 <= j < |q| ==> q[j] < |keys|) && keys[q[i]] != key
    ensures FirstWith(q[i..], keys, key) == FirstWith(q[i + 1..], keys, key)
  {
    assert q[i..][1..] == q[i + 1..];
  }

  lemma FoundFirst(q: seq<nat>, keys: seq<bytes>, key: bytes, i: nat)
    requires i <= |q| && (forall j :: 0 <= j < |q| ==> q[j] < |keys|) && (i < |q| ==> keys[q[i]] == key)
    ensures FirstWith(q[i..], keys, key) == OnPlace(q, i)
  {
  }

  lemma GivenKeeps(hash: bytes -> nat, p: Pool, keys: seq<bytes>, x: nat, to: nat)
    requires Bucketed(hash, p, keys) && x < |keys| && to < RESERVED
    ensures Bucketed(hash, Move(p, x, to), keys)
    ensures forall key :: Entry(hash, p, keys, key) != Some(x) ==> Entry(hash, Move(p, x, to), keys, key) == Entry(hash, p, keys, key)
    ensures forall key :: OldestOther(p, keys, key, x, Entry(hash, Move(p, x, to), keys, key))
  {
    hide PoolOk, Move, Entry, OldestOther;
    DropEntry(hash, p, keys, x, to, []);
    forall key
      ensures Entry(hash, p, keys, key) != Some(x) ==> Entry(hash, Move(p, x, to), keys, key) == Entry(hash, p, keys, key)
      ensures OldestOther(p, keys, key, x, Entry(hash, Move(p, x, to), keys, key))
    {
      DropEntry(hash, p, keys, x, to, key);
    }
  }

  /** Taking an element that no key leads to changes no entry. */
  lemma TakenKeeps(hash: bytes -> nat, p: Pool, keys: seq<bytes>, x: nat, to: nat)
    requires Bucketed(hash, p, keys) && x < |keys| && to < RESERVED && p.state[x] < RESERVED
    ensures Bucketed(hash, Move(p, x, to), keys)
    ensures forall key :: Entry(hash, Move(p, x, to), keys, key) == Entry(hash, p, keys, key)
  {
    hide PoolOk, Move, Entry;
    GivenKeeps(hash, p, keys, x, to);
    forall key
      ensures Entry(hash, p, keys, key) != Some(x)
    {
      EntryIs(hash, p, keys, key);
    }
  }
}
