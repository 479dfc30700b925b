/**
 * The hash of fixed-size elements (set, get and remove by key), against a dictionary that knows no hash function: a queue
 * of free elements, and the elements in use in the order in which they were set.
 */
module SxeHashDict {
  import opened Bytes
  import opened Seqs
  import opened PoolWalk
  import opened SxePool
  import opened SxeHash

  /** An element in use. */
  datatype Pair = Pair(id: nat, key: bytes, value: nat)

  datatype Dict = Dict(free: seq<nat>, pairs: seq<Pair>)

  /** The place of the first pair with the key; the number of pairs when there is none. */
  function FirstPair(pairs: seq<Pair>, key: bytes): (k: nat)
    ensures k <= |pairs| && (k < |pairs| ==> pairs[k].key == key)
    ensures forall i :: 0 <= i < k ==> pairs[i].key != key
  {
    if pairs == [] then 0 else if pairs[0].key == key then 0 else 1 + FirstPair(pairs[1..], key)
  }

  function Found(d: Dict, key: bytes): Option<Pair> {
    var k := FirstPair(d.pairs, key);
    if k < |d.pairs| then Some(d.pairs[k]) else None
  }

  function ValueOf(x: Option<Pair>): Option<nat> {
    if x.Some? then Some(x.value.value) else None
  }

  /** Setting a key uses the element that has been free for longest, whether or not the key was set before. */
  function SetIn(d: Dict, key: bytes, value: nat): Dict {
    if d.free == [] then d else Dict(d.free[1..], d.pairs + [Pair(d.free[0], key, value)])
  }

  /** Removing a key frees the element that was set with it first. */
  function RemoveIn(d: Dict, key: bytes): Dict {
    var k := FirstPair(d.pairs, key);
    if k < |d.pairs| then Dict(d.free + [d.pairs[k].id], Remove(d.pairs, k)) else d
  }

  // ---------------------------------------------------------------- the laws of the dictionary

  lemma {:induction false} FirstPairAppend(pairs: seq<Pair>, key: bytes, x: Pair)
    ensures FirstPair(pairs + [x], key) == if FirstPair(pairs, key) < |pairs| || x.key == key then FirstPair(pairs, key) else |pairs| + 1
  {
    if pairs == [] {
      assert pairs + [x] == [x] && [x][1..] == [];
    } else {
      FirstPairAppend(pairs[1..], key, x);
      assert (pairs + [x])[1..] == pairs[1..] + [x];
    }
  }

  /** What is set is found unless the key was set before, in which case the earlier value is; other keys are as before. */
  lemma GetAfterSet(d: Dict, key: bytes, value: nat, other: bytes)
    requires d.free != []
    ensures Found(SetIn(d, key, value), other) ==
      if other == key && Found(d, key).None? then Some(Pair(d.free[0], key, value)) else Found(d, other)
  {
    hide FirstPair;
    FirstPairAppend(d.pairs, other, Pair(d.free[0], key, value));
  }

  lemma {:induction false} FirstPairRemove(pairs: seq<Pair>, key: bytes, other: bytes)
    requires FirstPair(pairs, key) < |pairs| && other != key
    ensures var rest := Remove(pairs, FirstPair(pairs, key));
      var i, j := FirstPair(pairs, other), FirstPair(rest, other);
      if i < |pairs| then j < |rest| && rest[j] == pairs[i] else j == |rest|
  {
    var k := FirstPair(pairs, key);
    if k == 0 {
      assert Remove(pairs, 0) == pairs[1..];
    } else {
      FirstPairRemove(pairs[1..], key, other);
      RemoveLater(pairs, k);
      hide Remove, FirstPair;
      FirstPairRest(pairs, other);
      FirstPairRest(Remove(pairs, k), other);
    }
  }

  lemma FirstPairRest(pairs: seq<Pair>, key: bytes)
    requires pairs != []
    ensures FirstPair(pairs, key) == if pairs[0].key == key then 0 else 1 + FirstPair(pairs[1..], key)
  {
  }

  lemma RemoveLater(pairs: seq<Pair>, k: nat)
    requires 0 < k < |pairs|
    ensures var rest := Remove(pairs, k);
      rest != [] && rest[0] == pairs[0] && rest[1..] == Remove(pairs[1..], k - 1)
  {
  }

  /** Removing a key uncovers the value set next with it, and leaves all other keys as they are. */
  lemma GetAfterRemove(d: Dict, key: bytes, other: bytes)
    ensures other != key ==> Found(RemoveIn(d, key), other) == Found(d, other)
    ensures var k := FirstPair(d.pairs, key);
      k < |d.pairs| ==> Found(RemoveIn(d, key), key) == Found(Dict([], d.pairs[k + 1..]), key)
  {
    var k := FirstPair(d.pairs, key);
    if k < |d.pairs| {
      if other != key {
        FirstPairRemove(d.pairs, key, other);
      }
      FirstPairBehind(d.pairs[..k], d.pairs[k + 1..], key);
    }
  }

  lemma {:induction false} FirstPairBehind(a: seq<Pair>, b: seq<Pair>, key: bytes)
    requires forall i :: 0 <= i < |a| ==> a[i].key != key
    ensures FirstPair(a + b, key) == |a| + FirstPair(b, key)
  {
    if a == [] {
      assert a + b == b;
    } else {
      FirstPairBehind(a[1..], b, key);
      assert (a + b)[1..] == a[1..] + b;
    }
  }

  // ---------------------------------------------------------------- the dictionary and the pool

  /** The pairs are the elements in the table, the oldest first. */
  ghost predicate Listed(p: Pool, keys: seq<bytes>, values: seq<nat>, pairs: seq<Pair>) {
    && |p.state| == |p.count| == |keys| == |values|
    && (forall i {:trigger pairs[i]} :: 0 <= i < |pairs| ==>
          var x := pairs[i].id; x < |keys| && p.state[x] >= RESERVED && keys[x] == pairs[i].key && values[x] == pairs[i].value)
    && (forall i, j :: 0 <= i < j < |pairs| ==> Older(p, pairs[i].id, pairs[j].id))
    && (forall x {:trigger p.state[x]} :: 0 <= x < |keys| && p.state[x] >= RESERVED ==> InPairs(pairs, x))
  }

  ghost predicate Older(p: Pool, x: nat, y: nat) {
    x < |p.count| && y < |p.count| && p.count[x] < p.count[y]
  }

  ghost predicate InPairs(pairs: seq<Pair>, x: nat) {
    exists i :: 0 <= i < |pairs| && pairs[i].id == x
  }

  /** The pool and the arrays hold the dictionary, and the elements `taken` have been taken but not added. */
  ghost predicate Mirrors(p: Pool, keys: seq<bytes>, values: seq<nat>, d: Dict, taken: seq<nat>) {
    && PoolOk(p) && |p.queues| > NEW && p.queues[UNUSED] == d.free && p.queues[NEW] == taken
    && Listed(p, keys, values, d.pairs)
  }

  /** The walk over a bucket finds what the dictionary finds. */
  lemma LookIs(hash: bytes -> nat, p: Pool, keys: seq<bytes>, values: seq<nat>, d: Dict, key: bytes)
    requires Bucketed(hash, p, keys) && Listed(p, keys, values, d.pairs)
    ensures Entry(hash, p, keys, key) == if Found(d, key).Some? then Some(Found(d, key).value.id) else None
  {
    hide PoolOk, Bucketed, Entry, FirstPair;
    EntryIs(hash, p, keys, key);
    var k, e := FirstPair(d.pairs, key), Entry(hash, p, keys, key);
    if e.Some? {
      assert InPairs(d.pairs, e.value);
      var j :| 0 <= j < |d.pairs| && d.pairs[j].id == e.value;
      assert j >= k;
      assert k < j ==> Older(p, d.pairs[k].id, d.pairs[j].id);
    }
  }

  lemma MoveOutside(p: Pool, keys: seq<bytes>, values: seq<nat>, pairs: seq<Pair>, x: nat, to: nat)
    requires PoolOk(p) && Listed(p, keys, values, pairs) && x < |keys| && p.state[x] < RESERVED && to < RESERVED && to < |p.queues|
    ensures Listed(Move(p, x, to), keys, values, pairs)
  {
    MoveIs(p, x, to, to);
    hide PoolOk, Move;
    var p' := Move(p, x, to);
    forall i, j | 0 <= i < j < |pairs|
      ensures Older(p', pairs[i].id, pairs[j].id)
    {
      assert Older(p, pairs[i].id, pairs[j].id);
    }
  }

  lemma MoveInside(p: Pool, keys: seq<bytes>, values: seq<nat>, pairs: seq<Pair>, x: nat, to: nat)
    requires PoolOk(p) && Listed(p, keys, values, pairs) && x < |keys| && p.state[x] < RESERVED && RESERVED <= to < |p.queues|
    ensures Listed(Move(p, x, to), keys, values, pairs + [Pair(x, keys[x], values[x])])
  {
    MoveIs(p, x, to, to);
    CountsBelow(p);
    hide PoolOk, Move;
    var p', pairs' := Move(p, x, to), pairs + [Pair(x, keys[x], values[x])];
    forall i, j | 0 <= i < j < |pairs'|
      ensures Older(p', pairs'[i].id, pairs'[j].id)
    {
      assert p.count[pairs[i].id] <= p.nextCount;
      assert j < |pairs| ==> Older(p, pairs[i].id, pairs[j].id);
    }
    forall y | 0 <= y < |keys| && p'.state[y] >= RESERVED
      ensures InPairs(pairs', y)
    {
      if y == x {
        assert pairs'[|pairs|].id == x;
      } else {
        assert p.state[y] >= RESERVED;
        var i :| 0 <= i < |pairs| && pairs[i].id == y;
        assert pairs'[i].id == y;
      }
    }
  }

  lemma CountsBelow(p: Pool)
    requires PoolOk(p)
    ensures forall x :: 0 <= x < |p.count| ==> p.count[x] <= p.nextCount
  {
    hide Placed, Ordered;
  }

  lemma IdsDiffer(p: Pool, keys: seq<bytes>, values: seq<nat>, pairs: seq<Pair>, k: nat, i: nat)
    requires Listed(p, keys, values, pairs) && k < |pairs| && i < |pairs| && i != k
    ensures pairs[i].id != pairs[k].id
  {
    assert i < k ==> Older(p, pairs[i].id, pairs[k].id);
    assert i > k ==> Older(p, pairs[k].id, pairs[i].id);
  }

  lemma RemoveIs(pairs: seq<Pair>, k: nat)
    requires k < |pairs|
    ensures |Remove(pairs, k)| == |pairs| - 1
    ensures forall i: nat :: i < |pairs| - 1 ==> Remove(pairs, k)[i] == pairs[Before(k, i)]
    ensures forall i: nat :: i < |pairs| && i != k ==> InPairs(Remove(pairs, k), pairs[i].id)
  {
    var r := Remove(pairs, k);
    forall i: nat | i < |pairs| && i != k
      ensures InPairs(r, pairs[i].id)
    {
      assert r[if i < k then i else i - 1] == pairs[i];
    }
  }

  lemma PairKept(p: Pool, p': Pool, keys: seq<bytes>, values: seq<nat>, pairs: seq<Pair>, k: nat, i: nat)
    requires Listed(p, keys, values, pairs) && k < |pairs| && i < |pairs| && i != k
    requires |p'.state| == |p.state| && forall y :: 0 <= y < |p.state| && y != pairs[k].id ==> p'.state[y] == p.state[y]
    ensures var x := pairs[i].id;
      x != pairs[k].id && x < |keys| && p'.state[x] >= RESERVED && keys[x] == pairs[i].key && values[x] == pairs[i].value
  {
    IdsDiffer(p, keys, values, pairs, k, i);
  }

  lemma OrderKept(p: Pool, p': Pool, keys: seq<bytes>, values: seq<nat>, pairs: seq<Pair>, k: nat, i: nat, j: nat)
    requires Listed(p, keys, values, pairs) && k < |pairs| && i < j < |pairs| && i != k && j != k
    requires |p'.count| == |p.count| && forall y :: 0 <= y < |p.count| && y != pairs[k].id ==> p'.count[y] == p.count[y]
    ensures Older(p', pairs[i].id, pairs[j].id)
  {
    assert Older(p, pairs[i].id, pairs[j].id);
    IdsDiffer(p, keys, values, pairs, k, i);
    IdsDiffer(p, keys, values, pairs, k, j);
  }

  lemma MoveAway(p: Pool, keys: seq<bytes>, values: seq<nat>, pairs: seq<Pair>, k: nat, to: nat)
    requires PoolOk(p) && Listed(p, keys, values, pairs) && k < |pairs| && to < RESERVED && to < |p.queues|
    ensures Listed(Move(p, pairs[k].id, to), keys, values, Remove(pairs, k))
  {
    MoveIs(p, pairs[k].id, to, to);
    hide PoolOk, Move, Remove;
    ListedWithout(p, Move(p, pairs[k].id, to), keys, values, pairs, k);
  }

  lemma ListedWithout(p: Pool, p': Pool, keys: seq<bytes>, values: seq<nat>, pairs: seq<Pair>, k: nat)
    requires Listed(p, keys, values, pairs) && k < |pairs| && |p'.state| == |p.state| && |p'.count| == |p.count|
    requires forall y :: 0 <= y < |p.state| ==> if y == pairs[k].id then p'.state[y] < RESERVED else p'.state[y] == p.state[y]
    requires forall y :: 0 <= y < |p.count| && y != pairs[k].id ==> p'.count[y] == p.count[y]
    ensures Listed(p', keys, values, Remove(pairs, k))
  {
    hide Remove, Older, InPairs;
    var x, pairs' := pairs[k].id, Remove(pairs, k);
    RemoveIs(pairs, k);
    forall i: nat | i < |pairs'|
      ensures var y := pairs'[i].id; y < |keys| && p'.state[y] >= RESERVED && keys[y] == pairs'[i].key && values[y] == pairs'[i].value
    {
      PairKept(p, p', keys, values, pairs, k, Before(k, i));
    }
    forall i: nat, j: nat | i < j < |pairs'|
      ensures Older(p', pairs'[i].id, pairs'[j].id)
    {
      OrderKept(p, p', keys, values, pairs, k, Before(k, i), Before(k, j));
    }
    forall y: nat | y < |keys| && p'.state[y] >= RESERVED
      ensures InPairs(pairs', y)
    {
      assert y != x && InPairs(pairs, y);
      AnotherPair(pairs, k, y);
    }
  }

  lemma AnotherPair(pairs: seq<Pair>, k: nat, y: nat)
    requires k < |pairs| && InPairs(pairs, y) && y != pairs[k].id
    ensures InPairs(Remove(pairs, k), y)
  {
    RemoveIs(pairs, k);
    hide Remove;
  }

  /** Taking the first free element. */
  lemma TakeMirrors(p: Pool, keys: seq<bytes>, values: seq<nat>, d: Dict)
    requires Mirrors(p, keys, values, d, []) && d.free != []
    ensures var x := d.free[0];
      x < |keys| && Mirrors(Move(p, x, NEW), keys, values, Dict(d.free[1..], d.pairs), [x]) && Move(p, x, NEW).state[x] == NEW
  {
    hide PoolOk, Listed, Move;
    var x := d.free[0];
    OnQueue(p, UNUSED, 0);
    SameLength(p, keys, values, d.pairs);
    MoveOk(p, x, NEW);
    MoveIs(p, x, NEW, UNUSED);
    MoveIs(p, x, NEW, NEW);
    KeptFirst(p, UNUSED);
    MoveOutside(p, keys, values, d.pairs, x, NEW);
    assert [] + [x] == [x];
  }

  lemma SameLength(p: Pool, keys: seq<bytes>, values: seq<nat>, pairs: seq<Pair>)
    requires Listed(p, keys, values, pairs)
    ensures |p.state| == |p.count| == |keys| == |values|
  {
  }

  lemma KeptFirst(p: Pool, s: nat)
    requires PoolOk(p) && s < |p.queues| && p.queues[s] != []
    ensures var x := p.queues[s][0];
      x < |p.state| && p.state[x] == s && Kept(p, x, s) == p.queues[s][1..] && forall t :: 0 <= t < |p.queues| && t != s ==> Kept(p, x, t) == p.queues[t]
  {
    OnQueue(p, s, 0);
    var q := p.queues[s];
    assert Ordered(q, p.count);
    hide PoolOk;
    OrderedDistinct(q, p.count);
    hide Ordered;
    assert Remove(q, 0) == q[1..];
  }

  /** Writing the key and the value of a taken element. */
  lemma WriteMirrors(p: Pool, keys: seq<bytes>, values: seq<nat>, d: Dict, x: nat, key: bytes, value: nat)
    requires Mirrors(p, keys, values, d, [x]) && x < |keys| == |values|
    ensures p.state[x] == NEW && Mirrors(p, keys[x := key], values[x := value], d, [x])
  {
    OnQueue(p, NEW, 0);
    hide PoolOk;
  }

  /** Adding it to the table. */
  lemma AddMirrors(p: Pool, keys: seq<bytes>, values: seq<nat>, d: Dict, x: nat, to: nat)
    requires Mirrors(p, keys, values, d, [x]) && RESERVED <= to < |p.queues|
    ensures x < |keys| == |values| == |p.state| && p.state[x] == NEW
    ensures Mirrors(Move(p, x, to), keys, values, Dict(d.free, d.pairs + [Pair(x, keys[x], values[x])]), [])
  {
    hide PoolOk, Listed, Move;
    OnQueue(p, NEW, 0);
    SameLength(p, keys, values, d.pairs);
    MoveOk(p, x, to);
    MoveIs(p, x, to, UNUSED);
    MoveIs(p, x, to, NEW);
    KeptFirst(p, NEW);
    MoveInside(p, keys, values, d.pairs, x, to);
  }

  /** Giving back the element of a pair. */
  lemma GiveMirrors(p: Pool, keys: seq<bytes>, values: seq<nat>, d: Dict, k: nat)
    requires Mirrors(p, keys, values, d, []) && k < |d.pairs|
    ensures var x := d.pairs[k].id;
      x < |keys| == |values| == |p.state| && values[x] == d.pairs[k].value &&
      Mirrors(Move(p, x, UNUSED), keys, values, Dict(d.free + [x], Remove(d.pairs, k)), [])
  {
    var x := d.pairs[k].id;
    assert p.state[x] >= RESERVED && values[x] == d.pairs[k].value;
    hide PoolOk, Listed, Move;
    MoveOk(p, x, UNUSED);
    MoveIs(p, x, UNUSED, UNUSED);
    MoveIs(p, x, UNUSED, NEW);
    MoveAway(p, keys, values, d.pairs, k, UNUSED);
  }

  // ---------------------------------------------------------------- set, get and remove

  /** All elements are free at the start, the last one first. */
  function NewDict(number: nat): Dict {
    Dict(seq(number, i requires 0 <= i < number => number - 1 - i), [])
  }

  lemma NewMirrors(number: nat, keys: seq<bytes>, values: seq<nat>)
    requires number > 0 && |keys| == |values| == number
    ensures Mirrors(NewPool(number, number + RESERVED), keys, values, NewDict(number), [])
  {
    NewPoolOk(number, number + RESERVED);
    hide PoolOk;
    assert NewQueues(number, number + RESERVED, 0)[UNUSED] == NewDict(number).free;
  }

  class HashDict {
    const table: Hash
    var values: seq<nat>
    ghost var dict: Dict

    ghost predicate Valid()
      reads this, table, table.pool, table.pool.lists
    {
      table.Valid() && Mirrors(table.pool.Model(), table.keys, values, dict, [])
    }

    constructor (hash: bytes -> nat, number: nat)
      requires number > 0
      ensures Valid() && fresh(table) && fresh(table.pool) && fresh(table.pool.lists) && dict == NewDict(number)
    {
      table := new Hash(hash, number);
      values := seq(number, _ => 0);
      dict := NewDict(number);
      new;
      hide Mirrors, NewPool;
      NewMirrors(number, table.keys, values);
    }

    /** The element with the key and the value; none when no element is free. */
    method Set(key: bytes, value: nat) returns (id: Option<nat>)
      requires Valid()
      modifies `values, `dict, table`keys, table.pool, table.pool.lists
      ensures Valid() && dict == SetIn(old(dict), key, value)
      ensures id == if old(dict).free == [] then None else Some(old(dict).free[0])
    {
      hide Mirrors, Bucketed, Move, PoolOk, Bucket, OldestOther, Entry, table.Valid;
      SameSizes();
      TableSizes();
      ghost var p0 := table.pool.Model();
      id := table.Take();
      if id.None? {
        return;
      }
      var x := id.value;
      TakeMirrors(p0, table.keys, values, dict);
      TableSizes();
      ghost var p := table.pool.Model();
      var rest := Dict(dict.free[1..], dict.pairs);
      WriteMirrors(p, table.keys, values, rest, x, key, value);
      table.SetKey(x, key);
      values := values[x := value];
      AddMirrors(p, table.keys, values, rest, x, Bucket(table.hash, table.number, key));
      table.Add(x);
      dict := SetIn(dict, key, value);
    }

    /** The value that was set first with the key, and is not yet removed. */
    method Get(key: bytes) returns (value: Option<nat>)
      requires Valid()
      ensures value == ValueOf(Found(dict, key))
    {
      hide Mirrors, Bucketed;
      SameSizes();
      TableSizes();
      FindIs(key);
      var id := table.Look(key);
      if id.None? {
        return None;
      }
      return Some(values[id.value]);
    }

    /** Gets the value and frees its element. */
    method Remove(key: bytes) returns (value: Option<nat>)
      requires Valid()
      modifies `dict, table.pool, table.pool.lists
      ensures Valid() && dict == RemoveIn(old(dict), key) && value == ValueOf(Found(old(dict), key))
    {
      hide Mirrors, Bucketed, Move, PoolOk, OldestOther, Entry, table.Valid, FirstPair;
      SameSizes();
      TableSizes();
      FindIs(key);
      var id := table.Look(key);
      if id.None? {
        return None;
      }
      GiveMirrors(table.pool.Model(), table.keys, values, dict, FirstPair(dict.pairs, key));
      value := Some(values[id.value]);
      table.Give(id.value);
      dict := RemoveIn(dict, key);
    }

    lemma SameSizes()
      requires Valid()
      ensures |table.keys| == |values| && |table.pool.Model().queues| > UNUSED && table.pool.Model().queues[UNUSED] == dict.free
    {
      hide PoolOk;
    }

    lemma TableSizes()
      requires table.Valid()
      ensures table.pool.number <= |table.pool.lists.id| && table.number == |table.keys| == |table.pool.Model().state| > 0
      ensures PoolOk(table.pool.Model()) && |table.pool.Model().queues| == table.number + RESERVED
    {
      hide PoolOk;
    }

    lemma FindIs(key: bytes)
      requires Valid()
      ensures var x := Found(dict, key);
        if x.None? then table.Table(key).None?
        else table.Table(key) == Some(x.value.id) && x.value.id < |values| && values[x.value.id] == x.value.value
    {
      hide PoolOk, Bucketed, Entry, FirstPair;
      LookIs(table.hash, table.pool.Model(), table.keys, values, dict, key);
    }
  }

  // ---------------------------------------------------------------- runs

  datatype Request = ToSet(key: bytes, value: nat) | ToGet(key: bytes) | ToRemove(key: bytes)

  function After(d: Dict, r: Request): Dict {
    match r
    case ToSet(key, value) => SetIn(d, key, value)
    case ToGet(key) => d
    case ToRemove(key) => RemoveIn(d, key)
  }

  function Answer(d: Dict, r: Request): Option<nat> {
    match r
    case ToSet(_, _) => if d.free == [] then None else Some(d.free[0])
    case ToGet(key) => ValueOf(Found(d, key))
    case ToRemove(key) => ValueOf(Found(d, key))
  }

  function AfterAll(d: Dict, requests: seq<Request>): Dict {
    if requests == [] then d else After(AfterAll(d, requests[..|requests| - 1]), requests[|requests| - 1])
  }

  /** The answer to one of the requests, after the ones before it. */
  function AnswerAt(d: Dict, requests: seq<Request>, i: nat): Option<nat>
    requires i < |requests|
  {
    Answer(AfterAll(d, requests[..i]), requests[i])
  }

  /** Every element is free or in use, over any run: setting fails just when as many pairs are set as there are elements. */
  lemma {:induction false} FullIff(number: nat, requests: seq<Request>)
    ensures var d := AfterAll(NewDict(number), requests);
      |d.free| + |d.pairs| == number && (d.free == [] <==> |d.pairs| == number)
  {
    if requests != [] {
      FullIff(number, requests[..|requests| - 1]);
    }
  }

  method ServeOne(h: HashDict, r: Request) returns (answer: Option<nat>)
    requires h.Valid()
    modifies h`values, h`dict, h.table`keys, h.table.pool, h.table.pool.lists
    ensures h.Valid() && h.dict == After(old(h.dict), r) && answer == Answer(old(h.dict), r)
  {
    hide h.Valid, SetIn, RemoveIn, Found, ValueOf;
    match r
    case ToSet(key, value) => answer := h.Set(key, value);
    case ToGet(key) => answer := h.Get(key);
    case ToRemove(key) => answer := h.Remove(key);
  }

  /** A run of requests is answered as the dictionary answers it. */
  method ServeAll(h: HashDict, requests: seq<Request>) returns (answers: seq<Option<nat>>)
    requires h.Valid()
    modifies h`values, h`dict, h.table`keys, h.table.pool, h.table.pool.lists
    ensures h.Valid() && h.dict == AfterAll(old(h.dict), requests) && |answers| == |requests|
    ensures forall i :: 0 <= i < |requests| ==> answers[i] == AnswerAt(old(h.dict), requests, i)
  {
    hide h.Valid, Answer, AnswerAt, After, AfterAll;
    ghost var d := h.dict;
    answers := [];
    NoneAfter(d, requests);
    var i := 0;
    while i < |requests|
      invariant 0 <= i <= |requests| && |answers| == i && h.Valid() && h.dict == AfterAll(d, requests[..i])
      invariant forall k :: 0 <= k < i ==> answers[k] == AnswerAt(d, requests, k)
    {
      var answer := ServeOne(h, requests[i]);
      OneAfter(d, requests, i);
      answers := answers + [answer];
      i := i + 1;
    }
    assert requests[..i] == requests;
  }

  /**
   * Whatever the hash function, a new hash answers any requests as the dictionary does: which keys share a bucket is not
   * to be seen.
   */
  method Serve(hash: bytes -> nat, number: nat, requests: seq<Request>) returns (answers: seq<Option<nat>>)
    requires number > 0
    ensures |answers| == |requests|
    ensures forall i :: 0 <= i < |requests| ==> answers[i] == AnswerAt(NewDict(number), requests, i)
  {
    var h := new HashDict(hash, number);
    hide h.Valid, AnswerAt, NewDict, AfterAll;
    answers := ServeAll(h, requests);
  }

  lemma NoneAfter(d: Dict, requests: seq<Request>)
    ensures AfterAll(d, requests[..0]) == d
  {
  }

  lemma OneAfter(d: Dict, requests: seq<Request>, i: nat)
    requires i < |requests|
    ensures AfterAll(d, requests[..i + 1]) == After(AfterAll(d, requests[..i]), requests[i])
    ensures AnswerAt(d, requests, i) == Answer(AfterAll(d, requests[..i]), requests[i])
  {
    hide After, Answer;
    assert requests[..i + 1][..i] == requests[..i];
  }
}
