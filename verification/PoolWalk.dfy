/**
 * The state queues of sxe-pool on values, and walks over one queue while elements move between them. An element
 * goes to the tail of the queue it is moved to and is numbered by a counter that never repeats.
 */
module PoolWalk {
  import opened Bytes
  import opened Seqs

  datatype Pool = Pool(queues: seq<seq<nat>>, state: seq<nat>, count: seq<nat>, nextCount: nat)

  /** Every element is on the queue of its state and on no other. */
  ghost predicate Placed(queues: seq<seq<nat>>, state: seq<nat>) {
    && (forall x {:trigger state[x]} :: 0 <= x < |state| ==> state[x] < |queues| && x in queues[state[x]])
    && (forall s, i {:trigger queues[s][i]} :: 0 <= s < |queues| && 0 <= i < |queues[s]| ==>
          queues[s][i] < |state| && state[queues[s][i]] == s)
  }

  /** A queue in the order of insertion. */
  ghost predicate Ordered(q: seq<nat>, count: seq<nat>) {
    && (forall i :: 0 <= i < |q| ==> q[i] < |count|)
    && (forall i, j {:trigger count[q[i]], count[q[j]]} :: 0 <= i < j < |q| ==> count[q[i]] < count[q[j]])
  }

  /** Insertion counts are positive, already used, and all different. */
  ghost predicate Counted(count: seq<nat>, nextCount: nat) {
    && (forall x :: 0 <= x < |count| ==> 1 <= count[x] <= nextCount)
    && (forall x, y {:trigger count[x], count[y]} :: 0 <= x < y < |count| ==> count[x] != count[y])
  }

  ghost predicate PoolOk(p: Pool) {
    && |p.state| == |p.count| && Placed(p.queues, p.state) && Counted(p.count, p.nextCount)
    && (forall s :: 0 <= s < |p.queues| ==> Ordered(p.queues[s], p.count))
  }

  /** The place of an element on a queue. */
  ghost function Place(q: seq<nat>, x: nat): (k: nat)
    requires x in q
    ensures k < |q| && q[k] == x
  {
    var k :| 0 <= k < |q| && q[k] == x;
    k
  }

  ghost function Moved(queues: seq<seq<nat>>, x: nat, old_: nat, k: nat, to: nat): seq<seq<nat>>
    requires old_ < |queues| && k < |queues[old_]| && to < |queues|
  {
    var q := queues[old_ := Remove(queues[old_], k)];
    q[to := q[to] + [x]]
  }

  /** Element `x` moved to the tail of the queue of state `to`. */
  ghost function Move(p: Pool, x: nat, to: nat): Pool
    requires PoolOk(p) && x < |p.state| && to < |p.queues|
  {
    p.(queues := Moved(p.queues, x, p.state[x], Place(p.queues[p.state[x]], x), to),
       state := p.state[x := to], count := p.count[x := p.nextCount + 1], nextCount := p.nextCount + 1)
  }

  lemma OrderedDistinct(q: seq<nat>, count: seq<nat>)
    requires Ordered(q, count)
    ensures Distinct(q)
  {
    forall i, j | 0 <= i < j < |q|
      ensures q[i] != q[j]
    {
      assert count[q[i]] < count[q[j]];
    }
  }

  lemma RemoveOrdered(q: seq<nat>, count: seq<nat>, k: nat, c: nat)
    requires Ordered(q, count) && k < |q|
    ensures Ordered(Remove(q, k), count[q[k] := c])
  {
    OrderedDistinct(q, count);
    RemoveAt(q, k);
    var r, count' := Remove(q, k), count[q[k] := c];
    hide Remove;
    forall i, j | 0 <= i < j < |r|
      ensures count'[r[i]] < count'[r[j]]
    {
      assert r[i] == q[Before(k, i)] && r[j] == q[Before(k, j)];
      assert count[q[Before(k, i)]] < count[q[Before(k, j)]];
      assert r[i] in r && r[j] in r;
    }
  }

  lemma OtherOrdered(q: seq<nat>, count: seq<nat>, x: nat, c: nat)
    requires Ordered(q, count) && x !in q && x < |count|
    ensures Ordered(q, count[x := c])
  {
  }

  lemma AppendOrdered(q: seq<nat>, count: seq<nat>, x: nat)
    requires Ordered(q, count) && x < |count| && forall i :: 0 <= i < |q| ==> count[q[i]] < count[x]
    ensures Ordered(q + [x], count)
  {
  }

  /** Queue `s` after the move of `x` from place `k` of queue `old_` to queue `to`. */
  lemma MovedQueue(queues: seq<seq<nat>>, x: nat, old_: nat, k: nat, to: nat, s: nat)
    requires old_ < |queues| && k < |queues[old_]| && to < |queues| && s < |queues|
    ensures |Moved(queues, x, old_, k, to)| == |queues|
    ensures var q := if s == old_ then Remove(queues[s], k) else queues[s];
      Moved(queues, x, old_, k, to)[s] == if s == to then q + [x] else q
  {
  }

  /** What a queue keeps when `x` moves. */
  ghost function Kept(p: Pool, x: nat, s: nat): seq<nat>
    requires PoolOk(p) && x < |p.state| && s < |p.queues|
  {
    if s == p.state[x] then Remove(p.queues[s], Place(p.queues[s], x)) else p.queues[s]
  }

  lemma KeptOrdered(p: Pool, x: nat, s: nat)
    requires PoolOk(p) && x < |p.state| && s < |p.queues|
    ensures Ordered(Kept(p, x, s), p.count[x := p.nextCount + 1]) && x !in Kept(p, x, s)
  {
    var q := p.queues[s];
    assert Ordered(q, p.count);
    if s == p.state[x] {
      hide Placed, Counted;
      OrderedDistinct(q, p.count);
      RemoveOrdered(q, p.count, Place(q, x), p.nextCount + 1);
      RemoveAt(q, Place(q, x));
      hide Ordered, Remove;
    } else {
      hide Counted, Ordered;
      assert x !in q;
      OtherOrdered(q, p.count, x, p.nextCount + 1);
    }
  }

  /** What a move does to each queue and to the counts. */
  lemma MoveIs(p: Pool, x: nat, to: nat, s: nat)
    requires PoolOk(p) && x < |p.state| && to < |p.queues| && s < |p.queues|
    ensures var p' := Move(p, x, to);
      && |p'.queues| == |p.queues| && p'.queues[s] == (if s == to then Kept(p, x, s) + [x] else Kept(p, x, s))
      && p'.count == p.count[x := p.nextCount + 1] && p'.state == p.state[x := to] && p'.nextCount == p.nextCount + 1
  {
    MovedQueue(p.queues, x, p.state[x], Place(p.queues[p.state[x]], x), to, s);
    hide Ordered, Placed, Counted, Moved, Remove;
  }

  lemma MoveOrdered(p: Pool, x: nat, to: nat, s: nat)
    requires PoolOk(p) && x < |p.state| && to < |p.queues| && s < |p.queues|
    ensures s < |Move(p, x, to).queues| && Ordered(Move(p, x, to).queues[s], Move(p, x, to).count)
  {
    hide Ordered, Placed, Counted, Move, Kept;
    MoveIs(p, x, to, s);
    KeptOrdered(p, x, s);
    if s == to {
      StillBelow(Kept(p, x, s), p.count, p.nextCount, x);
      AppendOrdered(Kept(p, x, s), p.count[x := p.nextCount + 1], x);
    }
  }

  /** The moved element gets the highest count. */
  lemma StillBelow(q: seq<nat>, count: seq<nat>, nextCount: nat, x: nat)
    requires Counted(count, nextCount) && x < |count| && x !in q && Ordered(q, count[x := nextCount + 1])
    ensures forall i :: 0 <= i < |q| ==> count[x := nextCount + 1][q[i]] < nextCount + 1
  {
  }

  lemma MovePlaced(p: Pool, x: nat, to: nat)
    requires PoolOk(p) && x < |p.state| && to < |p.queues|
    ensures Placed(Move(p, x, to).queues, Move(p, x, to).state)
  {
    var old_, k := p.state[x], Place(p.queues[p.state[x]], x);
    var queues', state' := Move(p, x, to).queues, Move(p, x, to).state;
    assert Ordered(p.queues[old_], p.count);
    OrderedDistinct(p.queues[old_], p.count);
    RemoveAt(p.queues[old_], k);
    hide Ordered, Counted, Distinct;
    forall y | 0 <= y < |state'|
      ensures state'[y] < |queues'| && y in queues'[state'[y]]
    {
      MovedQueue(p.queues, x, old_, k, to, state'[y]);
      if y != x {
        assert y in p.queues[p.state[y]];
      }
    }
    forall s, i | 0 <= s < |queues'| && 0 <= i < |queues'[s]|
      ensures queues'[s][i] < |state'| && state'[queues'[s][i]] == s
    {
      MovedQueue(p.queues, x, old_, k, to, s);
      MovedFrom(p, x, to, s, i);
    }
  }

  /** An element found on a queue after a move is the moved one, or was on that queue before. */
  lemma MovedFrom(p: Pool, x: nat, to: nat, s: nat, i: nat)
    requires PoolOk(p) && x < |p.state| && to < |p.queues| && s < |p.queues|
    requires s < |Move(p, x, to).queues| && i < |Move(p, x, to).queues[s]|
    ensures var y := Move(p, x, to).queues[s][i];
      if y == x then s == to else y < |p.state| && p.state[y] == s && y in p.queues[s]
  {
    var old_, k := p.state[x], Place(p.queues[p.state[x]], x);
    MovedQueue(p.queues, x, old_, k, to, s);
    assert Ordered(p.queues[old_], p.count);
    OrderedDistinct(p.queues[old_], p.count);
    RemoveAt(p.queues[old_], k);
    hide Ordered, Counted, Distinct, Remove, Moved;
    var y := Move(p, x, to).queues[s][i];
    var q := if s == old_ then Remove(p.queues[s], k) else p.queues[s];
    if i < |q| {
      assert q[i] in q;
      assert y in p.queues[s];
      var j := Place(p.queues[s], y);
      assert p.state[p.queues[s][j]] == s;
    }
  }

  lemma MoveCounted(count: seq<nat>, nextCount: nat, x: nat)
    requires Counted(count, nextCount) && x < |count|
    ensures Counted(count[x := nextCount + 1], nextCount + 1)
  {
  }

  /** A move keeps the queues a partition of the elements in the order of insertion. */
  lemma MoveOk(p: Pool, x: nat, to: nat)
    requires PoolOk(p) && x < |p.state| && to < |p.queues|
    ensures PoolOk(Move(p, x, to))
  {
    var p' := Move(p, x, to);
    assert |p'.queues| == |p.queues|;
    MovePlaced(p, x, to);
    MoveCounted(p.count, p.nextCount, x);
    forall s | 0 <= s < |p.queues|
      ensures Ordered(p'.queues[s], p'.count)
    {
      MoveOrdered(p, x, to, s);
    }
    hide Ordered, Counted, Placed;
  }

  // ---------------------------------------------------------------- one step of a walk

  /** A walker of one state: where it stands and stood before (none is the head), and the count it saw last. */
  datatype Walker = Walker(node: Option<nat>, back: Option<nat>, last: nat)

  const START: Walker := Walker(None, None, 0)

  /** The first place from `i` on with at least count `last`. */
  function FirstFrom(q: seq<nat>, count: seq<nat>, last: nat, i: nat): (k: nat)
    requires i <= |q| && forall j :: 0 <= j < |q| ==> q[j] < |count|
    ensures i <= k <= |q| && (k < |q| ==> count[q[k]] >= last) && forall j :: i <= j < k ==> count[q[j]] < last
    decreases |q| - i
  {
    if i == |q| || count[q[i]] >= last then i else FirstFrom(q, count, last, i + 1)
  }

  /** The place that a walker goes to: after its element, or after the one before that, or by count. */
  ghost function NextPlace(p: Pool, s: nat, w: Walker): (k: nat)
    requires PoolOk(p) && s < |p.queues| && InPool(p, w)
    ensures k <= |p.queues[s]|
  {
    assert Ordered(p.queues[s], p.count);
    if w.node.Some? && p.state[w.node.value] != s then
      if w.back.Some? && p.state[w.back.value] == s then Place(p.queues[s], w.back.value) + 1
      else FirstFrom(p.queues[s], p.count, w.last, 0)
    else if w.node.Some? then Place(p.queues[s], w.node.value) + 1 else 0
  }

  predicate InPool(p: Pool, w: Walker) {
    && (w.node.Some? ==> w.node.value < |p.state|)
    && (w.back.Some? ==> w.back.value < |p.state|)
  }

  function OnPlace(q: seq<nat>, i: int): Option<nat> {
    if 0 <= i < |q| then Some(q[i]) else None
  }

  /** The walker after a step; at the end of the queue it has no element. */
  ghost function StepWalker(p: Pool, s: nat, w: Walker): (w': Walker)
    requires PoolOk(p) && s < |p.queues| && InPool(p, w)
  {
    var q, k := p.queues[s], NextPlace(p, s, w);
    assert Ordered(q, p.count);
    Walker(OnPlace(q, k), OnPlace(q, k - 1), if k < |q| then p.count[q[k]] else w.last)
  }

  /** What holds of a walker under any moves: nothing that it has passed can look new to it. */
  ghost predicate WalkerOk(p: Pool, s: nat, w: Walker) {
    && InPool(p, w) && |p.state| == |p.count|
    && (w.node.None? ==> w == START)
    && (w.node.Some? ==>
          && 1 <= w.last <= p.nextCount && p.count[w.node.value] >= w.last
          && (forall e :: 0 <= e < |p.count| && p.count[e] == w.last ==> e == w.node.value))
    && (w.back.Some? ==>
          forall e {:trigger p.count[e]} :: 0 <= e < |p.count| && p.state[e] == s && p.count[e] > p.count[w.back.value] ==> p.count[e] >= w.last)
  }

  lemma OnQueue(p: Pool, s: nat, i: nat)
    requires PoolOk(p) && s < |p.queues| && i < |p.queues[s]|
    ensures p.queues[s][i] < |p.state| == |p.count| && p.state[p.queues[s][i]] == s
  {
    hide Ordered, Counted;
  }

  lemma QueueOrder(p: Pool, s: nat, i: nat, j: nat)
    requires PoolOk(p) && s < |p.queues| && i < |p.queues[s]| && j < |p.queues[s]|
    ensures p.queues[s][i] < |p.count| && p.queues[s][j] < |p.count|
    ensures i < j <==> p.count[p.queues[s][i]] < p.count[p.queues[s][j]]
  {
    hide Placed, Counted;
    var q := p.queues[s];
    assert Ordered(q, p.count);
    assert i < j ==> p.count[q[i]] < p.count[q[j]];
    assert j < i ==> p.count[q[j]] < p.count[q[i]];
  }

  /** A step goes up: the element it gives was inserted later than the one before it. */
  lemma StepGoesUp(p: Pool, s: nat, w: Walker)
    requires PoolOk(p) && s < |p.queues| && WalkerOk(p, s, w)
    ensures var q, k := p.queues[s], NextPlace(p, s, w);
      k < |q| ==> q[k] < |p.count| && p.count[q[k]] > w.last
  {
    var q, k := p.queues[s], NextPlace(p, s, w);
    if k < |q| {
      OnQueue(p, s, k);
      if w.node.Some? && p.state[w.node.value] != s {
        assert q[k] != w.node.value;
        if w.back.Some? && p.state[w.back.value] == s {
          QueueOrder(p, s, k - 1, k);
        }
      } else if w.node.Some? {
        QueueOrder(p, s, k - 1, k);
      }
    }
    hide Placed, Ordered;
  }

  lemma StepKeeps(p: Pool, s: nat, w: Walker)
    requires PoolOk(p) && s < |p.queues| && WalkerOk(p, s, w) && StepWalker(p, s, w).node.Some?
    ensures WalkerOk(p, s, StepWalker(p, s, w)) && StepWalker(p, s, w).last > w.last
    ensures p.state[StepWalker(p, s, w).node.value] == s
  {
    StepGoesUp(p, s, w);
    var q, k, w' := p.queues[s], NextPlace(p, s, w), StepWalker(p, s, w);
    hide NextPlace;
    OnQueue(p, s, k);
    if k > 0 {
      OnQueue(p, s, k - 1);
      forall e | 0 <= e < |p.count| && p.state[e] == s && p.count[e] > p.count[q[k - 1]]
        ensures p.count[e] >= w'.last
      {
        var j := Place(q, e);
        QueueOrder(p, s, k - 1, j);
        QueueOrder(p, s, j, k);
      }
    }
    hide Placed, Ordered;
  }

  lemma MoveKeepsWalker(p: Pool, s: nat, w: Walker, x: nat, to: nat)
    requires PoolOk(p) && WalkerOk(p, s, w) && x < |p.state| && to < |p.queues|
    ensures WalkerOk(Move(p, x, to), s, w)
  {
    hide Placed, Ordered, Moved;
  }

  /** The element that a step goes on from: the walker's own if it is still in the state, or else the one before it. */
  function Anchor(p: Pool, s: nat, w: Walker): (a: Option<nat>)
    requires InPool(p, w)
    ensures a.Some? ==> a.value < |p.state| && p.state[a.value] == s
  {
    if w.node.None? then None
    else if p.state[w.node.value] == s then w.node
    else if w.back.Some? && p.state[w.back.value] == s then w.back
    else None
  }

  /** The element that the next step goes on from was inserted again, after the last element given. */
  predicate AnchorAbove(p: Pool, s: nat, w: Walker)
    requires InPool(p, w) && |p.state| == |p.count|
  {
    Anchor(p, s, w).Some? && p.count[Anchor(p, s, w).value] > w.last
  }

  /** A step passes an element inserted since just when the element it goes on from was not inserted before that. */
  lemma PassedIff(p: Pool, s: nat, w: Walker, e: nat)
    requires PoolOk(p) && s < |p.queues| && WalkerOk(p, s, w)
    requires e < |p.state| && p.state[e] == s && p.count[e] > w.last
    ensures e in p.queues[s]
    ensures Place(p.queues[s], e) < NextPlace(p, s, w) <==>
      Anchor(p, s, w).Some? && p.count[e] <= p.count[Anchor(p, s, w).value]
  {
    var q, k := p.queues[s], NextPlace(p, s, w);
    var j := Place(q, e);
    if Anchor(p, s, w).Some? {
      QueueOrder(p, s, j, k - 1);
      QueueOrder(p, s, k - 1, j);
      assert q[k - 1] == Anchor(p, s, w).value;
    } else if w.node.Some? {
      assert Ordered(q, p.count);
    }
    hide Placed, Ordered;
  }

  /** Every insertion up to the last count that is still in the state has been given. */
  ghost predicate Caught(p: Pool, s: nat, w: Walker, counts: seq<nat>) {
    && |p.state| == |p.count|
    && forall e {:trigger p.count[e]} :: 0 <= e < |p.state| && p.state[e] == s && p.count[e] <= w.last ==> p.count[e] in counts
  }

  /** From an element that was not inserted again, a step passes only what the walk has given. */
  lemma StepCatches(p: Pool, s: nat, w: Walker, counts: seq<nat>)
    requires PoolOk(p) && s < |p.queues| && WalkerOk(p, s, w) && Caught(p, s, w, counts)
    requires !AnchorAbove(p, s, w) && StepWalker(p, s, w).node.Some?
    ensures Caught(p, s, StepWalker(p, s, w), counts + [StepWalker(p, s, w).last])
  {
    var q, k, w' := p.queues[s], NextPlace(p, s, w), StepWalker(p, s, w);
    OnQueue(p, s, k);
    forall e | 0 <= e < |p.state| && p.state[e] == s && p.count[e] <= w'.last
      ensures p.count[e] in counts + [w'.last]
    {
      if p.count[e] > w.last {
        PassedIff(p, s, w, e);
        QueueOrder(p, s, k, Place(q, e));
      }
    }
    hide Placed, Ordered, NextPlace, WalkerOk;
  }

  /** A step from such an element that finds the end of the queue has given all of it. */
  lemma EndHasGivenAll(p: Pool, s: nat, w: Walker, counts: seq<nat>, e: nat)
    requires PoolOk(p) && s < |p.queues| && WalkerOk(p, s, w) && Caught(p, s, w, counts)
    requires !AnchorAbove(p, s, w) && StepWalker(p, s, w).node.None?
    requires e < |p.state| && p.state[e] == s
    ensures p.count[e] in counts
  {
    if p.count[e] > w.last {
      PassedIff(p, s, w, e);
    }
    hide Placed, Ordered, NextPlace, WalkerOk;
  }

  /** An insertion has a new count, so no move changes what was caught. */
  lemma MoveKeepsCaught(p: Pool, s: nat, w: Walker, counts: seq<nat>, x: nat, to: nat)
    requires PoolOk(p) && WalkerOk(p, s, w) && Caught(p, s, w, counts) && x < |p.state| && to < |p.queues|
    ensures Caught(Move(p, x, to), s, w, counts)
  {
    hide Placed, Ordered, Moved;
  }

  // ---------------------------------------------------------------- walks interleaved with moves

  datatype Event = MoveTo(x: nat, to: nat) | Step

  /** A walk under way: what it has given, the count of each when it gave it, and whether it has come to the end. */
  datatype Walk = Walk(pool: Pool, walker: Walker, seen: seq<nat>, counts: seq<nat>, ended: bool)

  ghost predicate WalkOk(k: Walk, s: nat) {
    PoolOk(k.pool) && s < |k.pool.queues| && InPool(k.pool, k.walker)
  }

  ghost predicate Legal(k: Walk, e: Event) {
    e.MoveTo? ==> e.x < |k.pool.state| && e.to < |k.pool.queues|
  }

  ghost function Apply(k: Walk, s: nat, e: Event): Walk
    requires WalkOk(k, s) && Legal(k, e)
  {
    match e
    case MoveTo(x, to) => k.(pool := Move(k.pool, x, to))
    case Step =>
      if k.ended then k else
      var w := StepWalker(k.pool, s, k.walker);
      if w.node.None? then k.(walker := w, ended := true)
      else Walk(k.pool, w, k.seen + [w.node.value], k.counts + [k.pool.count[w.node.value]], false)
  }

  lemma ApplyOk(k: Walk, s: nat, e: Event)
    requires WalkOk(k, s) && Legal(k, e)
    ensures WalkOk(Apply(k, s, e), s) && |Apply(k, s, e).pool.queues| == |k.pool.queues| && |Apply(k, s, e).pool.state| == |k.pool.state|
  {
    if e.MoveTo? {
      MoveOk(k.pool, e.x, e.to);
      hide PoolOk, Moved;
    } else if !k.ended {
      var q, n := k.pool.queues[s], NextPlace(k.pool, s, k.walker);
      if n < |q| {
        OnQueue(k.pool, s, n);
      }
      if n > 0 {
        OnQueue(k.pool, s, n - 1);
      }
      hide PoolOk, NextPlace;
    }
  }

  ghost predicate AllLegal(states: nat, number: nat, events: seq<Event>) {
    forall i :: 0 <= i < |events| && events[i].MoveTo? ==> events[i].x < number && events[i].to < states
  }

  /** The walk of state `s` of a pool after some events. */
  ghost function Run(p: Pool, s: nat, events: seq<Event>): (k: Walk)
    requires PoolOk(p) && s < |p.queues| && AllLegal(|p.queues|, |p.state|, events)
    ensures WalkOk(k, s) && |k.pool.queues| == |p.queues| && |k.pool.state| == |p.state|
    decreases |events|
  {
    if events == [] then Walk(p, START, [], [], false)
    else
      var k := Run(p, s, events[..|events| - 1]);
      ApplyOk(k, s, events[|events| - 1]);
      Apply(k, s, events[|events| - 1])
  }

  ghost predicate Rising(counts: seq<nat>, last: nat) {
    && (forall i, j :: 0 <= i < j < |counts| ==> counts[i] < counts[j])
    && (forall i :: 0 <= i < |counts| ==> counts[i] <= last)
  }

  /** Under any moves, the elements that a walk gives come with strictly rising counts. */
  lemma {:induction false} WalkRises(p: Pool, s: nat, events: seq<Event>)
    requires PoolOk(p) && s < |p.queues| && AllLegal(|p.queues|, |p.state|, events)
    ensures var k := Run(p, s, events);
      && |k.seen| == |k.counts| && Rising(k.counts, k.walker.last) && (!k.ended ==> WalkerOk(k.pool, s, k.walker))
    decreases |events|
  {
    if events != [] {
      var k, e := Run(p, s, events[..|events| - 1]), events[|events| - 1];
      WalkRises(p, s, events[..|events| - 1]);
      RiseStep(k, s, e);
    }
  }

  lemma RiseStep(k: Walk, s: nat, e: Event)
    requires WalkOk(k, s) && Legal(k, e)
    requires |k.seen| == |k.counts| && Rising(k.counts, k.walker.last) && (!k.ended ==> WalkerOk(k.pool, s, k.walker))
    ensures var k' := Apply(k, s, e);
      && |k'.seen| == |k'.counts| && Rising(k'.counts, k'.walker.last) && (!k'.ended ==> WalkerOk(k'.pool, s, k'.walker))
  {
    if e.MoveTo? {
      if !k.ended {
        MoveKeepsWalker(k.pool, s, k.walker, e.x, e.to);
      }
    } else if !k.ended && StepWalker(k.pool, s, k.walker).node.Some? {
      StepKeeps(k.pool, s, k.walker);
    }
    hide PoolOk, WalkerOk, NextPlace;
  }

  // ---------------------------------------------------------------- what a walk gives

  /** A step gives each element inserted since the last one given, or leaves it for a later step. */
  ghost predicate PassesNothing(k: Walk, s: nat)
    requires WalkOk(k, s) && |k.pool.state| == |k.pool.count|
  {
    var k' := Apply(k, s, Step);
    forall e {:trigger k.pool.count[e]} :: 0 <= e < |k.pool.state| && k.pool.state[e] == s && k.pool.count[e] > k.walker.last ==>
      k.pool.count[e] in k'.counts || (!k'.ended && k.pool.count[e] > k'.walker.last)
  }

  /** A step passes an insertion for good just when it goes on from an element that was inserted again. */
  lemma PassesNothingIff(k: Walk, s: nat)
    requires WalkOk(k, s) && !k.ended && WalkerOk(k.pool, s, k.walker) && Rising(k.counts, k.walker.last)
    ensures PassesNothing(k, s) <==> !AnchorAbove(k.pool, s, k.walker)
  {
    var p, w, k' := k.pool, k.walker, Apply(k, s, Step);
    if AnchorAbove(p, s, w) {
      AnchorIsPassed(k, s);
    } else {
      forall e | 0 <= e < |p.state| && p.state[e] == s && p.count[e] > w.last
        ensures p.count[e] in k'.counts || (!k'.ended && p.count[e] > k'.walker.last)
      {
        NotPassed(k, s, e);
      }
    }
    hide PoolOk, NextPlace, WalkerOk, Rising, Anchor;
  }

  lemma AnchorIsPassed(k: Walk, s: nat)
    requires WalkOk(k, s) && !k.ended && WalkerOk(k.pool, s, k.walker) && Rising(k.counts, k.walker.last)
    requires AnchorAbove(k.pool, s, k.walker)
    ensures var k', c := Apply(k, s, Step), k.pool.count[Anchor(k.pool, s, k.walker).value];
      c !in k'.counts && (k'.ended || c < k'.walker.last)
  {
    var p, w := k.pool, k.walker;
    var q, n, a := p.queues[s], NextPlace(p, s, w), Anchor(p, s, w).value;
    PassedIff(p, s, w, a);
    if n < |q| {
      QueueOrder(p, s, Place(q, a), n);
    }
    hide PoolOk, NextPlace, WalkerOk, Anchor;
  }

  lemma NotPassed(k: Walk, s: nat, e: nat)
    requires WalkOk(k, s) && !k.ended && WalkerOk(k.pool, s, k.walker) && !AnchorAbove(k.pool, s, k.walker)
    requires e < |k.pool.state| && k.pool.state[e] == s && k.pool.count[e] > k.walker.last
    ensures var k' := Apply(k, s, Step); k.pool.count[e] in k'.counts || (!k'.ended && k.pool.count[e] > k'.walker.last)
  {
    var p, w := k.pool, k.walker;
    var q, n := p.queues[s], NextPlace(p, s, w);
    PassedIff(p, s, w, e);
    var j := Place(q, e);
    if j != n {
      QueueOrder(p, s, n, j);
    }
    hide PoolOk, NextPlace, WalkerOk, Anchor;
  }

  /** No step of a run goes on from an element that was inserted again since. */
  ghost predicate Clean(p: Pool, s: nat, events: seq<Event>)
    requires PoolOk(p) && s < |p.queues| && AllLegal(|p.queues|, |p.state|, events)
    decreases |events|
  {
    events == [] ||
    (var k, es := Run(p, s, events[..|events| - 1]), events[..|events| - 1];
     Clean(p, s, es) && (events[|events| - 1].Step? && !k.ended ==> !AnchorAbove(k.pool, s, k.walker)))
  }

  /** No step of a run passes an insertion for good. */
  ghost predicate GivesAll(p: Pool, s: nat, events: seq<Event>)
    requires PoolOk(p) && s < |p.queues| && AllLegal(|p.queues|, |p.state|, events)
    decreases |events|
  {
    events == [] ||
    (var k, es := Run(p, s, events[..|events| - 1]), events[..|events| - 1];
     GivesAll(p, s, es) && (events[|events| - 1].Step? && !k.ended ==> PassesNothing(k, s)))
  }

  /** A walk passes no insertion for good if and only if each step goes on from an element that was not inserted again. */
  lemma {:induction false} GivesAllIff(p: Pool, s: nat, events: seq<Event>)
    requires PoolOk(p) && s < |p.queues| && AllLegal(|p.queues|, |p.state|, events)
    ensures GivesAll(p, s, events) <==> Clean(p, s, events)
    decreases |events|
  {
    if events != [] {
      var es := events[..|events| - 1];
      var k := Run(p, s, es);
      GivesAllIff(p, s, es);
      WalkRises(p, s, es);
      if !k.ended {
        PassesNothingIff(k, s);
      }
      hide Apply, PassesNothing, AnchorAbove, WalkerOk, Rising, PoolOk;
    }
  }

  /** What a step has passed is never given as long as it is not inserted once more: later counts are higher. */
  lemma {:induction false} PassedForGood(p: Pool, s: nat, events: seq<Event>, more: seq<Event>, c: nat)
    requires PoolOk(p) && s < |p.queues| && AllLegal(|p.queues|, |p.state|, events) && AllLegal(|p.queues|, |p.state|, events + more)
    requires var k := Run(p, s, events); c !in k.counts && (k.ended || c < k.walker.last)
    ensures var k := Run(p, s, events + more); c !in k.counts && (k.ended || c < k.walker.last)
    decreases |more|
  {
    if more == [] {
      assert events + more == events;
    } else {
      var es, e := more[..|more| - 1], more[|more| - 1];
      assert (events + more)[..|events + more| - 1] == events + es && (events + more)[|events + more| - 1] == e;
      PassedForGood(p, s, events, es, c);
      WalkRises(p, s, events + es);
      PassedStill(Run(p, s, events + es), s, e, c);
    }
  }

  /** An insertion that a step goes on from too late is never given in what follows. */
  lemma MissedForGood(p: Pool, s: nat, events: seq<Event>, more: seq<Event>)
    requires PoolOk(p) && s < |p.queues| && AllLegal(|p.queues|, |p.state|, events)
    requires AllLegal(|p.queues|, |p.state|, events + [Step]) && AllLegal(|p.queues|, |p.state|, events + [Step] + more)
    requires var k := Run(p, s, events); |k.pool.state| == |k.pool.count| && !k.ended && AnchorAbove(k.pool, s, k.walker)
    ensures var k := Run(p, s, events);
      k.pool.count[Anchor(k.pool, s, k.walker).value] !in Run(p, s, events + [Step] + more).counts
  {
    assert (events + [Step])[..|events + [Step]| - 1] == events && (events + [Step])[|events + [Step]| - 1] == Step;
    WalkRises(p, s, events);
    var k := Run(p, s, events);
    AnchorIsPassed(k, s);
    hide Anchor, AnchorAbove, Apply, PoolOk, Rising, WalkerOk;
    PassedForGood(p, s, events + [Step], more, k.pool.count[Anchor(k.pool, s, k.walker).value]);
  }

  lemma PassedStill(k: Walk, s: nat, e: Event, c: nat)
    requires WalkOk(k, s) && Legal(k, e) && (!k.ended ==> WalkerOk(k.pool, s, k.walker))
    requires c !in k.counts && (k.ended || c < k.walker.last)
    ensures var k' := Apply(k, s, e); c !in k'.counts && (k'.ended || c < k'.walker.last)
  {
    if e.Step? && !k.ended && StepWalker(k.pool, s, k.walker).node.Some? {
      StepKeeps(k.pool, s, k.walker);
    }
    hide PoolOk, NextPlace, WalkerOk;
  }

  /** Each count that was given is that of the element given with it, or of no element any more. */
  ghost predicate Told(k: Walk) {
    && |k.seen| == |k.counts|
    && (forall i :: 0 <= i < |k.counts| ==> k.counts[i] <= k.pool.nextCount)
    && forall i, e {:trigger k.counts[i], k.pool.count[e]} :: 0 <= i < |k.counts| && 0 <= e < |k.pool.count| && k.pool.count[e] == k.counts[i] ==>
         k.seen[i] == e
  }

  lemma {:induction false} WalkTells(p: Pool, s: nat, events: seq<Event>)
    requires PoolOk(p) && s < |p.queues| && AllLegal(|p.queues|, |p.state|, events)
    ensures Told(Run(p, s, events))
    decreases |events|
  {
    if events != [] {
      var es := events[..|events| - 1];
      WalkTells(p, s, es);
      TellsEvent(Run(p, s, es), s, events[|events| - 1]);
      hide Apply, Told, PoolOk;
    }
  }

  lemma TellsEvent(k: Walk, s: nat, e: Event)
    requires WalkOk(k, s) && Legal(k, e) && Told(k)
    ensures Told(Apply(k, s, e))
  {
    hide Placed, Ordered, NextPlace, Moved;
    if e.Step? && !k.ended && StepWalker(k.pool, s, k.walker).node.Some? {
      var q, n, k' := k.pool.queues[s], NextPlace(k.pool, s, k.walker), Apply(k, s, e);
      OnQueue(k.pool, s, n);
      forall i, x | 0 <= i < |k'.counts| && 0 <= x < |k'.pool.count| && k'.pool.count[x] == k'.counts[i]
        ensures k'.seen[i] == x
      {
        if i == |k.counts| {
          assert k.pool.count[x] == k.pool.count[q[n]];
        } else {
          assert k.pool.count[x] == k.counts[i];
        }
      }
    }
  }

  lemma {:induction false} WalkCatches(p: Pool, s: nat, events: seq<Event>)
    requires PoolOk(p) && s < |p.queues| && AllLegal(|p.queues|, |p.state|, events) && Clean(p, s, events)
    ensures var k := Run(p, s, events); !k.ended ==> Caught(k.pool, s, k.walker, k.counts)
    decreases |events|
  {
    if events == [] {
      hide Placed;
    } else {
      var es, e := events[..|events| - 1], events[|events| - 1];
      var k := Run(p, s, es);
      WalkRises(p, s, es);
      WalkCatches(p, s, es);
      if e.MoveTo? {
        if !k.ended {
          MoveKeepsCaught(k.pool, s, k.walker, k.counts, e.x, e.to);
        }
      } else if !k.ended && StepWalker(k.pool, s, k.walker).node.Some? {
        StepCatches(k.pool, s, k.walker, k.counts);
      }
      hide PoolOk, WalkerOk, NextPlace, Caught, Rising;
    }
  }

  /**
   * A walk that comes to its end with no step from an element that was inserted again has given every insertion that
   * is then in the state, and given it once.
   */
  lemma WalkIsComplete(p: Pool, s: nat, events: seq<Event>, e: nat)
    requires PoolOk(p) && s < |p.queues| && AllLegal(|p.queues|, |p.state|, events + [Step])
    requires AllLegal(|p.queues|, |p.state|, events) && Clean(p, s, events + [Step])
    requires !Run(p, s, events).ended && Run(p, s, events + [Step]).ended
    requires e < |Run(p, s, events).pool.state| && Run(p, s, events).pool.state[e] == s
    ensures var k := Run(p, s, events);
      && |k.pool.count| == |k.pool.state| && multiset(k.counts)[k.pool.count[e]] == 1 && |k.seen| == |k.counts|
      && (forall i :: 0 <= i < |k.counts| && k.counts[i] == k.pool.count[e] ==> k.seen[i] == e)
      && e in k.seen
  {
    assert (events + [Step])[..|events + [Step]| - 1] == events;
    WalkRises(p, s, events);
    WalkCatches(p, s, events);
    var k := Run(p, s, events);
    EndHasGivenAll(k.pool, s, k.walker, k.counts, e);
    WalkTells(p, s, events);
    GivenOnce(k, e);
  }

  lemma GivenOnce(k: Walk, e: nat)
    requires Told(k) && Rising(k.counts, k.walker.last) && e < |k.pool.count| && k.pool.count[e] in k.counts
    ensures multiset(k.counts)[k.pool.count[e]] == 1 && e in k.seen
    ensures forall i :: 0 <= i < |k.counts| && k.counts[i] == k.pool.count[e] ==> k.seen[i] == e
  {
    DistinctOccurs(k.counts);
    var i :| 0 <= i < |k.counts| && k.counts[i] == k.pool.count[e];
    assert k.seen[i] == e;
  }

  /** No move brings an element that the walk has given (back) into the walked state. */
  ghost predicate NoReentry(p: Pool, s: nat, events: seq<Event>)
    requires PoolOk(p) && s < |p.queues| && AllLegal(|p.queues|, |p.state|, events)
    decreases |events|
  {
    events == [] ||
    (var es, e := events[..|events| - 1], events[|events| - 1];
     NoReentry(p, s, es) && !(e.MoveTo? && e.to == s && e.x in Run(p, s, es).seen))
  }

  /** What the walker stands on was given, and no element given is in the state with a count above the last. */
  ghost predicate SeenBelow(k: Walk, s: nat) {
    && |k.pool.state| == |k.pool.count|
    && (k.walker.node.Some? ==> k.walker.node.value in k.seen)
    && (k.walker.back.Some? ==> k.walker.back.value in k.seen)
    && (forall e {:trigger k.pool.count[e]} :: 0 <= e < |k.pool.state| && k.pool.state[e] == s && e in k.seen ==> k.pool.count[e] <= k.walker.last)
    && Distinct(k.seen)
  }

  lemma CountSeen(k: Walk, e: nat)
    requires Told(k) && e < |k.pool.count| && k.pool.count[e] in k.counts
    ensures e in k.seen
  {
    var i :| 0 <= i < |k.counts| && k.counts[i] == k.pool.count[e];
    assert k.seen[i] == e;
  }

  lemma SeenStep(k: Walk, s: nat)
    requires WalkOk(k, s) && !k.ended && WalkerOk(k.pool, s, k.walker) && Told(k)
    requires SeenBelow(k, s) && Caught(k.pool, s, k.walker, k.counts) && StepWalker(k.pool, s, k.walker).node.Some?
    ensures !AnchorAbove(k.pool, s, k.walker) && SeenBelow(Apply(k, s, Step), s)
  {
    var p, w, w' := k.pool, k.walker, StepWalker(k.pool, s, k.walker);
    StepGoesUp(p, s, w);
    StepCatches(p, s, w, k.counts);
    var q, n := p.queues[s], NextPlace(p, s, w);
    OnQueue(p, s, n);
    hide NextPlace, WalkerOk, Told;
    if n > 0 {
      OnQueue(p, s, n - 1);
      QueueOrder(p, s, n - 1, n);
      assert p.count[q[n - 1]] in k.counts;
      CountSeen(k, q[n - 1]);
    }
    hide PoolOk, Caught;
  }

  /** Without re-entry no step goes on from an element that was inserted again. */
  lemma {:induction false} NoReentryIsClean(p: Pool, s: nat, events: seq<Event>)
    requires PoolOk(p) && s < |p.queues| && AllLegal(|p.queues|, |p.state|, events) && NoReentry(p, s, events)
    ensures Clean(p, s, events) && Distinct(Run(p, s, events).seen)
    ensures !Run(p, s, events).ended ==> SeenBelow(Run(p, s, events), s)
    decreases |events|
  {
    if events == [] {
      hide Placed;
    } else {
      var es, e := events[..|events| - 1], events[|events| - 1];
      var k := Run(p, s, es);
      NoReentryIsClean(p, s, es);
      WalkRises(p, s, es);
      WalkTells(p, s, es);
      WalkCatches(p, s, es);
      if !k.ended {
        SeenEvent(k, s, e);
      }
      hide PoolOk, WalkerOk, NextPlace, Caught, Rising, Told, SeenBelow, AnchorAbove, Apply;
    }
  }

  lemma SeenEvent(k: Walk, s: nat, e: Event)
    requires WalkOk(k, s) && Legal(k, e) && !k.ended && WalkerOk(k.pool, s, k.walker) && Told(k)
    requires SeenBelow(k, s) && Caught(k.pool, s, k.walker, k.counts) && !(e.MoveTo? && e.to == s && e.x in k.seen)
    ensures !AnchorAbove(k.pool, s, k.walker) && Distinct(Apply(k, s, e).seen)
    ensures !Apply(k, s, e).ended ==> SeenBelow(Apply(k, s, e), s)
  {
    if e.MoveTo? {
      hide Placed, Ordered, Moved;
    } else if StepWalker(k.pool, s, k.walker).node.Some? {
      SeenStep(k, s);
    }
    hide PoolOk, NextPlace, Caught, Told;
  }

  /** When no element that it gave re-enters the state, a walk that ends has given each element then in the state, each once. */
  lemma WalkWithoutReentry(p: Pool, s: nat, events: seq<Event>, e: nat)
    requires PoolOk(p) && s < |p.queues| && AllLegal(|p.queues|, |p.state|, events + [Step])
    requires AllLegal(|p.queues|, |p.state|, events) && NoReentry(p, s, events)
    requires !Run(p, s, events).ended && Run(p, s, events + [Step]).ended
    requires e < |Run(p, s, events).pool.state| && Run(p, s, events).pool.state[e] == s
    ensures multiset(Run(p, s, events).seen)[e] == 1
  {
    assert (events + [Step])[..|events + [Step]| - 1] == events && (events + [Step])[|events + [Step]| - 1] == Step;
    NoReentryIsClean(p, s, events + [Step]);
    NoReentryIsClean(p, s, events);
    WalkIsComplete(p, s, events, e);
    DistinctOccurs(Run(p, s, events).seen);
  }

  /** A step from an element that was inserted again can miss others: touching the one just given sends the walk to the end. */
  lemma TouchedWalkMisses()
    ensures var p, events := Pool([[0, 1]], [0, 0], [1, 2], 2), [Step, MoveTo(0, 0), Step];
      && PoolOk(p) && AllLegal(1, 2, events)
      && Run(p, 0, events).ended && Run(p, 0, events).pool.state[1] == 0 && 1 !in Run(p, 0, events).seen
  {
    var p, events := Pool([[0, 1]], [0, 0], [1, 2], 2), [Step, MoveTo(0, 0), Step];
    var p2 := Pool([[1, 0]], [0, 0], [3, 2], 3);
    SmallPool(p);
    SmallMove(p);
    MoveOk(p, 0, 0);
    SmallStep(p2);
    hide PoolOk, Move, StepWalker;
    assert events[..2] == [Step, MoveTo(0, 0)] && events[..2][..1] == [Step] && events[..2][..1][..0] == [];
    assert Run(p, 0, [Step]) == Walk(p, Walker(Some(0), None, 1), [0], [1], false) by {
      assert [Step][..0] == [];
    }
    assert Run(p, 0, events[..2]) == Walk(p2, Walker(Some(0), None, 1), [0], [1], false);
  }

  lemma SmallPool(p: Pool)
    requires p == Pool([[0, 1]], [0, 0], [1, 2], 2)
    ensures PoolOk(p) && StepWalker(p, 0, START) == Walker(Some(0), None, 1)
  {
    assert p.queues[0][0] == 0 && p.queues[0][1] == 1;
    assert 0 in p.queues[0] && 1 in p.queues[0];
  }

  lemma SmallMove(p: Pool)
    requires p == Pool([[0, 1]], [0, 0], [1, 2], 2) && PoolOk(p)
    ensures Move(p, 0, 0) == Pool([[1, 0]], [0, 0], [3, 2], 3)
  {
    var k := Place([0, 1], 0);
    assert k == 0;
    assert Remove([0, 1], 0) == [1];
    assert [[0, 1]][0 := [1]] == [[1]] && [[1]][0 := [1, 0]] == [[1, 0]] && [1] + [0] == [1, 0];
  }

  lemma SmallStep(p: Pool)
    requires p == Pool([[1, 0]], [0, 0], [3, 2], 3) && PoolOk(p)
    ensures StepWalker(p, 0, Walker(Some(0), None, 1)).node.None?
  {
    assert p.queues[0][0] == 1 && p.queues[0][1] == 0 && 0 in p.queues[0];
    assert Place(p.queues[0], 0) == 1;
  }
}
