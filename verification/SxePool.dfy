/** sxe-pool: an array whose elements are always in one of some states, over the lists of sxe-list; untimed pools. */
module SxePool {
  import opened Bytes
  import opened Seqs
  import opened SxeList
  import opened PoolWalk

  lemma IdsAreStates(base: nat, next: seq<nat>, prev: seq<nat>, id: seq<nat>, length: seq<nat>, queues: seq<seq<nat>>, state: seq<nat>)
    requires ListsOk(base, next, prev, id, length, queues) && |state| == base && Placed(queues, state)
    ensures |id| >= base && id[..base] == state
  {
    forall x | 0 <= x < base
      ensures id[x] == state[x]
    {
      assert x in queues[state[x]];
      assert QueueOk(base, next, prev, id, state[x], queues[state[x]]);
    }
  }

  /** The queues of a new pool: all elements in state 0, the last one first. */
  ghost function NewQueues(number: nat, states: nat, from: nat): seq<seq<nat>>
    requires from <= number && states > 0
  {
    [seq(number - from, j requires 0 <= j < number - from => number - 1 - j)] + seq(states - 1, _ => [])
  }

  ghost function NewPool(number: nat, states: nat): Pool
    requires states > 0
  {
    Pool(NewQueues(number, states, 0), seq(number, _ => 0), seq(number, x requires 0 <= x < number => number - x), number)
  }

  lemma NewPoolOk(number: nat, states: nat)
    requires states > 0
    ensures PoolOk(NewPool(number, states)) && NewPool(number, states).queues == NewQueues(number, states, 0)
    ensures |NewPool(number, states).state| == number && NewPool(number, states).nextCount == number
  {
    var p := NewPool(number, states);
    forall x | 0 <= x < number
      ensures x in p.queues[0]
    {
      assert p.queues[0][number - 1 - x] == x;
    }
    assert Ordered(p.queues[0], p.count);
  }

  lemma NoneQueued(number: nat, states: nat)
    requires states > 0
    ensures NewQueues(number, states, number) == seq(states, _ => [])
  {
    assert NewQueues(number, states, number)[0] == [];
  }

  lemma NewQueuesNext(number: nat, states: nat, from: nat)
    requires 0 < from <= number && states > 0
    ensures |NewQueues(number, states, from)| == states
    ensures NewQueues(number, states, from)[0 := NewQueues(number, states, from)[0] + [from - 1]] == NewQueues(number, states, from - 1)
    ensures forall l :: 0 <= l < states ==> from - 1 !in NewQueues(number, states, from)[l]
  {
    assert NewQueues(number, states, from)[0] + [from - 1] == NewQueues(number, states, from - 1)[0];
  }

  class PoolArray {
    const number: nat
    const states: nat
    const lists: Lists
    var count: seq<nat>
    var nextCount: nat

    ghost function Model(): Pool
      requires number <= |lists.id|
      reads this, lists
    {
      Pool(lists.queues, lists.id[..number], count, nextCount)
    }

    ghost predicate Valid()
      reads this, lists
    {
      && lists.base == number && lists.number == states && lists.Valid()
      && number <= |lists.id| && |count| == number && PoolOk(Model())
    }

    /** A pool with all elements in state 0, element `number - 1` the oldest. */
    constructor (number: nat, states: nat)
      requires states > 0
      ensures Valid() && fresh(lists) && this.number == number && this.states == states
      ensures Model() == NewPool(number, states)
    {
      this.number, this.states := number, states;
      var ls := new Lists(number, states);
      lists := ls;
      count, nextCount := seq(number, _ => 0), 0;
      new;
      NoneQueued(number, states);
      hide ListsOk, NewQueues, NewPool, PoolOk;
      Fill();
      NewPoolOk(number, states);
      IdsAreMoved(NewPool(number, states), lists);
    }

    /** Pushes all elements on the queue of state 0, from the last one down. */
    method Fill()
      requires states > 0 && lists.base == number && lists.number == states && lists.Valid() && |count| == number && nextCount == 0
      requires lists.queues == NewQueues(number, states, number)
      modifies this, lists
      ensures lists.Valid() && lists.queues == NewQueues(number, states, 0)
      ensures count == NewPool(number, states).count && nextCount == number
    {
      hide ListsOk, NewQueues;
      var i := number;
      while i > 0
        invariant 0 <= i <= number && lists.Valid()
        invariant lists.queues == NewQueues(number, states, i)
        invariant nextCount == number - i && |count| == number
        invariant forall x :: i <= x < number ==> count[x] == number - x
      {
        NewQueuesNext(number, states, i);
        i := i - 1;
        nextCount := nextCount + 1;
        count := count[i := nextCount];
        lists.Push(0, i);
      }
    }

    /** The state of an element. */
    method IndexToState(x: nat) returns (state: nat)
      requires Valid() && x < number
      ensures state == Model().state[x] < states
    {
      hide Ordered, Counted, ListsOk;
      state := lists.id[x];
    }

    method GetNumberInState(state: nat) returns (n: nat)
      requires Valid() && state < states
      ensures n == |Model().queues[state]|
    {
      hide PoolOk;
      n := lists.length[state];
    }

    /** Moves an element to the tail of another state's queue, unless it is not in the state given. */
    method SetIndexedElementStateUnlocked(x: nat, oldState: nat, newState: nat) returns (success: bool)
      requires Valid() && x < number && oldState < states && newState < states
      modifies this, lists
      ensures Valid() && success == (old(Model()).state[x] == oldState)
      ensures Model() == if success then Move(old(Model()), x, newState) else old(Model())
    {
      hide ListsOk, Ordered, Counted, Distinct;
      if lists.id[x] != oldState {
        return false;
      }
      ghost var p := Model();
      InOneQueue(p, x);
      ghost var k := Place(lists.queues[oldState], x);
      MoveOk(p, x, newState);
      hide Placed;
      lists.Remove(oldState, x, k);
      nextCount := nextCount + 1;
      count := count[x := nextCount];
      lists.Push(newState, x);
      ghost var p' := Move(p, x, newState);
      hide PoolOk, Moved;
      IdsAreMoved(p', lists);
      return true;
    }

    /** Moves an element from one state to another; the caller says which state it is in. */
    method SetIndexedElementState(x: nat, oldState: nat, newState: nat)
      requires Valid() && x < number && newState < states && Model().state[x] == oldState
      modifies this, lists
      ensures Valid() && Model() == Move(old(Model()), x, newState)
    {
      StateInRange(Model(), x);
      hide ListsOk, PoolOk, Moved;
      var success := SetIndexedElementStateUnlocked(x, oldState, newState);
    }

    /** Moves an element if it is in the state given; says which state it is in otherwise. */
    method TryToSetIndexedElementState(x: nat, oldState: nat, newState: nat) returns (moved: bool, state: nat)
      requires Valid() && x < number && oldState < states && newState < states
      modifies this, lists
      ensures Valid() && moved == (old(Model()).state[x] == oldState)
      ensures Model() == if moved then Move(old(Model()), x, newState) else old(Model())
      ensures state == Model().state[x]
    {
      hide ListsOk, PoolOk, Moved;
      moved := SetIndexedElementStateUnlocked(x, oldState, newState);
      state := newState;
      if !moved {
        state := IndexToState(x);
      }
    }

    /** Moves the oldest element of a state to another state, if there is one. */
    method SetOldestElementState(oldState: nat, newState: nat) returns (x: Option<nat>)
      requires Valid() && oldState < states && newState < states
      modifies this, lists
      ensures Valid() && x == OnPlace(old(Model()).queues[oldState], 0)
      ensures x.Some? ==> x.value < number && Model() == Move(old(Model()), x.value, newState)
      ensures x.None? ==> Model() == old(Model())
    {
      hide ListsOk, Moved;
      x := lists.PeekHead(oldState);
      if x.Some? {
        OnQueue(Model(), oldState, 0);
        hide PoolOk;
        var success := SetIndexedElementStateUnlocked(x.value, oldState, newState);
      }
    }

    /** Puts an element at the tail of the queue that it is on. */
    method TouchIndexedElement(x: nat)
      requires Valid() && x < number
      modifies this, lists
      ensures Valid() && Model() == Move(old(Model()), x, old(Model()).state[x])
    {
      StateInRange(Model(), x);
      hide ListsOk, PoolOk, Moved;
      var state := lists.id[x];
      var success := SetIndexedElementStateUnlocked(x, state, state);
    }

    method GetOldestElementIndex(state: nat) returns (x: Option<nat>)
      requires Valid() && state < states
      ensures x == OnPlace(Model().queues[state], 0)
    {
      hide ListsOk, PoolOk;
      x := lists.PeekHead(state);
    }
  }

  lemma InOneQueue(p: Pool, x: nat)
    requires PoolOk(p) && x < |p.state|
    ensures p.state[x] < |p.queues| && x in p.queues[p.state[x]]
  {
    hide Ordered, Counted;
  }

  lemma StateInRange(p: Pool, x: nat)
    requires PoolOk(p) && x < |p.state|
    ensures p.state[x] < |p.queues|
  {
    hide Ordered, Counted;
  }

  lemma IdsAreMoved(p: Pool, lists: Lists)
    requires PoolOk(p) && lists.Valid() && lists.base == |p.state| && lists.queues == p.queues
    ensures lists.base <= |lists.id| && lists.id[..lists.base] == p.state
  {
    hide Ordered, Counted;
    IdsAreStates(lists.base, lists.next, lists.prev, lists.id, lists.length, lists.queues, p.state);
  }

  /** The place of a walker's node: an element on the queue, or the head. */
  ghost function PlaceOf(p: Pool, s: nat, node: Option<nat>): (k: int)
    requires PoolOk(p) && s < |p.queues|
    requires node.Some? ==> node.value < |p.state| && p.state[node.value] == s
    ensures -1 <= k < |p.queues[s]| && (k == -1 <==> node.None?) && (k >= 0 ==> p.queues[s][k] == node.value)
  {
    InQueue(p, s, node);
    if node.None? then -1 else Place(p.queues[s], node.value)
  }

  lemma InQueue(p: Pool, s: nat, node: Option<nat>)
    requires PoolOk(p) && s < |p.queues|
    requires node.Some? ==> node.value < |p.state| && p.state[node.value] == s
    ensures node.Some? ==> node.value in p.queues[s]
  {
    hide Ordered, Counted;
  }

  /** The place that the search by count has come to. */
  ghost predicate Searching(q: seq<nat>, count: seq<nat>, last: nat, k: int) {
    && -1 <= k < |q| && (forall j :: 0 <= j < |q| ==> q[j] < |count|)
    && FirstFrom(q, count, last, 0) == FirstFrom(q, count, last, k + 1)
  }

  lemma SearchStarts(p: Pool, s: nat, last: nat)
    requires PoolOk(p) && s < |p.queues|
    ensures Searching(p.queues[s], p.count, last, -1)
  {
    hide Placed, Counted, FirstFrom;
    assert Ordered(p.queues[s], p.count);
  }

  lemma SearchNext(q: seq<nat>, count: seq<nat>, last: nat, k: nat)
    requires k < |q| && Searching(q, count, last, k - 1) && count[q[k]] < last
    ensures Searching(q, count, last, k)
  {
  }

  lemma SearchDone(q: seq<nat>, count: seq<nat>, last: nat, k: nat)
    requires k <= |q| && Searching(q, count, last, k - 1) && (k < |q| ==> q[k] < |count| && count[q[k]] >= last)
    ensures FirstFrom(q, count, last, 0) == k
  {
  }

  lemma PlaceNode(p: Pool, s: nat, node: Option<nat>, sentinel: nat)
    requires PoolOk(p) && s < |p.queues|
    requires node.Some? ==> node.value < |p.state| && p.state[node.value] == s
    ensures RingAt(p.queues[s], sentinel, PlaceOf(p, s, node)) == if node.Some? then node.value else sentinel
  {
    hide PoolOk;
  }

  lemma HeadOfRing(q: seq<nat>, sentinel: nat)
    ensures RingAt(q, sentinel, -1) == sentinel
  {
  }

  /** Where a walker goes, case by case. */
  lemma GoesTo(p: Pool, s: nat, w: Walker)
    requires PoolOk(p) && s < |p.queues| && InPool(p, w)
    ensures forall j :: 0 <= j < |p.queues[s]| ==> p.queues[s][j] < |p.count|
    ensures w.node.Some? && p.state[w.node.value] != s && w.back.Some? && p.state[w.back.value] == s ==>
      NextPlace(p, s, w) == PlaceOf(p, s, w.back) + 1
    ensures w.node.Some? && p.state[w.node.value] != s && !(w.back.Some? && p.state[w.back.value] == s) ==>
      NextPlace(p, s, w) == FirstFrom(p.queues[s], p.count, w.last, 0)
    ensures !(w.node.Some? && p.state[w.node.value] != s) ==> NextPlace(p, s, w) == PlaceOf(p, s, w.node) + 1
  {
    assert Ordered(p.queues[s], p.count);
    hide PoolOk, Place, FirstFrom, Ordered;
  }

  /** The links around the place that a walker goes to are the new walker. */
  lemma LandsOn(p: Pool, s: nat, w: Walker, k: nat, sentinel: nat)
    requires PoolOk(p) && s < |p.queues| && InPool(p, w) && k == NextPlace(p, s, w) && sentinel >= |p.state|
    ensures k <= |p.queues[s]| && (k < |p.queues[s]| ==> p.queues[s][k] < |p.count|)
    ensures var q := p.queues[s];
      && StepWalker(p, s, w) == Walker(OnPlace(q, k), OnPlace(q, k - 1), if k < |q| then p.count[q[k]] else w.last)
      && (RingAt(q, sentinel, k) == sentinel <==> OnPlace(q, k).None?)
      && (OnPlace(q, k).Some? ==> RingAt(q, sentinel, k) == OnPlace(q, k).value)
      && (RingAt(q, sentinel, k - 1) == sentinel <==> OnPlace(q, k - 1).None?)
      && (OnPlace(q, k - 1).Some? ==> RingAt(q, sentinel, k - 1) == OnPlace(q, k - 1).value)
  {
    hide NextPlace;
    if k < |p.queues[s]| {
      OnQueue(p, s, k);
    }
    if k > 0 {
      OnQueue(p, s, k - 1);
    }
    hide PoolOk;
  }

  /** A walker of one state of a pool. */
  class PoolWalker {
    const pool: PoolArray
    const state: nat
    const listWalker: ListWalker
    var last: nat

    ghost function Model(): Walker
      reads this, listWalker
    {
      Walker(listWalker.Find(), if listWalker.back != listWalker.Sentinel() then Some(listWalker.back) else None, last)
    }

    ghost predicate Valid()
      reads this, listWalker
    {
      && listWalker.Valid() && listWalker.lists == pool.lists && listWalker.list == state < pool.states == pool.lists.number
      && pool.number == pool.lists.base
    }

    constructor (pool: PoolArray, state: nat)
      requires pool.Valid() && state < pool.states
      ensures Valid() && fresh(listWalker) && this.pool == pool && this.state == state && Model() == START
    {
      this.pool, this.state, last := pool, state, 0;
      listWalker := new ListWalker(pool.lists, state);
    }

    /** Steps to the next element in the state, however the elements have moved since the last step. */
    method Step() returns (x: Option<nat>)
      requires pool.Valid() && Valid()
      modifies this, listWalker
      ensures Valid() && InPool(pool.Model(), old(Model()))
      ensures Model() == StepWalker(pool.Model(), state, old(Model())) && x == Model().node
    {
      hide ListsOk, PoolOk, NextPlace, StepWalker, FirstFrom, PlaceOf, RingAt;
      ghost var p, w, k := pool.Model(), Model(), 0;
      GoesTo(p, state, w);
      var node := listWalker.Find();
      if node.Some? && pool.lists.id[node.value] != state {
        node := listWalker.Back();
        if node.Some? && pool.lists.id[node.value] == state {
          PlaceNode(p, state, node, listWalker.Sentinel());
          k := PlaceOf(p, state, node) + 1;
          node := listWalker.Step(k - 1);
        } else {
          node := Search();
          k := FirstFrom(p.queues[state], p.count, last, 0);
        }
      } else {
        PlaceNode(p, state, node, listWalker.Sentinel());
        k := PlaceOf(p, state, node) + 1;
        node := listWalker.Step(k - 1);
      }
      LandsOn(p, state, w, k, listWalker.Sentinel());
      if node.Some? {
        last := pool.count[node.value];
      }
      x := node;
    }

    /** Walks the queue from its head to the first element with at least the count seen last. */
    method Search() returns (node: Option<nat>)
      requires pool.Valid() && Valid()
      modifies listWalker
      ensures Valid()
      ensures var q := pool.Model().queues[state];
        && (forall j :: 0 <= j < |q| ==> q[j] < |pool.count|)
        && var k := FirstFrom(q, pool.count, last, 0);
           node == OnPlace(q, k) && listWalker.node == RingAt(q, listWalker.Sentinel(), k)
           && listWalker.back == RingAt(q, listWalker.Sentinel(), k - 1)
    {
      hide ListsOk, PoolOk, Ordered, RingAt, FirstFrom;
      ghost var q := pool.Model().queues[state];
      HeadOfRing(q, listWalker.Sentinel());
      SearchStarts(pool.Model(), state, last);
      listWalker.Construct();
      ghost var k := 0;
      node := listWalker.Step(-1);
      while node.Some? && pool.count[node.value] < last
        invariant Valid() && 0 <= k <= |q| && node == OnPlace(q, k)
        invariant listWalker.node == RingAt(q, listWalker.Sentinel(), k) && listWalker.back == RingAt(q, listWalker.Sentinel(), k - 1)
        invariant Searching(q, pool.count, last, k - 1)
        decreases |q| - k
      {
        SearchNext(q, pool.count, last, k);
        node := listWalker.Step(k);
        k := k + 1;
      }
      SearchDone(q, pool.count, last, k);
    }
  }
}
