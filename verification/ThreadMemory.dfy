/**
 * sxe-thread-memory as a state machine: threads push trackers on a shared list, and the main thread takes the whole
 * list, frees the trackers of dead threads and puts the others back. Each read of the shared head and each
 * compare-and-swap is a step, and the steps of all threads interleave. Address 0 is NULL; a freed address may be
 * allocated again. A serial number tells allocations apart that share an address.
 */
module ThreadMemory {
  import opened Seqs

  datatype Tracker = Tracker(serial: nat, tid: nat, next: nat)

  /** A thread in `sxe_thread_malloc`: it has a tracker that is not pushed yet, with its `next` still to be set, or set. */
  datatype Pusher = Fresh(tracker: nat) | Linked(tracker: nat)

  /** The main thread in `sxe_thread_memory_free`. */
  datatype Collector =
    | Resting
    | Starting
    | Acquiring(head: nat)
    | Filtering(tracker: nat, keepers: nat, last: nat, unfreed: nat)
    | Joining(keepers: nat, last: nat, unfreed: nat)
    | Attaching(keepers: nat, last: nat, unfreed: nat, head: nat)

  datatype Freed = Freed(tid: nat, all: bool)

  /** `returned` is the result of the last collection. */
  datatype State = State(heap: map<nat, Tracker>, trackers: nat, pushers: map<nat, Pusher>, collector: Collector, all: bool,
                         returned: nat, dead: set<nat>, serials: nat, pushed: set<nat>, freed: map<nat, Freed>)

  const MAIN: nat := 1

  // ---------------------------------------------------------------- the steps

  datatype Event =
    | Allocate(tid: nat, tracker: nat) | ReadHead(tid: nat) | Push(tid: nat) | Die(tid: nat)
    | Start(all: bool) | Acquire | Detach | Examine(missing: bool) | Filtered | ReadHeadAgain | Attach

  /**
   * When a step comes next in its thread. The kernel reports a thread's task file missing only when the thread is dead.
   */
  predicate Enabled(s: State, e: Event) {
    match e
    case Allocate(tid, a) => a != 0 && a !in s.heap && tid !in s.pushers && tid !in s.dead
    case ReadHead(tid) => tid in s.pushers && s.pushers[tid].Fresh? && tid !in s.dead
    case Push(tid) => tid in s.pushers && s.pushers[tid].Linked? && tid !in s.dead
    case Die(tid) => tid != MAIN
    case Start(_) => s.collector.Resting?
    case Acquire => s.collector.Starting?
    case Detach => s.collector.Acquiring?
    case Examine(missing) =>
      && s.collector.Filtering? && s.collector.tracker != 0
      && (missing && s.collector.tracker in s.heap ==> s.heap[s.collector.tracker].tid in s.dead)
    case Filtered => s.collector.Filtering? && s.collector.tracker == 0
    case ReadHeadAgain => s.collector.Joining?
    case Attach => s.collector.Attaching?
  }

  /** The tracker that a step reads, writes or frees has not been freed. */
  predicate UsesAllocated(s: State, e: Event)
    requires Enabled(s, e)
  {
    match e
    case ReadHead(tid) => s.pushers[tid].tracker in s.heap
    case Push(tid) => s.pushers[tid].tracker in s.heap
    case Examine(_) => s.collector.tracker in s.heap
    case ReadHeadAgain => s.collector.last in s.heap
    case _ => true
  }

  predicate Legal(s: State, e: Event) {
    Enabled(s, e) && UsesAllocated(s, e)
  }

  function SetNext(heap: map<nat, Tracker>, a: nat, next: nat): map<nat, Tracker>
    requires a in heap
  {
    heap[a := heap[a].(next := next)]
  }

  function Apply(s: State, e: Event): State
    requires Legal(s, e)
  {
    match e
    case Allocate(tid, a) =>
      s.(heap := s.heap[a := Tracker(s.serials, tid, 0)], pushers := s.pushers[tid := Fresh(a)], serials := s.serials + 1)
    case ReadHead(tid) =>
      var a := s.pushers[tid].tracker;
      s.(heap := SetNext(s.heap, a, s.trackers), pushers := s.pushers[tid := Linked(a)])
    case Push(tid) =>
      var a := s.pushers[tid].tracker;
      if s.trackers == s.heap[a].next
      then s.(trackers := a, pushers := s.pushers - {tid}, pushed := s.pushed + {s.heap[a].serial})
      else s.(pushers := s.pushers[tid := Fresh(a)])
    case Die(tid) => s.(dead := s.dead + {tid})
    case Start(all) => s.(collector := Starting, all := all)
    case Acquire => s.(collector := Acquiring(s.trackers))
    case Detach =>
      if s.trackers == s.collector.head then s.(trackers := 0, collector := Filtering(s.trackers, 0, 0, 0))
      else s.(collector := Starting)
    case Examine(missing) =>
      var c, t := s.collector, s.heap[s.collector.tracker];
      if (if t.tid == MAIN then s.all else missing)
      then s.(collector := c.(tracker := t.next), heap := s.heap - {c.tracker}, freed := s.freed[t.serial := Freed(t.tid, s.all)])
      else s.(collector := Filtering(t.next, c.tracker, if c.last != 0 then c.last else c.tracker, c.unfreed + 1),
              heap := SetNext(s.heap, c.tracker, c.keepers))
    case Filtered =>
      var c := s.collector;
      if c.keepers == 0 then s.(collector := Resting, returned := c.unfreed)
      else s.(collector := Joining(c.keepers, c.last, c.unfreed))
    case ReadHeadAgain =>
      var c := s.collector;
      s.(collector := Attaching(c.keepers, c.last, c.unfreed, s.trackers), heap := SetNext(s.heap, c.last, s.trackers))
    case Attach =>
      var c := s.collector;
      if s.trackers == c.head then s.(trackers := c.keepers, collector := Resting, returned := c.unfreed)
      else s.(collector := Joining(c.keepers, c.last, c.unfreed))
  }

  // ---------------------------------------------------------------- what holds after every step

  /** The lists that the links stand for: the shared one, what is left to examine, and what has been kept. */
  datatype Lists = Lists(shared: seq<nat>, rest: seq<nat>, kept: seq<nat>)

  /** The trackers of `l`, linked one after the other from `head` to `end`. */
  ghost predicate Chained(heap: map<nat, Tracker>, head: nat, l: seq<nat>, end: nat) {
    && head == (if l == [] then end else l[0])
    && (forall i :: 0 <= i < |l| ==> l[i] != 0 && l[i] in heap)
    && (forall i {:trigger heap[l[i]]} :: 0 <= i < |l| ==> heap[l[i]].next == if i + 1 < |l| then l[i + 1] else end)
  }

  ghost predicate CollectorOk(s: State, v: Lists) {
    match s.collector
    case Resting => v.rest == [] && v.kept == []
    case Starting => v.rest == [] && v.kept == []
    case Acquiring(_) => v.rest == [] && v.kept == []
    case Filtering(t, k, last, unfreed) =>
      && Chained(s.heap, t, v.rest, 0) && Chained(s.heap, k, v.kept, 0)
      && last == (if v.kept == [] then 0 else v.kept[|v.kept| - 1]) && unfreed == |v.kept|
    case Joining(k, last, _) => v.rest == [] && v.kept != [] && last == v.kept[|v.kept| - 1] && KeptLinks(s.heap, k, v.kept)
    case Attaching(k, last, _, head) =>
      v.rest == [] && v.kept != [] && last == v.kept[|v.kept| - 1] && Chained(s.heap, k, v.kept, head)
  }

  /** A chain whose last link does not matter. */
  ghost predicate KeptLinks(heap: map<nat, Tracker>, head: nat, l: seq<nat>) {
    l != [] && l[|l| - 1] in heap && Chained(heap, head, l, heap[l[|l| - 1]].next)
  }

  /** All trackers on the lists. */
  function OnLists(v: Lists): seq<nat> {
    v.shared + v.rest + v.kept
  }

  /** Trackers that are not pushed yet are on no list and belong to one thread. */
  ghost predicate PrivateOk(s: State, v: Lists) {
    && (forall t :: t in s.pushers ==> s.pushers[t].tracker != 0 && s.pushers[t].tracker in s.heap && s.pushers[t].tracker !in OnLists(v))
    && (forall t, u :: t in s.pushers && u in s.pushers && s.pushers[t].tracker == s.pushers[u].tracker ==> t == u)
    && (forall t :: t in s.pushers ==> s.heap[s.pushers[t].tracker].serial !in s.pushed)
  }

  ghost predicate SerialsOk(s: State) {
    && 0 !in s.heap
    && (forall a :: a in s.heap ==> s.heap[a].serial < s.serials && s.heap[a].serial !in s.freed)
    && (forall a, b {:trigger s.heap[a].serial, s.heap[b].serial} ::
          a in s.heap && b in s.heap && s.heap[a].serial == s.heap[b].serial ==> a == b)
    && (forall n :: n in s.freed ==> n < s.serials)
    && (forall n :: n in s.pushed ==> n < s.serials)
  }

  /** Every tracker ever pushed is on one of the lists or freed, and nothing else is. */
  ghost predicate AllThere(s: State, v: Lists) {
    && (forall a :: a in OnLists(v) ==> a in s.heap && s.heap[a].serial in s.pushed)
    && (forall n :: n in s.pushed ==> n in s.freed || HasSerial(s.heap, OnLists(v), n))
    && (forall n :: n in s.freed ==> n in s.pushed)
  }

  ghost predicate HasSerial(heap: map<nat, Tracker>, l: seq<nat>, n: nat) {
    exists a :: a in l && a in heap && heap[a].serial == n
  }

  /** Only trackers of dead threads were freed, and under ALL those of the main thread. */
  ghost predicate FreedOk(s: State) {
    forall n :: n in s.freed ==> s.freed[n].tid in s.dead || (s.freed[n].tid == MAIN && s.freed[n].all)
  }

  ghost predicate Ok(s: State, v: Lists) {
    && Chained(s.heap, s.trackers, v.shared, 0) && CollectorOk(s, v) && Distinct(OnLists(v))
    && PrivateOk(s, v) && SerialsOk(s) && AllThere(s, v) && FreedOk(s)
  }

  function Beginning(): State {
    State(map[], 0, map[], Resting, false, 0, {}, 0, {}, map[])
  }

  lemma BeginningOk()
    ensures Ok(Beginning(), Lists([], [], []))
  {
  }

  /** The lists after a step. */
  ghost function ListsAfter(s: State, v: Lists, e: Event): Lists
    requires Legal(s, e)
  {
    match e
    case Push(tid) =>
      var a := s.pushers[tid].tracker;
      if s.trackers == s.heap[a].next then v.(shared := [a] + v.shared) else v
    case Detach => if s.trackers == s.collector.head then Lists([], v.shared, []) else v
    case Examine(missing) =>
      if v.rest == [] then v
      else if (if s.heap[s.collector.tracker].tid == MAIN then s.all else missing) then v.(rest := v.rest[1..])
      else v.(rest := v.rest[1..], kept := [s.collector.tracker] + v.kept)
    case Attach => if s.trackers == s.collector.head then Lists(v.kept + v.shared, [], []) else v
    case _ => v
  }

  lemma ChainedFrame(heap: map<nat, Tracker>, heap': map<nat, Tracker>, head: nat, l: seq<nat>, end: nat)
    requires Chained(heap, head, l, end)
    requires forall a :: a in l ==> a in heap' && a in heap && heap'[a] == heap[a]
    ensures Chained(heap', head, l, end)
  {
    forall i | 0 <= i < |l|
      ensures l[i] in heap' && heap'[l[i]].next == if i + 1 < |l| then l[i + 1] else end
    {
      assert l[i] in l;
    }
  }

  /** Everything that the collector holds, when the trackers it holds are untouched. */
  lemma CollectorFrame(s: State, s': State, v: Lists)
    requires CollectorOk(s, v) && s'.collector == s.collector
    requires forall a :: a in v.rest + v.kept ==> a in s'.heap && a in s.heap && s'.heap[a] == s.heap[a]
    ensures CollectorOk(s', v)
  {
    hide Chained;
    forall a | a in v.rest || a in v.kept
      ensures a in s'.heap && a in s.heap && s'.heap[a] == s.heap[a]
    {
      assert a in v.rest + v.kept;
    }
    match s.collector
    case Resting =>
    case Starting =>
    case Acquiring(_) =>
    case Filtering(t, k, last, unfreed) =>
      ChainedFrame(s.heap, s'.heap, t, v.rest, 0);
      ChainedFrame(s.heap, s'.heap, k, v.kept, 0);
    case Joining(k, last, _) =>
      ChainedFrame(s.heap, s'.heap, k, v.kept, s.heap[last].next);
    case Attaching(k, last, _, head) =>
      ChainedFrame(s.heap, s'.heap, k, v.kept, head);
  }

  /** Changing only trackers that are on no list keeps the lists. */
  lemma ListsFrame(s: State, s': State, v: Lists)
    requires Ok(s, v) && s'.collector == s.collector && s'.trackers == s.trackers
    requires forall a :: a in OnLists(v) ==> a in s'.heap && a in s.heap && s'.heap[a] == s.heap[a]
    ensures Chained(s'.heap, s'.trackers, v.shared, 0) && CollectorOk(s', v)
  {
    hide CollectorOk, Chained, PrivateOk, SerialsOk, AllThere, FreedOk, Distinct;
    ChainedFrame(s.heap, s'.heap, s.trackers, v.shared, 0);
    CollectorFrame(s, s', v);
  }

  // ---------------------------------------------------------------- the steps of the pushing threads

  lemma AllocateOk(s: State, v: Lists, e: Event)
    requires Ok(s, v) && e.Allocate? && Legal(s, e)
    ensures Ok(Apply(s, e), v)
  {
    AllocatedElsewhere(s, v, e.tracker);
    ListsFrame(s, Apply(s, e), v);
    KeepsSerials(s, Apply(s, e), v);
    AllocatePrivate(s, v, e);
    AllocateSerials(s, e);
    hide CollectorOk, Chained, Distinct, OnLists, PrivateOk, SerialsOk, AllThere;
  }

  lemma AllocatedElsewhere(s: State, v: Lists, a: nat)
    requires AllThere(s, v) && a !in s.heap
    ensures a !in OnLists(v)
  {
    hide OnLists;
  }

  lemma AllocatePrivate(s: State, v: Lists, e: Event)
    requires PrivateOk(s, v) && SerialsOk(s) && AllThere(s, v) && e.Allocate? && Legal(s, e)
    ensures PrivateOk(Apply(s, e), v)
  {
    hide OnLists, HasSerial;
    AllocatedElsewhere(s, v, e.tracker);
  }

  lemma AllocateSerials(s: State, e: Event)
    requires SerialsOk(s) && e.Allocate? && Legal(s, e)
    ensures SerialsOk(Apply(s, e))
  {
  }

  lemma KeepsSerials(s: State, s': State, v: Lists)
    requires AllThere(s, v) && s'.pushed == s.pushed && s'.freed == s.freed
    requires forall a :: a in OnLists(v) ==> a in s'.heap && a in s.heap && s'.heap[a].serial == s.heap[a].serial
    ensures AllThere(s', v)
  {
    hide OnLists;
    forall n | n in s.pushed && n !in s.freed
      ensures HasSerial(s'.heap, OnLists(v), n)
    {
      var a :| a in OnLists(v) && a in s.heap && s.heap[a].serial == n;
      assert s'.heap[a].serial == n;
    }
    hide HasSerial;
  }

  lemma ReadHeadOk(s: State, v: Lists, e: Event)
    requires Ok(s, v) && e.ReadHead? && Legal(s, e)
    ensures Ok(Apply(s, e), v)
  {
    NotListed(s, v, e.tid);
    ListsFrame(s, Apply(s, e), v);
    KeepsSerials(s, Apply(s, e), v);
    ReadHeadPrivate(s, v, e);
    ReadHeadSerials(s, e);
    hide CollectorOk, Chained, Distinct, OnLists, PrivateOk, SerialsOk, AllThere;
  }

  lemma NotListed(s: State, v: Lists, tid: nat)
    requires PrivateOk(s, v) && AllThere(s, v) && tid in s.pushers
    ensures s.pushers[tid].tracker !in OnLists(v) && forall a :: a in OnLists(v) ==> a in s.heap
  {
    hide OnLists, HasSerial;
  }

  lemma ReadHeadPrivate(s: State, v: Lists, e: Event)
    requires PrivateOk(s, v) && e.ReadHead? && Legal(s, e)
    ensures PrivateOk(Apply(s, e), v)
  {
    hide OnLists;
  }

  lemma ReadHeadSerials(s: State, e: Event)
    requires SerialsOk(s) && e.ReadHead? && Legal(s, e)
    ensures SerialsOk(Apply(s, e))
  {
  }

  lemma PushOk(s: State, v: Lists, e: Event)
    requires Ok(s, v) && e.Push? && Legal(s, e)
    ensures Ok(Apply(s, e), ListsAfter(s, v, e))
  {
    NotListed(s, v, e.tid);
    PushPrivate(s, v, e);
    PushSerials(s, e);
    PushAllThere(s, v, e);
    PushLists(s, v, e);
    hide CollectorOk, Chained, Distinct, OnLists, PrivateOk, SerialsOk, AllThere;
  }

  lemma PushedLists(s: State, v: Lists, a: nat)
    ensures OnLists(v.(shared := [a] + v.shared)) == [a] + OnLists(v)
  {
  }

  lemma PushLists(s: State, v: Lists, e: Event)
    requires Chained(s.heap, s.trackers, v.shared, 0) && CollectorOk(s, v) && Distinct(OnLists(v))
    requires PrivateOk(s, v) && e.Push? && Legal(s, e)
    ensures var s', v' := Apply(s, e), ListsAfter(s, v, e);
      Chained(s'.heap, s'.trackers, v'.shared, 0) && CollectorOk(s', v') && Distinct(OnLists(v'))
  {
    PushedLists(s, v, s.pushers[e.tid].tracker);
    PushCollector(s, v, e);
    hide CollectorOk, OnLists;
  }

  lemma PushCollector(s: State, v: Lists, e: Event)
    requires CollectorOk(s, v) && e.Push? && Legal(s, e)
    ensures CollectorOk(Apply(s, e), ListsAfter(s, v, e))
  {
    hide Chained;
  }

  lemma PushPrivate(s: State, v: Lists, e: Event)
    requires PrivateOk(s, v) && SerialsOk(s) && e.Push? && Legal(s, e)
    ensures PrivateOk(Apply(s, e), ListsAfter(s, v, e))
  {
    PushedLists(s, v, s.pushers[e.tid].tracker);
    hide OnLists;
    var s' := Apply(s, e);
    if s.trackers == s.heap[s.pushers[e.tid].tracker].next {
      forall t | t in s'.pushers
        ensures s'.heap[s'.pushers[t].tracker].serial !in s'.pushed
      {
        assert t in s.pushers && t != e.tid;
      }
    }
  }

  lemma PushSerials(s: State, e: Event)
    requires SerialsOk(s) && e.Push? && Legal(s, e)
    ensures SerialsOk(Apply(s, e))
  {
  }

  lemma PushAllThere(s: State, v: Lists, e: Event)
    requires AllThere(s, v) && e.Push? && Legal(s, e)
    ensures AllThere(Apply(s, e), ListsAfter(s, v, e))
  {
    var s', v', a := Apply(s, e), ListsAfter(s, v, e), s.pushers[e.tid].tracker;
    PushedLists(s, v, a);
    hide OnLists;
    if s.trackers == s.heap[a].next {
      forall n | n in s'.pushed && n !in s'.freed
        ensures HasSerial(s'.heap, OnLists(v'), n)
      {
        var b: nat;
        if n in s.pushed {
          b :| b in OnLists(v) && b in s.heap && s.heap[b].serial == n;
        } else {
          b := a;
        }
        assert b in OnLists(v') && s'.heap[b].serial == n;
      }
      hide HasSerial;
    }
  }

  lemma DieOk(s: State, v: Lists, e: Event)
    requires Ok(s, v) && e.Die? && Legal(s, e)
    ensures Ok(Apply(s, e), v)
  {
    hide Chained, Distinct, OnLists, HasSerial, KeptLinks;
  }

  // ---------------------------------------------------------------- the steps of the collector

  /** Steps of the collector that touch no tracker. */
  lemma PlainStepOk(s: State, v: Lists, s': State, v': Lists)
    requires Ok(s, v) && Chained(s'.heap, s'.trackers, v'.shared, 0) && CollectorOk(s', v')
    requires multiset(OnLists(v')) == multiset(OnLists(v))
    requires s'.heap == s.heap && s'.pushers == s.pushers && s'.dead == s.dead
    requires s'.serials == s.serials && s'.pushed == s.pushed && s'.freed == s.freed
    ensures Ok(s', v')
  {
    hide CollectorOk, Chained, Distinct, OnLists, AllThere, PrivateOk, SerialsOk, FreedOk;
    Reordered(OnLists(v), OnLists(v'));
    SameThere(s, v, s', v');
    SamePrivate(s, v, s', v');
    SameParts(s, s', v);
  }

  lemma SamePrivate(s: State, v: Lists, s': State, v': Lists)
    requires PrivateOk(s, v) && s'.heap == s.heap && s'.pushers == s.pushers && s'.pushed == s.pushed
    requires forall a :: a in OnLists(v') <==> a in OnLists(v)
    ensures PrivateOk(s', v')
  {
    hide OnLists;
  }

  lemma SameThere(s: State, v: Lists, s': State, v': Lists)
    requires AllThere(s, v) && s'.heap == s.heap && s'.pushed == s.pushed && s'.freed == s.freed
    requires forall a :: a in OnLists(v') <==> a in OnLists(v)
    ensures AllThere(s', v')
  {
    hide OnLists;
  }

  lemma BeginOk(s: State, v: Lists, e: Event)
    requires Ok(s, v) && (e.Start? || e.Acquire?) && Legal(s, e)
    ensures Ok(Apply(s, e), v)
  {
    assert CollectorOk(Apply(s, e), v);
    hide CollectorOk, Chained, Distinct, OnLists, PrivateOk, SerialsOk, AllThere, FreedOk;
    assert PrivateOk(Apply(s, e), v) && SerialsOk(Apply(s, e)) && AllThere(Apply(s, e), v) && FreedOk(Apply(s, e)) by {
      SameParts(s, Apply(s, e), v);
    }
  }

  lemma SameParts(s: State, s': State, v: Lists)
    requires PrivateOk(s, v) && SerialsOk(s) && AllThere(s, v) && FreedOk(s)
    requires s'.heap == s.heap && s'.pushers == s.pushers && s'.dead == s.dead
    requires s'.serials == s.serials && s'.pushed == s.pushed && s'.freed == s.freed
    ensures PrivateOk(s', v) && SerialsOk(s') && AllThere(s', v) && FreedOk(s')
  {
    hide OnLists, HasSerial;
  }

  lemma DetachOk(s: State, v: Lists, e: Event)
    requires Ok(s, v) && e.Detach? && Legal(s, e)
    ensures Ok(Apply(s, e), ListsAfter(s, v, e))
  {
    hide Ok, CollectorOk, Chained, OnLists, ListsAfter;
    OkLists(s, v);
    DetachLists(s, v, e);
    PlainStepOk(s, v, Apply(s, e), ListsAfter(s, v, e));
  }

  lemma OkLists(s: State, v: Lists)
    requires Ok(s, v)
    ensures Chained(s.heap, s.trackers, v.shared, 0) && CollectorOk(s, v)
  {
    hide CollectorOk, Chained, PrivateOk, SerialsOk, AllThere, FreedOk, Distinct;
  }

  lemma DetachLists(s: State, v: Lists, e: Event)
    requires Chained(s.heap, s.trackers, v.shared, 0) && CollectorOk(s, v) && e.Detach? && Legal(s, e)
    ensures var s', v' := Apply(s, e), ListsAfter(s, v, e);
      Chained(s'.heap, s'.trackers, v'.shared, 0) && CollectorOk(s', v') && multiset(OnLists(v')) == multiset(OnLists(v))
  {
    assert v.shared + [] + [] == [] + v.shared + [];
  }

  lemma FilteredOk(s: State, v: Lists, e: Event)
    requires Ok(s, v) && e.Filtered? && Legal(s, e)
    ensures Ok(Apply(s, e), v)
  {
    hide CollectorOk, Chained, PrivateOk, SerialsOk, AllThere, FreedOk, Distinct, OnLists;
    FilteredLists(s, v, e);
    SameParts(s, Apply(s, e), v);
  }

  lemma FilteredLists(s: State, v: Lists, e: Event)
    requires CollectorOk(s, v) && e.Filtered? && Legal(s, e)
    ensures CollectorOk(Apply(s, e), v)
  {
  }

  lemma AttachOk(s: State, v: Lists, e: Event)
    requires Ok(s, v) && e.Attach? && Legal(s, e)
    ensures Ok(Apply(s, e), ListsAfter(s, v, e))
  {
    hide Ok, CollectorOk, Chained, OnLists, ListsAfter;
    OkLists(s, v);
    AttachLists(s, v, e);
    AttachSame(s, v, e);
    PlainStepOk(s, v, Apply(s, e), ListsAfter(s, v, e));
  }

  lemma AttachSame(s: State, v: Lists, e: Event)
    requires CollectorOk(s, v) && e.Attach? && Legal(s, e)
    ensures multiset(OnLists(ListsAfter(s, v, e))) == multiset(OnLists(v))
  {
    hide Chained, OnLists;
    KeptInFront(v);
    var v' := ListsAfter(s, v, e);
    assert v' == v || (v.rest == [] && v' == Lists(v.kept + v.shared, [], []));
  }

  lemma KeptInFront(v: Lists)
    ensures v.rest == [] ==> multiset(OnLists(Lists(v.kept + v.shared, [], []))) == multiset(OnLists(v))
  {
    assert v.kept + v.shared + [] + [] == v.kept + v.shared;
    assert v.shared + [] + v.kept == v.shared + v.kept;
  }

  lemma AttachLists(s: State, v: Lists, e: Event)
    requires Chained(s.heap, s.trackers, v.shared, 0) && CollectorOk(s, v) && e.Attach? && Legal(s, e)
    ensures var s', v' := Apply(s, e), ListsAfter(s, v, e);
      Chained(s'.heap, s'.trackers, v'.shared, 0) && CollectorOk(s', v')
  {
    if s.trackers == s.collector.head {
      var l := v.kept + v.shared;
      forall i | 0 <= i < |l|
        ensures l[i] != 0 && l[i] in s.heap && s.heap[l[i]].next == if i + 1 < |l| then l[i + 1] else 0
      {
        if i < |v.kept| {
          assert l[i] == v.kept[i];
        } else {
          assert l[i] == v.shared[i - |v.kept|];
        }
      }
    }
  }

  lemma ReadHeadAgainOk(s: State, v: Lists, e: Event)
    requires Ok(s, v) && e.ReadHeadAgain? && Legal(s, e)
    ensures Ok(Apply(s, e), v)
  {
    var s' := Apply(s, e);
    LastIsListed(s, v);
    ReadHeadAgainLists(s, v, e);
    ListedPrivate(s, v, s.collector.last, s.trackers);
    ListedSerials(s, s.collector.last, s.trackers);
    hide CollectorOk, Chained, PrivateOk, SerialsOk, Distinct, OnLists, AllThere;
    KeepsSerials(s, s', v);
  }

  lemma LastIsListed(s: State, v: Lists)
    requires CollectorOk(s, v) && AllThere(s, v) && s.collector.Joining?
    ensures s.collector.last in OnLists(v) && forall a :: a in OnLists(v) ==> a in s.heap
  {
    hide KeptLinks, HasSerial;
    assert v.kept[|v.kept| - 1] in v.kept;
  }

  lemma ReadHeadAgainLists(s: State, v: Lists, e: Event)
    requires Chained(s.heap, s.trackers, v.shared, 0) && CollectorOk(s, v) && Distinct(OnLists(v))
    requires e.ReadHeadAgain? && Legal(s, e)
    ensures Chained(Apply(s, e).heap, Apply(s, e).trackers, v.shared, 0) && CollectorOk(Apply(s, e), v)
  {
    var s', last := Apply(s, e), s.collector.last;
    Parts(v);
    forall a | a in v.shared
      ensures a != last
    {
      assert v.kept[|v.kept| - 1] in v.kept;
    }
    ChainedFrame(s.heap, s'.heap, s.trackers, v.shared, 0);
    NewEnd(s.heap, s.collector.keepers, v.kept, s.heap[last].next, s.trackers);
    hide Chained;
  }

  /** The lists have no tracker in common, and none twice. */
  lemma Parts(v: Lists)
    requires Distinct(OnLists(v))
    ensures Distinct(v.shared) && Distinct(v.rest) && Distinct(v.kept)
    ensures forall a :: a in v.shared ==> a !in v.rest && a !in v.kept
    ensures forall a :: a in v.rest ==> a !in v.kept
  {
    var l, m, n := OnLists(v), |v.shared|, |v.shared| + |v.rest|;
    assert forall i :: 0 <= i < |v.shared| ==> l[i] == v.shared[i];
    assert forall i :: 0 <= i < |v.rest| ==> l[m + i] == v.rest[i];
    assert forall i :: 0 <= i < |v.kept| ==> l[n + i] == v.kept[i];
  }

  /** The last tracker of a chain linked to another end. */
  lemma NewEnd(heap: map<nat, Tracker>, head: nat, l: seq<nat>, end: nat, end': nat)
    requires l != [] && Distinct(l) && Chained(heap, head, l, end)
    ensures l[|l| - 1] in heap && Chained(SetNext(heap, l[|l| - 1], end'), head, l, end')
  {
    var heap' := SetNext(heap, l[|l| - 1], end');
    forall i | 0 <= i < |l|
      ensures l[i] in heap' && heap'[l[i]].next == if i + 1 < |l| then l[i + 1] else end'
    {
      assert i < |l| - 1 ==> l[i] != l[|l| - 1];
    }
  }

  /** Setting the link of a tracker on a list leaves the pushing threads alone. */
  lemma ListedPrivate(s: State, v: Lists, a: nat, next: nat)
    requires PrivateOk(s, v) && a in OnLists(v) && a in s.heap
    ensures forall c :: PrivateOk(s.(heap := SetNext(s.heap, a, next), collector := c), v)
  {
    hide OnLists;
    forall c
      ensures PrivateOk(s.(heap := SetNext(s.heap, a, next), collector := c), v)
    {
    }
  }

  lemma ListedSerials(s: State, a: nat, next: nat)
    requires SerialsOk(s) && a in s.heap
    ensures forall c :: SerialsOk(s.(heap := SetNext(s.heap, a, next), collector := c))
  {
    forall c
      ensures SerialsOk(s.(heap := SetNext(s.heap, a, next), collector := c))
    {
      hide FreedOk;
    }
  }

  lemma ChainTail(heap: map<nat, Tracker>, head: nat, l: seq<nat>, end: nat)
    requires Chained(heap, head, l, end) && head != end && end == 0
    ensures l != [] && l[0] == head && head in heap && Chained(heap, heap[head].next, l[1..], end)
  {
    var t := l[1..];
    forall i | 0 <= i < |t|
      ensures t[i] != 0 && t[i] in heap && heap[t[i]].next == if i + 1 < |t| then t[i + 1] else end
    {
      assert t[i] == l[i + 1];
    }
  }

  /** The tracker examined is the first of what is left. */
  lemma Examined(s: State, v: Lists, missing: bool)
    requires CollectorOk(s, v) && Legal(s, Examine(missing)) && AllThere(s, v)
    ensures v.rest != [] && v.rest[0] == s.collector.tracker && s.collector.tracker in OnLists(v)
    ensures Chained(s.heap, s.heap[s.collector.tracker].next, v.rest[1..], 0) && Chained(s.heap, s.collector.keepers, v.kept, 0)
    ensures s.heap[s.collector.tracker].serial in s.pushed
  {
    hide HasSerial;
    ChainTail(s.heap, s.collector.tracker, v.rest, 0);
    hide Chained;
    assert v.rest[0] in v.rest;
  }

  /** The lists without the first of what is left. */
  lemma TakeFirst(v: Lists)
    requires v.rest != [] && Distinct(OnLists(v))
    ensures var v' := v.(rest := v.rest[1..]);
      && Distinct(OnLists(v')) && v.rest[0] !in OnLists(v')
      && (forall a :: a in OnLists(v) <==> a == v.rest[0] || a in OnLists(v'))
  {
    var v' := v.(rest := v.rest[1..]);
    var l, k := OnLists(v), |v.shared|;
    assert l[k] == v.rest[0];
    assert Remove(l, k) == OnLists(v');
    RemoveAt(l, k);
  }

  predicate Reaps(s: State, missing: bool)
    requires Legal(s, Examine(missing))
  {
    if s.heap[s.collector.tracker].tid == MAIN then s.all else missing
  }

  lemma ReapOk(s: State, v: Lists, missing: bool)
    requires Ok(s, v) && Legal(s, Examine(missing)) && Reaps(s, missing)
    ensures Ok(Apply(s, Examine(missing)), ListsAfter(s, v, Examine(missing)))
  {
    hide CollectorOk, Chained, OnLists, PrivateOk, SerialsOk, AllThere, Distinct, Apply, ListsAfter, Reaps;
    Examined(s, v, missing);
    ReapIs(s, v, missing);
    TakeFirst(v);
    ReapLists(s, v, missing);
    ReapPrivate(s, v, missing);
    ReapSerials(s, missing);
    ReapAllThere(s, v, missing);
    ReapFreed(s, missing);
  }

  lemma ReapIs(s: State, v: Lists, missing: bool)
    requires Legal(s, Examine(missing)) && Reaps(s, missing) && v.rest != []
    ensures var s', t := Apply(s, Examine(missing)), s.heap[s.collector.tracker];
      && s'.heap == s.heap - {s.collector.tracker} && s'.collector == s.collector.(tracker := t.next)
      && s'.freed == s.freed[t.serial := Freed(t.tid, s.all)] && s'.trackers == s.trackers && s'.pushers == s.pushers
      && s'.pushed == s.pushed && s'.dead == s.dead && s'.serials == s.serials && s'.all == s.all
    ensures ListsAfter(s, v, Examine(missing)) == v.(rest := v.rest[1..])
  {
  }

  lemma ReapLists(s: State, v: Lists, missing: bool)
    requires Chained(s.heap, s.trackers, v.shared, 0) && CollectorOk(s, v) && Distinct(OnLists(v)) && AllThere(s, v)
    requires Legal(s, Examine(missing)) && Reaps(s, missing)
    ensures var s', v' := Apply(s, Examine(missing)), ListsAfter(s, v, Examine(missing));
      Chained(s'.heap, s'.trackers, v'.shared, 0) && CollectorOk(s', v')
  {
    Examined(s, v, missing);
    ReapIs(s, v, missing);
    TakeFirst(v);
    var s', rest := Apply(s, Examine(missing)), v.rest[1..];
    hide Apply, Chained, Distinct, Reaps, ListsAfter;
    forall a | a in v.shared + rest + v.kept
      ensures a in s'.heap && a in s.heap && s'.heap[a] == s.heap[a]
    {
      assert a in OnLists(v.(rest := rest));
    }
    ChainedFrame(s.heap, s'.heap, s.trackers, v.shared, 0);
    ChainedFrame(s.heap, s'.heap, s.heap[s.collector.tracker].next, rest, 0);
    ChainedFrame(s.heap, s'.heap, s.collector.keepers, v.kept, 0);
  }

  lemma ReapPrivate(s: State, v: Lists, missing: bool)
    requires PrivateOk(s, v) && CollectorOk(s, v) && AllThere(s, v) && Distinct(OnLists(v))
    requires Legal(s, Examine(missing)) && Reaps(s, missing)
    ensures PrivateOk(Apply(s, Examine(missing)), ListsAfter(s, v, Examine(missing)))
  {
    Examined(s, v, missing);
    ReapIs(s, v, missing);
    TakeFirst(v);
    hide CollectorOk, Chained, OnLists, AllThere, Distinct, Apply, ListsAfter, Reaps;
  }

  lemma ReapSerials(s: State, missing: bool)
    requires SerialsOk(s) && Legal(s, Examine(missing)) && Reaps(s, missing)
    ensures SerialsOk(Apply(s, Examine(missing)))
  {
  }

  lemma ReapFreed(s: State, missing: bool)
    requires FreedOk(s) && Legal(s, Examine(missing)) && Reaps(s, missing)
    ensures FreedOk(Apply(s, Examine(missing)))
  {
  }

  lemma ReapAllThere(s: State, v: Lists, missing: bool)
    requires AllThere(s, v) && CollectorOk(s, v) && Distinct(OnLists(v))
    requires Legal(s, Examine(missing)) && Reaps(s, missing)
    ensures AllThere(Apply(s, Examine(missing)), ListsAfter(s, v, Examine(missing)))
  {
    hide CollectorOk, Chained, OnLists, Distinct, Reaps, HasSerial, Apply, ListsAfter, AllThere;
    Examined(s, v, missing);
    ReapIs(s, v, missing);
    TakeFirst(v);
    var t := s.collector.tracker;
    ThereWithout(s, v, Apply(s, Examine(missing)), ListsAfter(s, v, Examine(missing)), t);
  }

  lemma ThereWithout(s: State, v: Lists, s': State, v': Lists, a: nat)
    requires AllThere(s, v) && a in s.heap && s.heap[a].serial in s.pushed
    requires s'.heap == s.heap - {a} && s'.pushed == s.pushed && s'.freed.Keys == s.freed.Keys + {s.heap[a].serial}
    requires a !in OnLists(v') && forall b :: b in OnLists(v) <==> b == a || b in OnLists(v')
    ensures AllThere(s', v')
  {
    hide OnLists, HasSerial;
    forall n | n in s'.pushed && n !in s'.freed
      ensures HasSerial(s'.heap, OnLists(v'), n)
    {
      assert n !in s.freed.Keys && n != s.heap[a].serial;
      StillHas(s.heap, OnLists(v), a, OnLists(v'), n);
    }
  }

  lemma StillHas(heap: map<nat, Tracker>, l: seq<nat>, a: nat, l': seq<nat>, n: nat)
    requires HasSerial(heap, l, n) && a in heap && heap[a].serial != n && forall b :: b in l ==> b == a || b in l'
    ensures HasSerial(heap - {a}, l', n)
  {
    var b :| b in l && b in heap && heap[b].serial == n;
    assert b in l' && (heap - {a})[b].serial == n;
  }

  lemma KeepOk(s: State, v: Lists, missing: bool)
    requires Ok(s, v) && Legal(s, Examine(missing)) && !Reaps(s, missing)
    ensures Ok(Apply(s, Examine(missing)), ListsAfter(s, v, Examine(missing)))
  {
    hide CollectorOk, Chained, OnLists, PrivateOk, SerialsOk, AllThere, Distinct, Apply, ListsAfter, Reaps, FreedOk;
    Examined(s, v, missing);
    KeepIs(s, v, missing);
    KeepSame(v);
    Reordered(OnLists(v), OnLists(ListsAfter(s, v, Examine(missing))));
    KeepLists(s, v, missing);
    KeepParts(s, v, Apply(s, Examine(missing)), ListsAfter(s, v, Examine(missing)));
  }

  lemma KeepIs(s: State, v: Lists, missing: bool)
    requires Legal(s, Examine(missing)) && !Reaps(s, missing) && v.rest != []
    ensures var s', c := Apply(s, Examine(missing)), s.collector;
      && s'.heap == SetNext(s.heap, c.tracker, c.keepers)
      && s'.collector == Filtering(s.heap[c.tracker].next, c.tracker, if c.last != 0 then c.last else c.tracker, c.unfreed + 1)
      && s'.freed == s.freed && s'.trackers == s.trackers && s'.pushers == s.pushers
      && s'.pushed == s.pushed && s'.dead == s.dead && s'.serials == s.serials && s'.all == s.all
    ensures ListsAfter(s, v, Examine(missing)) == v.(rest := v.rest[1..], kept := [s.collector.tracker] + v.kept)
  {
  }

  lemma KeepSame(v: Lists)
    requires v.rest != []
    ensures multiset(OnLists(v.(rest := v.rest[1..], kept := [v.rest[0]] + v.kept))) == multiset(OnLists(v))
  {
    assert v.rest == [v.rest[0]] + v.rest[1..];
    assert multiset(v.rest) == multiset([v.rest[0]]) + multiset(v.rest[1..]);
  }

  lemma KeepLists(s: State, v: Lists, missing: bool)
    requires Chained(s.heap, s.trackers, v.shared, 0) && CollectorOk(s, v) && Distinct(OnLists(v)) && AllThere(s, v)
    requires Legal(s, Examine(missing)) && !Reaps(s, missing)
    ensures var s', v' := Apply(s, Examine(missing)), ListsAfter(s, v, Examine(missing));
      Chained(s'.heap, s'.trackers, v'.shared, 0) && CollectorOk(s', v')
  {
    Examined(s, v, missing);
    KeepIs(s, v, missing);
    TakeFirst(v);
    var s', rest, t := Apply(s, Examine(missing)), v.rest[1..], s.collector.tracker;
    hide Apply, Chained, Distinct, Reaps, ListsAfter;
    forall a | a in v.shared + rest + v.kept
      ensures a in s'.heap && a in s.heap && s'.heap[a] == s.heap[a]
    {
      assert a in OnLists(v.(rest := rest));
    }
    ChainedFrame(s.heap, s'.heap, s.trackers, v.shared, 0);
    ChainedFrame(s.heap, s'.heap, s.heap[t].next, rest, 0);
    ChainedFrame(s.heap, s'.heap, s.collector.keepers, v.kept, 0);
    ChainPush(s'.heap, t, s.collector.keepers, v.kept);
    LastKept(s.heap, s.collector.keepers, v.kept, t);
  }

  lemma ChainPush(heap: map<nat, Tracker>, a: nat, head: nat, l: seq<nat>)
    requires Chained(heap, head, l, 0) && a in heap && a != 0 && heap[a].next == head
    ensures Chained(heap, a, [a] + l, 0)
  {
    var r := [a] + l;
    forall i | 0 <= i < |r|
      ensures r[i] != 0 && r[i] in heap && heap[r[i]].next == if i + 1 < |r| then r[i + 1] else 0
    {
      assert i > 0 ==> r[i] == l[i - 1];
    }
  }

  lemma LastKept(heap: map<nat, Tracker>, head: nat, l: seq<nat>, a: nat)
    requires Chained(heap, head, l, 0)
    ensures ([a] + l)[|l|] == if l == [] then a else l[|l| - 1]
    ensures l != [] ==> l[|l| - 1] != 0
  {
  }

  /** Keeping a tracker only sets its link. */
  lemma KeepParts(s: State, v: Lists, s': State, v': Lists)
    requires PrivateOk(s, v) && SerialsOk(s) && AllThere(s, v) && FreedOk(s) && s.collector.Filtering? && s.collector.tracker in s.heap
    requires s'.heap == SetNext(s.heap, s.collector.tracker, s.collector.keepers)
    requires s'.pushers == s.pushers && s'.dead == s.dead && s'.serials == s.serials && s'.pushed == s.pushed && s'.freed == s.freed
    requires forall a :: a in OnLists(v) <==> a in OnLists(v')
    ensures PrivateOk(s', v') && SerialsOk(s') && AllThere(s', v') && FreedOk(s')
  {
    KeepsSerials(s, s', v);
    hide OnLists, HasSerial;
    SameThere(s', v, s', v');
    KeepPrivate(s, v, s', v');
    hide AllThere;
  }

  lemma KeepPrivate(s: State, v: Lists, s': State, v': Lists)
    requires PrivateOk(s, v) && s.collector.Filtering? && s.collector.tracker in s.heap
    requires s'.heap == SetNext(s.heap, s.collector.tracker, s.collector.keepers) && s'.pushers == s.pushers && s'.pushed == s.pushed
    requires forall a :: a in OnLists(v) <==> a in OnLists(v')
    ensures PrivateOk(s', v')
  {
    hide OnLists;
  }

  // ---------------------------------------------------------------- every run

  /** Every step of any thread keeps the lists acyclic and every pushed tracker on one of them or freed. */
  lemma StepOk(s: State, v: Lists, e: Event)
    requires Ok(s, v) && Legal(s, e)
    ensures Ok(Apply(s, e), ListsAfter(s, v, e))
  {
    hide Ok, Apply, Legal;
    match e
    case Allocate(_, _) => AllocateOk(s, v, e);
    case ReadHead(_) => ReadHeadOk(s, v, e);
    case Push(_) => PushOk(s, v, e);
    case Die(_) => DieOk(s, v, e);
    case Start(_) => BeginOk(s, v, e);
    case Acquire => BeginOk(s, v, e);
    case Detach => DetachOk(s, v, e);
    case Examine(missing) =>
      if Reaps(s, missing) {
        ReapOk(s, v, missing);
      } else {
        KeepOk(s, v, missing);
      }
    case Filtered => FilteredOk(s, v, e);
    case ReadHeadAgain => ReadHeadAgainOk(s, v, e);
    case Attach => AttachOk(s, v, e);
  }

  ghost predicate AllLegal(s: State, events: seq<Event>)
    decreases |events|
  {
    events == [] || (Legal(s, events[0]) && AllLegal(Apply(s, events[0]), events[1..]))
  }

  ghost function Run(s: State, events: seq<Event>): State
    requires AllLegal(s, events)
    decreases |events|
  {
    if events == [] then s else Run(Apply(s, events[0]), events[1..])
  }

  ghost function ListsRun(s: State, v: Lists, events: seq<Event>): Lists
    requires AllLegal(s, events)
    decreases |events|
  {
    if events == [] then v else ListsRun(Apply(s, events[0]), ListsAfter(s, v, events[0]), events[1..])
  }

  lemma {:induction false} RunKeeps(s: State, v: Lists, events: seq<Event>)
    requires Ok(s, v) && AllLegal(s, events)
    ensures Ok(Run(s, events), ListsRun(s, v, events))
    decreases |events|
  {
    hide Ok, Apply, Legal, ListsAfter;
    if events != [] {
      StepOk(s, v, events[0]);
      RunKeeps(Apply(s, events[0]), ListsAfter(s, v, events[0]), events[1..]);
    }
  }

  /** No step that comes next in its thread reads, writes or frees a tracker that has been freed. */
  lemma NextIsAllocated(s: State, v: Lists, e: Event)
    requires Ok(s, v) && Enabled(s, e)
    ensures UsesAllocated(s, e)
  {
    hide SerialsOk, AllThere, FreedOk, Distinct, OnLists;
    if e.Examine? {
      FirstIsAllocated(s.heap, s.collector.tracker, v.rest);
    } else if e.ReadHeadAgain? {
      assert KeptLinks(s.heap, s.collector.keepers, v.kept);
    }
    hide Chained;
  }

  lemma FirstIsAllocated(heap: map<nat, Tracker>, head: nat, l: seq<nat>)
    requires Chained(heap, head, l, 0) && head != 0
    ensures head in heap
  {
  }

  /** Each step of a run comes next in its thread, up to one that uses a freed tracker. */
  ghost predicate AllEnabled(s: State, events: seq<Event>)
    decreases |events|
  {
    events == [] || (Enabled(s, events[0]) && (Legal(s, events[0]) ==> AllEnabled(Apply(s, events[0]), events[1..])))
  }

  /** No run ever uses a freed tracker, whatever the order of its steps. */
  lemma {:induction false} NothingFreedIsUsed(s: State, v: Lists, events: seq<Event>)
    requires Ok(s, v) && AllEnabled(s, events)
    ensures AllLegal(s, events)
    decreases |events|
  {
    hide Ok, Apply, Enabled, UsesAllocated, ListsAfter;
    if events != [] {
      NextIsAllocated(s, v, events[0]);
      StepOk(s, v, events[0]);
      NothingFreedIsUsed(Apply(s, events[0]), ListsAfter(s, v, events[0]), events[1..]);
    }
  }

  lemma RunsAreLegal(events: seq<Event>)
    requires AllEnabled(Beginning(), events)
    ensures AllLegal(Beginning(), events)
    ensures Ok(Run(Beginning(), events), ListsRun(Beginning(), Lists([], [], []), events))
  {
    BeginningOk();
    hide Ok, Beginning, AllEnabled, AllLegal, Run, ListsRun;
    NothingFreedIsUsed(Beginning(), Lists([], [], []), events);
    RunKeeps(Beginning(), Lists([], [], []), events);
  }

  /** After any run, each tracker that was pushed is on exactly one place of exactly one list, or freed, and not both. */
  lemma PushedIsOnceSomewhere(events: seq<Event>, n: nat)
    requires AllEnabled(Beginning(), events)
    ensures AllLegal(Beginning(), events)
    ensures n in Run(Beginning(), events).pushed ==>
      OnceSomewhere(Run(Beginning(), events), OnLists(ListsRun(Beginning(), Lists([], [], []), events)), n)
  {
    hide Chained, CollectorOk, PrivateOk, FreedOk, OnLists, Run, ListsRun, AllLegal, AllEnabled, Beginning;
    RunsAreLegal(events);
  }

  /** The trackers `l` on the lists are distinct and allocated, and tracker `n` is one of them just when it was not freed. */
  ghost predicate OnceSomewhere(s: State, l: seq<nat>, n: nat) {
    && Distinct(l) && (forall a :: a in l ==> a in s.heap)
    && (n in s.freed <==> !exists a :: a in l && a in s.heap && s.heap[a].serial == n)
    && (forall a, b :: a in l && b in l && a in s.heap && b in s.heap && s.heap[a].serial == n && s.heap[b].serial == n ==> a == b)
  }

  /** After any run, only trackers of dead threads have been freed, or the main thread's own under ALL. */
  lemma OnlyTheDeadAreFreed(events: seq<Event>, n: nat)
    requires AllEnabled(Beginning(), events)
    ensures AllLegal(Beginning(), events)
    ensures var s := Run(Beginning(), events);
      n in s.freed ==> s.freed[n].tid in s.dead || (s.freed[n].tid == MAIN && s.freed[n].all)
  {
    hide Chained, CollectorOk, PrivateOk, SerialsOk, AllThere, OnLists, Run, ListsRun, AllLegal, AllEnabled, Beginning, Distinct;
    RunsAreLegal(events);
  }

  /** When a collection is over, what it kept is again on the shared list, in front of what was pushed meanwhile. */
  lemma CollectionReturnsKeepers(s: State, v: Lists)
    requires Ok(s, v) && Legal(s, Attach) && s.trackers == s.collector.head
    ensures ListsAfter(s, v, Attach) == Lists(v.kept + v.shared, [], []) && Apply(s, Attach).collector.Resting?
    ensures Chained(Apply(s, Attach).heap, Apply(s, Attach).trackers, v.kept + v.shared, 0)
  {
    hide CollectorOk, PrivateOk, SerialsOk, AllThere, FreedOk, OnLists, Distinct, Chained;
    AttachLists(s, v, Attach);
  }

  // ---------------------------------------------------------------- one push

  /**
   * A push whose comparison succeeds puts its tracker in front of the shared list; one whose comparison fails changes
   * nothing, and its thread reads the head again.
   */
  lemma PushedInFront(s: State, v: Lists, tid: nat)
    requires Ok(s, v) && Enabled(s, Push(tid))
    ensures Legal(s, Push(tid))
    ensures var a, s' := s.pushers[tid].tracker, Apply(s, Push(tid));
      if s.heap[a].next == s.trackers
      then Chained(s'.heap, s'.trackers, [a] + v.shared, 0) && s'.pushed == s.pushed + {s.heap[a].serial} && tid !in s'.pushers
      else s' == s.(pushers := s.pushers[tid := Fresh(a)])
  {
    hide CollectorOk, SerialsOk, AllThere, FreedOk, Distinct;
    NextIsAllocated(s, v, Push(tid));
    var a := s.pushers[tid].tracker;
    assert a != 0 && a in s.heap;
    hide PrivateOk;
    if s.heap[a].next == s.trackers {
      ChainPush(s.heap, a, s.trackers, v.shared);
    }
  }

  /** Reading the head and pushing right after it succeeds. */
  lemma UndisturbedPush(s: State, v: Lists, tid: nat)
    requires Ok(s, v) && Enabled(s, ReadHead(tid))
    ensures Legal(s, ReadHead(tid)) && Legal(Apply(s, ReadHead(tid)), Push(tid))
    ensures var a, s' := s.pushers[tid].tracker, Apply(Apply(s, ReadHead(tid)), Push(tid));
      s'.trackers == a && s'.heap[a].next == s.trackers && s.heap[a].serial in s'.pushed && tid !in s'.pushers
  {
    NextIsAllocated(s, v, ReadHead(tid));
    hide Ok;
  }

  // ---------------------------------------------------------------- one collection

  /** What the steps of a run report of the trackers that they examine, in that order. */
  function Reports(events: seq<Event>): seq<bool> {
    if events == [] then [] else (if events[0].Examine? then [events[0].missing] else []) + Reports(events[1..])
  }

  /** Whether a tracker is to go: the main thread's under ALL, and others when their thread is reported missing. */
  predicate ToGo(t: Tracker, all: bool, missing: bool) {
    if t.tid == MAIN then all else missing
  }

  /** How many trackers are to stay. */
  function Stay(heap: map<nat, Tracker>, l: seq<nat>, all: bool, reports: seq<bool>): nat
    requires |reports| == |l| && forall i :: 0 <= i < |l| ==> l[i] in heap
  {
    if l == [] then 0
    else (if ToGo(heap[l[0]], all, reports[0]) then 0 else 1) + Stay(heap, l[1..], all, reports[1..])
  }

  /** The tracker is on the shared list. */
  ghost predicate OnShared(s: State, a: nat) {
    exists l :: Chained(s.heap, s.trackers, l, 0) && a in l
  }

  /** What has become of a tracker: it is freed, or on the shared list again. */
  ghost predicate Gone(s: State, serial: nat) {
    serial in s.freed && forall a :: a in s.heap ==> s.heap[a].serial != serial
  }

  ghost predicate Returned(s: State, a: nat, serial: nat) {
    OnShared(s, a) && a in s.heap && s.heap[a].serial == serial && serial !in s.freed
  }

  /** A collector that has taken its list. */
  predicate Underway(s: State) {
    s.collector.Filtering? || s.collector.Joining? || s.collector.Attaching?
  }

  /** Trackers on the lists stay where they are in memory, and belong to the same allocation. */
  ghost predicate SameTrackers(s: State, s': State, l: seq<nat>) {
    forall a :: a in l ==> a in s.heap && a in s'.heap && s'.heap[a].serial == s.heap[a].serial && s'.heap[a].tid == s.heap[a].tid
  }

  /** A step of the collection other than an examination, or of another thread. */
  lemma OtherStep(s: State, v: Lists, e: Event)
    requires Ok(s, v) && Legal(s, e) && Underway(s) && !e.Examine?
    ensures var s', v' := Apply(s, e), ListsAfter(s, v, e);
      && v'.rest == v.rest && (forall a :: a in v.shared || a in v.kept ==> a in v'.shared || a in v'.kept)
      && s'.all == s.all && s'.freed == s.freed
      && (if Underway(s') then s'.collector.unfreed == s.collector.unfreed
          else s'.collector.Resting? && s'.returned == s.collector.unfreed && v'.kept == [] && v'.rest == [])
  {
    hide PrivateOk, SerialsOk, AllThere, FreedOk, Distinct, OnLists, KeptLinks;
    if e.Filtered? {
      EmptyChain(s.heap, s.collector.tracker, v.rest);
      EmptyChain(s.heap, s.collector.keepers, v.kept);
    }
    hide Chained;
  }

  lemma EmptyChain(heap: map<nat, Tracker>, head: nat, l: seq<nat>)
    requires Chained(heap, head, l, 0)
    ensures head == 0 <==> l == []
  {
  }

  lemma OthersStay(s: State, v: Lists, e: Event)
    requires Ok(s, v) && Legal(s, e) && !e.Examine?
    ensures SameTrackers(s, Apply(s, e), OnLists(v))
  {
    hide CollectorOk, Chained, PrivateOk, SerialsOk, FreedOk, Distinct, OnLists, HasSerial;
  }

  /** An examination of the first tracker of what is left. */
  lemma ExamineStep(s: State, v: Lists, missing: bool)
    requires Ok(s, v) && Legal(s, Examine(missing))
    ensures v.rest != [] && v.rest[0] in s.heap
    ensures var s', v', t := Apply(s, Examine(missing)), ListsAfter(s, v, Examine(missing)), s.heap[v.rest[0]];
      && s'.collector.Filtering? && s'.all == s.all && v'.shared == v.shared && v'.rest == v.rest[1..]
      && SameTrackers(s, s', v.shared + v.rest[1..] + v.kept)
      && if ToGo(t, s.all, missing) then s'.freed == s.freed[t.serial := Freed(t.tid, s.all)] && v'.kept == v.kept &&
                                         s'.collector.unfreed == s.collector.unfreed
         else s'.freed == s.freed && v'.kept == [v.rest[0]] + v.kept && s'.collector.unfreed == s.collector.unfreed + 1 &&
              SameTrackers(s, s', [v.rest[0]])
  {
    hide CollectorOk, Chained, PrivateOk, SerialsOk, FreedOk, Distinct, HasSerial, Apply, ListsAfter;
    assert AllThere(s, v);
    Examined(s, v, missing);
    TakeFirst(v);
    if Reaps(s, missing) {
      ReapIs(s, v, missing);
    } else {
      KeepIs(s, v, missing);
    }
    AllAllocated(s, v);
  }

  lemma AllAllocated(s: State, v: Lists)
    requires AllThere(s, v)
    ensures forall a :: a in OnLists(v) ==> a in s.heap
  {
    hide OnLists, HasSerial;
  }

  lemma FreedGrows(s: State, e: Event)
    requires Legal(s, e)
    ensures s.freed.Keys <= Apply(s, e).freed.Keys
  {
  }

  lemma {:induction false} FreedStays(s: State, v: Lists, events: seq<Event>, n: nat)
    requires Ok(s, v) && AllLegal(s, events) && n in s.freed
    ensures Gone(Run(s, events), n)
    decreases |events|
  {
    if events == [] {
      hide Chained, CollectorOk, PrivateOk, AllThere, FreedOk, Distinct;
    } else {
      hide Ok, Apply, Legal, ListsAfter, Gone;
      StepOk(s, v, events[0]);
      FreedGrows(s, events[0]);
      assert n in s.freed.Keys;
      FreedStays(Apply(s, events[0]), ListsAfter(s, v, events[0]), events[1..], n);
    }
  }

  lemma RestStep(s: State, v: Lists, e: Event)
    requires Ok(s, v) && Legal(s, e) && s.collector.Resting? && !e.Start?
    ensures var s', v' := Apply(s, e), ListsAfter(s, v, e);
      && !e.Examine? && s'.collector.Resting? && s'.returned == s.returned && forall a :: a in v.shared ==> a in v'.shared
  {
    hide Chained, PrivateOk, SerialsOk, AllThere, FreedOk, Distinct, OnLists;
  }

  lemma IsReturned(s: State, v: Lists, a: nat)
    requires Ok(s, v) && a in v.shared
    ensures a in s.heap && Returned(s, a, s.heap[a].serial)
  {
    assert Chained(s.heap, s.trackers, v.shared, 0);
    assert a in OnLists(v);
    hide Chained, CollectorOk, PrivateOk, FreedOk, Distinct, OnLists, HasSerial;
  }

  /** While no collection goes on, trackers stay on the shared list. */
  lemma {:induction false} Rests(s: State, v: Lists, events: seq<Event>)
    requires Ok(s, v) && AllLegal(s, events) && s.collector.Resting? && forall i :: 0 <= i < |events| ==> !events[i].Start?
    ensures Reports(events) == [] && Run(s, events).collector.Resting? && Run(s, events).returned == s.returned
    ensures forall a :: a in v.shared ==> a in s.heap && Returned(Run(s, events), a, s.heap[a].serial)
    decreases |events|
  {
    if events == [] {
      hide Ok, Returned;
      forall a | a in v.shared
        ensures a in s.heap && Returned(s, a, s.heap[a].serial)
      {
        IsReturned(s, v, a);
      }
    } else {
      hide Ok, Apply, Legal, ListsAfter, Returned, SameTrackers, OnLists;
      var e, rest := events[0], events[1..];
      StepOk(s, v, e);
      RestStep(s, v, e);
      OthersStay(s, v, e);
      assert forall i :: 0 <= i < |rest| ==> rest[i] == events[i + 1];
      Rests(Apply(s, e), ListsAfter(s, v, e), rest);
      forall a | a in v.shared
        ensures a in s.heap && Returned(Run(s, events), a, s.heap[a].serial)
      {
        StaysSame(s, Apply(s, e), v, a);
      }
    }
  }

  lemma StaysSame(s: State, s': State, v: Lists, a: nat)
    requires SameTrackers(s, s', OnLists(v)) && (a in v.shared || a in v.rest || a in v.kept)
    ensures a in s.heap && a in s'.heap && s'.heap[a].serial == s.heap[a].serial && s'.heap[a].tid == s.heap[a].tid
  {
    assert a in OnLists(v);
    hide OnLists;
  }

  /** What becomes of one tracker of what is left, as its report says. */
  ghost predicate DoneAs(s: State, t: State, a: nat, missing: bool) {
    a in s.heap && if ToGo(s.heap[a], s.all, missing) then Gone(t, s.heap[a].serial) else Returned(t, a, s.heap[a].serial)
  }

  /** The rest of a collection: a report for each tracker that is left, and each done as its report says. */
  ghost predicate Collected(s: State, v: Lists, t: State, reports: seq<bool>) {
    && |reports| == |v.rest| && (forall i :: 0 <= i < |v.rest| ==> DoneAs(s, t, v.rest[i], reports[i]))
    && (forall a :: a in v.shared || a in v.kept ==> a in s.heap && Returned(t, a, s.heap[a].serial))
    && t.returned == (if Underway(s) then s.collector.unfreed else 0) + Stay(s.heap, v.rest, s.all, reports)
  }

  lemma {:induction false} SameStay(heap: map<nat, Tracker>, heap': map<nat, Tracker>, l: seq<nat>, all: bool, reports: seq<bool>)
    requires |reports| == |l| && forall i :: 0 <= i < |l| ==> l[i] in heap && l[i] in heap' && heap'[l[i]].tid == heap[l[i]].tid
    ensures Stay(heap', l, all, reports) == Stay(heap, l, all, reports)
  {
    if l != [] {
      SameStay(heap, heap', l[1..], all, reports[1..]);
    }
  }

  lemma DoneSame(s: State, s': State, t: State, a: nat, missing: bool)
    requires DoneAs(s', t, a, missing) && s'.all == s.all && SameTrackers(s, s', [a])
    ensures DoneAs(s, t, a, missing)
  {
    assert a in [a];
    hide Gone, Returned;
  }

  lemma ReturnedSame(s: State, s': State, t: State, a: nat)
    requires a in s'.heap && Returned(t, a, s'.heap[a].serial) && SameTrackers(s, s', [a])
    ensures a in s.heap && Returned(t, a, s.heap[a].serial)
  {
    assert a in [a];
    hide Returned;
  }

  lemma OneOf(s: State, s': State, l: seq<nat>, a: nat)
    requires SameTrackers(s, s', l) && a in l
    ensures SameTrackers(s, s', [a])
  {
  }

  lemma LegalFirst(s: State, events: seq<Event>)
    requires AllLegal(s, events) && events != []
    ensures Legal(s, events[0]) && AllLegal(Apply(s, events[0]), events[1..]) && Run(s, events) == Run(Apply(s, events[0]), events[1..])
  {
    hide Legal, Apply;
  }

  lemma ReportsAfter(events: seq<Event>)
    requires events != []
    ensures Reports(events) == if events[0].Examine? then [events[0].missing] + Reports(events[1..]) else Reports(events[1..])
  {
  }

  lemma {:induction false} Collects(s: State, v: Lists, events: seq<Event>)
    requires Ok(s, v) && AllLegal(s, events) && Underway(s)
    requires Run(s, events).collector.Resting? && forall i :: 0 <= i < |events| ==> !events[i].Start?
    ensures Collected(s, v, Run(s, events), Reports(events))
    decreases |events|
  {
    assert events != [];
    LegalFirst(s, events);
    hide Ok, Apply, Legal, ListsAfter, Collected, Reports, SameTrackers, OnLists, Gone, Returned, ToGo, Stay, AllLegal, Run;
    ReportsAfter(events);
    var e, rest := events[0], events[1..];
    var s', v', t := Apply(s, e), ListsAfter(s, v, e), Run(s, events);
    StepOk(s, v, e);
    assert forall i :: 0 <= i < |rest| ==> rest[i] == events[i + 1];
    if e.Examine? {
      ExamineStep(s, v, e.missing);
      Collects(s', v', rest);
      if ToGo(s.heap[v.rest[0]], s.all, e.missing) {
        ReapedIsFreed(s, v, e.missing);
        FreedStays(s', v', rest, s.heap[v.rest[0]].serial);
      }
      CollectedBefore(s, v, s', v', t, e.missing, Reports(rest));
    } else {
      OtherStep(s, v, e);
      OthersStay(s, v, e);
      if Underway(s') {
        Collects(s', v', rest);
        CollectedSame(s, v, s', v', t, Reports(rest));
      } else {
        Rests(s', v', rest);
        CollectedLast(s, v, s', v', t);
      }
    }
  }

  lemma ReapedIsFreed(s: State, v: Lists, missing: bool)
    requires Ok(s, v) && Legal(s, Examine(missing)) && v.rest != [] && v.rest[0] in s.heap && ToGo(s.heap[v.rest[0]], s.all, missing)
    ensures s.heap[v.rest[0]].serial in Apply(s, Examine(missing)).freed
  {
    hide Ok, Apply, ListsAfter, SameTrackers, ToGo;
    ExamineStep(s, v, missing);
  }

  lemma CollectedBefore(s: State, v: Lists, s': State, v': Lists, t: State, missing: bool, reports: seq<bool>)
    requires Underway(s) && Underway(s') && s'.all == s.all && v.rest != [] && v.rest[0] in s.heap
    requires Collected(s', v', t, reports) && v'.shared == v.shared && v'.rest == v.rest[1..]
    requires SameTrackers(s, s', v.shared + v.rest[1..] + v.kept)
    requires ToGo(s.heap[v.rest[0]], s.all, missing) ==>
      v'.kept == v.kept && s'.collector.unfreed == s.collector.unfreed && Gone(t, s.heap[v.rest[0]].serial)
    requires !ToGo(s.heap[v.rest[0]], s.all, missing) ==>
      v'.kept == [v.rest[0]] + v.kept && s'.collector.unfreed == s.collector.unfreed + 1 && SameTrackers(s, s', [v.rest[0]])
    ensures Collected(s, v, t, [missing] + reports)
  {
    var l, all, a := v.shared + v.rest[1..] + v.kept, [missing] + reports, v.rest[0];
    hide ToGo, Gone, Returned;
    if !ToGo(s.heap[a], s.all, missing) {
      assert a in v'.kept;
      ReturnedSame(s, s', t, a);
    }
    assert DoneAs(s, t, a, missing);
    forall i | 0 <= i < |v.rest|
      ensures DoneAs(s, t, v.rest[i], all[i])
    {
      if i > 0 {
        assert v.rest[i] == v'.rest[i - 1] && all[i] == reports[i - 1] && v.rest[i] in l;
        OneOf(s, s', l, v.rest[i]);
        DoneSame(s, s', t, v.rest[i], all[i]);
      }
    }
    forall b | b in v.shared || b in v.kept
      ensures b in s.heap && Returned(t, b, s.heap[b].serial)
    {
      assert b in l && (b in v'.shared || b in v'.kept);
      OneOf(s, s', l, b);
      ReturnedSame(s, s', t, b);
    }
    forall i | 0 <= i < |v'.rest|
      ensures v'.rest[i] in s.heap && v'.rest[i] in s'.heap && s'.heap[v'.rest[i]].tid == s.heap[v'.rest[i]].tid
    {
      assert v'.rest[i] in l;
    }
    hide DoneAs;
    SameStay(s.heap, s'.heap, v'.rest, s.all, reports);
    StayStep(s.heap, v.rest, s.all, missing, reports);
  }

  lemma StayStep(heap: map<nat, Tracker>, l: seq<nat>, all: bool, missing: bool, reports: seq<bool>)
    requires |reports| + 1 == |l| && forall i :: 0 <= i < |l| ==> l[i] in heap
    ensures Stay(heap, l, all, [missing] + reports) == (if ToGo(heap[l[0]], all, missing) then 0 else 1) + Stay(heap, l[1..], all, reports)
  {
    hide ToGo;
    assert ([missing] + reports)[1..] == reports;
  }

  lemma CollectedSame(s: State, v: Lists, s': State, v': Lists, t: State, reports: seq<bool>)
    requires Underway(s) && Underway(s') && s'.all == s.all && s'.collector.unfreed == s.collector.unfreed
    requires Collected(s', v', t, reports) && v'.rest == v.rest && SameTrackers(s, s', OnLists(v))
    requires forall a :: a in v.shared || a in v.kept ==> a in v'.shared || a in v'.kept
    ensures Collected(s, v, t, reports)
  {
    hide ToGo, Gone, Returned;
    forall i | 0 <= i < |v.rest|
      ensures DoneAs(s, t, v.rest[i], reports[i]) && v.rest[i] in s'.heap && s'.heap[v.rest[i]].tid == s.heap[v.rest[i]].tid
    {
      assert v.rest[i] in OnLists(v);
      OneOf(s, s', OnLists(v), v.rest[i]);
      DoneSame(s, s', t, v.rest[i], reports[i]);
    }
    forall b | b in v.shared || b in v.kept
      ensures b in s.heap && Returned(t, b, s.heap[b].serial)
    {
      assert b in OnLists(v);
      OneOf(s, s', OnLists(v), b);
      ReturnedSame(s, s', t, b);
    }
    hide DoneAs;
    SameStay(s.heap, s'.heap, v.rest, s.all, reports);
  }

  lemma CollectedLast(s: State, v: Lists, s': State, v': Lists, t: State)
    requires Underway(s) && v.rest == [] && v'.kept == [] && t.returned == s.collector.unfreed && SameTrackers(s, s', OnLists(v))
    requires forall a :: a in v.shared || a in v.kept ==> a in v'.shared || a in v'.kept
    requires forall a :: a in v'.shared ==> a in s'.heap && Returned(t, a, s'.heap[a].serial)
    ensures Collected(s, v, t, [])
  {
    hide Gone, Returned;
    forall b | b in v.shared || b in v.kept
      ensures b in s.heap && Returned(t, b, s.heap[b].serial)
    {
      assert b in OnLists(v);
      OneOf(s, s', OnLists(v), b);
      ReturnedSame(s, s', t, b);
    }
  }

  /** The chain from a head to NULL is unique. */
  lemma {:induction false} ChainUnique(heap: map<nat, Tracker>, head: nat, l: seq<nat>, m: seq<nat>)
    requires Chained(heap, head, l, 0) && Chained(heap, head, m, 0)
    ensures l == m
    decreases |l|
  {
    if head != 0 {
      ChainTail(heap, head, l, 0);
      ChainTail(heap, head, m, 0);
      ChainUnique(heap, heap[head].next, l[1..], m[1..]);
      assert l == [l[0]] + l[1..] && m == [m[0]] + m[1..];
      hide Chained;
    }
  }

  /**
   * A collection from the swap that takes the list to its end, however other threads interleave. It gets one report for
   * each tracker that it took, in the order of the list. At the end a tracker whose thread was reported missing is freed,
   * and so is the main thread's under ALL; every other one is on the shared list again, and the result is their number.
   */
  lemma CollectionDone(s: State, v: Lists, took: seq<nat>, events: seq<Event>)
    requires Ok(s, v) && Enabled(s, Detach) && s.trackers == s.collector.head && Chained(s.heap, s.trackers, took, 0)
    requires AllEnabled(Apply(s, Detach), events) && forall i :: 0 <= i < |events| ==> !events[i].Start?
    requires AllLegal(Apply(s, Detach), events) ==> Run(Apply(s, Detach), events).collector.Resting?
    ensures AllLegal(Apply(s, Detach), events)
    ensures var t, reports := Run(Apply(s, Detach), events), Reports(events);
      && |reports| == |took| && (forall i :: 0 <= i < |took| ==> DoneAs(s, t, took[i], reports[i]))
      && t.returned == Stay(s.heap, took, s.all, reports)
  {
    hide Ok, Apply, ListsAfter, AllEnabled, AllLegal, Run, Reports, Stay, Gone, Returned, ToGo, Chained;
    var s', v' := Apply(s, Detach), ListsAfter(s, v, Detach);
    DetachTakes(s, v, took);
    StepOk(s, v, Detach);
    NothingFreedIsUsed(s', v', events);
    Collects(s', v', events);
    var t, reports := Run(s', events), Reports(events);
    forall i | 0 <= i < |took|
      ensures DoneAs(s, t, took[i], reports[i])
    {
      assert DoneAs(s', t, v'.rest[i], reports[i]);
    }
  }

  lemma DetachTakes(s: State, v: Lists, took: seq<nat>)
    requires Ok(s, v) && Enabled(s, Detach) && s.trackers == s.collector.head && Chained(s.heap, s.trackers, took, 0)
    ensures var s', v' := Apply(s, Detach), ListsAfter(s, v, Detach);
      s'.heap == s.heap && s'.all == s.all && Underway(s') && s'.collector.unfreed == 0 && v' == Lists([], took, [])
  {
    assert Chained(s.heap, s.trackers, v.shared, 0);
    ChainUnique(s.heap, s.trackers, v.shared, took);
    hide Chained, PrivateOk, SerialsOk, AllThere, FreedOk, Distinct, OnLists;
  }

  /** A run in two parts. */
  lemma {:induction false} Split(s: State, v: Lists, a: seq<Event>, b: seq<Event>)
    requires Ok(s, v) && AllEnabled(s, a + b)
    ensures AllLegal(s, a + b) && AllEnabled(s, a) && AllLegal(s, a)
    ensures Ok(Run(s, a), ListsRun(s, v, a)) && AllEnabled(Run(s, a), b) && AllLegal(Run(s, a), b) && Run(s, a + b) == Run(Run(s, a), b)
    decreases |a|
  {
    NothingFreedIsUsed(s, v, a + b);
    hide Ok, Apply, Enabled, UsesAllocated, ListsAfter, Legal;
    if a == [] {
      assert a + b == b;
    } else {
      hide AllEnabled, AllLegal, Run, ListsRun;
      assert (a + b)[0] == a[0] && (a + b)[1..] == a[1..] + b;
      FirstStep(s, v, a + b);
      Split(Apply(s, a[0]), ListsAfter(s, v, a[0]), a[1..], b);
      ThenRest(s, v, a);
    }
  }

  lemma FirstStep(s: State, v: Lists, events: seq<Event>)
    requires Ok(s, v) && AllEnabled(s, events) && events != []
    ensures Enabled(s, events[0]) && Legal(s, events[0]) && Ok(Apply(s, events[0]), ListsAfter(s, v, events[0])) && AllEnabled(Apply(s, events[0]), events[1..])
    ensures AllLegal(s, events) && AllLegal(Apply(s, events[0]), events[1..])
    ensures Run(s, events) == Run(Apply(s, events[0]), events[1..])
  {
    hide Ok, Apply, ListsAfter;
    NothingFreedIsUsed(s, v, events);
    StepOk(s, v, events[0]);
  }

  lemma ThenRest(s: State, v: Lists, events: seq<Event>)
    requires events != [] && Enabled(s, events[0]) && Legal(s, events[0])
    requires AllEnabled(Apply(s, events[0]), events[1..]) && AllLegal(Apply(s, events[0]), events[1..])
    ensures AllEnabled(s, events) && AllLegal(s, events) && Run(s, events) == Run(Apply(s, events[0]), events[1..])
    ensures ListsRun(s, v, events) == ListsRun(Apply(s, events[0]), ListsAfter(s, v, events[0]), events[1..])
  {
    hide Apply, ListsAfter;
  }

  lemma {:induction false} AllStays(s: State, events: seq<Event>)
    requires AllLegal(s, events) && forall i :: 0 <= i < |events| ==> !events[i].Start?
    ensures Run(s, events).all == s.all
    decreases |events|
  {
    if events != [] {
      assert forall i :: 0 <= i < |events[1..]| ==> events[1..][i] == events[i + 1];
      AllStays(Apply(s, events[0]), events[1..]);
    }
  }

  /** The state after a run from the beginning. */
  ghost function Reached(events: seq<Event>): State
    requires AllEnabled(Beginning(), events)
  {
    RunsAreLegal(events);
    Run(Beginning(), events)
  }

  /** What becomes of a tracker that a collection with `all` took, as its report says. */
  ghost predicate DealtWith(s: State, t: State, all: bool, a: nat, missing: bool) {
    && a in s.heap
    && if ToGo(s.heap[a], all, missing) then Gone(t, s.heap[a].serial) else Returned(t, a, s.heap[a].serial)
  }

  /**
   * A collection in any run from the beginning: it starts at step `i`, takes the list `took` at step `j`, and is at rest
   * at the end. It gets one report for each tracker taken, in the order of the list, frees those whose threads are
   * reported missing and, under ALL, the main thread's, and puts every other one back on the shared list.
   */
  lemma CollectionInRun(events: seq<Event>, i: nat, j: nat, took: seq<nat>)
    requires AllEnabled(Beginning(), events) && i < j < |events| && events[i].Start? && events[j].Detach?
    requires forall k :: i < k < |events| ==> !events[k].Start?
    requires AllEnabled(Beginning(), events[..j])
    requires var s := Reached(events[..j]);
      s.collector.Acquiring? && s.trackers == s.collector.head && Chained(s.heap, s.trackers, took, 0)
    requires Reached(events).collector.Resting?
    ensures var s, t, reports := Reached(events[..j]), Reached(events), Reports(events[j + 1..]);
      && |reports| == |took|
      && (forall k :: 0 <= k < |took| ==> DealtWith(s, t, events[i].all, took[k], reports[k]))
      && t.returned == Stay(s.heap, took, events[i].all, reports)
  {
    hide Ok, Apply, ListsAfter, AllEnabled, AllLegal, Run, ListsRun, Reports, Stay, Gone, Returned, ToGo, Beginning, Chained;
    BeginningOk();
    var none := Lists([], [], []);
    assert events == events[..j] + events[j..];
    Split(Beginning(), none, events[..j], events[j..]);
    var s, v := Reached(events[..j]), ListsRun(Beginning(), none, events[..j]);
    StartedWith(events, i, j);
    var rest := events[j + 1..];
    assert events[j..][1..] == rest && events[j..][0] == Detach;
    FirstStep(s, v, events[j..]);
    assert forall k :: 0 <= k < |rest| ==> rest[k] == events[j + 1 + k];
    CollectionDone(s, v, took, rest);
    forall k | 0 <= k < |took|
      ensures DealtWith(s, Reached(events), events[i].all, took[k], Reports(rest)[k])
    {
      assert DoneAs(s, Reached(events), took[k], Reports(rest)[k]);
    }
  }

  lemma StartSets(s: State, e: Event)
    requires Legal(s, e) && e.Start?
    ensures Apply(s, e).all == e.all
  {
  }

  lemma StartedWith(events: seq<Event>, i: nat, j: nat)
    requires AllEnabled(Beginning(), events) && i < j < |events| && events[i].Start?
    requires forall k :: i < k < |events| ==> !events[k].Start?
    requires AllEnabled(Beginning(), events[..j])
    ensures Reached(events[..j]).all == events[i].all
  {
    hide Ok, Apply, ListsAfter, AllEnabled, AllLegal, Run, ListsRun, Beginning;
    BeginningOk();
    var none, es := Lists([], [], []), events[..j];
    assert es == es[..i] + es[i..];
    Split(Beginning(), none, es[..i], es[i..]);
    var m, rest := Run(Beginning(), es[..i]), es[i..];
    assert rest != [] && rest[0] == events[i];
    FirstStep(m, ListsRun(Beginning(), none, es[..i]), rest);
    StartSets(m, rest[0]);
    assert forall k :: 0 <= k < |rest[1..]| ==> rest[1..][k] == events[i + 1 + k];
    AllStays(Apply(m, rest[0]), rest[1..]);
  }
}
