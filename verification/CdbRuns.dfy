/** Runs of increments on an sxe-cdb instance: what each returns, and what every key has reached afterwards. */
module CdbRuns {
  import opened Bytes
  import opened CdbHkv
  import opened CdbStore
  import opened CdbIndex
  import opened CdbCounts
  import opened CdbInstance
  import opened CdbLookup

  /** How often `key` was counted by the first `n` increments; an increment that returns 0 counted nothing. */
  function Counted(keys: seq<bytes>, counts: seq<nat>, n: nat, key: bytes): nat
    requires n <= |counts| <= |keys|
  {
    if n == 0 then 0 else Counted(keys, counts, n - 1, key) + (if keys[n - 1] == key && counts[n - 1] != 0 then 1 else 0)
  }

  lemma {:induction false} CountedPrefix(keys: seq<bytes>, counts: seq<nat>, count: nat, n: nat, key: bytes)
    requires n <= |counts| < |keys|
    ensures Counted(keys, counts + [count], n, key) == Counted(keys, counts, n, key)
  {
    if n > 0 {
      CountedPrefix(keys, counts, count, n - 1, key);
    }
  }

  /** A key that `room` increments on `list` can count: its list is that one, and no value of it looks like a counter's. */
  ghost predicate CanCount(recs: map<nat, Rec>, c: Counts, s: Shape, key: bytes, list: nat, room: nat) {
    && list < LISTS_MAX && |key| + LINK_BYTES + 8 < MEMORY_MAX - 2 * PAGE
    && (ListIn(recs, c, s, key).Some? ==> ListIn(recs, c, s, key).value == list)
    && TallyIn(recs, c, key) + room < COUNT_MAX
    && (ValueIn(recs, c.links, key).Some? ==> |ValueIn(recs, c.links, key).value| != LINK_BYTES)
  }

  ghost predicate AllCanCount(recs: map<nat, Rec>, c: Counts, s: Shape, keys: seq<bytes>, listOf: bytes -> nat, room: nat) {
    forall i :: 0 <= i < |keys| ==> CanCount(recs, c, s, keys[i], listOf(keys[i]), room)
  }

  /** What one increment that returned `count` has done. */
  ghost predicate Stepped(recs: map<nat, Rec>, c: Counts, s: Shape, recs': map<nat, Rec>, c': Counts, s': Shape,
                          key: bytes, list: nat, count: nat) {
    && (count == 0 ==> recs' == recs && c' == c && s' == s)
    && (count != 0 ==> count == TallyIn(recs', c', key) == TallyIn(recs, c, key) + 1 && ListIn(recs', c', s', key) == Some(list))
    && (forall k :: k != key ==> KeyKept(recs, c, s, recs', c', s', k))
  }

  /** One increment of a run. */
  method IncNext(cdb: Instance, key: bytes, list: nat, ghost room: nat) returns (count: nat)
    requires cdb.Valid() && CanCount(cdb.recs, cdb.C(), cdb.shape, key, list, room) && room > 0
    requires cdb.countsPages + 1 < PAGES_MAX
    modifies cdb
    ensures cdb.Valid() && cdb.countsPages <= old(cdb.countsPages) + 1
    ensures Stepped(old(cdb.recs), old(cdb.C()), old(cdb.shape), cdb.recs, cdb.C(), cdb.shape, key, list, count)
    ensures old(cdb.Tally(key)) > 0 ==> count > 0
    ensures ValueIn(old(cdb.recs), old(cdb.links), key).Some? ==> count == 0
    ensures |cdb.kvdata| >= |old(cdb.kvdata)| && StaysFull(old(cdb.index), old(cdb.sheets), cdb.index, cdb.sheets)
    ensures |cdb.kvdata| < |old(cdb.kvdata)| + RecordMost(|key|, LINK_BYTES) + 2 * PAGE
    ensures count == 0 ==> |cdb.kvdata| == |old(cdb.kvdata)|
    ensures SlotsKept(old(cdb.recs), old(cdb.slot), cdb.recs, cdb.slot)
    ensures count == 0 && ValueIn(old(cdb.recs), old(cdb.links), key).None? ==>
      NoPlace(|cdb.kvdata|, cdb.kvdataMaximum, cdb.hash, cdb.index, cdb.sheets, key, LINK_BYTES)
  {
    hide cdb.Valid, KeyKept, TallyIn, ListIn, ValueIn, DecodeLink, StaysFull, RowsFull, SlotsKept, NoMemory;
    ghost var recs0, links0, size0, used0 := cdb.recs, cdb.links, |cdb.kvdata|, cdb.kvdataUsed;
    NoFalseCounter(cdb, key);
    StoredValue(cdb, key);
    count := cdb.Inc(key, list);
    if count == 0 {
      MemoryTight(size0, cdb.kvdataMaximum, used0, |cdb.kvdata|, cdb.hash, cdb.index, cdb.sheets, key, LINK_BYTES);
    }
  }

  /** A stored record that is no counter is what its key leads to. */
  lemma StoredValue(cdb: Instance, key: bytes)
    requires cdb.Valid()
    ensures (exists p :: p in cdb.recs && cdb.recs[p].key == key && p !in cdb.links) <==>
      ValueIn(cdb.recs, cdb.links, key).Some?
  {
    cdb.TableFacts();
    PosIsOf(cdb.recs, key);
    hide cdb.Valid;
    forall p | p in cdb.recs && cdb.recs[p].key == key && p !in cdb.links
      ensures ValueIn(cdb.recs, cdb.links, key).Some?
    {
      PosOfIs(cdb.recs, p);
    }
  }

  /** An increment that returned 0 was of a key with a value, or of one for which there is no place any more. */
  ghost predicate NoneSpurned(recs0: map<nat, Rec>, links0: map<nat, Link>, size: nat, maximum: nat, hash: bytes -> Hash,
                              index: seq<nat>, sheets: seq<Sheet>, keys: seq<bytes>, counts: seq<nat>) {
    && |counts| <= |keys|
    && forall i :: 0 <= i < |counts| && counts[i] == 0 ==>
         ValueIn(recs0, links0, keys[i]).Some? || NoPlace(size, maximum, hash, index, sheets, keys[i], LINK_BYTES)
  }

  lemma SpurnedStep(recs0: map<nat, Rec>, links0: map<nat, Link>, maximum: nat, hash: bytes -> Hash, size: nat, index: seq<nat>,
                    sheets: seq<Sheet>, size': nat, index': seq<nat>, sheets': seq<Sheet>, keys: seq<bytes>, counts: seq<nat>, count: nat)
    requires NoneSpurned(recs0, links0, size, maximum, hash, index, sheets, keys, counts) && |counts| < |keys|
    requires size' >= size && StaysFull(index, sheets, index', sheets')
    requires count == 0 ==> ValueIn(recs0, links0, keys[|counts|]).Some? || NoPlace(size', maximum, hash, index', sheets', keys[|counts|], LINK_BYTES)
    ensures NoneSpurned(recs0, links0, size', maximum, hash, index', sheets', keys, counts + [count])
  {
    hide ValueIn, NoPlace, StaysFull;
    forall i | 0 <= i < |counts| + 1 && (counts + [count])[i] == 0
      ensures ValueIn(recs0, links0, keys[i]).Some? || NoPlace(size', maximum, hash, index', sheets', keys[i], LINK_BYTES)
    {
      if i < |counts| && ValueIn(recs0, links0, keys[i]).None? {
        assert counts[i] == 0;
        StillNoPlace(size, maximum, hash, index, sheets, size', index', sheets', keys[i], LINK_BYTES);
      }
    }
  }

  /** No increment gives a key a value. */
  ghost predicate NoNewValues(recs0: map<nat, Rec>, links0: map<nat, Link>, recs: map<nat, Rec>, links: map<nat, Link>) {
    forall key :: ValueIn(recs, links, key).Some? ==> ValueIn(recs0, links0, key).Some?
  }

  lemma NoValueStep(recs0: map<nat, Rec>, links0: map<nat, Link>, recs: map<nat, Rec>, c: Counts, s: Shape,
                    recs': map<nat, Rec>, c': Counts, s': Shape, key: bytes, list: nat, count: nat)
    requires NoNewValues(recs0, links0, recs, c.links) && Stepped(recs, c, s, recs', c', s', key, list, count)
    ensures NoNewValues(recs0, links0, recs', c'.links)
  {
    hide TallyIn, ListIn, ValueIn;
    if count != 0 {
      CountedHasNoValue(recs', c', key);
    }
    forall k
      ensures ValueIn(recs', c'.links, k).Some? ==> ValueIn(recs0, links0, k).Some?
    {
      if k != key {
        assert KeyKept(recs, c, s, recs', c', s', k);
      }
    }
  }

  lemma SlotsTwice(recs: map<nat, Rec>, slot: map<nat, Slot>, recs1: map<nat, Rec>, slot1: map<nat, Slot>,
                   recs2: map<nat, Rec>, slot2: map<nat, Slot>)
    requires SlotsKept(recs, slot, recs1, slot1) && SlotsKept(recs1, slot1, recs2, slot2)
    ensures SlotsKept(recs, slot, recs2, slot2)
  {
  }

  lemma NothingSpurned(recs: map<nat, Rec>, links: map<nat, Link>, size: nat, maximum: nat, hash: bytes -> Hash,
                       index: seq<nat>, sheets: seq<Sheet>, keys: seq<bytes>)
    ensures NoneSpurned(recs, links, size, maximum, hash, index, sheets, keys, []) && NoNewValues(recs, links, recs, links)
  {
    hide ValueIn;
  }

  /** Keys keep their uids while others, or they themselves, are counted. */
  ghost predicate UidsKept(hash: bytes -> Hash, recs: map<nat, Rec>, slot: map<nat, Slot>, recs': map<nat, Rec>, slot': map<nat, Slot>) {
    forall key :: UidIn(hash, recs, slot, key).Some? ==> UidIn(hash, recs', slot', key) == UidIn(hash, recs, slot, key)
  }

  lemma SlotsKeepUids(hash: bytes -> Hash, recs: map<nat, Rec>, slot: map<nat, Slot>, recs': map<nat, Rec>, slot': map<nat, Slot>)
    requires SlotsKept(recs, slot, recs', slot') && KeysDistinct(recs') && 0 !in recs
    ensures UidsKept(hash, recs, slot, recs', slot')
  {
    hide KeysDistinct, UidOf;
    forall key | UidIn(hash, recs, slot, key).Some?
      ensures UidIn(hash, recs', slot', key) == UidIn(hash, recs, slot, key)
    {
      var p := PosOf(recs, key);
      PosIsOf(recs, key);
      PosOfIs(recs', p);
    }
  }

  lemma PosIsOf(recs: map<nat, Rec>, key: bytes)
    requires 0 !in recs
    ensures PosOf(recs, key) in recs ==> recs[PosOf(recs, key)].key == key
  {
  }

  lemma NoFalseCounter(cdb: Instance, key: bytes)
    requires cdb.Valid()
    requires ValueIn(cdb.recs, cdb.links, key).Some? ==> |ValueIn(cdb.recs, cdb.links, key).value| != LINK_BYTES
    ensures forall p :: p in cdb.recs && cdb.recs[p].key == key && p !in cdb.links ==> |cdb.recs[p].val| != LINK_BYTES
  {
    cdb.TableFacts();
    hide cdb.Valid;
    forall p | p in cdb.recs && cdb.recs[p].key == key && p !in cdb.links
      ensures |cdb.recs[p].val| != LINK_BYTES
    {
      PosOfIs(cdb.recs, p);
    }
  }

  lemma CountedHasNoValue(recs: map<nat, Rec>, c: Counts, key: bytes)
    requires TallyIn(recs, c, key) > 0
    ensures ValueIn(recs, c.links, key).None?
  {
  }

  /** After a step, every key of the run can be counted as before. */
  lemma StillCanCount(recs: map<nat, Rec>, c: Counts, s: Shape, recs': map<nat, Rec>, c': Counts, s': Shape,
                      key: bytes, listOf: bytes -> nat, count: nat, k: bytes, room: nat)
    requires Stepped(recs, c, s, recs', c', s', key, listOf(key), count) && room > 0
    requires CanCount(recs, c, s, k, listOf(k), room)
    ensures CanCount(recs', c', s', k, listOf(k), room - 1)
  {
    if k == key {
      if count != 0 {
        CountedHasNoValue(recs', c', key);
      }
    } else {
      assert KeyKept(recs, c, s, recs', c', s', k);
    }
    hide TallyIn, ListIn, ValueIn;
  }

  lemma AllStillCanCount(recs: map<nat, Rec>, c: Counts, s: Shape, recs': map<nat, Rec>, c': Counts, s': Shape,
                         keys: seq<bytes>, key: bytes, listOf: bytes -> nat, count: nat, room: nat)
    requires Stepped(recs, c, s, recs', c', s', key, listOf(key), count) && room > 0
    requires AllCanCount(recs, c, s, keys, listOf, room)
    ensures AllCanCount(recs', c', s', keys, listOf, room - 1)
  {
    hide Stepped, CanCount;
    forall i | 0 <= i < |keys|
      ensures CanCount(recs', c', s', keys[i], listOf(keys[i]), room - 1)
    {
      StillCanCount(recs, c, s, recs', c', s', key, listOf, count, keys[i], room);
    }
  }

  /** Every key has gone up by the number of its successful increments. */
  ghost predicate Totals(recs0: map<nat, Rec>, c0: Counts, recs: map<nat, Rec>, c: Counts, keys: seq<bytes>, counts: seq<nat>) {
    && |counts| <= |keys|
    && forall key :: TallyIn(recs, c, key) == TallyIn(recs0, c0, key) + Counted(keys, counts, |counts|, key)
  }

  /** Each successful increment returned how often its key had been counted by then. */
  ghost predicate Returned(recs0: map<nat, Rec>, c0: Counts, keys: seq<bytes>, counts: seq<nat>) {
    && |counts| <= |keys|
    && forall i {:trigger counts[i]} :: 0 <= i < |counts| && counts[i] != 0 ==>
         counts[i] == TallyIn(recs0, c0, keys[i]) + Counted(keys, counts, i + 1, keys[i])
  }

  ghost predicate OthersAsBefore(recs0: map<nat, Rec>, c0: Counts, s0: Shape, recs: map<nat, Rec>, c: Counts, s: Shape, keys: seq<bytes>) {
    forall key :: key !in keys ==> KeyKept(recs0, c0, s0, recs, c, s, key)
  }

  lemma TotalsStep(recs0: map<nat, Rec>, c0: Counts, recs: map<nat, Rec>, c: Counts, s: Shape, recs': map<nat, Rec>, c': Counts, s': Shape,
                   keys: seq<bytes>, counts: seq<nat>, list: nat, count: nat)
    requires Totals(recs0, c0, recs, c, keys, counts) && |counts| < |keys|
    requires Stepped(recs, c, s, recs', c', s', keys[|counts|], list, count)
    ensures Totals(recs0, c0, recs', c', keys, counts + [count])
  {
    hide TallyIn, ListIn, ValueIn;
    var n := |counts|;
    forall key
      ensures TallyIn(recs', c', key) == TallyIn(recs0, c0, key) + Counted(keys, counts + [count], n + 1, key)
    {
      CountedPrefix(keys, counts, count, n, key);
      if key != keys[n] {
        assert KeyKept(recs, c, s, recs', c', s', key);
      }
    }
  }

  lemma ReturnedStep(recs0: map<nat, Rec>, c0: Counts, recs: map<nat, Rec>, c: Counts, keys: seq<bytes>, counts: seq<nat>, count: nat)
    requires Returned(recs0, c0, keys, counts) && |counts| < |keys|
    requires Totals(recs0, c0, recs, c, keys, counts + [count])
    requires count != 0 ==> count == TallyIn(recs, c, keys[|counts|])
    ensures Returned(recs0, c0, keys, counts + [count])
  {
    hide TallyIn;
    var counts' := counts + [count];
    forall i | 0 <= i < |counts'| && counts'[i] != 0
      ensures counts'[i] == TallyIn(recs0, c0, keys[i]) + Counted(keys, counts', i + 1, keys[i])
    {
      if i < |counts| {
        CountedPrefix(keys, counts, count, i + 1, keys[i]);
        assert counts[i] == counts'[i];
      }
    }
  }

  lemma OthersStep(recs0: map<nat, Rec>, c0: Counts, s0: Shape, recs: map<nat, Rec>, c: Counts, s: Shape,
                   recs': map<nat, Rec>, c': Counts, s': Shape, keys: seq<bytes>, key: bytes, list: nat, count: nat)
    requires OthersAsBefore(recs0, c0, s0, recs, c, s, keys) && key in keys
    requires Stepped(recs, c, s, recs', c', s', key, list, count)
    ensures OthersAsBefore(recs0, c0, s0, recs', c', s', keys)
  {
    hide TallyIn, ListIn, ValueIn;
    forall k | k !in keys
      ensures KeyKept(recs0, c0, s0, recs', c', s', k)
    {
      assert KeyKept(recs0, c0, s0, recs, c, s, k) && KeyKept(recs, c, s, recs', c', s', k);
    }
  }

  /** Increments keys one after the other, each on the list that is its own. */
  method IncAll(cdb: Instance, keys: seq<bytes>, listOf: bytes -> nat) returns (counts: seq<nat>)
    requires cdb.Valid() && cdb.countsPages + |keys| < PAGES_MAX
    requires AllCanCount(cdb.recs, cdb.C(), cdb.shape, keys, listOf, |keys|)
    modifies cdb
    ensures cdb.Valid() && |counts| == |keys|
    ensures Totals(old(cdb.recs), old(cdb.C()), cdb.recs, cdb.C(), keys, counts)
    ensures Returned(old(cdb.recs), old(cdb.C()), keys, counts)
    ensures OthersAsBefore(old(cdb.recs), old(cdb.C()), old(cdb.shape), cdb.recs, cdb.C(), cdb.shape, keys)
    ensures NoneSpurned(old(cdb.recs), old(cdb.links), |cdb.kvdata|, cdb.kvdataMaximum, cdb.hash, cdb.index, cdb.sheets, keys, counts)
    ensures UidsKept(cdb.hash, old(cdb.recs), old(cdb.slot), cdb.recs, cdb.slot)
  {
    hide cdb.Valid, AllCanCount, CanCount, Stepped, Totals, Returned, OthersAsBefore, NoneSpurned, NoNewValues, NoPlace, SlotsKept, StaysFull, UidsKept, ValueIn;
    ghost var recs0, c0, s0, slot0 := cdb.recs, cdb.C(), cdb.shape, cdb.slot;
    counts := [];
    NothingRun(recs0, c0, s0, keys);
    NothingSpurned(recs0, c0.links, |cdb.kvdata|, cdb.kvdataMaximum, cdb.hash, cdb.index, cdb.sheets, keys);
    SlotsUnchanged(recs0, slot0);
    TableIsFit(cdb);
    while |counts| < |keys|
      invariant cdb.Valid() && |counts| <= |keys| && cdb.countsPages + (|keys| - |counts|) < PAGES_MAX
      invariant AllCanCount(cdb.recs, cdb.C(), cdb.shape, keys, listOf, |keys| - |counts|)
      invariant Totals(recs0, c0, cdb.recs, cdb.C(), keys, counts)
      invariant Returned(recs0, c0, keys, counts)
      invariant OthersAsBefore(recs0, c0, s0, cdb.recs, cdb.C(), cdb.shape, keys)
      invariant NoneSpurned(recs0, c0.links, |cdb.kvdata|, cdb.kvdataMaximum, cdb.hash, cdb.index, cdb.sheets, keys, counts)
      invariant NoNewValues(recs0, c0.links, cdb.recs, cdb.links) && SlotsKept(recs0, slot0, cdb.recs, cdb.slot)
    {
      ghost var recs1, c1, s1 := cdb.recs, cdb.C(), cdb.shape;
      ghost var size1, index1, sheets1, slot1 := |cdb.kvdata|, cdb.index, cdb.sheets, cdb.slot;
      var key := keys[|counts|];
      ghost var room := |keys| - |counts|;
      OneCanCount(recs1, c1, s1, keys, listOf, room, |counts|);
      var count := IncNext(cdb, key, listOf(key), room);
      AllStillCanCount(recs1, c1, s1, cdb.recs, cdb.C(), cdb.shape, keys, key, listOf, count, room);
      TotalsStep(recs0, c0, recs1, c1, s1, cdb.recs, cdb.C(), cdb.shape, keys, counts, listOf(key), count);
      SteppedCount(recs1, c1, s1, cdb.recs, cdb.C(), cdb.shape, key, listOf(key), count);
      ReturnedStep(recs0, c0, cdb.recs, cdb.C(), keys, counts, count);
      OthersStep(recs0, c0, s0, recs1, c1, s1, cdb.recs, cdb.C(), cdb.shape, keys, key, listOf(key), count);
      SpurnedCause(recs0, c0.links, recs1, c1.links, key, count, |cdb.kvdata|, cdb.kvdataMaximum, cdb.hash, cdb.index, cdb.sheets);
      SpurnedStep(recs0, c0.links, cdb.kvdataMaximum, cdb.hash, size1, index1, sheets1, |cdb.kvdata|, cdb.index, cdb.sheets, keys, counts, count);
      NoValueStep(recs0, c0.links, recs1, c1, s1, cdb.recs, cdb.C(), cdb.shape, key, listOf(key), count);
      SlotsTwice(recs0, slot0, recs1, slot1, cdb.recs, cdb.slot);
      counts := counts + [count];
    }
    TableIsFit(cdb);
    SlotsKeepUids(cdb.hash, recs0, slot0, cdb.recs, cdb.slot);
  }

  lemma TableIsFit(cdb: Instance)
    requires cdb.Valid()
    ensures KeysDistinct(cdb.recs) && 0 !in cdb.recs
  {
    cdb.TableFacts();
  }

  lemma SpurnedCause(recs0: map<nat, Rec>, links0: map<nat, Link>, recs1: map<nat, Rec>, links1: map<nat, Link>, key: bytes, count: nat,
                     size: nat, maximum: nat, hash: bytes -> Hash, index: seq<nat>, sheets: seq<Sheet>)
    requires NoNewValues(recs0, links0, recs1, links1)
    requires count == 0 ==> ValueIn(recs1, links1, key).Some? || NoPlace(size, maximum, hash, index, sheets, key, LINK_BYTES)
    ensures count == 0 ==> ValueIn(recs0, links0, key).Some? || NoPlace(size, maximum, hash, index, sheets, key, LINK_BYTES)
  {
    hide ValueIn, NoPlace;
  }

  lemma OneCanCount(recs: map<nat, Rec>, c: Counts, s: Shape, keys: seq<bytes>, listOf: bytes -> nat, room: nat, i: nat)
    requires AllCanCount(recs, c, s, keys, listOf, room) && i < |keys|
    ensures CanCount(recs, c, s, keys[i], listOf(keys[i]), room)
  {
    hide CanCount;
  }

  lemma SteppedCount(recs: map<nat, Rec>, c: Counts, s: Shape, recs': map<nat, Rec>, c': Counts, s': Shape,
                     key: bytes, list: nat, count: nat)
    requires Stepped(recs, c, s, recs', c', s', key, list, count)
    ensures count != 0 ==> count == TallyIn(recs', c', key)
  {
    hide TallyIn, ListIn, KeyKept;
  }

  lemma NothingRun(recs: map<nat, Rec>, c: Counts, s: Shape, keys: seq<bytes>)
    ensures Totals(recs, c, recs, c, keys, []) && Returned(recs, c, keys, []) && OthersAsBefore(recs, c, s, recs, c, s, keys)
  {
    hide TallyIn, ListIn, ValueIn;
  }
}
