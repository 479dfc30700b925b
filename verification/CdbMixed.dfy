/** Runs of puts and increments on an sxe-cdb instance in any order: what every key is found to hold, and at which uid. */
module CdbMixed {
  import opened Bytes
  import opened CdbHkv
  import opened CdbStore
  import opened CdbIndex
  import opened CdbCounts
  import opened CdbInstance
  import opened CdbLookup
  import opened CdbRuns

  datatype Op = Put(r: Rec) | Inc(key: bytes)

  function KeyOf(op: Op): bytes {
    if op.Put? then op.r.key else op.key
  }

  /** Whether an operation did nothing, and the length of the value that it would have stored for a new key. */
  predicate Failed(op: Op, result: nat) {
    result == if op.Put? then UID_NONE else 0
  }

  function ValLen(op: Op): nat {
    if op.Put? then |op.r.val| else LINK_BYTES
  }

  /** What a caller sees of a key. */
  datatype Seen = Seen(value: Option<bytes>, tally: nat, list: Option<nat>)

  const NOTHING: Seen := Seen(None, 0, None)

  datatype Snapshot = Snapshot(recs: map<nat, Rec>, c: Counts, s: Shape)

  ghost function Look(t: Snapshot, key: bytes): Seen {
    Seen(ValueIn(t.recs, t.c.links, key), TallyIn(t.recs, t.c, key), ListIn(t.recs, t.c, t.s, key))
  }

  /** What an operation makes of what was seen of a key, if it has not failed. */
  function After(was: Seen, op: Op, result: nat, listOf: bytes -> nat, key: bytes): Seen {
    if KeyOf(op) != key || Failed(op, result) then was
    else if op.Put? then Seen(Some(op.r.val), 0, None)
    else Seen(was.value, was.tally + 1, Some(listOf(key)))
  }

  /** And what the first `n` operations of a run make of it. */
  function AfterAll(was: Seen, ops: seq<Op>, results: seq<nat>, listOf: bytes -> nat, n: nat, key: bytes): Seen
    requires n <= |results| <= |ops|
  {
    if n == 0 then was else After(AfterAll(was, ops, results, listOf, n - 1, key), ops[n - 1], results[n - 1], listOf, key)
  }

  lemma {:induction false} AfterPrefix(was: Seen, ops: seq<Op>, results: seq<nat>, result: nat, listOf: bytes -> nat, n: nat, key: bytes)
    requires n <= |results| < |ops|
    ensures AfterAll(was, ops, results + [result], listOf, n, key) == AfterAll(was, ops, results, listOf, n, key)
  {
    if n > 0 {
      AfterPrefix(was, ops, results, result, listOf, n - 1, key);
    }
  }

  // ---------------------------------------------------------------- what may be done

  /** A key is put only where it is not stored, and counted only on its list and not when its value looks like a counter's. */
  ghost predicate CanDo(was: Seen, op: Op, listOf: bytes -> nat, room: nat) {
    match op
    case Put(r) => |r.key| + |r.val| + 8 < MEMORY_MAX - 2 * PAGE && was == NOTHING
    case Inc(key) =>
      && listOf(key) < LISTS_MAX && |key| + LINK_BYTES + 8 < MEMORY_MAX - 2 * PAGE
      && (was.list.Some? ==> was.list.value == listOf(key)) && was.tally + room < COUNT_MAX
      && (was.value.Some? ==> |was.value.value| != LINK_BYTES)
  }

  ghost predicate AllCanDo(t: Snapshot, ops: seq<Op>, listOf: bytes -> nat, n: nat) {
    n <= |ops| && forall i {:trigger ops[i]} :: n <= i < |ops| ==> CanDo(Look(t, KeyOf(ops[i])), ops[i], listOf, |ops| - n)
  }

  /** No key is put after another operation on it, nor counted after its put with a value that looks like a counter's. */
  ghost predicate InOrder(ops: seq<Op>) {
    forall i, j :: 0 <= i < j < |ops| && KeyOf(ops[i]) == KeyOf(ops[j]) ==>
      ops[j].Inc? && (ops[i].Put? ==> |ops[i].r.val| != LINK_BYTES)
  }

  ghost predicate Stepped(t: Snapshot, t': Snapshot, op: Op, result: nat, listOf: bytes -> nat) {
    && (forall key :: Look(t', key) == After(Look(t, key), op, result, listOf, key))
    && (op.Inc? && result != 0 ==> result == Look(t', op.key).tally)
  }

  lemma StillCanDo(was: Seen, first: Op, result: nat, op: Op, listOf: bytes -> nat, room: nat)
    requires room > 0 && CanDo(was, op, listOf, room) && (KeyOf(first) == KeyOf(op) ==> CanDo(was, first, listOf, room))
    requires KeyOf(first) == KeyOf(op) ==> op.Inc? && (first.Put? ==> |first.r.val| != LINK_BYTES)
    ensures CanDo(After(was, first, result, listOf, KeyOf(op)), op, listOf, room - 1)
  {
  }

  lemma AllStillCanDo(t: Snapshot, t': Snapshot, ops: seq<Op>, listOf: bytes -> nat, n: nat, result: nat)
    requires AllCanDo(t, ops, listOf, n) && n < |ops| && InOrder(ops) && Stepped(t, t', ops[n], result, listOf)
    ensures AllCanDo(t', ops, listOf, n + 1)
  {
    hide Look, CanDo, After;
    forall i | n + 1 <= i < |ops|
      ensures CanDo(Look(t', KeyOf(ops[i])), ops[i], listOf, |ops| - (n + 1))
    {
      StillCanDo(Look(t, KeyOf(ops[i])), ops[n], result, ops[i], listOf, |ops| - n);
    }
  }

  // ---------------------------------------------------------------- one operation

  /** A key of which nothing is seen is not stored. */
  lemma NothingStored(cdb: Instance, key: bytes)
    requires cdb.Valid() && Look(Snapshot(cdb.recs, cdb.C(), cdb.shape), key) == NOTHING
    ensures forall p :: p in cdb.recs ==> cdb.recs[p].key != key
  {
    TableIsFit(cdb);
    forall p | p in cdb.recs && cdb.recs[p].key == key
      ensures false
    {
      PosOfIs(cdb.recs, p);
      if p in cdb.links {
        CountedOnce(cdb.C(), cdb.shape, p);
      }
    }
  }

  lemma CountedOnce(c: Counts, s: Shape, p: nat)
    requires Ok(c, s, 0) && p in c.links
    ensures CountOf(c, p) >= 1
  {
    hide FreeOk, ListsOk, Threaded;
    assert p != 0 && c.links[p].node in s.listOf;
    var i := KeyPlace(c, s, p, s.listOf[c.links[p].node]);
    hide Ok;
  }

  /** What is seen after a new record is put at an address that is not a counter's. */
  lemma PutLook(t: Snapshot, k: nat, r: Rec, uid: nat, listOf: bytes -> nat)
    requires KeysDistinct(t.recs) && KeysDistinct(t.recs[k := r]) && k !in t.recs && k != 0 && 0 !in t.recs && uid != UID_NONE
    requires forall q :: q in t.c.links ==> q in t.recs
    requires forall p :: p in t.recs ==> t.recs[p].key != r.key
    ensures Stepped(t, t.(recs := t.recs[k := r]), Put(r), uid, listOf)
  {
    hide KeysDistinct, CountOf, ListOf;
    forall key
      ensures Look(t.(recs := t.recs[k := r]), key) == After(Look(t, key), Put(r), uid, listOf, key)
    {
      if key == r.key {
        PosOfIs(t.recs[k := r], k);
        NotCounted(t.c, t.s, k);
      } else {
        PosSame(t.recs, t.recs[k := r], key);
        PosIsOf(t.recs, key);
        hide PosOf;
      }
    }
  }

  lemma NotCounted(c: Counts, s: Shape, p: nat)
    requires p !in c.links
    ensures CountOf(c, p) == 0 && ListOf(c, s, p) == None
  {
  }

  lemma NothingDone(t: Snapshot, op: Op, result: nat, listOf: bytes -> nat)
    requires Failed(op, result)
    ensures Stepped(t, t, op, result, listOf)
  {
    hide Look;
  }

  lemma IncLook(t: Snapshot, t': Snapshot, key: bytes, listOf: bytes -> nat, count: nat)
    requires CdbRuns.Stepped(t.recs, t.c, t.s, t'.recs, t'.c, t'.s, key, listOf(key), count)
    requires ValueIn(t.recs, t.c.links, key).Some? ==> count == 0
    ensures Stepped(t, t', Inc(key), count, listOf)
  {
    hide TallyIn, ListIn, ValueIn;
    if count != 0 {
      CountedHasNoValue(t'.recs, t'.c, key);
    }
    forall k
      ensures Look(t', k) == After(Look(t, k), Inc(key), count, listOf, k)
    {
      if k != key {
        assert KeyKept(t.recs, t.c, t.s, t'.recs, t'.c, t'.s, k);
      }
    }
  }

  method DoPut(cdb: Instance, r: Rec, listOf: bytes -> nat, ghost room: nat) returns (uid: nat)
    requires cdb.Valid() && CanDo(Look(Snapshot(cdb.recs, cdb.C(), cdb.shape), r.key), Put(r), listOf, room)
    modifies cdb
    ensures cdb.Valid() && cdb.countsPages == old(cdb.countsPages)
    ensures Stepped(Snapshot(old(cdb.recs), old(cdb.C()), old(cdb.shape)), Snapshot(cdb.recs, cdb.C(), cdb.shape), Put(r), uid, listOf)
    ensures uid != UID_NONE ==> UidIn(cdb.hash, cdb.recs, cdb.slot, r.key) == Some(uid)
    ensures SlotsKept(old(cdb.recs), old(cdb.slot), cdb.recs, cdb.slot)
    ensures |cdb.kvdata| >= |old(cdb.kvdata)| && StaysFull(old(cdb.index), old(cdb.sheets), cdb.index, cdb.sheets)
    ensures uid == UID_NONE ==> |cdb.kvdata| == |old(cdb.kvdata)|
    ensures |cdb.kvdata| < |old(cdb.kvdata)| + RecordMost(|r.key|, |r.val|) + 2 * PAGE
    ensures uid == UID_NONE ==> NoPlace(|cdb.kvdata|, cdb.kvdataMaximum, cdb.hash, cdb.index, cdb.sheets, r.key, |r.val|)
  {
    hide cdb.TableOk, Ok, Look, Stepped, StoredIn, UidIn, SameLookup, KeysDistinct, StaysFull, NoPlace, SlotsKept;
    ghost var t, k := Snapshot(cdb.recs, cdb.C(), cdb.shape), cdb.kvdataUsed;
    NothingStored(cdb, r.key);
    cdb.TableFacts();
    uid := PutNext(cdb, r);
    cdb.TableFacts();
    if uid == UID_NONE {
      NothingDone(t, Put(r), uid, listOf);
    } else {
      PutLook(t, k, r, uid, listOf);
    }
  }

  method DoInc(cdb: Instance, key: bytes, listOf: bytes -> nat, ghost room: nat) returns (count: nat)
    requires cdb.Valid() && CanDo(Look(Snapshot(cdb.recs, cdb.C(), cdb.shape), key), Inc(key), listOf, room)
    requires room > 0 && cdb.countsPages + 1 < PAGES_MAX
    modifies cdb
    ensures cdb.Valid() && cdb.countsPages <= old(cdb.countsPages) + 1
    ensures Stepped(Snapshot(old(cdb.recs), old(cdb.C()), old(cdb.shape)), Snapshot(cdb.recs, cdb.C(), cdb.shape), Inc(key), count, listOf)
    ensures SlotsKept(old(cdb.recs), old(cdb.slot), cdb.recs, cdb.slot)
    ensures |cdb.kvdata| >= |old(cdb.kvdata)| && StaysFull(old(cdb.index), old(cdb.sheets), cdb.index, cdb.sheets)
    ensures count == 0 ==> |cdb.kvdata| == |old(cdb.kvdata)|
    ensures |cdb.kvdata| < |old(cdb.kvdata)| + RecordMost(|key|, LINK_BYTES) + 2 * PAGE
    ensures count == 0 ==>
      || Look(Snapshot(old(cdb.recs), old(cdb.C()), old(cdb.shape)), key).value.Some?
      || NoPlace(|cdb.kvdata|, cdb.kvdataMaximum, cdb.hash, cdb.index, cdb.sheets, key, LINK_BYTES)
  {
    hide cdb.Valid, TallyIn, ListIn, ValueIn, CdbRuns.Stepped, Stepped, StaysFull, NoPlace, SlotsKept;
    ghost var t := Snapshot(cdb.recs, cdb.C(), cdb.shape);
    assert CanCount(t.recs, t.c, t.s, key, listOf(key), room);
    count := IncNext(cdb, key, listOf(key), room);
    IncLook(t, Snapshot(cdb.recs, cdb.C(), cdb.shape), key, listOf, count);
  }

  // ---------------------------------------------------------------- runs

  /** Every key is seen as the operations that did not fail have left it. */
  ghost predicate AllSeen(t: Snapshot, t': Snapshot, ops: seq<Op>, results: seq<nat>, listOf: bytes -> nat) {
    && |results| <= |ops|
    && forall key :: Look(t', key) == AfterAll(Look(t, key), ops, results, listOf, |results|, key)
  }

  /** Each increment that did not fail returned how often its key had been counted by then. */
  ghost predicate AllReturned(t: Snapshot, ops: seq<Op>, results: seq<nat>, listOf: bytes -> nat) {
    && |results| <= |ops|
    && forall i {:trigger results[i]} :: 0 <= i < |results| && ops[i].Inc? && results[i] != 0 ==>
         results[i] == AfterAll(Look(t, ops[i].key), ops, results, listOf, i + 1, ops[i].key).tally
  }

  /** Each put that did not fail returned the uid at which its key is found. */
  ghost predicate AllAtUids(hash: bytes -> Hash, recs: map<nat, Rec>, slot: map<nat, Slot>, ops: seq<Op>, results: seq<nat>) {
    && |results| <= |ops|
    && forall i {:trigger results[i]} :: 0 <= i < |results| && ops[i].Put? && results[i] != UID_NONE ==>
         UidIn(hash, recs, slot, ops[i].r.key) == Some(results[i])
  }

  /** An operation that failed was an increment of a key with a value, or of a key for which there is no place any more. */
  ghost predicate AllExcused(t: Snapshot, size: nat, maximum: nat, hash: bytes -> Hash, index: seq<nat>, sheets: seq<Sheet>,
                             ops: seq<Op>, results: seq<nat>, listOf: bytes -> nat) {
    && |results| <= |ops|
    && forall i {:trigger results[i]} :: 0 <= i < |results| && Failed(ops[i], results[i]) ==>
         || (ops[i].Inc? && AfterAll(Look(t, ops[i].key), ops, results, listOf, i, ops[i].key).value.Some?)
         || NoPlace(size, maximum, hash, index, sheets, KeyOf(ops[i]), ValLen(ops[i]))
  }

  /** The same by the lengths, and no room otherwise than by full rows. */
  ghost predicate AllRefused(t: Snapshot, size: nat, maximum: nat, hash: bytes -> Hash, index: seq<nat>, sheets: seq<Sheet>,
                             ops: seq<Op>, results: seq<nat>, listOf: bytes -> nat) {
    && |results| <= |ops|
    && forall i {:trigger results[i]} :: 0 <= i < |results| && Failed(ops[i], results[i]) ==>
         || (ops[i].Inc? && AfterAll(Look(t, ops[i].key), ops, results, listOf, i, ops[i].key).value.Some?)
         || Refused(size, maximum, hash, index, sheets, KeyOf(ops[i]), ValLen(ops[i]))
  }

  lemma ExcusedIsRefused(t: Snapshot, size: nat, maximum: nat, hash: bytes -> Hash, index: seq<nat>, sheets: seq<Sheet>,
                         ops: seq<Op>, results: seq<nat>, listOf: bytes -> nat)
    requires AllExcused(t, size, maximum, hash, index, sheets, ops, results, listOf)
    ensures AllRefused(t, size, maximum, hash, index, sheets, ops, results, listOf)
  {
    hide Look, AfterAll, NoPlace, Refused, Failed;
    forall i | 0 <= i < |results| && Failed(ops[i], results[i])
      ensures || (ops[i].Inc? && AfterAll(Look(t, ops[i].key), ops, results, listOf, i, ops[i].key).value.Some?)
              || Refused(size, maximum, hash, index, sheets, KeyOf(ops[i]), ValLen(ops[i]))
    {
      assert results[i] == results[i];
      if NoPlace(size, maximum, hash, index, sheets, KeyOf(ops[i]), ValLen(ops[i])) {
        NoPlaceIsRefused(size, maximum, hash, index, sheets, KeyOf(ops[i]), ValLen(ops[i]));
      }
    }
  }

  /** The bytes that an operation takes at most, and that the first `n` of a run do; those that failed take none. */
  function Most(op: Op): nat {
    RecordMost(|KeyOf(op)|, ValLen(op)) + 2 * PAGE
  }

  function Taken(ops: seq<Op>, results: seq<nat>, n: nat): nat
    requires n <= |results| <= |ops|
  {
    if n == 0 then 0 else Taken(ops, results, n - 1) + if Failed(ops[n - 1], results[n - 1]) then 0 else Most(ops[n - 1])
  }

  function MostOfAll(ops: seq<Op>, n: nat): nat
    requires n <= |ops|
  {
    if n == 0 then 0 else MostOfAll(ops, n - 1) + Most(ops[n - 1])
  }

  lemma {:induction false} TakenPrefix(ops: seq<Op>, results: seq<nat>, result: nat, n: nat)
    requires n <= |results| < |ops|
    ensures Taken(ops, results + [result], n) == Taken(ops, results, n)
  {
    if n > 0 {
      TakenPrefix(ops, results, result, n - 1);
    }
  }

  lemma {:induction false} TakenBelow(ops: seq<Op>, results: seq<nat>, n: nat, i: nat)
    requires n <= |results| <= |ops| && i < n && Failed(ops[i], results[i])
    ensures Taken(ops, results, n) + Most(ops[i]) <= MostOfAll(ops, n)
  {
    hide Most;
    if i < n - 1 {
      TakenBelow(ops, results, n - 1, i);
    } else {
      TakenNoMore(ops, results, i);
    }
  }

  lemma {:induction false} TakenNoMore(ops: seq<Op>, results: seq<nat>, n: nat)
    requires n <= |results| <= |ops|
    ensures Taken(ops, results, n) <= MostOfAll(ops, n)
  {
    hide Most;
    if n > 0 {
      TakenNoMore(ops, results, n - 1);
    }
  }

  /**
   * When the lengths leave room for all of a run and there is no maximum, an operation fails only for a key with a value,
   * or with both rows of its key full and no sheet left.
   */
  lemma FailsOnlyFull(t: Snapshot, size0: nat, size: nat, hash: bytes -> Hash, index: seq<nat>, sheets: seq<Sheet>,
                      ops: seq<Op>, results: seq<nat>, listOf: bytes -> nat, i: nat)
    requires AllRefused(t, size, 0, hash, index, sheets, ops, results, listOf) && |results| == |ops|
    requires size <= size0 + Taken(ops, results, |results|) && size0 + MostOfAll(ops, |ops|) < MEMORY_MAX
    requires i < |results| && Failed(ops[i], results[i]) && 1 <= |KeyOf(ops[i])| <= KEY_MAX && ValLen(ops[i]) <= VAL_MAX
    ensures || (ops[i].Inc? && AfterAll(Look(t, ops[i].key), ops, results, listOf, i, ops[i].key).value.Some?)
            || RowsFull(hash(KeyOf(ops[i])), index, sheets)
  {
    hide Look, AfterAll, RowsFull, Taken, MostOfAll, Failed;
    assert results[i] == results[i];
    TakenBelow(ops, results, |ops|, i);
  }

  lemma SeenStep(t: Snapshot, t1: Snapshot, t2: Snapshot, ops: seq<Op>, results: seq<nat>, listOf: bytes -> nat, result: nat)
    requires AllSeen(t, t1, ops, results, listOf) && |results| < |ops| && Stepped(t1, t2, ops[|results|], result, listOf)
    ensures AllSeen(t, t2, ops, results + [result], listOf)
  {
    hide Look, After;
    forall key
      ensures Look(t2, key) == AfterAll(Look(t, key), ops, results + [result], listOf, |results| + 1, key)
    {
      AfterPrefix(Look(t, key), ops, results, result, listOf, |results|, key);
    }
  }

  lemma ReturnedStep(t: Snapshot, t1: Snapshot, t2: Snapshot, ops: seq<Op>, results: seq<nat>, listOf: bytes -> nat, result: nat)
    requires AllReturned(t, ops, results, listOf) && |results| < |ops| && AllSeen(t, t2, ops, results + [result], listOf)
    requires Stepped(t1, t2, ops[|results|], result, listOf)
    ensures AllReturned(t, ops, results + [result], listOf)
  {
    hide Look, After, AfterAll;
    forall i | 0 <= i < |results| + 1 && ops[i].Inc? && (results + [result])[i] != 0
      ensures (results + [result])[i] == AfterAll(Look(t, ops[i].key), ops, results + [result], listOf, i + 1, ops[i].key).tally
    {
      if i < |results| {
        AfterPrefix(Look(t, ops[i].key), ops, results, result, listOf, i + 1, ops[i].key);
        assert results[i] == (results + [result])[i];
      }
    }
  }

  lemma UidsStep(hash: bytes -> Hash, recs: map<nat, Rec>, slot: map<nat, Slot>, recs': map<nat, Rec>, slot': map<nat, Slot>,
                 ops: seq<Op>, results: seq<nat>, result: nat)
    requires AllAtUids(hash, recs, slot, ops, results) && |results| < |ops| && UidsKept(hash, recs, slot, recs', slot')
    requires ops[|results|].Put? && result != UID_NONE ==> UidIn(hash, recs', slot', ops[|results|].r.key) == Some(result)
    ensures AllAtUids(hash, recs', slot', ops, results + [result])
  {
    hide UidIn;
    forall i | 0 <= i < |results| + 1 && ops[i].Put? && (results + [result])[i] != UID_NONE
      ensures UidIn(hash, recs', slot', ops[i].r.key) == Some((results + [result])[i])
    {
      assert i < |results| ==> results[i] == (results + [result])[i];
    }
  }

  lemma ExcusedStep(t: Snapshot, t1: Snapshot, maximum: nat, hash: bytes -> Hash, size: nat, index: seq<nat>, sheets: seq<Sheet>,
                    size': nat, index': seq<nat>, sheets': seq<Sheet>, ops: seq<Op>, results: seq<nat>, listOf: bytes -> nat, result: nat)
    requires AllExcused(t, size, maximum, hash, index, sheets, ops, results, listOf) && |results| < |ops|
    requires AllSeen(t, t1, ops, results, listOf) && size' >= size && StaysFull(index, sheets, index', sheets')
    requires Failed(ops[|results|], result) ==>
      || (ops[|results|].Inc? && Look(t1, ops[|results|].key).value.Some?)
      || NoPlace(size', maximum, hash, index', sheets', KeyOf(ops[|results|]), ValLen(ops[|results|]))
    ensures AllExcused(t, size', maximum, hash, index', sheets', ops, results + [result], listOf)
  {
    hide Look, AfterAll, NoPlace, StaysFull, Failed;
    var n, results' := |results|, results + [result];
    forall i | 0 <= i < n + 1 && Failed(ops[i], results'[i])
      ensures || (ops[i].Inc? && AfterAll(Look(t, ops[i].key), ops, results', listOf, i, ops[i].key).value.Some?)
              || NoPlace(size', maximum, hash, index', sheets', KeyOf(ops[i]), ValLen(ops[i]))
    {
      AfterPrefix(Look(t, KeyOf(ops[i])), ops, results, result, listOf, i, KeyOf(ops[i]));
      if i < n {
        assert results[i] == results'[i];
        if NoPlace(size, maximum, hash, index, sheets, KeyOf(ops[i]), ValLen(ops[i])) {
          StillNoPlace(size, maximum, hash, index, sheets, size', index', sheets', KeyOf(ops[i]), ValLen(ops[i]));
        }
      }
    }
  }

  lemma NothingYet(cdb: Instance, ops: seq<Op>, listOf: bytes -> nat)
    requires cdb.Valid()
    ensures var t := Snapshot(cdb.recs, cdb.C(), cdb.shape);
      && AllSeen(t, t, ops, [], listOf) && AllReturned(t, ops, [], listOf) && AllAtUids(cdb.hash, cdb.recs, cdb.slot, ops, [])
      && AllExcused(t, |cdb.kvdata|, cdb.kvdataMaximum, cdb.hash, cdb.index, cdb.sheets, ops, [], listOf)
    ensures SlotsKept(cdb.recs, cdb.slot, cdb.recs, cdb.slot)
  {
    hide cdb.Valid, Look;
  }

  /** Puts and increments keys in any order. */
  method DoAll(cdb: Instance, ops: seq<Op>, listOf: bytes -> nat) returns (results: seq<nat>)
    requires cdb.Valid() && cdb.countsPages + |ops| < PAGES_MAX
    requires InOrder(ops) && AllCanDo(Snapshot(cdb.recs, cdb.C(), cdb.shape), ops, listOf, 0)
    modifies cdb
    ensures cdb.Valid() && |results| == |ops|
    ensures var t := Snapshot(old(cdb.recs), old(cdb.C()), old(cdb.shape));
      && AllSeen(t, Snapshot(cdb.recs, cdb.C(), cdb.shape), ops, results, listOf) && AllReturned(t, ops, results, listOf)
      && AllExcused(t, |cdb.kvdata|, cdb.kvdataMaximum, cdb.hash, cdb.index, cdb.sheets, ops, results, listOf)
      && AllRefused(t, |cdb.kvdata|, cdb.kvdataMaximum, cdb.hash, cdb.index, cdb.sheets, ops, results, listOf)
    ensures |cdb.kvdata| <= |old(cdb.kvdata)| + Taken(ops, results, |results|)
    ensures AllAtUids(cdb.hash, cdb.recs, cdb.slot, ops, results)
    ensures UidsKept(cdb.hash, old(cdb.recs), old(cdb.slot), cdb.recs, cdb.slot)
  {
    hide cdb.Valid, AllCanDo, CanDo, InOrder, Look, Stepped, AllSeen, AllReturned, AllAtUids, AllExcused, AllRefused, UidsKept, UidIn, SlotsKept, NoPlace, StaysFull;
    ghost var t, recs0, slot0 := Snapshot(cdb.recs, cdb.C(), cdb.shape), cdb.recs, cdb.slot;
    results := [];
    NothingYet(cdb, ops, listOf);
    TableIsFit(cdb);
    while |results| < |ops|
      invariant cdb.Valid() && |results| <= |ops| && cdb.countsPages + (|ops| - |results|) < PAGES_MAX
      invariant AllCanDo(Snapshot(cdb.recs, cdb.C(), cdb.shape), ops, listOf, |results|)
      invariant AllSeen(t, Snapshot(cdb.recs, cdb.C(), cdb.shape), ops, results, listOf) && AllReturned(t, ops, results, listOf)
      invariant AllExcused(t, |cdb.kvdata|, cdb.kvdataMaximum, cdb.hash, cdb.index, cdb.sheets, ops, results, listOf)
      invariant AllAtUids(cdb.hash, cdb.recs, cdb.slot, ops, results) && SlotsKept(recs0, slot0, cdb.recs, cdb.slot)
      invariant |cdb.kvdata| <= |old(cdb.kvdata)| + Taken(ops, results, |results|)
    {
      ghost var t1 := Snapshot(cdb.recs, cdb.C(), cdb.shape);
      ghost var size1, index1, sheets1, slot1 := |cdb.kvdata|, cdb.index, cdb.sheets, cdb.slot;
      var op := ops[|results|];
      TableIsFit(cdb);
      var result := DoNext(cdb, ops, |results|, listOf);
      ghost var t2 := Snapshot(cdb.recs, cdb.C(), cdb.shape);
      TableIsFit(cdb);
      AllStillCanDo(t1, t2, ops, listOf, |results|, result);
      ExcusedStep(t, t1, cdb.kvdataMaximum, cdb.hash, size1, index1, sheets1, |cdb.kvdata|, cdb.index, cdb.sheets, ops, results, listOf, result);
      SeenStep(t, t1, t2, ops, results, listOf, result);
      ReturnedStep(t, t1, t2, ops, results, listOf, result);
      SlotsKeepUids(cdb.hash, t1.recs, slot1, cdb.recs, cdb.slot);
      UidsStep(cdb.hash, t1.recs, slot1, cdb.recs, cdb.slot, ops, results, result);
      SlotsTwice(recs0, slot0, t1.recs, slot1, cdb.recs, cdb.slot);
      TakenPrefix(ops, results, result, |results|);
      results := results + [result];
    }
    TableIsFit(cdb);
    ExcusedIsRefused(t, |cdb.kvdata|, cdb.kvdataMaximum, cdb.hash, cdb.index, cdb.sheets, ops, results, listOf);
    SlotsKeepUids(cdb.hash, recs0, slot0, cdb.recs, cdb.slot);
  }

  /** The operation that is next in a run. */
  method DoNext(cdb: Instance, ops: seq<Op>, n: nat, listOf: bytes -> nat) returns (result: nat)
    requires cdb.Valid() && n < |ops| && AllCanDo(Snapshot(cdb.recs, cdb.C(), cdb.shape), ops, listOf, n)
    requires cdb.countsPages + 1 < PAGES_MAX
    modifies cdb
    ensures cdb.Valid() && cdb.countsPages <= old(cdb.countsPages) + 1
    ensures Stepped(Snapshot(old(cdb.recs), old(cdb.C()), old(cdb.shape)), Snapshot(cdb.recs, cdb.C(), cdb.shape), ops[n], result, listOf)
    ensures ops[n].Put? && result != UID_NONE ==> UidIn(cdb.hash, cdb.recs, cdb.slot, ops[n].r.key) == Some(result)
    ensures SlotsKept(old(cdb.recs), old(cdb.slot), cdb.recs, cdb.slot)
    ensures |cdb.kvdata| >= |old(cdb.kvdata)| && StaysFull(old(cdb.index), old(cdb.sheets), cdb.index, cdb.sheets)
    ensures Failed(ops[n], result) ==> |cdb.kvdata| == |old(cdb.kvdata)|
    ensures |cdb.kvdata| < |old(cdb.kvdata)| + RecordMost(|KeyOf(ops[n])|, ValLen(ops[n])) + 2 * PAGE
    ensures Failed(ops[n], result) ==>
      || (ops[n].Inc? && Look(Snapshot(old(cdb.recs), old(cdb.C()), old(cdb.shape)), ops[n].key).value.Some?)
      || NoPlace(|cdb.kvdata|, cdb.kvdataMaximum, cdb.hash, cdb.index, cdb.sheets, KeyOf(ops[n]), ValLen(ops[n]))
  {
    hide cdb.Valid, CanDo, Look, Stepped, UidIn, SlotsKept, NoPlace, StaysFull;
    match ops[n]
    case Put(r) => result := DoPut(cdb, r, listOf, |ops| - n);
    case Inc(key) => result := DoInc(cdb, key, listOf, |ops| - n);
  }
}
