/** Looking keys and uids up in an sxe-cdb instance, and runs of puts. */
module CdbLookup {
  import opened Bytes
  import opened CdbHkv
  import opened CdbStore
  import opened CdbIndex
  import opened CdbCounts
  import opened CdbInstance

  /** What is stored under a key, and the key's uid. */
  ghost function StoredIn(recs: map<nat, Rec>, key: bytes): Option<bytes> {
    var p := PosOf(recs, key);
    if p in recs then Some(recs[p].val) else None
  }

  ghost function UidIn(hash: bytes -> Hash, recs: map<nat, Rec>, slot: map<nat, Slot>, key: bytes): Option<nat> {
    var p := PosOf(recs, key);
    if p in recs && p in slot && slot[p].row < ROWS && slot[p].cell < CELLS then Some(UidOf(hash(key), slot[p])) else None
  }

  /** The value of a record, read out of the memory. */
  function ValueAt(kv: bytes, p: nat): bytes
    requires p < |kv| && p + StoredHeaderLen(kv[p]) <= |kv|
    requires var u := Unpack(kv, p); p + u.headerLen + u.keyLen + u.valLen <= |kv|
  {
    var u := Unpack(kv, p);
    var v := p + u.headerLen + u.keyLen;
    kv[v..v + u.valLen]
  }

  lemma ReadValue(kv: bytes, used: nat, recs: map<nat, Rec>, p: nat)
    requires StoreOk(kv, used, recs) && p in recs
    ensures p < |kv| && p + StoredHeaderLen(kv[p]) <= |kv|
    ensures var u := Unpack(kv, p); p + u.headerLen + u.keyLen + u.valLen <= |kv|
    ensures ValueAt(kv, p) == recs[p].val
  {
    hide *;
    IsStored(kv, used, recs, p);
    ReadRecord(kv, p, recs[p]);
  }

  lemma IsStored(kv: bytes, used: nat, recs: map<nat, Rec>, p: nat)
    requires StoreOk(kv, used, recs) && p in recs
    ensures RecAt(kv, p, recs[p])
  {
    hide RecAt;
  }

  lemma ReadRecord(kv: bytes, p: nat, r: Rec)
    requires RecAt(kv, p, r)
    ensures p < |kv| && p + StoredHeaderLen(kv[p]) <= |kv|
    ensures var u := Unpack(kv, p); p + u.headerLen + u.keyLen + u.valLen <= |kv|
    ensures ValueAt(kv, p) == r.val
  {
    UnpackStored(kv, p, r);
    hide RecAt, Unpack, Size, HeaderLen, StoredHeaderLen;
  }

  /** The position of the record of `key`, or 0: the raw lookup. */
  lemma NowhereStored(recs: map<nat, Rec>, key: bytes)
    requires 0 !in recs && forall p :: p in recs ==> recs[p].key != key
    ensures PosOf(recs, key) == 0 && StoredIn(recs, key).None?
  {
  }

  method GetHkvRaw(cdb: Instance, key: bytes) returns (p: nat)
    requires cdb.TableOk()
    ensures p == PosOf(cdb.recs, key)
    ensures p == 0 <==> StoredIn(cdb.recs, key).None?
    ensures p != 0 ==> p in cdb.recs && cdb.recs[p].key == key && StoredIn(cdb.recs, key) == Some(cdb.recs[p].val)
  {
    hide cdb.TableOk, KeysDistinct, PosOf;
    var at, pos := cdb.Find(key);
    cdb.TableFacts();
    if at.None? {
      NowhereStored(cdb.recs, key);
      return 0;
    }
    PosOfIs(cdb.recs, pos);
    return pos;
  }

  /** The value stored under `key`, none when the key is absent. */
  method Get(cdb: Instance, key: bytes) returns (val: Option<bytes>)
    requires cdb.TableOk()
    ensures val == StoredIn(cdb.recs, key)
  {
    hide StoreOk, IndexOk, LinksOk;
    var p := GetHkvRaw(cdb, key);
    if p == 0 {
      return None;
    }
    ReadValue(cdb.kvdata, cdb.kvdataUsed, cdb.recs, p);
    val := Some(ValueAt(cdb.kvdata, p));
  }

  /** The uid of a key, `UID_NONE` when the key is absent. */
  method GetUid(cdb: Instance, key: bytes) returns (uid: nat)
    requires cdb.TableOk()
    ensures uid == match UidIn(cdb.hash, cdb.recs, cdb.slot, key) case None => UID_NONE case Some(u) => u
    ensures uid == UID_NONE <==> StoredIn(cdb.recs, key).None?
  {
    hide StoreOk, LinksOk;
    var at, pos := cdb.Find(key);
    cdb.TableFacts();
    if at.None? {
      hide IndexOk, KeysDistinct;
      return UID_NONE;
    }
    IndexedAt(cdb.hash, cdb.index, cdb.sheets, cdb.recs, cdb.slot, pos);
    hide IndexOk;
    PosOfIs(cdb.recs, pos);
    hide KeysDistinct, PosOf;
    UidParts(IndexOf(cdb.hash(key)), at.value.row, at.value.cell);
    uid := UidOf(cdb.hash(key), at.value);
  }

  /** The record that the cell of a uid points at, 0 when that cell is not used. */
  method GetUidHkvRaw(cdb: Instance, uid: nat) returns (p: nat)
    requires cdb.TableOk() && UidIndex(uid) < SHEETS_MAX
    ensures p != 0 ==> p in cdb.recs
    ensures forall key {:trigger UidIn(cdb.hash, cdb.recs, cdb.slot, key)} ::
      UidIn(cdb.hash, cdb.recs, cdb.slot, key) == Some(uid) ==> p == PosOf(cdb.recs, key) && p != 0
  {
    hide StoreOk, LinksOk;
    var cell, row, sheet := UidCell(uid), UidRow(uid), cdb.index[UidIndex(uid)];
    SheetAt(cdb.hash, cdb.index, cdb.sheets, cdb.recs, cdb.slot, UidIndex(uid), row, cell);
    p := cdb.sheets[sheet][row][cell].pos;
    hide IndexOk, UidCell, UidRow, UidIndex;
    forall key | UidIn(cdb.hash, cdb.recs, cdb.slot, key) == Some(uid)
      ensures p == PosOf(cdb.recs, key) && p != 0
    {
      UidResolves(cdb.hash, cdb.index, cdb.sheets, cdb.recs, cdb.slot, key);
    }
  }

  lemma SheetAt(hash: bytes -> Hash, index: seq<nat>, sheets: seq<Sheet>, recs: map<nat, Rec>, slot: map<nat, Slot>,
                i: nat, r: nat, c: nat)
    requires IndexOk(hash, index, sheets, recs, slot) && i < SHEETS_MAX && r < ROWS && c < CELLS
    ensures |index| == SHEETS_MAX && InSheets(sheets, index[i], r, c)
    ensures var p := sheets[index[i]][r][c].pos; p != 0 ==> p in recs
  {
    hide RecsIndexed, KeysDistinct;
    assert SheetShape(sheets[index[i]]);
    assert CellOk(hash, index, recs, slot, index[i], r, c, sheets[index[i]][r][c]);
  }

  /** The cell that a key's uid names points at the key's record. */
  lemma UidResolves(hash: bytes -> Hash, index: seq<nat>, sheets: seq<Sheet>, recs: map<nat, Rec>, slot: map<nat, Slot>, key: bytes)
    requires IndexOk(hash, index, sheets, recs, slot) && UidIn(hash, recs, slot, key).Some?
    ensures var u := UidIn(hash, recs, slot, key).value;
      && UidIndex(u) < |index| && InSheets(sheets, index[UidIndex(u)], UidRow(u), UidCell(u))
      && sheets[index[UidIndex(u)]][UidRow(u)][UidCell(u)].pos == PosOf(recs, key) != 0
  {
    var p := PosOf(recs, key);
    IndexedAt(hash, index, sheets, recs, slot, p);
    assert recs[p].key == key by {
      hide RecsIndexed, CellsOk, Shaped;
    }
    hide IndexOk, PosOf;
    UidParts(IndexOf(hash(key)), slot[p].row, slot[p].cell);
    hide UidIndex, UidRow, UidCell, Uid;
  }

  /** Two stored keys have different uids. */
  lemma UidsDiffer(hash: bytes -> Hash, index: seq<nat>, sheets: seq<Sheet>, recs: map<nat, Rec>, slot: map<nat, Slot>,
                   key1: bytes, key2: bytes)
    requires IndexOk(hash, index, sheets, recs, slot) && key1 != key2
    requires StoredIn(recs, key1).Some? && StoredIn(recs, key2).Some?
    ensures UidIn(hash, recs, slot, key1).Some? && UidIn(hash, recs, slot, key2).Some?
    ensures UidIn(hash, recs, slot, key1) != UidIn(hash, recs, slot, key2)
  {
    IndexedAt(hash, index, sheets, recs, slot, PosOf(recs, key1));
    IndexedAt(hash, index, sheets, recs, slot, PosOf(recs, key2));
    if UidIn(hash, recs, slot, key1) == UidIn(hash, recs, slot, key2) {
      UidResolves(hash, index, sheets, recs, slot, key1);
      UidResolves(hash, index, sheets, recs, slot, key2);
    }
  }

  // ---------------------------------------------------------------- runs of puts

  /** What lookups see of a key. */
  ghost predicate SameLookup(hash: bytes -> Hash, recs: map<nat, Rec>, slot: map<nat, Slot>,
                             recs': map<nat, Rec>, slot': map<nat, Slot>, key: bytes) {
    StoredIn(recs', key) == StoredIn(recs, key) && UidIn(hash, recs', slot', key) == UidIn(hash, recs, slot, key)
  }

  /** A record appended: its key now has the value and the uid, and no other key changes. */
  lemma PutSeen(hash: bytes -> Hash, recs: map<nat, Rec>, slot: map<nat, Slot>, k: nat, r: Rec, at: Slot, key: bytes)
    requires KeysDistinct(recs) && KeysDistinct(recs[k := r]) && k !in recs && at.row < ROWS && at.cell < CELLS
    requires 0 !in recs && k != 0 && forall p :: p in recs ==> recs[p].key != r.key
    ensures key == r.key ==> StoredIn(recs[k := r], key) == Some(r.val) &&
                             UidIn(hash, recs[k := r], slot[k := at], key) == Some(UidOf(hash(key), at))
    ensures key != r.key ==> SameLookup(hash, recs, slot, recs[k := r], slot[k := at], key)
  {
    if key == r.key {
      PosOfIs(recs[k := r], k);
    } else {
      PosSame(recs, recs[k := r], key);
    }
    hide KeysDistinct;
  }

  /** How one put of a run went: uid `UID_NONE` for a put that failed and left its key absent. */
  ghost predicate PutSeenAs(hash: bytes -> Hash, recs: map<nat, Rec>, slot: map<nat, Slot>, r: Rec, uid: nat) {
    if uid == UID_NONE then StoredIn(recs, r.key).None?
    else StoredIn(recs, r.key) == Some(r.val) && UidIn(hash, recs, slot, r.key) == Some(uid)
  }

  /** `key` is none of the first `n` keys put. */
  ghost predicate KeyOutside(puts: seq<Rec>, n: nat, key: bytes) {
    n <= |puts| && forall i :: 0 <= i < n ==> puts[i].key != key
  }

  /** How a run of puts went: each put is seen, and no other key changed. */
  ghost predicate PutsSeen(hash: bytes -> Hash, recs: map<nat, Rec>, slot: map<nat, Slot>,
                           recs': map<nat, Rec>, slot': map<nat, Slot>, puts: seq<Rec>, uids: seq<nat>) {
    && |uids| <= |puts|
    && (forall i {:trigger uids[i]} :: 0 <= i < |uids| ==> PutSeenAs(hash, recs', slot', puts[i], uids[i]))
    && (forall key :: KeyOutside(puts, |uids|, key) ==> SameLookup(hash, recs, slot, recs', slot', key))
  }

  ghost predicate NewKeys(recs: map<nat, Rec>, puts: seq<Rec>) {
    && (forall i :: 0 <= i < |puts| ==> |puts[i].key| + |puts[i].val| + 8 < MEMORY_MAX - 2 * PAGE)
    && (forall i :: 0 <= i < |puts| ==> StoredIn(recs, puts[i].key).None?)
    && (forall i, j :: 0 <= i < j < |puts| ==> puts[i].key != puts[j].key)
  }

  lemma NewKeyFits(recs: map<nat, Rec>, puts: seq<Rec>, i: nat)
    requires NewKeys(recs, puts) && i < |puts|
    ensures |puts[i].key| + |puts[i].val| + 8 < MEMORY_MAX - 2 * PAGE
    ensures forall i, j :: 0 <= i < j < |puts| ==> puts[i].key != puts[j].key
  {
  }

  lemma NoneSeen(hash: bytes -> Hash, recs: map<nat, Rec>, slot: map<nat, Slot>, puts: seq<Rec>)
    ensures PutsSeen(hash, recs, slot, recs, slot, puts, [])
  {
    hide StoredIn, UidIn;
  }

  lemma NextAbsent(hash: bytes -> Hash, recs: map<nat, Rec>, slot: map<nat, Slot>,
                   recs': map<nat, Rec>, slot': map<nat, Slot>, puts: seq<Rec>, uids: seq<nat>)
    requires PutsSeen(hash, recs, slot, recs', slot', puts, uids) && NewKeys(recs, puts) && |uids| < |puts|
    requires KeysDistinct(recs') && 0 !in recs'
    ensures StoredIn(recs', puts[|uids|].key).None?
    ensures forall p :: p in recs' ==> recs'[p].key != puts[|uids|].key
  {
    var key := puts[|uids|].key;
    assert SameLookup(hash, recs, slot, recs', slot', key);
    hide UidIn;
    assert PosOf(recs', key) !in recs';
  }

  lemma PutFailed(hash: bytes -> Hash, recs: map<nat, Rec>, slot: map<nat, Slot>,
                  recs': map<nat, Rec>, slot': map<nat, Slot>, puts: seq<Rec>, uids: seq<nat>)
    requires PutsSeen(hash, recs, slot, recs', slot', puts, uids) && |uids| < |puts|
    requires StoredIn(recs', puts[|uids|].key).None?
    ensures PutsSeen(hash, recs, slot, recs', slot', puts, uids + [UID_NONE])
  {
    assert PutSeenAs(hash, recs', slot', puts[|uids|], UID_NONE);
    hide StoredIn, UidIn, SameLookup, PutSeenAs;
    hide KeyOutside;
    forall key | KeyOutside(puts, |uids + [UID_NONE]|, key)
      ensures SameLookup(hash, recs, slot, recs', slot', key)
    {
      OneMore(puts, |uids|, key);
    }
  }

  lemma OneMore(puts: seq<Rec>, n: nat, key: bytes)
    requires KeyOutside(puts, n + 1, key)
    ensures puts[n].key != key && KeyOutside(puts, n, key)
  {
  }

  lemma PutSeenKept(hash: bytes -> Hash, recs: map<nat, Rec>, slot: map<nat, Slot>,
                    recs': map<nat, Rec>, slot': map<nat, Slot>, r: Rec, uid: nat)
    requires PutSeenAs(hash, recs, slot, r, uid) && SameLookup(hash, recs, slot, recs', slot', r.key)
    ensures PutSeenAs(hash, recs', slot', r, uid)
  {
    hide StoredIn, UidIn;
  }

  lemma PutDone(hash: bytes -> Hash, recs: map<nat, Rec>, slot: map<nat, Slot>, recs1: map<nat, Rec>, slot1: map<nat, Slot>,
                recs2: map<nat, Rec>, slot2: map<nat, Slot>, puts: seq<Rec>, uids: seq<nat>, uid: nat)
    requires PutsSeen(hash, recs, slot, recs1, slot1, puts, uids) && |uids| < |puts|
    requires forall i, j :: 0 <= i < j < |puts| ==> puts[i].key != puts[j].key
    requires forall key :: key != puts[|uids|].key ==> SameLookup(hash, recs1, slot1, recs2, slot2, key)
    requires PutSeenAs(hash, recs2, slot2, puts[|uids|], uid)
    ensures PutsSeen(hash, recs, slot, recs2, slot2, puts, uids + [uid])
  {
    hide StoredIn, UidIn, PutSeenAs;
    var n, uids' := |uids|, uids + [uid];
    hide KeyOutside;
    forall i | 0 <= i < n
      ensures PutSeenAs(hash, recs2, slot2, puts[i], uids'[i])
    {
      assert uids'[i] == uids[i];
      PutSeenKept(hash, recs1, slot1, recs2, slot2, puts[i], uids[i]);
    }
    forall key | KeyOutside(puts, |uids'|, key)
      ensures SameLookup(hash, recs, slot, recs2, slot2, key)
    {
      OneMore(puts, n, key);
      assert SameLookup(hash, recs1, slot1, recs2, slot2, key);
    }
  }

  /** One put of a run. */
  method PutNext(cdb: Instance, r: Rec) returns (uid: nat)
    requires cdb.TableOk() && |r.key| + |r.val| + 8 < MEMORY_MAX - 2 * PAGE
    requires forall p :: p in cdb.recs ==> cdb.recs[p].key != r.key
    modifies cdb`sheets, cdb`index, cdb`kvdata, cdb`kvdataUsed, cdb`cellsUsed, cdb`recs, cdb`slot
    ensures cdb.TableOk()
    ensures uid == UID_NONE ==> cdb.recs == old(cdb.recs) && cdb.slot == old(cdb.slot)
    ensures uid != UID_NONE ==> old(cdb.kvdataUsed) !in old(cdb.recs) && cdb.recs == old(cdb.recs)[old(cdb.kvdataUsed) := r]
    ensures SlotsKept(old(cdb.recs), old(cdb.slot), cdb.recs, cdb.slot)
    ensures uid != UID_NONE ==> StoredIn(cdb.recs, r.key) == Some(r.val) && UidIn(cdb.hash, cdb.recs, cdb.slot, r.key) == Some(uid)
    ensures uid != UID_NONE ==>
      forall key :: key != r.key ==> SameLookup(cdb.hash, old(cdb.recs), old(cdb.slot), cdb.recs, cdb.slot, key)
    ensures |cdb.kvdata| >= |old(cdb.kvdata)| && StaysFull(old(cdb.index), old(cdb.sheets), cdb.index, cdb.sheets)
    ensures uid == UID_NONE ==> |cdb.kvdata| == |old(cdb.kvdata)|
    ensures |cdb.kvdata| < |old(cdb.kvdata)| + RecordMost(|r.key|, |r.val|) + 2 * PAGE
    ensures uid == UID_NONE ==> NoPlace(|cdb.kvdata|, cdb.kvdataMaximum, cdb.hash, cdb.index, cdb.sheets, r.key, |r.val|)
  {
    hide cdb.TableOk, StoredIn, UidIn, SameLookup, KeysDistinct, Balanced, RowsFull, StaysFull, UidOf, HeaderLen, NoMemory, NoPlace;
    ghost var recs0, slot0, k := cdb.recs, cdb.slot, cdb.kvdataUsed;
    ghost var size0, used0 := |cdb.kvdata|, cdb.kvdataUsed;
    cdb.TableFacts();
    uid := cdb.PutVal(r.key, r.val);
    MemoryTight(size0, cdb.kvdataMaximum, used0, |cdb.kvdata|, cdb.hash, cdb.index, cdb.sheets, r.key, |r.val|);
    cdb.TableFacts();
    if uid != UID_NONE {
      forall key
        ensures key == r.key ==> StoredIn(cdb.recs, key) == Some(r.val) && UidIn(cdb.hash, cdb.recs, cdb.slot, key) == Some(uid)
        ensures key != r.key ==> SameLookup(cdb.hash, recs0, slot0, cdb.recs, cdb.slot, key)
      {
        PutSeen(cdb.hash, recs0, slot0, k, r, cdb.slot[k], key);
      }
    }
  }

  /** A put that failed was of a record for which there is no place any more. */
  ghost predicate NonePutOff(size: nat, maximum: nat, hash: bytes -> Hash, index: seq<nat>, sheets: seq<Sheet>, puts: seq<Rec>, uids: seq<nat>) {
    && |uids| <= |puts|
    && forall i {:trigger uids[i]} :: 0 <= i < |uids| && uids[i] == UID_NONE ==>
         NoPlace(size, maximum, hash, index, sheets, puts[i].key, |puts[i].val|)
  }

  lemma NextPutOff(size: nat, maximum: nat, hash: bytes -> Hash, index: seq<nat>, sheets: seq<Sheet>,
                   size': nat, index': seq<nat>, sheets': seq<Sheet>, puts: seq<Rec>, uids: seq<nat>, uid: nat)
    requires NonePutOff(size, maximum, hash, index, sheets, puts, uids) && |uids| < |puts|
    requires size' >= size && StaysFull(index, sheets, index', sheets')
    requires uid == UID_NONE ==> NoPlace(size', maximum, hash, index', sheets', puts[|uids|].key, |puts[|uids|].val|)
    ensures NonePutOff(size', maximum, hash, index', sheets', puts, uids + [uid])
  {
    hide NoPlace, StaysFull;
    forall i | 0 <= i < |uids| + 1 && (uids + [uid])[i] == UID_NONE
      ensures NoPlace(size', maximum, hash, index', sheets', puts[i].key, |puts[i].val|)
    {
      if i < |uids| {
        assert uids[i] == UID_NONE;
        StillNoPlace(size, maximum, hash, index, sheets, size', index', sheets', puts[i].key, |puts[i].val|);
      }
    }
  }

  /** The bytes that the puts of a run take at most, those that failed taking none. */
  function Spent(puts: seq<Rec>, uids: seq<nat>, n: nat): nat
    requires n <= |uids| <= |puts|
  {
    if n == 0 then 0
    else Spent(puts, uids, n - 1) +
         if uids[n - 1] == UID_NONE then 0 else RecordMost(|puts[n - 1].key|, |puts[n - 1].val|) + 2 * PAGE
  }

  lemma {:induction false} SpentPrefix(puts: seq<Rec>, uids: seq<nat>, uid: nat, n: nat)
    requires n <= |uids| < |puts|
    ensures Spent(puts, uids + [uid], n) == Spent(puts, uids, n)
  {
    if n > 0 {
      SpentPrefix(puts, uids, uid, n - 1);
    }
  }

  /** A put that failed was one that the lengths, or full rows, do not allow. */
  ghost predicate OnlyRefused(size: nat, maximum: nat, hash: bytes -> Hash, index: seq<nat>, sheets: seq<Sheet>, puts: seq<Rec>, uids: seq<nat>) {
    && |uids| <= |puts|
    && forall i {:trigger uids[i]} :: 0 <= i < |uids| && uids[i] == UID_NONE ==>
         Refused(size, maximum, hash, index, sheets, puts[i].key, |puts[i].val|)
  }

  lemma PutOffIsRefused(size: nat, maximum: nat, hash: bytes -> Hash, index: seq<nat>, sheets: seq<Sheet>, puts: seq<Rec>, uids: seq<nat>)
    requires NonePutOff(size, maximum, hash, index, sheets, puts, uids)
    ensures OnlyRefused(size, maximum, hash, index, sheets, puts, uids)
  {
    hide NoPlace, Refused;
    forall i | 0 <= i < |uids| && uids[i] == UID_NONE
      ensures Refused(size, maximum, hash, index, sheets, puts[i].key, |puts[i].val|)
    {
      NoPlaceIsRefused(size, maximum, hash, index, sheets, puts[i].key, |puts[i].val|);
    }
  }

  /** Puts new keys one after the other. */
  method PutAll(cdb: Instance, puts: seq<Rec>) returns (uids: seq<nat>)
    requires cdb.TableOk() && NewKeys(cdb.recs, puts)
    modifies cdb`sheets, cdb`index, cdb`kvdata, cdb`kvdataUsed, cdb`cellsUsed, cdb`recs, cdb`slot
    ensures cdb.TableOk() && |uids| == |puts|
    ensures PutsSeen(cdb.hash, old(cdb.recs), old(cdb.slot), cdb.recs, cdb.slot, puts, uids)
    ensures NonePutOff(|cdb.kvdata|, cdb.kvdataMaximum, cdb.hash, cdb.index, cdb.sheets, puts, uids)
    ensures OnlyRefused(|cdb.kvdata|, cdb.kvdataMaximum, cdb.hash, cdb.index, cdb.sheets, puts, uids)
    ensures |cdb.kvdata| <= |old(cdb.kvdata)| + Spent(puts, uids, |uids|)
  {
    hide OnlyRefused, StoreOk, IndexOk, LinksOk, PutsSeen, NewKeys, StoredIn, UidIn, KeysDistinct, NoPlace, StaysFull;
    ghost var recs0, slot0 := cdb.recs, cdb.slot;
    uids := [];
    NoneSeen(cdb.hash, recs0, slot0, puts);
    while |uids| < |puts|
      invariant cdb.TableOk() && |uids| <= |puts|
      invariant PutsSeen(cdb.hash, recs0, slot0, cdb.recs, cdb.slot, puts, uids)
      invariant NonePutOff(|cdb.kvdata|, cdb.kvdataMaximum, cdb.hash, cdb.index, cdb.sheets, puts, uids)
      invariant |cdb.kvdata| <= |old(cdb.kvdata)| + Spent(puts, uids, |uids|)
    {
      cdb.TableFacts();
      NextAbsent(cdb.hash, recs0, slot0, cdb.recs, cdb.slot, puts, uids);
      NewKeyFits(recs0, puts, |uids|);
      ghost var recs1, slot1, size1, index1, sheets1 := cdb.recs, cdb.slot, |cdb.kvdata|, cdb.index, cdb.sheets;
      var uid := PutNext(cdb, puts[|uids|]);
      NextPutOff(size1, cdb.kvdataMaximum, cdb.hash, index1, sheets1, |cdb.kvdata|, cdb.index, cdb.sheets, puts, uids, uid);
      if uid != UID_NONE {
        assert PutSeenAs(cdb.hash, cdb.recs, cdb.slot, puts[|uids|], uid);
        hide PutSeenAs;
        PutDone(cdb.hash, recs0, slot0, recs1, slot1, cdb.recs, cdb.slot, puts, uids, uid);
      } else {
        PutFailed(cdb.hash, recs0, slot0, cdb.recs, cdb.slot, puts, uids);
      }
      SpentPrefix(puts, uids, uid, |uids|);
      uids := uids + [uid];
    }
    PutOffIsRefused(|cdb.kvdata|, cdb.kvdataMaximum, cdb.hash, cdb.index, cdb.sheets, puts, uids);
  }
}
