/** An sxe-cdb instance: the sheets, the kvdata memory and the counts of one append-only hash table. */
module CdbInstance {
  import opened Bytes
  import opened Seqs
  import opened CdbHkv
  import opened CdbStore
  import opened CdbIndex
  import opened CdbCounts

  const MEMORY_MAX: nat := 0x1_0000_0000
  const PAGES_MAX: nat := 0x10_0000
  const COUNT_MAX: nat := 0x1_0000_0000_0000

  /** The number of count nodes that fit in `pages` pages; node 0 is never used. */
  function NodesIn(pages: nat): nat {
    PAGE * pages / COUNT_BYTES
  }

  /** Nodes of 18 bytes fill pages of 4096 up to less than one more node. */
  lemma NodesFillPages(pages: nat)
    ensures 18 * NodesIn(pages) <= 4096 * pages < 18 * (NodesIn(pages) + 1)
  {
  }

  function EmptySheet(): (s: Sheet)
    ensures SheetShape(s)
    ensures forall r, c {:trigger s[r][c]} :: 0 <= r < ROWS && 0 <= c < CELLS ==> s[r][c] == Cell(0, 0, 0)
  {
    seq(ROWS, _ => seq(CELLS, _ => Cell(0, 0, 0)))
  }

  // ---------------------------------------------------------------- uids

  /** The packed uid: 8 bits of instance (0 here), 16 of sheet index, 12 of row and 4 of cell. */
  function Uid(i: nat, r: nat, c: nat): (u: nat)
    requires i < 0x1_0000 && r < ROWS && c < CELLS
    ensures u < 0x100_0000_0000
  {
    0x100 * i + 0x100_0000 * r + 0x10_0000_0000 * c
  }

  const UID_NONE: nat := 0xffff_ffff_ffff_ffff

  function UidIndex(u: nat): nat { u / 0x100 % 0x1_0000 }
  function UidRow(u: nat): nat { u / 0x100_0000 % ROWS }
  function UidCell(u: nat): nat { u / 0x10_0000_0000 % CELLS }

  lemma UidParts(i: nat, r: nat, c: nat)
    requires i < 0x1_0000 && r < ROWS && c < CELLS
    ensures var u := Uid(i, r, c);
      UidIndex(u) == i && UidRow(u) == r && UidCell(u) == c && u != UID_NONE
  {
    var u := Uid(i, r, c);
    assert u / 0x100 == i + 0x1_0000 * (r + ROWS * c);
    assert u / 0x100_0000 == r + ROWS * c;
    assert u / 0x10_0000_0000 == c;
  }

  /** The uid of a record: the sheet index its key hashes to, and its slot. */
  function UidOf(h: Hash, at: Slot): nat
    requires at.row < ROWS && at.cell < CELLS
  {
    Uid(IndexOf(h), at.row, at.cell)
  }

  // ---------------------------------------------------------------- looking a key up

  /** The key of the record at `pos` is `key`: same length, then same bytes. */
  predicate KeyAt(kv: bytes, pos: nat, key: bytes) {
    && pos < |kv| && pos + StoredHeaderLen(kv[pos]) <= |kv|
    && var p := Unpack(kv, pos);
       var k := pos + p.headerLen;
       p.keyLen == |key| && k + |key| <= |kv| && kv[k..k + |key|] == key
  }

  /** The test of one cell in a lookup. */
  predicate Hit(kv: bytes, x: Cell, h: Hash, key: bytes) {
    x.lo == h.lo && x.hi == h.hi && x.pos != 0 && KeyAt(kv, x.pos, key)
  }

  lemma KeyAtIs(kv: bytes, pos: nat, r: Rec, key: bytes)
    requires RecAt(kv, pos, r)
    ensures KeyAt(kv, pos, key) <==> r.key == key
  {
    hide RecAt, Unpack, HeaderLen;
    UnpackStored(kv, pos, r);
    if |r.key| == |key| {
      assert kv[pos + HeaderLen(|r.key|, |r.val|)..pos + HeaderLen(|r.key|, |r.val|) + |key|] == r.key;
    }
  }

  /** A cell that passes the test points at the record with the key. */
  lemma HitFinds(hash: bytes -> Hash, index: seq<nat>, sheets: seq<Sheet>, kv: bytes, used: nat,
                 recs: map<nat, Rec>, slot: map<nat, Slot>, key: bytes, r: nat, c: nat)
    requires IndexOk(hash, index, sheets, recs, slot) && StoreOk(kv, used, recs)
    requires r < ROWS && c < CELLS
    ensures IndexOf(hash(key)) < |index| && InSheets(sheets, index[IndexOf(hash(key))], r, c)
    ensures var x := sheets[index[IndexOf(hash(key))]][r][c];
      && (Hit(kv, x, hash(key), key) ==> x.pos in recs && recs[x.pos].key == key && slot[x.pos] == Slot(r, c))
      && (x.pos in recs && recs[x.pos].key == key ==> Hit(kv, x, hash(key), key))
  {
    hide RecsIndexed, KeysDistinct, KeyAt, RecAt;
    var s := index[IndexOf(hash(key))];
    assert SheetShape(sheets[s]);
    var x := sheets[s][r][c];
    assert CellOk(hash, index, recs, slot, s, r, c, x);
    hide CellsOk, Shaped, SheetShape;
    if x.pos != 0 {
      assert RecAt(kv, x.pos, recs[x.pos]);
      KeyAtIs(kv, x.pos, recs[x.pos], key);
    }
  }

  /** Where a record is indexed. */
  lemma IndexedAt(hash: bytes -> Hash, index: seq<nat>, sheets: seq<Sheet>, recs: map<nat, Rec>, slot: map<nat, Slot>, p: nat)
    requires IndexOk(hash, index, sheets, recs, slot) && p in recs
    ensures p in slot && slot[p].row < ROWS && slot[p].cell < CELLS
    ensures var h := hash(recs[p].key);
      && (slot[p].row == Row1(h) || slot[p].row == Row2(h))
      && IndexOf(h) < |index| && InSheets(sheets, index[IndexOf(h)], slot[p].row, slot[p].cell)
      && sheets[index[IndexOf(h)]][slot[p].row][slot[p].cell] == Cell(h.lo, h.hi, p) && p != 0
  {
    hide CellsOk, KeysDistinct;
    var h := hash(recs[p].key);
    assert Indexed(hash, index, sheets, recs[p].key, p, slot[p]);
    assert SheetShape(sheets[index[IndexOf(h)]]);
    hide RecsIndexed, Shaped;
  }

  /** A key that no cell of its two rows leads to is not stored. */
  lemma MissMeansAbsent(hash: bytes -> Hash, index: seq<nat>, sheets: seq<Sheet>, kv: bytes, used: nat,
                        recs: map<nat, Rec>, slot: map<nat, Slot>, key: bytes)
    requires IndexOk(hash, index, sheets, recs, slot) && StoreOk(kv, used, recs)
    requires IndexOf(hash(key)) < |index| && index[IndexOf(hash(key))] < |sheets|
    requires var h := hash(key); var s := index[IndexOf(h)];
      Misses(kv, sheets[s], Row1(h), h, key, CELLS) && Misses(kv, sheets[s], Row2(h), h, key, CELLS)
    ensures forall p :: p in recs ==> recs[p].key != key
  {
    hide IndexOk, StoreOk, Hit;
    forall p | p in recs
      ensures recs[p].key != key
    {
      IndexedAt(hash, index, sheets, recs, slot, p);
      HitFinds(hash, index, sheets, kv, used, recs, slot, key, slot[p].row, slot[p].cell);
    }
  }

  /** The first `n` cells of row `r` do not lead to `key`. */
  ghost predicate Misses(kv: bytes, sheet: Sheet, r: nat, h: Hash, key: bytes, n: nat) {
    && r < |sheet| && n <= |sheet[r]|
    && forall c :: 0 <= c < n ==> !Hit(kv, sheet[r][c], h, key)
  }

  // ---------------------------------------------------------------- rows

  /** How many cells of the row are used. */
  function UsedIn(row: seq<Cell>): nat {
    if row == [] then 0 else UsedIn(row[..|row| - 1]) + (if row[|row| - 1].pos != 0 then 1 else 0)
  }

  predicate Full(row: seq<Cell>) {
    forall c :: 0 <= c < |row| ==> row[c].pos != 0
  }

  lemma {:induction false} UsedInFull(row: seq<Cell>)
    ensures UsedIn(row) <= |row|
    ensures UsedIn(row) == |row| <==> Full(row)
  {
    if row != [] {
      var n := |row| - 1;
      UsedInFull(row[..n]);
      assert forall c :: 0 <= c < n ==> row[..n][c] == row[c];
    }
  }

  lemma {:induction false} UsedInPut(row: seq<Cell>, c: nat, x: Cell)
    requires c < |row| && row[c].pos == 0 && x.pos != 0
    ensures UsedIn(row[c := x]) == UsedIn(row) + 1
  {
    var n := |row| - 1;
    if c < n {
      UsedInPut(row[..n], c, x);
      assert row[c := x][..n] == row[..n][c := x];
    } else {
      assert row[c := x][..n] == row[..n];
    }
  }

  /** What the scan of one row knows after `n` cells: how many are used, and the first free one. */
  ghost predicate Scanned(row: seq<Cell>, n: nat, used: nat, free: nat) {
    && n <= |row| == CELLS && used == UsedIn(row[..n]) <= n
    && (used == n ==> free == CELLS && Full(row[..n]))
    && (used < n ==> free < n && row[free].pos == 0 && Full(row[..free]))
  }

  lemma ScanStep(row: seq<Cell>, n: nat, used: nat, free: nat)
    requires Scanned(row, n, used, free) && n < CELLS
    ensures row[n].pos != 0 ==> Scanned(row, n + 1, used + 1, free)
    ensures row[n].pos == 0 ==> Scanned(row, n + 1, used, if free == CELLS then n else free)
  {
    assert row[..n + 1][..n] == row[..n];
    assert row[..n + 1][n] == row[n];
    if free == CELLS {
      assert row[n].pos != 0 ==> Full(row[..n + 1]);
    }
  }

  /** A free place for a key: a free cell of the emptier of its two rows. */
  ghost predicate FreePlace(h: Hash, sheet: Sheet, at: Slot) {
    && SheetShape(sheet)
    && (at.row == Row1(h) || at.row == Row2(h)) && at.cell < CELLS && sheet[at.row][at.cell].pos == 0
    && UsedIn(sheet[at.row]) <= UsedIn(sheet[Row1(h)]) && UsedIn(sheet[at.row]) <= UsedIn(sheet[Row2(h)])
  }

  ghost predicate BothFull(h: Hash, sheet: Sheet) {
    SheetShape(sheet) && Full(sheet[Row1(h)]) && Full(sheet[Row2(h)])
  }

  /** The bytes by which the memory grows for `want` bytes: whole pages, and one more. */
  function Growth(want: nat): nat {
    (want + PAGE - 1) / PAGE * PAGE + PAGE
  }

  /** It grows by the fewest whole pages that hold the bytes, and one page more. */
  lemma GrowthIs(want: nat)
    ensures Growth(want) % PAGE == 0 && want + PAGE <= Growth(want) < want + 2 * PAGE
  {
    var pages := (want + PAGE - 1) / PAGE;
    assert Growth(want) == (pages + 1) * PAGE;
  }

  /** How the memory grew for a record that ends at `used`: not at all when there was room, and else as little as that. */
  predicate Grown(size: nat, size': nat, used: nat, used': nat) {
    if used' <= size then size' == size
    else size + used' - used + PAGE <= size' < size + used' - used + 2 * PAGE && (size' - size) % PAGE == 0
  }

  /** The memory cannot take `want` more bytes without passing 4 GB. */
  predicate NoRoom(size: nat, used: nat, want: nat) {
    used <= size && want > size - used && size + Growth(want) >= MEMORY_MAX
  }

  /** A put of these lengths fails before a cell is looked for or after one was found: too much memory, or no header form. */
  predicate NoMemory(size: nat, maximum: nat, used: nat, keyLen: nat, valLen: nat) {
    || (maximum > 0 && size > maximum)
    || HeaderLen(keyLen, valLen) == 0
    || NoRoom(size, used, HeaderLen(keyLen, valLen) + keyLen + valLen)
  }

  /** Both rows of a key are full, and no sheet is left to split into. */
  ghost predicate RowsFull(h: Hash, index: seq<nat>, sheets: seq<Sheet>) {
    && |sheets| >= SHEETS_MAX
    && IndexOf(h) < |index| && index[IndexOf(h)] < |sheets|
    && BothFull(h, sheets[index[IndexOf(h)]])
  }

  /** Rows that are full for good stay so. */
  ghost predicate StaysFull(index: seq<nat>, sheets: seq<Sheet>, index': seq<nat>, sheets': seq<Sheet>) {
    forall h :: RowsFull(h, index, sheets) ==> RowsFull(h, index', sheets')
  }

  lemma PutStaysFull(index: seq<nat>, sheets: seq<Sheet>, s: nat, r: nat, c: nat, x: Cell)
    requires InSheets(sheets, s, r, c) && x.pos != 0
    ensures StaysFull(index, sheets, index, SetCell(sheets, s, r, c, x))
  {
    SetCellAt(sheets, s, r, c, x);
    var t := SetCell(sheets, s, r, c, x);
    hide SetCell;
    forall h | RowsFull(h, index, sheets)
      ensures RowsFull(h, index, t)
    {
      var a := index[IndexOf(h)];
      RowStaysFull(sheets, t, a, Row1(h), s, r, c, x);
      RowStaysFull(sheets, t, a, Row2(h), s, r, c, x);
      assert SheetShape(t[a]);
      hide Full, SheetShape;
    }
  }

  lemma RowStaysFull(sheets: seq<Sheet>, t: seq<Sheet>, a: nat, b: nat, s: nat, r: nat, c: nat, x: Cell)
    requires InSheets(sheets, s, r, c) && x.pos != 0 && t == SetCell(sheets, s, r, c, x)
    requires a < |sheets| && b < |sheets[a]| && Full(sheets[a][b])
    ensures a < |t| && b < |t[a]| && Full(t[a][b])
  {
  }

  /**
   * A value of this length can never be stored under the key any more: the memory has reached its maximum or cannot
   * grow by such a record without passing 4 GB, no header fits, or the key's rows are full and no sheet is left.
   */
  ghost predicate NoPlace(size: nat, maximum: nat, hash: bytes -> Hash, index: seq<nat>, sheets: seq<Sheet>, key: bytes, valLen: nat) {
    || (maximum > 0 && size > maximum)
    || HeaderLen(|key|, valLen) == 0
    || size + Growth(HeaderLen(|key|, valLen) + |key| + valLen) >= MEMORY_MAX
    || RowsFull(hash(key), index, sheets)
  }

  lemma MemoryTight(size: nat, maximum: nat, used: nat, size': nat, hash: bytes -> Hash, index: seq<nat>, sheets: seq<Sheet>,
                    key: bytes, valLen: nat)
    requires size' >= size
    ensures NoMemory(size, maximum, used, |key|, valLen) || RowsFull(hash(key), index, sheets) ==>
      NoPlace(size', maximum, hash, index, sheets, key, valLen)
  {
    hide RowsFull, Growth, HeaderLen;
  }

  lemma StillNoPlace(size: nat, maximum: nat, hash: bytes -> Hash, index: seq<nat>, sheets: seq<Sheet>,
                     size': nat, index': seq<nat>, sheets': seq<Sheet>, key: bytes, valLen: nat)
    requires size' >= size && StaysFull(index, sheets, index', sheets') && NoPlace(size, maximum, hash, index, sheets, key, valLen)
    ensures NoPlace(size', maximum, hash, index', sheets', key, valLen)
  {
    hide RowsFull, Growth, HeaderLen;
  }

  /**
   * All that a put can fail for, by the lengths alone: the memory is above its maximum, a length is out of range, the
   * memory is within two pages and the record of 4 GB, or both rows of the key are full and no sheet is left.
   */
  ghost predicate Refused(size: nat, maximum: nat, hash: bytes -> Hash, index: seq<nat>, sheets: seq<Sheet>, key: bytes, valLen: nat) {
    || (maximum > 0 && size > maximum)
    || !(1 <= |key| <= KEY_MAX && valLen <= VAL_MAX)
    || size + RecordMost(|key|, valLen) + 2 * PAGE >= MEMORY_MAX
    || RowsFull(hash(key), index, sheets)
  }

  /** The bytes that a record takes at most: its longest header, its key and its value. */
  function RecordMost(keyLen: nat, valLen: nat): nat {
    8 + keyLen + valLen
  }

  lemma NoPlaceIsRefused(size: nat, maximum: nat, hash: bytes -> Hash, index: seq<nat>, sheets: seq<Sheet>, key: bytes, valLen: nat)
    requires NoPlace(size, maximum, hash, index, sheets, key, valLen)
    ensures Refused(size, maximum, hash, index, sheets, key, valLen)
  {
    hide RowsFull, Growth;
    GrowthIs(HeaderLen(|key|, valLen) + |key| + valLen);
  }

  lemma NoMemoryIsRefused(size: nat, maximum: nat, used: nat, hash: bytes -> Hash, index: seq<nat>, sheets: seq<Sheet>, key: bytes, valLen: nat)
    requires NoMemory(size, maximum, used, |key|, valLen) || RowsFull(hash(key), index, sheets)
    ensures Refused(size, maximum, hash, index, sheets, key, valLen)
  {
    hide NoMemory, NoPlace, Refused;
    MemoryTight(size, maximum, used, size, hash, index, sheets, key, valLen);
    NoPlaceIsRefused(size, maximum, hash, index, sheets, key, valLen);
  }

  lemma FullAlready(index: seq<nat>, sheets: seq<Sheet>)
    ensures StaysFull(index, sheets, index, sheets)
  {
  }

  lemma FullTwice(i0: seq<nat>, s0: seq<Sheet>, i1: seq<nat>, s1: seq<Sheet>, i2: seq<nat>, s2: seq<Sheet>)
    requires StaysFull(i0, s0, i1, s1) && StaysFull(i1, s1, i2, s2)
    ensures StaysFull(i0, s0, i2, s2)
  {
    hide RowsFull;
  }

  /** The first `n` cells of a row of the split sheet dealt out between that row and the new sheet's row. */
  ghost predicate RowDealt(index: seq<nat>, that: nat, old_: seq<Cell>, stay: seq<Cell>, go: seq<Cell>, n: nat)
    requires |index| == SHEETS_MAX
  {
    && |old_| == |stay| == |go| == CELLS
    && (forall c {:trigger stay[c]} :: 0 <= c < CELLS ==> stay[c] == if c < n then Stays(index, that, old_[c]) else old_[c])
    && (forall c {:trigger go[c]} :: 0 <= c < CELLS ==> go[c] == if c < n then Arrives(index, that, old_[c]) else Cell(0, 0, 0))
  }

  lemma DealtSheets(index: seq<nat>, sheets: seq<Sheet>, this_: nat, sheets': seq<Sheet>)
    requires |index| == SHEETS_MAX && this_ < |sheets| && SheetShape(sheets[this_]) && |sheets'| == |sheets| + 1
    requires forall s :: 0 <= s < |sheets| && s != this_ ==> sheets'[s] == sheets[s]
    requires |sheets'[this_]| == |sheets'[|sheets|]| == ROWS
    requires forall r :: 0 <= r < ROWS ==>
      RowDealt(index, |sheets|, sheets[this_][r], sheets'[this_][r], sheets'[|sheets|][r], CELLS)
    ensures SplitSheets(index, sheets, this_, sheets')
  {
    var that := |sheets|;
    hide RowDealt, Stays, Arrives;
    forall r, c | 0 <= r < ROWS && 0 <= c < CELLS
      ensures |sheets'[this_][r]| == |sheets'[that][r]| == CELLS
      ensures sheets'[this_][r][c] == Stays(index, that, sheets[this_][r][c])
      ensures sheets'[that][r][c] == Arrives(index, that, sheets[this_][r][c])
    {
      DealtCell(index, that, sheets[this_][r], sheets'[this_][r], sheets'[that][r], c);
    }
    forall r | 0 <= r < ROWS
      ensures |sheets'[this_][r]| == |sheets'[that][r]| == CELLS
    {
      DealtCell(index, that, sheets[this_][r], sheets'[this_][r], sheets'[that][r], 0);
    }
  }

  lemma DealtCell(index: seq<nat>, that: nat, old_: seq<Cell>, stay: seq<Cell>, go: seq<Cell>, c: nat)
    requires |index| == SHEETS_MAX && RowDealt(index, that, old_, stay, go, CELLS) && c < CELLS
    ensures |old_| == |stay| == |go| == CELLS
    ensures stay[c] == Stays(index, that, old_[c]) && go[c] == Arrives(index, that, old_[c])
  {
  }

  /** Counts the used cells of both rows in one pass, remembering the first free cell of each. */
  method ScanRows(sheet: Sheet, row1: nat, row2: nat) returns (used1: nat, free1: nat, used2: nat, free2: nat)
    requires SheetShape(sheet) && row1 < ROWS && row2 < ROWS
    ensures Scanned(sheet[row1], CELLS, used1, free1) && UsedIn(sheet[row1]) == used1
    ensures Scanned(sheet[row2], CELLS, used2, free2) && UsedIn(sheet[row2]) == used2
    ensures used1 == CELLS <==> Full(sheet[row1])
    ensures used2 == CELLS <==> Full(sheet[row2])
  {
    used1, free1, used2, free2 := 0, CELLS, 0, CELLS;
    var cell := 0;
    while cell < CELLS
      invariant 0 <= cell <= CELLS
      invariant Scanned(sheet[row1], cell, used1, free1) && Scanned(sheet[row2], cell, used2, free2)
    {
      ScanStep(sheet[row1], cell, used1, free1);
      ScanStep(sheet[row2], cell, used2, free2);
      if sheet[row1][cell].pos != 0 {
        used1 := used1 + 1;
      } else {
        free1 := if free1 == CELLS then cell else free1;
      }
      if sheet[row2][cell].pos != 0 {
        used2 := used2 + 1;
      } else {
        free2 := if free2 == CELLS then cell else free2;
      }
      cell := cell + 1;
    }
    assert sheet[row1][..CELLS] == sheet[row1] && sheet[row2][..CELLS] == sheet[row2];
    UsedInFull(sheet[row1]);
    UsedInFull(sheet[row2]);
  }

  /** Writing a record's cell keeps the table. */
  lemma PutTable(hash: bytes -> Hash, index: seq<nat>, sheets: seq<Sheet>, kv: bytes, used: nat,
                 recs: map<nat, Rec>, slot: map<nat, Slot>, links: map<nat, Link>, at: Slot, r: Rec)
    requires StoreOk(kv, used, recs) && IndexOk(hash, index, sheets, recs, slot) && LinksOk(recs, links)
    requires Packable(r) && used + Size(r) <= |kv| && forall p :: p in recs ==> recs[p].key != r.key
    requires index[IndexOf(hash(r.key))] < |sheets| && FreePlace(hash(r.key), sheets[index[IndexOf(hash(r.key))]], at)
    ensures used !in recs && used !in links && InSheets(sheets, index[IndexOf(hash(r.key))], at.row, at.cell)
    ensures StoreOk(Store(kv, used, r), used + Size(r), recs[used := r])
    ensures LinksOk(recs[used := r], links)
    ensures var h := hash(r.key);
      IndexOk(hash, index, SetCell(sheets, index[IndexOf(h)], at.row, at.cell, Cell(h.lo, h.hi, used)),
              recs[used := r], slot[used := at])
  {
    hide StoreOk, IndexOk, Size, Store, FreePlace, LinksOk;
    IndexLength(hash, index, sheets, recs, slot, hash(r.key));
    UsedInMemory(kv, used, recs);
    AppendOk(kv, used, recs, r);
    LinksAppend(recs, links, used, r);
    PlaceInSheets(hash(r.key), sheets, index[IndexOf(hash(r.key))], at);
    PutOk(hash, index, sheets, recs, slot, at, used, r);
  }

  lemma IndexLength(hash: bytes -> Hash, index: seq<nat>, sheets: seq<Sheet>, recs: map<nat, Rec>, slot: map<nat, Slot>, h: Hash)
    requires IndexOk(hash, index, sheets, recs, slot)
    ensures IndexOf(h) < |index| == SHEETS_MAX && index[IndexOf(h)] < |sheets|
  {
    hide CellsOk, RecsIndexed, KeysDistinct;
  }

  lemma LinksAppend(recs: map<nat, Rec>, links: map<nat, Link>, k: nat, r: Rec)
    requires LinksOk(recs, links) && k !in recs
    ensures k !in links && LinksOk(recs[k := r], links)
  {
  }

  lemma PlaceInSheets(h: Hash, sheets: seq<Sheet>, s: nat, at: Slot)
    requires s < |sheets| && FreePlace(h, sheets[s], at)
    ensures InSheets(sheets, s, at.row, at.cell) && sheets[s][at.row][at.cell].pos == 0
    ensures (at.row == Row1(h) || at.row == Row2(h)) && at.row < ROWS && at.cell < CELLS
  {
  }

  /** After a put, the chosen row has at most one more used cell than the other row of the key. */
  ghost predicate Balanced(h: Hash, sheet: Sheet, at: Slot) {
    && SheetShape(sheet) && (at.row == Row1(h) || at.row == Row2(h))
    && UsedIn(sheet[at.row]) <= UsedIn(sheet[Row1(h)]) + 1 && UsedIn(sheet[at.row]) <= UsedIn(sheet[Row2(h)]) + 1
  }

  lemma PutBalanced(h: Hash, sheet: Sheet, at: Slot, x: Cell)
    requires FreePlace(h, sheet, at) && x.pos != 0
    ensures Balanced(h, sheet[at.row := sheet[at.row][at.cell := x]], at)
  {
    UsedInPut(sheet[at.row], at.cell, x);
    hide UsedIn;
  }

  /** The nodes `from..to` pushed on the free list, the last one first. */
  function Pushed(nodes: seq<Count>, nextFree: nat, from: nat, to: nat): (r: seq<Count>)
    ensures |r| == |nodes|
    ensures forall i :: 0 <= i < |nodes| ==>
      r[i] == if from <= i <= to then nodes[i].(next := if i == to then nextFree else i + 1) else nodes[i]
  {
    seq(|nodes|, i requires 0 <= i < |nodes| =>
      if from <= i <= to then nodes[i].(next := if i == to then nextFree else i + 1) else nodes[i])
  }

  /** The links with one node taken off the free list. */
  function Popped(c: Counts): Counts
    requires c.free > 0 && c.nextFree < |c.nodes|
  {
    c.(nextFree := c.nodes[c.nextFree].next, free := c.free - 1, used := c.used + 1)
  }

  /** The links as the pop sees them: grown by a page when no node is free. */
  function Supplied(c: Counts, pages: nat): Counts
    requires c.free == 0 ==> |c.nodes| == NodesIn(pages)
  {
    NodesGrow(pages);
    if c.free == 0 then Grow(c, NodesIn(pages + 1)) else c
  }

  lemma GrowIsPushed(c: Counts, size: nat)
    requires c.free == 0 && 1 < size && |c.nodes| < size
    ensures var from := if |c.nodes| == 0 then 1 else |c.nodes|;
      Pushed(c.nodes + seq(size - |c.nodes|, _ => Count(0, 0, 0, 0)), c.nextFree, from, size - 1) == Grow(c, size).nodes
  {
    var from := if |c.nodes| == 0 then 1 else |c.nodes|;
    var r := Pushed(c.nodes + seq(size - |c.nodes|, _ => Count(0, 0, 0, 0)), c.nextFree, from, size - 1);
    var g := Grow(c, size).nodes;
    assert |r| == |g| == size;
    assert forall i :: 0 <= i < size ==> r[i] == g[i];
  }

  lemma NodesFit(pages: nat)
    requires pages < PAGES_MAX
    ensures NodesIn(pages) < MEMORY_MAX
  {
  }

  lemma NodesGrow(pages: nat)
    ensures NodesIn(pages) < NodesIn(pages + 1) && 1 < NodesIn(pages + 1)
  {
  }

  ghost function SuppliedShape(c: Counts, s: Shape, pages: nat): Shape
    requires c.free == 0 ==> |c.nodes| == NodesIn(pages)
  {
    NodesGrow(pages);
    if c.free == 0 then GrowShape(c, s, NodesIn(pages + 1)) else s
  }

  /** Supplying a free node changes nothing that the keys can see. */
  lemma SuppliedOk(c: Counts, s: Shape, pages: nat, p: nat, l: nat, k: nat, count: nat)
    requires Ok(c, s, p) && |c.nodes| == NodesIn(pages) && Fits(c, s, l, k, count)
    ensures var c', s' := Supplied(c, pages), SuppliedShape(c, s, pages);
      && Ok(c', s', p) && c'.free > 0 && c'.nextFree < |c'.nodes| && s'.lists == s.lists && c'.links == c.links
      && Fits(c', s', l, k, count) && OthersKept(c, s, c', s', p)
      && |c'.nodes| == NodesIn(if c.free == 0 then pages + 1 else pages)
      && (c.free > 0 ==> c.nextFree < |c.nodes|)
  {
    NodesGrow(pages);
    hide ListsOk, ChainsOk, Located, CountOf, Grow, GrowShape, NodesIn;
    if c.free == 0 {
      GrowOk(c, s, NodesIn(pages + 1), p);
    }
    FreeHead(Supplied(c, pages), SuppliedShape(c, s, pages));
    hide FreeOk;
  }

  lemma FreeHead(c: Counts, s: Shape)
    requires FreeOk(c, s)
    ensures c.free > 0 ==> c.nextFree < |c.nodes|
  {
    hide Distinct;
  }

  /** The records of the same keys, with the same values but for the counters. */
  ghost predicate SameRecs(recs: map<nat, Rec>, recs': map<nat, Rec>, links': map<nat, Link>) {
    && recs'.Keys == recs.Keys
    && forall q :: q in recs ==> recs'[q].key == recs[q].key && (q !in links' ==> recs'[q] == recs[q])
  }

  lemma SameBut(recs: map<nat, Rec>, p: nat, r: Rec, links: map<nat, Link>)
    requires p in recs && r.key == recs[p].key && p in links
    ensures SameRecs(recs, recs[p := r], links)
  {
  }

  lemma KeptTwice(c: Counts, s: Shape, c1: Counts, s1: Shape, c2: Counts, s2: Shape, p: nat)
    requires OthersKept(c, s, c1, s1, p) && OthersKept(c1, s1, c2, s2, p)
    ensures OthersKept(c, s, c2, s2, p)
  {
    forall q | q in c.links && q != p
      ensures q in c1.links
    {
      assert q in c.links.Keys - {p};
    }
  }

  /** A node supplied and linked in for the key `p`: what becomes of the links and what they then mean. */
  ghost predicate Inserted(c: Counts, s: Shape, pages: nat, p: nat, l: nat, k: nat, prev: nat, nxt: nat, count: nat) {
    && (c.free == 0 ==> |c.nodes| == NodesIn(pages))
    && (c.free > 0 ==> c.nextFree < |c.nodes|)
    && var c1, s1 := Supplied(c, pages), SuppliedShape(c, s, pages);
       && c1.free > 0 && c1.nextFree < |c1.nodes| && l < |c1.lo| && l < |c1.hi|
       && prev < |c1.nodes| && nxt < |c1.nodes| && prev != c1.nextFree && nxt != c1.nextFree && (prev == nxt ==> prev == 0)
       && l < |s1.lists| && k <= |s1.lists[l]| && |s1.freeList| > 0
       && var c2, s2 := AddNode(c1, l, prev, nxt, count, p), AddNodeShape(c1, s1, l, k, p);
          && Ok(c2, s2, 0) && OthersKept(c, s, c2, s2, p) && c2.links.Keys == c.links.Keys + {p}
          && CountOf(c2, p) == count && ListOf(c2, s2, p) == Some(l)
          && c1.links == c.links
  }

  lemma InsertCountOk(c: Counts, s: Shape, pages: nat, p: nat, l: nat, k: nat, prev: nat, nxt: nat, count: nat)
    requires l < |s.lists| && k <= |s.lists[l]| && |c.nodes| == NodesIn(pages) && p != 0
    requires prev == At(s.lists[l], k - 1) && nxt == At(s.lists[l], k)
    requires Fits(c, s, l, k, count) && Ok(c, s, p)
    ensures Inserted(c, s, pages, p, l, k, prev, nxt, count)
  {
    hide Ok, OthersKept, CountOf, ListOf, Fits, At, Supplied, SuppliedShape, AddNodeShape;
    SuppliedOk(c, s, pages, p, l, k, count);
    var c1, s1 := Supplied(c, pages), SuppliedShape(c, s, pages);
    AddNodeOk(c1, s1, l, k, count, p);
    KeptTwice(c, s, c1, s1, AddNode(c1, l, prev, nxt, count, p), AddNodeShape(c1, s1, l, k, p), p);
  }

  lemma SuppliedEnds(c: Counts, pages: nat)
    requires c.free == 0 ==> |c.nodes| == NodesIn(pages)
    ensures Supplied(c, pages).lo == c.lo && Supplied(c, pages).hi == c.hi
  {
    NodesGrow(pages);
  }

  lemma CounterAdded(recs: map<nat, Rec>, links: map<nat, Link>, p: nat, k: Link)
    requires LinksOk(recs, links) && p in recs && |recs[p].val| == LINK_BYTES && DecodeLink(recs[p].val) == k
    ensures LinksOk(recs, links[p := k])
  {
  }

  lemma SameNothing(recs: map<nat, Rec>, links: map<nat, Link>)
    ensures SameRecs(recs, recs, links)
  {
  }

  lemma SameTwice(r0: map<nat, Rec>, r1: map<nat, Rec>, r2: map<nat, Rec>, links1: map<nat, Link>, links2: map<nat, Link>)
    requires SameRecs(r0, r1, links1) && SameRecs(r1, r2, links2) && links1.Keys <= links2.Keys
    ensures SameRecs(r0, r2, links2)
  {
  }

  /** A key whose node may be counted up in place: alone on it, and the next count is not the one it wants. */
  predicate CanBump(c: Counts, p: nat)
    requires p in c.links && c.links[p].node < |c.nodes|
  {
    var n := c.nodes[c.links[p].node];
    && n.hkv1 == p && c.links[p].next == 0
    && (n.next == 0 || n.next >= |c.nodes| || c.nodes[n.next].count > n.count + 1)
  }

  /** A lone key whose node cannot be counted up: the next node has just the count the key wants. */
  ghost predicate Dropped(c: Counts, s: Shape, p: nat, l: nat, i: nat) {
    && PlacedAt(c, s, p, l, i) && c.used > 0 && DropAllowed(c, s, l, i)
    && var n, ls := c.links[p].node, s.lists[l];
       && n == ls[i] && 1 <= n < |c.nodes| && c.nodes[n].next == ls[i + 1] && c.nodes[n].last == At(ls, i - 1)
       && c.nodes[ls[i + 1]].count == c.nodes[n].count + 1
       && var c', s' := DropNode(c, l, n, At(ls, i - 1), ls[i + 1]), DropShape(s, l, i);
          && Ok(c', s', p) && OthersKept(c, s, c', s', p) && c'.links == c.links
          && ls[i + 1] in s'.listOf && s'.listOf[ls[i + 1]] == l
          && c'.nodes[ls[i + 1]].count == c.nodes[n].count + 1
  }

  lemma DropLone(c: Counts, s: Shape, p: nat, l: nat, i: nat)
    requires PlacedAt(c, s, p, l, i) && !CanBump(c, p)
    requires c.nodes[c.links[p].node].hkv1 == p && c.links[p].next == 0 && s.chains[c.links[p].node] == [p]
    requires Ok(c, s, 0)
    ensures Dropped(c, s, p, l, i)
  {
    hide Ok, OthersKept, DropAllowed, DropShape;
    DistinctNext(c, s, p, l, i);
    assert i + 1 < |s.lists[l]| && c.nodes[c.links[p].node].next == s.lists[l][i + 1];
    hide PlacedAt, At;
    DropOk(c, s, l, i, p);
    SomeUsed(c, s, c.links[p].node);
  }

  lemma LoneUnchain(c: Counts, p: nat, l: nat)
    requires HasNeighbours(c, p) && c.links[p].next == 0 && c.links[p].last == 0 && l < |c.lo|
    requires var n := c.nodes[c.links[p].node];
      n.last < |c.nodes| && n.next < |c.nodes| && c.links[p].node != n.last && c.links[p].node != n.next && n.last != n.next
    ensures Unchain(c, p).links == c.links && |Unchain(c, p).nodes| == |c.nodes|
    ensures var n := c.links[p].node;
      DropNode(Unchain(c, p), l, n, c.nodes[n].last, c.nodes[n].next) == DropNode(c, l, n, c.nodes[n].last, c.nodes[n].next)
  {
    hide JoinPast;
    var n := c.links[p].node;
    var c1, last, next := Unchain(c, p), c.nodes[n].last, c.nodes[n].next;
    assert c1.links == c.links by {
      JoinsNothing(c.links, c.links[p]);
    }
    assert LinkPast(c1.nodes, n, last, next, c.nextFree) == LinkPast(c.nodes, n, last, next, c.nextFree);
  }

  lemma JoinsNothing(links: map<nat, Link>, k: Link)
    requires k.next == 0 && k.last == 0
    ensures JoinPast(links, k) == links
  {
  }

  lemma SomeUsed(c: Counts, s: Shape, n: nat)
    requires Ok(c, s, 0) && n in s.listOf
    ensures c.used > 0
  {
    hide ListsOk, ChainsOk, Distinct;
    assert n in s.listOf.Keys && |s.listOf| == |s.listOf.Keys|;
  }

  /** The new count belongs right after the node that the key leaves behind. */
  lemma FitsAfter(c: Counts, s: Shape, p: nat, l: nat, i: nat, c': Counts, s': Shape)
    requires PlacedAt(c, s, p, l, i) && s'.lists == s.lists && |c'.nodes| == |c.nodes|
    requires forall x :: 0 <= x < |c.nodes| ==> SameNode(c'.nodes[x], c.nodes[x])
    requires i + 1 < |s.lists[l]| ==> c.nodes[s.lists[l][i + 1]].count != c.nodes[c.links[p].node].count + 1
    ensures Fits(c', s', l, i + 1, c.nodes[c.links[p].node].count + 1)
  {
  }

  /** Where a loose key may go next: onto node `next`, or onto a new node in between `n` and `next`. */
  ghost predicate Rejoinable(c: Counts, s: Shape, l: nat, i: nat, n: nat, next: nat, count: nat) {
    && (next != 0 ==> next < |c.nodes| && next in s.listOf && s.listOf[next] == l)
    && (next == 0 || c.nodes[next].count != count ==>
          && l < |s.lists| && i <= |s.lists[l]| && Fits(c, s, l, i, count)
          && n == At(s.lists[l], i - 1) && next == At(s.lists[l], i))
  }

  /**
   * What a key that leaves its node leaves behind. The node of a lone key is freed, and the next one has the count that
   * the key is to get; otherwise the lists are as they were.
   */
  ghost predicate Left(c: Counts, s: Shape, c': Counts, s': Shape, p: nat, l: nat) {
    && p in c.links && c.links[p].node < |c.nodes|
    && var n := c.nodes[c.links[p].node];
       if n.hkv1 == p && c.links[p].next == 0
       then n.next in s'.listOf && s'.listOf[n.next] == l && n.next < |c'.nodes| && c'.nodes[n.next].count == n.count + 1
       else s'.lists == s.lists && s'.listOf == s.listOf && |c'.nodes| == |c.nodes| &&
            forall x :: 0 <= x < |c.nodes| ==> SameNode(c'.nodes[x], c.nodes[x])
  }

  lemma LoneLeaves(c: Counts, s: Shape, p: nat, l: nat, i: nat)
    requires Ok(c, s, 0) && PlacedAt(c, s, p, l, i) && !CanBump(c, p)
    requires c.nodes[c.links[p].node].hkv1 == p && c.links[p].next == 0 && s.chains[c.links[p].node] == [p]
    ensures i < |s.lists[l]| && l < |c.lo| && c.used > 0
    ensures var n := c.links[p].node;
      var next, last := c.nodes[n].next, c.nodes[n].last;
      && 1 <= n < |c.nodes| && last < |c.nodes| && next < |c.nodes| && n != last && n != next && last != next && next != 0
      && var c', s' := DropNode(c, l, n, last, next), DropShape(s, l, i);
         && Ok(c', s', p) && OthersKept(c, s, c', s', p) && Left(c, s, c', s', p, l)
         && c'.links == c.links && c'.free >= c.free && |c'.nodes| == |c.nodes|
  {
    hide Ok, OthersKept, DropShape, At;
    DropLone(c, s, p, l, i);
    hide PlacedAt;
  }

  lemma ChainLeft(c: Counts, s: Shape, p: nat, l: nat, chains: map<nat, seq<nat>>)
    requires HasNeighbours(c, p)
    requires c.nodes[c.links[p].node].hkv1 == p ==> c.links[p].next != 0
    ensures Left(c, s, Unchain(c, p), s.(chains := chains), p, l)
  {
    hide JoinPast;
  }

  lemma AfterLeave(c: Counts, s: Shape, p: nat, l: nat, i: nat, c': Counts, s': Shape, next: nat)
    requires PlacedAt(c, s, p, l, i) && Left(c, s, c', s', p, l)
    requires var n := c.nodes[c.links[p].node];
      next == n.next && (n.hkv1 == p && c.links[p].next == 0 ==> next != 0)
    ensures Rejoinable(c', s', l, i + 1, c.links[p].node, next, c.nodes[c.links[p].node].count + 1)
  {
    hide Fits;
    var n, ls := c.nodes[c.links[p].node], s.lists[l];
    if !(n.hkv1 == p && c.links[p].next == 0) {
      if i + 1 >= |ls| || c.nodes[ls[i + 1]].count != n.count + 1 {
        FitsAfter(c, s, p, l, i, c', s');
      }
    }
  }

  /** The first count of a list, and whether a count of 1 belongs before it. */
  lemma FitsFirst(c: Counts, s: Shape, l: nat, p: nat)
    requires l < LISTS_MAX && Ok(c, s, p)
    ensures l < |c.lo| && l < |s.lists| && c.lo[l] == At(s.lists[l], 0)
    ensures c.lo[l] != 0 <==> |s.lists[l]| > 0
    ensures |s.lists[l]| > 0 ==> c.lo[l] < |c.nodes| && c.nodes[c.lo[l]].count >= 1 && c.lo[l] in s.listOf && s.listOf[c.lo[l]] == l
    ensures |s.lists[l]| == 0 || c.nodes[c.lo[l]].count > 1 ==> Fits(c, s, l, 0, 1)
  {
    hide ChainsOk, FreeOk;
    var ls := s.lists[l];
    assert ListOk(c.nodes, ls, c.lo[l], c.hi[l]);
    if |ls| > 0 {
      assert s.lists[l][0] in s.listOf;
    }
    hide Located, Linked;
    if |ls| > 0 {
      NodePlace(c.nodes, ls, c.lo[l], c.hi[l], 0);
    }
  }

  /** The address of the record of a key; 0 when the key is not stored. */
  ghost function PosOf(recs: map<nat, Rec>, key: bytes): nat {
    if p :| p in recs && recs[p].key == key then p else 0
  }

  lemma PosOfIs(recs: map<nat, Rec>, p: nat)
    requires KeysDistinct(recs) && p in recs
    ensures PosOf(recs, recs[p].key) == p
  {
  }

  /** A key's address depends on where the keys are, and appending another key does not change it. */
  lemma PosSame(recs: map<nat, Rec>, recs': map<nat, Rec>, key: bytes)
    requires KeysDistinct(recs) && KeysDistinct(recs') && recs.Keys <= recs'.Keys
    requires forall q :: q in recs ==> recs'[q].key == recs[q].key
    requires forall q :: q in recs' && q !in recs ==> recs'[q].key != key
    ensures PosOf(recs', key) == PosOf(recs, key)
  {
  }

  /** What a caller sees of a key: its count, its list, and the value of a key that is no counter. */
  ghost function TallyIn(recs: map<nat, Rec>, c: Counts, key: bytes): nat {
    CountOf(c, PosOf(recs, key))
  }

  ghost function ListIn(recs: map<nat, Rec>, c: Counts, s: Shape, key: bytes): Option<nat> {
    ListOf(c, s, PosOf(recs, key))
  }

  ghost function ValueIn(recs: map<nat, Rec>, links: map<nat, Link>, key: bytes): Option<bytes> {
    var p := PosOf(recs, key);
    if p in recs && p !in links then Some(recs[p].val) else None
  }

  ghost predicate KeyKept(recs: map<nat, Rec>, c: Counts, s: Shape, recs': map<nat, Rec>, c': Counts, s': Shape, key: bytes) {
    && TallyIn(recs', c', key) == TallyIn(recs, c, key)
    && ListIn(recs', c', s', key) == ListIn(recs, c, s, key)
    && ValueIn(recs', c'.links, key) == ValueIn(recs, c.links, key)
  }

  lemma PosOfStored(recs: map<nat, Rec>, key: bytes)
    ensures PosOf(recs, key) == 0 || (PosOf(recs, key) in recs && recs[PosOf(recs, key)].key == key)
  {
  }

  lemma SameElsewhere(c: Counts, s: Shape, c': Counts, s': Shape, p: nat, q: nat)
    requires OthersKept(c, s, c', s', p) && q != p && p != 0 && c'.links.Keys == c.links.Keys + {p}
    ensures (q in c'.links <==> q in c.links) && CountOf(c', q) == CountOf(c, q) && ListOf(c', s', q) == ListOf(c, s, q)
  {
  }

  lemma OtherKeyKept(recs: map<nat, Rec>, c: Counts, s: Shape, recs1: map<nat, Rec>, recs2: map<nat, Rec>,
                     c': Counts, s': Shape, p: nat, key: bytes)
    requires KeysDistinct(recs) && KeysDistinct(recs1) && KeysDistinct(recs2)
    requires p in recs1 && recs1[p].key != key && 0 !in recs1
    requires recs1 == recs || (p !in recs && recs1 == recs[p := recs1[p]])
    requires SameRecs(recs1, recs2, c'.links) && OthersKept(c, s, c', s', p) && c'.links.Keys == c.links.Keys + {p}
    ensures KeyKept(recs, c, s, recs2, c', s', key)
  {
    hide PosOf, KeysDistinct, CountOf, ListOf;
    PosSame(recs, recs1, key);
    PosSame(recs1, recs2, key);
    var q := PosOf(recs, key);
    PosOfStored(recs1, key);
    assert q != p;
    SameElsewhere(c, s, c', s', p, q);
  }

  /** What an increment of `key` returning `count` does to every key. */
  ghost predicate Incremented(recs: map<nat, Rec>, c: Counts, s: Shape, recs': map<nat, Rec>, c': Counts, s': Shape,
                              key: bytes, list: nat, count: nat) {
    && (count != 0 ==> count == TallyIn(recs', c', key) == TallyIn(recs, c, key) + 1 && ListIn(recs', c', s', key) == Some(list))
    && (forall k :: k != key ==> KeyKept(recs, c, s, recs', c', s', k))
  }

  lemma NothingIncremented(recs: map<nat, Rec>, c: Counts, s: Shape, key: bytes, list: nat)
    ensures Incremented(recs, c, s, recs, c, s, key, list, 0)
  {
    hide TallyIn, ListIn, ValueIn;
  }

  /** Every record stays where it is, with its key and its cell, so its uid stays the same. */
  ghost predicate SlotsKept(recs: map<nat, Rec>, slot: map<nat, Slot>, recs': map<nat, Rec>, slot': map<nat, Slot>) {
    && (forall p :: p in recs ==> p in recs' && recs'[p].key == recs[p].key)
    && (forall p :: p in recs && p in slot ==> p in slot' && slot'[p] == slot[p])
  }

  lemma SlotsUnchanged(recs: map<nat, Rec>, slot: map<nat, Slot>)
    ensures SlotsKept(recs, slot, recs, slot)
  {
  }

  lemma SlotsSame(recs: map<nat, Rec>, slot: map<nat, Slot>, recs': map<nat, Rec>, links: map<nat, Link>)
    requires SameRecs(recs, recs', links)
    ensures SlotsKept(recs, slot, recs', slot)
  {
  }

  lemma SlotAdded(recs: map<nat, Rec>, slot: map<nat, Slot>, recs1: map<nat, Rec>, slot': map<nat, Slot>, recs2: map<nat, Rec>,
                  links: map<nat, Link>, p: nat)
    requires p !in recs && p in recs1 && recs1 == recs[p := recs1[p]] && SameRecs(recs1, recs2, links)
    requires p in slot' && slot' == slot[p := slot'[p]]
    ensures SlotsKept(recs, slot, recs2, slot')
  {
  }

  lemma AbsentTally(recs: map<nat, Rec>, c: Counts, key: bytes)
    requires 0 !in c.links && forall p :: p in recs ==> recs[p].key != key
    ensures TallyIn(recs, c, key) == 0
  {
  }

  lemma OneIncremented(recs: map<nat, Rec>, c: Counts, s: Shape, recs1: map<nat, Rec>, recs2: map<nat, Rec>,
                       c': Counts, s': Shape, p: nat, key: bytes, list: nat, count: nat)
    requires KeysDistinct(recs) && KeysDistinct(recs1) && KeysDistinct(recs2)
    requires p in recs1 && recs1[p].key == key && 0 !in recs1
    requires recs1 == recs || (p !in recs && recs1 == recs[p := recs1[p]])
    requires SameRecs(recs1, recs2, c'.links) && OthersKept(c, s, c', s', p) && c'.links.Keys == c.links.Keys + {p}
    requires count == CountOf(c', p) == TallyIn(recs, c, key) + 1 && ListOf(c', s', p) == Some(list)
    ensures Incremented(recs, c, s, recs2, c', s', key, list, count)
  {
    hide KeyKept, OthersKept, CountOf, ListOf, KeysDistinct;
    assert recs2[p].key == key;
    PosOfIs(recs2, p);
    hide SameRecs, PosOf;
    forall k | k != key
      ensures KeyKept(recs, c, s, recs2, c', s', k)
    {
      OtherKeyKept(recs, c, s, recs1, recs2, c', s', p, k);
    }
  }

  // ---------------------------------------------------------------- a new instance

  const KEYS_PER_SHEET: nat := ROWS * CELLS

  function SheetsAtStart(keysAtStart: nat): (n: nat)
    ensures n >= 1
  {
    if keysAtStart / KEYS_PER_SHEET > 0 then keysAtStart / KEYS_PER_SHEET * 2 else 1
  }

  lemma NextMod(n: nat, m: nat)
    requires m > 0
    ensures (n + 1) % m == if n % m + 1 == m then 0 else n % m + 1
  {
    assert n + 1 == n / m * m + (n % m + 1);
    if n % m + 1 == m {
      assert n + 1 == (n / m + 1) * m + 0;
      ModIs(n + 1, n / m + 1, m, 0);
    } else {
      ModIs(n + 1, n / m, m, n % m + 1);
    }
  }

  lemma ModIs(n: nat, q: nat, m: nat, r: nat)
    requires m > 0 && n == q * m + r && r < m
    ensures n % m == r
  {
    assert n == n / m * m + n % m;
    Multiple(n / m - q, m);
    assert (n / m - q) * m == r - n % m;
  }

  lemma Multiple(d: int, m: nat)
    requires m > 0
    ensures d >= 1 ==> d * m >= m
    ensures d <= -1 ==> d * m + m <= 0
  {
  }

  function EmptyCounts(): Counts {
    Counts([], seq(LISTS_MAX, _ => 0), seq(LISTS_MAX, _ => 0), 1, 0, 0, map[])
  }

  ghost function NoCounts(): Shape {
    Shape(seq(LISTS_MAX, _ => []), map[], map[], [])
  }

  lemma EmptyIsOk()
    ensures Ok(EmptyCounts(), NoCounts(), 0)
  {
  }

  lemma EmptyTable(hash: bytes -> Hash, index: seq<nat>, sheets: seq<Sheet>)
    requires |index| == SHEETS_MAX && forall i :: 0 <= i < SHEETS_MAX ==> index[i] < |sheets|
    requires forall s :: 0 <= s < |sheets| ==> sheets[s] == EmptySheet()
    ensures StoreOk(Zeros(PAGE), 1, map[]) && IndexOk(hash, index, sheets, map[], map[])
  {
  }

  /** Memory for a link, not yet written. */
  method AnyValue() returns (b: bytes)
    ensures |b| == LINK_BYTES
  {
    assert |Zeros(LINK_BYTES)| == LINK_BYTES;
    b :| |b| == LINK_BYTES;
  }

  class Instance {
    const hash: bytes -> Hash
    const kvdataMaximum: nat

    var index: seq<nat>
    var sheets: seq<Sheet>
    var kvdata: bytes
    var kvdataUsed: nat
    var cellsUsed: nat

    var counts: seq<Count>
    var countsPages: nat
    var countsNextFree: nat
    var countsFree: nat
    var countsUsed: nat
    var countsLo: seq<nat>
    var countsHi: seq<nat>

    ghost var recs: map<nat, Rec>
    ghost var slot: map<nat, Slot>
    ghost var links: map<nat, Link>
    ghost var shape: Shape

    ghost function C(): Counts
      reads this`counts, this`countsLo, this`countsHi, this`countsNextFree, this`countsFree, this`countsUsed, this`links
    {
      Counts(counts, countsLo, countsHi, countsNextFree, countsFree, countsUsed, links)
    }

    /** The table: records, index and counter values agree. */
    ghost predicate TableOk()
      reads this`index, this`sheets, this`kvdata, this`kvdataUsed, this`recs, this`slot, this`links
    {
      && StoreOk(kvdata, kvdataUsed, recs) && |kvdata| < MEMORY_MAX
      && IndexOk(hash, index, sheets, recs, slot)
      && LinksOk(recs, links)
    }

    ghost predicate PagesOk()
      reads this`counts, this`countsPages
    {
      countsPages < PAGES_MAX && |counts| == NodesIn(countsPages)
    }

    ghost predicate Valid()
      reads this
    {
      TableOk() && PagesOk() && Ok(C(), shape, 0)
    }

    /** An empty instance, its indexes dealt out over the sheets that `keysAtStart` asks for. */
    constructor (hash: bytes -> Hash, keysAtStart: nat, kvdataMaximum: nat)
      ensures Valid() && this.hash == hash && this.kvdataMaximum == kvdataMaximum
      ensures recs == map[] && links == map[] && countsPages == 0
      ensures |sheets| == SheetsAtStart(keysAtStart) && forall i :: 0 <= i < SHEETS_MAX ==> index[i] == i % |sheets|
    {
      this.hash, this.kvdataMaximum := hash, kvdataMaximum;
      var sheetIndexMax := keysAtStart / KEYS_PER_SHEET * 2;
      var sheetsSize := SheetsAtStart(keysAtStart);
      var dealt: seq<nat> := [];
      var sheetIndex := 0;
      while |dealt| < SHEETS_MAX
        invariant |dealt| <= SHEETS_MAX && sheetIndex == |dealt| % sheetsSize
        invariant forall i :: 0 <= i < |dealt| ==> dealt[i] == i % sheetsSize
      {
        NextMod(|dealt|, sheetsSize);
        dealt := dealt + [sheetIndex];
        sheetIndex := sheetIndex + 1;
        sheetIndex := if sheetIndex >= sheetIndexMax then 0 else sheetIndex;
      }
      index, sheets := dealt, seq(sheetsSize, _ => EmptySheet());
      kvdata, kvdataUsed, cellsUsed := Zeros(PAGE), 1, 0;
      counts, countsPages, countsNextFree, countsFree, countsUsed := [], 0, 1, 0, 0;
      countsLo, countsHi := seq(LISTS_MAX, _ => 0), seq(LISTS_MAX, _ => 0);
      recs, slot, links := map[], map[], map[];
      shape := NoCounts();
      new;
      hide StoreOk, IndexOk, Ok;
      EmptyTable(hash, index, sheets);
      assert C() == EmptyCounts();
      EmptyIsOk();
    }

    method Find(key: bytes) returns (at: Option<Slot>, pos: nat)
      requires TableOk()
      ensures at.Some? ==> pos in recs && recs[pos].key == key && pos in slot && slot[pos] == at.value
      ensures at.None? <==> forall p :: p in recs ==> recs[p].key != key
    {
      hide StoreOk, LinksOk, Hit;
      var h := hash(key);
      var s, row1, row2 := index[IndexOf(h)], Row1(h), Row2(h);
      assert SheetShape(sheets[s]);
      hide IndexOk;
      var cell := 0;
      while cell < CELLS
        invariant 0 <= cell <= CELLS
        invariant Misses(kvdata, sheets[s], row1, h, key, cell) && Misses(kvdata, sheets[s], row2, h, key, cell)
      {
        HitFinds(hash, index, sheets, kvdata, kvdataUsed, recs, slot, key, row1, cell);
        if Hit(kvdata, sheets[s][row1][cell], h, key) {
          return Some(Slot(row1, cell)), sheets[s][row1][cell].pos;
        }
        HitFinds(hash, index, sheets, kvdata, kvdataUsed, recs, slot, key, row2, cell);
        if Hit(kvdata, sheets[s][row2][cell], h, key) {
          return Some(Slot(row2, cell)), sheets[s][row2][cell].pos;
        }
        cell := cell + 1;
      }
      MissMeansAbsent(hash, index, sheets, kvdata, kvdataUsed, recs, slot, key);
      return None, 0;
    }

    /** Moves the cells of one row of sheet `this_` that now belong to sheet `that`. */
    method SplitRow(this_: nat, that: nat, row: nat)
      requires |index| == SHEETS_MAX && this_ < |sheets| && that < |sheets| && this_ != that
      requires row < |sheets[this_]| && row < |sheets[that]|
      requires RowDealt(index, that, sheets[this_][row], sheets[this_][row], sheets[that][row], 0)
      modifies this`sheets
      ensures |sheets| == |old(sheets)| && forall s :: 0 <= s < |sheets| ==> |sheets[s]| == |old(sheets)[s]|
      ensures forall s :: 0 <= s < |sheets| && s != this_ && s != that ==> sheets[s] == old(sheets)[s]
      ensures forall r :: 0 <= r < |sheets[this_]| && r != row ==> sheets[this_][r] == old(sheets)[this_][r]
      ensures forall r :: 0 <= r < |sheets[that]| && r != row ==> sheets[that][r] == old(sheets)[that][r]
      ensures RowDealt(index, that, old(sheets)[this_][row], sheets[this_][row], sheets[that][row], CELLS)
    {
      ghost var was := sheets[this_][row];
      var cell := 0;
      while cell < CELLS
        invariant 0 <= cell <= CELLS
        invariant |sheets| == |old(sheets)| && forall s :: 0 <= s < |sheets| ==> |sheets[s]| == |old(sheets)[s]|
        invariant forall s :: 0 <= s < |sheets| && s != this_ && s != that ==> sheets[s] == old(sheets)[s]
        invariant forall r :: 0 <= r < |sheets[this_]| && r != row ==> sheets[this_][r] == old(sheets)[this_][r]
        invariant forall r :: 0 <= r < |sheets[that]| && r != row ==> sheets[that][r] == old(sheets)[that][r]
        invariant RowDealt(index, that, was, sheets[this_][row], sheets[that][row], cell)
      {
        var x := sheets[this_][row][cell];
        if x.pos != 0 {
          var mysheet := index[x.hi % SHEETS_MAX];
          if mysheet == that {
            sheets := SetCell(sheets, that, row, cell, x);
            sheets := SetCell(sheets, this_, row, cell, x.(pos := 0));
          }
        }
        cell := cell + 1;
      }
    }

    /** Splits a sheet: a new sheet takes every second of its indexes and the cells that go with them. */
    method SplitSheet(this_: nat)
      requires TableOk() && this_ < |sheets|
      modifies this`sheets, this`index
      ensures TableOk() && |sheets| == |old(sheets)| + 1
      ensures index == SplitIndex(old(index), this_, |old(sheets)|)
      ensures SplitSheets(index, old(sheets), this_, sheets)
    {
      var that := |sheets|;
      ghost var index0, sheets0 := index, sheets;
      assert SheetShape(sheets[this_]) && |index| == SHEETS_MAX;
      SplitIndexes(this_, that);
      hide IndexOk, StoreOk, LinksOk;
      sheets := sheets + [EmptySheet()];
      ghost var index1 := index;
      var row := 0;
      while row < ROWS
        invariant 0 <= row <= ROWS && index == index1
        invariant |sheets| == that + 1 && |sheets[this_]| == |sheets[that]| == ROWS
        invariant forall s :: 0 <= s < that && s != this_ ==> sheets[s] == sheets0[s]
        invariant forall r :: 0 <= r < ROWS ==>
          RowDealt(index, that, sheets0[this_][r], sheets[this_][r], sheets[that][r], if r < row then CELLS else 0)
      {
        SplitRow(this_, that, row);
        row := row + 1;
      }
      DealtSheets(index, sheets0, this_, sheets);
      SplitOk(hash, index0, sheets0, recs, slot, this_, sheets);
    }

    method SplitIndexes(this_: nat, that: nat)
      requires |index| == SHEETS_MAX
      modifies this`index
      ensures index == SplitIndex(old(index), this_, that)
    {
      ghost var index0 := index;
      var si, toggle := 0, false;
      while si < SHEETS_MAX
        invariant 0 <= si <= SHEETS_MAX == |index| == |index0|
        invariant toggle == (Occurrences(index0, this_, si) % 2 == 1)
        invariant forall j :: 0 <= j < SHEETS_MAX ==>
          index[j] == if j < si then SplitIndex(index0, this_, that)[j] else index0[j]
      {
        if this_ == index[si] {
          index := index[si := if toggle then that else this_];
          toggle := !toggle;
        }
        si := si + 1;
      }
    }

    /** Finds the key a free cell, splitting its sheet for as long as both its rows are full. */
    method Place(key: bytes) returns (at: Option<Slot>)
      requires TableOk()
      modifies this`sheets, this`index
      ensures TableOk() && index[IndexOf(hash(key))] < |sheets|
      ensures at.Some? ==> FreePlace(hash(key), sheets[index[IndexOf(hash(key))]], at.value)
      ensures at.None? ==> RowsFull(hash(key), index, sheets)
      ensures StaysFull(old(index), old(sheets), index, sheets)
    {
      hide StoreOk, LinksOk, CellsOk, RecsIndexed, KeysDistinct;
      var h := hash(key);
      while true
        invariant TableOk() && (|old(sheets)| >= SHEETS_MAX ==> index == old(index) && sheets == old(sheets))
        decreases if |sheets| < SHEETS_MAX then SHEETS_MAX - |sheets| else 0
      {
        var s, row1, row2 := index[IndexOf(h)], Row1(h), Row2(h);
        assert SheetShape(sheets[s]);
        var used1, free1, used2, free2 := ScanRows(sheets[s], row1, row2);
        if used1 == CELLS && used2 == CELLS {
          if |sheets| >= SHEETS_MAX {
            return None;
          }
          SplitSheet(s);
        } else {
          return Some(if used1 < used2 then Slot(row1, free1) else Slot(row2, free2));
        }
      }
    }

    /** Appends a key that is not stored yet. */
    method PutVal(key: bytes, val: bytes) returns (uid: nat)
      requires TableOk() && forall p :: p in recs ==> recs[p].key != key
      requires |key| + |val| + 8 < MEMORY_MAX - 2 * PAGE
      modifies this`sheets, this`index, this`kvdata, this`kvdataUsed, this`cellsUsed, this`recs, this`slot
      ensures TableOk()
      ensures uid == UID_NONE ==> recs == old(recs) && slot == old(slot)
      ensures uid != UID_NONE ==>
        && old(kvdataUsed) !in old(recs) && old(kvdataUsed) in slot
        && recs == old(recs)[old(kvdataUsed) := Rec(key, val)]
        && slot == old(slot)[old(kvdataUsed) := slot[old(kvdataUsed)]]
        && slot[old(kvdataUsed)].row < ROWS && slot[old(kvdataUsed)].cell < CELLS
        && uid == UidOf(hash(key), slot[old(kvdataUsed)])
        && index[IndexOf(hash(key))] < |sheets|
        && Balanced(hash(key), sheets[index[IndexOf(hash(key))]], slot[old(kvdataUsed)])
      ensures uid == UID_NONE ==> kvdata == old(kvdata) && kvdataUsed == old(kvdataUsed)
      ensures |kvdata| >= |old(kvdata)| && StaysFull(old(index), old(sheets), index, sheets)
      // it fails when the memory has reached its maximum or would pass 4 GB or no header fits the lengths, and else
      // only when the key's rows stay full up to the last sheet
      ensures NoMemory(|old(kvdata)|, kvdataMaximum, old(kvdataUsed), |key|, |val|) ==> uid == UID_NONE
      ensures uid == UID_NONE ==>
        NoMemory(|old(kvdata)|, kvdataMaximum, old(kvdataUsed), |key|, |val|) || RowsFull(hash(key), index, sheets)
      ensures uid == UID_NONE ==> Refused(|old(kvdata)|, kvdataMaximum, hash, index, sheets, key, |val|)
      ensures uid != UID_NONE ==>
        kvdataUsed == old(kvdataUsed) + Size(Rec(key, val)) && Grown(|old(kvdata)|, |kvdata|, old(kvdataUsed), kvdataUsed)
      ensures |kvdata| < |old(kvdata)| + RecordMost(|key|, |val|) + 2 * PAGE
    {
      hide TableOk, IndexOk, LinksOk, StoreOk, FreePlace, Balanced, RowsFull, StaysFull, Growth, Refused;
      TableBounds();
      FullAlready(index, sheets);
      if AtMaximum() {
        NoMemoryIsRefused(|kvdata|, kvdataMaximum, kvdataUsed, hash, index, sheets, key, |val|);
        return UID_NONE;
      }
      var r := Rec(key, val);
      if HeaderLen(|key|, |val|) == 0 {
        NoMemoryIsRefused(|kvdata|, kvdataMaximum, kvdataUsed, hash, index, sheets, key, |val|);
        return UID_NONE;
      }
      var h := hash(key);
      var place := Place(key);
      ghost var index1, sheets1 := index, sheets;
      if place.None? {
        NoMemoryIsRefused(|kvdata|, kvdataMaximum, kvdataUsed, hash, index, sheets, key, |val|);
        return UID_NONE;
      }
      var room := Reserve(Size(r));
      if !room {
        NoMemoryIsRefused(|kvdata|, kvdataMaximum, kvdataUsed, hash, index, sheets, key, |val|);
        return UID_NONE;
      }
      Append(r, place.value);
      FullTwice(old(index), old(sheets), index1, sheets1, index, sheets);
      uid := Uid(IndexOf(h), place.value.row, place.value.cell);
    }

    lemma TableBounds()
      requires TableOk()
      ensures kvdataUsed <= |kvdata|
    {
      hide IndexOk, LinksOk;
      UsedInMemory(kvdata, kvdataUsed, recs);
    }

    /** Makes room in the memory for a record, unless the memory would pass 4 GB. */
    method Reserve(want: nat) returns (room: bool)
      requires TableOk() && kvdataUsed <= |kvdata|
      modifies this`kvdata
      ensures TableOk() && room == !NoRoom(|old(kvdata)|, kvdataUsed, want)
      ensures room ==> kvdataUsed + want <= |kvdata| && |kvdata| >= |old(kvdata)|
      ensures room ==> Grown(|old(kvdata)|, |kvdata|, kvdataUsed, kvdataUsed + want)
      ensures !room ==> kvdata == old(kvdata)
    {
      hide IndexOk, LinksOk, StoreOk;
      room := true;
      if want > |kvdata| - kvdataUsed {
        if |kvdata| + Growth(want) >= MEMORY_MAX {
          return false;
        }
        GrowthIs(want);
        ExtendOk(kvdata, kvdataUsed, recs, Growth(want));
        kvdata := kvdata + Zeros(Growth(want));
      }
    }

    /** Writes the record and the cell that points at it. */
    method Append(r: Rec, at: Slot)
      requires TableOk() && forall p :: p in recs ==> recs[p].key != r.key
      requires Packable(r) && kvdataUsed + Size(r) <= |kvdata|
      requires index[IndexOf(hash(r.key))] < |sheets| && FreePlace(hash(r.key), sheets[index[IndexOf(hash(r.key))]], at)
      modifies this`sheets, this`kvdata, this`kvdataUsed, this`cellsUsed, this`recs, this`slot
      ensures TableOk() && old(kvdataUsed) !in old(recs) && at.row < ROWS && at.cell < CELLS
      ensures recs == old(recs)[old(kvdataUsed) := r] && slot == old(slot)[old(kvdataUsed) := at]
      ensures |kvdata| == |old(kvdata)| && StaysFull(index, old(sheets), index, sheets)
      ensures kvdataUsed == old(kvdataUsed) + Size(r)
      ensures index[IndexOf(hash(r.key))] < |sheets| && Balanced(hash(r.key), sheets[index[IndexOf(hash(r.key))]], at)
    {
      hide IndexOk, LinksOk, StoreOk, RecAt, FreePlace, Balanced, Store, Packable, Size, StaysFull;
      var h, k := hash(r.key), kvdataUsed;
      IndexLength(hash, index, sheets, recs, slot, h);
      var s, x := index[IndexOf(h)], Cell(h.lo, h.hi, k);
      UsedInMemory(kvdata, k, recs);
      PlaceInSheets(h, sheets, s, at);
      PutTable(hash, index, sheets, kvdata, k, recs, slot, links, at, r);
      StoreIsRecAt(kvdata, k, r);
      PutBalanced(h, sheets[s], at, x);
      PutStaysFull(index, sheets, s, at.row, at.cell, x);
      sheets := SetCell(sheets, s, at.row, at.cell, x);
      kvdata := Store(kvdata, k, r);
      kvdataUsed := k + Size(r);
      cellsUsed := cellsUsed + 1;
      recs, slot := recs[k := r], slot[k := at];
    }

    predicate AtMaximum()
      reads this`kvdata
    {
      kvdataMaximum > 0 && |kvdata| > kvdataMaximum
    }

    /** Pushes the nodes `from..to` on the free list. */
    method FreeCountPush(from: nat, to: nat)
      requires 1 <= from <= to < |counts|
      modifies this`counts, this`countsNextFree, this`countsFree
      ensures counts == Pushed(old(counts), old(countsNextFree), from, to)
      ensures countsNextFree == from && countsFree == old(countsFree) + (to - from + 1)
    {
      var c := to;
      while c >= from
        invariant from - 1 <= c <= to && |counts| == |old(counts)|
        invariant countsFree == old(countsFree) + (to - c)
        invariant countsNextFree == if c == to then old(countsNextFree) else c + 1
        invariant forall i :: 0 <= i < |counts| ==>
          counts[i] == if c < i then Pushed(old(counts), old(countsNextFree), from, to)[i] else old(counts)[i]
      {
        var next := countsNextFree;
        countsNextFree := c;
        counts := counts[c := counts[c].(next := next)];
        countsFree := countsFree + 1;
        c := c - 1;
      }
    }

    /** Takes a node off the free list, growing the node array by a page when the list is empty. */
    method FreeCountPop() returns (node: nat)
      requires |counts| == NodesIn(countsPages)
      requires countsFree == 0 ==> countsPages + 1 < PAGES_MAX
      requires countsFree > 0 ==> countsNextFree < |counts|
      modifies this`counts, this`countsPages, this`countsNextFree, this`countsFree, this`countsUsed
      ensures |counts| == NodesIn(countsPages)
      ensures countsPages == old(countsPages) + (if old(countsFree) == 0 then 1 else 0)
      ensures var c := Supplied(old(C()), old(countsPages));
        c.free > 0 && node == c.nextFree < |c.nodes| && C() == Popped(c)
    {
      hide NodesIn, Grow;
      if countsFree == 0 {
        AddPage();
      }
      NodesGrow(old(countsPages));
      assert C() == Supplied(old(C()), old(countsPages));
      node := countsNextFree;
      countsNextFree := counts[node].next;
      countsFree := countsFree - 1;
      countsUsed := countsUsed + 1;
    }

    /** Grows the node array by a page and pushes its nodes on the free list. */
    method AddPage()
      requires |counts| == NodesIn(countsPages) && countsFree == 0
      modifies this`counts, this`countsPages, this`countsNextFree, this`countsFree
      ensures countsPages == old(countsPages) + 1 && |old(counts)| < NodesIn(countsPages) && 1 < NodesIn(countsPages)
      ensures |counts| == NodesIn(countsPages) && 0 < countsFree && countsNextFree < |counts|
      ensures C() == Grow(old(C()), NodesIn(countsPages))
    {
      ghost var c0 := C();
      NodesGrow(countsPages);
      assert NodesIn(0) == 0;
      assert countsPages > 0 ==> NodesIn(countsPages) > 0;
      countsPages := countsPages + 1;
      var size := if countsPages == 1 then 1 else |counts|;
      var sizeNew := NodesIn(countsPages);
      hide NodesIn;
      GrowIsPushed(c0, sizeNew);
      counts := counts + seq(sizeNew - |counts|, _ => Count(0, 0, 0, 0));
      FreeCountPush(size, sizeNew - 1);
    }

    /** Overwrites one 32-bit field of the link that is the value of the record at `p`. */
    method SetLinkField(p: nat, off: nat, x: nat)
      requires TableOk() && p in recs && |recs[p].val| == LINK_BYTES && off in {0, 4, 8} && x < MEMORY_MAX
      modifies this`kvdata, this`recs, this`links
      ensures |kvdata| == |old(kvdata)|
      ensures TableOk() && recs == old(recs)[p := recs[p]] && recs[p].key == old(recs)[p].key
      ensures |recs[p].val| == LINK_BYTES && DecodeLink(recs[p].val) == SetField(DecodeLink(old(recs)[p].val), off, x)
      ensures links == if p in old(links) then old(links)[p := SetField(old(links)[p], off, x)] else old(links)
      ensures p in old(links) ==> SameRecs(old(recs), recs, links)
      ensures |kvdata| == |old(kvdata)|
    {
      ghost var recs0 := recs;
      hide SameRecs, IndexOk, StoreOk, LinksOk, SetField, DecodeLink, WithVal, ValPos, Write, Unpack, Le4;
      ValueAddress(kvdata, kvdataUsed, recs, p);
      var u := Unpack(kvdata, p);
      var v := p + u.headerLen + u.keyLen;
      WriteValOk(kvdata, kvdataUsed, recs, p, off, Le4(x));
      WriteLinkField(recs, links, p, off, x);
      kvdata := Write(kvdata, v + off, Le4(x));
      recs := recs[p := WithVal(recs[p], off, Le4(x))];
      links := if p in links then links[p := SetField(links[p], off, x)] else links;
      IndexFrame(hash, index, sheets, recs0, recs, slot);
      if p in links {
        SameBut(recs0, p, recs[p], links);
      }
    }

    /** Writes all three fields of the link of the record at `p`, which makes it a counter. */
    method SetLink(p: nat, k: Link)
      requires TableOk() && p in recs && |recs[p].val| == LINK_BYTES
      requires k.node < MEMORY_MAX && k.next < MEMORY_MAX && k.last < MEMORY_MAX
      modifies this`kvdata, this`recs, this`links
      ensures |kvdata| == |old(kvdata)|
      ensures TableOk() && recs == old(recs)[p := recs[p]] && recs[p].key == old(recs)[p].key
      ensures links == old(links)[p := k] && SameRecs(old(recs), recs, links) && |kvdata| == |old(kvdata)|
    {
      hide StoreOk, IndexOk, LinksOk, DecodeLink, SameRecs;
      ghost var links0, recs0 := links, recs;
      SetLinkField(p, 0, k.node);
      SetLinkField(p, 4, k.next);
      SetLinkField(p, 8, k.last);
      CounterAdded(recs, links, p, k);
      links := links[p := k];
      assert links == links0[p := k];
      SameBut(recs0, p, recs[p], links);
    }

    /** The link of a counter, read from its value. */
    function GetLink(p: nat): (k: Link)
      requires TableOk() && p in links
      reads this`index, this`sheets, this`kvdata, this`kvdataUsed, this`recs, this`slot, this`links
      ensures k == links[p] && p in recs
    {
      ReadLink(kvdata, kvdataUsed, recs, p);
      LinkAtPos(kvdata, p)
    }

    /** A key that is on no chain: a record with room for a link. */
    ghost predicate Loose(p: nat)
      reads this
    {
      && TableOk() && PagesOk() && Ok(C(), shape, p)
      && p != 0 && p in recs && |recs[p].val| == LINK_BYTES
    }

    lemma CountersAreRecs()
      requires TableOk()
      ensures forall q :: q in links ==> q in recs && |recs[q].val| == LINK_BYTES
    {
      hide IndexOk, StoreOk;
    }

    lemma RecsInBounds()
      requires TableOk()
      ensures forall q :: q in recs ==> q < MEMORY_MAX
      ensures forall q :: q in links ==> q in recs && q < MEMORY_MAX && |recs[q].val| == LINK_BYTES
    {
      hide IndexOk;
      CountersAreRecs();
      forall q | q in recs
        ensures q < MEMORY_MAX
      {
        assert RecAt(kvdata, q, recs[q]);
      }
    }

    /** Links `p` in front of `head`, the first key of node `n`. */
    method LinkInFront(p: nat, n: nat, head: nat)
      requires TableOk() && p in recs && |recs[p].val| == LINK_BYTES && head in links && head != p
      requires p < MEMORY_MAX && n < MEMORY_MAX && head < MEMORY_MAX
      modifies this`kvdata, this`recs, this`links
      ensures |kvdata| == |old(kvdata)|
      ensures TableOk() && SameRecs(old(recs), recs, links)
      ensures links == old(links)[p := Link(n, head, 0)][head := old(links)[head].(last := p)]
    {
      hide TableOk;
      CountersAreRecs();
      ghost var links0 := links;
      SetLinkField(head, 8, p);
      SetLink(p, Link(n, head, 0));
      assert links == links0[p := Link(n, head, 0)][head := links0[head].(last := p)];
    }

    /** Puts a loose key first on the chain of node `n`. */
    method PushOn(p: nat, n: nat)
      requires Loose(p) && n in shape.listOf
      modifies this`kvdata, this`recs, this`links, this`counts, this`shape
      ensures |kvdata| == |old(kvdata)|
      ensures Valid() && SameRecs(old(recs), recs, links)
      ensures OthersKept(old(C()), old(shape), C(), shape, p) && links.Keys == old(links).Keys + {p}
      ensures n < |old(counts)| && CountOf(C(), p) == old(counts)[n].count && ListOf(C(), shape, p) == Some(old(shape).listOf[n])
    {
      hide Ok, TableOk, OthersKept, CountOf, ListOf, SameRecs, NodesIn;
      ghost var c0, s0 := C(), shape;
      RecsInBounds();
      NodesFit(countsPages);
      PushKeyOk(c0, s0, n, p);
      ChainHead(c0, s0, n, p);
      LinkInFront(p, n, counts[n].hkv1);
      counts := counts[n := counts[n].(hkv1 := p)];
      shape := shape.(chains := shape.chains[n := [p] + shape.chains[n]]);
      assert C() == PushKey(c0, n, p);
    }

    /** Links node `m` in between `prev` and `nxt`, or at an end of the list. */
    method LinkNode(m: nat, list: nat, prev: nat, nxt: nat, count: nat, p: nat)
      requires m < |counts| && prev < |counts| && nxt < |counts| && prev != m && nxt != m && (prev == nxt ==> prev == 0)
      requires list < |countsLo| && list < |countsHi|
      modifies this`counts, this`countsLo, this`countsHi
      ensures counts == LinkIn(old(counts), prev, nxt, m, count, p)
      ensures countsLo == if prev == 0 then old(countsLo)[list := m] else old(countsLo)
      ensures countsHi == if nxt == 0 then old(countsHi)[list := m] else old(countsHi)
    {
      counts := counts[m := Count(count, nxt, prev, p)];
      if prev != 0 {
        counts := counts[prev := counts[prev].(next := m)];
      } else {
        countsLo := countsLo[list := m];
      }
      if nxt != 0 {
        counts := counts[nxt := counts[nxt].(last := m)];
      } else {
        countsHi := countsHi[list := m];
      }
    }

    /** Takes a free node and links it in between `prev` and `nxt`. */
    method NewNode(list: nat, prev: nat, nxt: nat, count: nat, p: nat) returns (m: nat)
      requires |counts| == NodesIn(countsPages)
      requires countsFree == 0 ==> countsPages + 1 < PAGES_MAX
      requires countsFree > 0 ==> countsNextFree < |counts|
      requires list < |countsLo| && list < |countsHi|
      requires var c := Supplied(C(), countsPages);
        && c.free > 0 && c.nextFree < |c.nodes|
        && prev < |c.nodes| && nxt < |c.nodes| && prev != c.nextFree && nxt != c.nextFree && (prev == nxt ==> prev == 0)
      modifies this`counts, this`countsPages, this`countsNextFree, this`countsFree, this`countsUsed, this`countsLo, this`countsHi
      ensures |counts| == NodesIn(countsPages)
      ensures countsPages == old(countsPages) + (if old(countsFree) == 0 then 1 else 0)
      ensures var c := Supplied(old(C()), old(countsPages));
        && list < |c.lo| && list < |c.hi|
        && m == c.nextFree && C() == AddNode(c, list, prev, nxt, count, p).(links := links)
    {
      hide NodesIn, Grow;
      m := FreeCountPop();
      LinkNode(m, list, prev, nxt, count, p);
    }

    /** Links a node of `count` for the loose key `p` in between `prev` and `nxt`, neighbours at index `k` of the list. */
    method InsertCount(p: nat, list: nat, ghost k: nat, prev: nat, nxt: nat, count: nat)
      requires Loose(p) && list < |shape.lists| && k <= |shape.lists[list]| && Fits(C(), shape, list, k, count)
      requires prev == At(shape.lists[list], k - 1) && nxt == At(shape.lists[list], k)
      requires countsFree == 0 ==> countsPages + 1 < PAGES_MAX
      modifies this`kvdata, this`recs, this`links, this`shape
      modifies this`counts, this`countsPages, this`countsNextFree, this`countsFree, this`countsUsed, this`countsLo, this`countsHi
      ensures |kvdata| == |old(kvdata)|
      ensures Valid() && SameRecs(old(recs), recs, links) && countsPages <= old(countsPages) + 1
      ensures OthersKept(old(C()), old(shape), C(), shape, p) && links.Keys == old(links).Keys + {p}
      ensures CountOf(C(), p) == count && ListOf(C(), shape, p) == Some(list)
    {
      hide Ok, TableOk, OthersKept, CountOf, ListOf, Fits, At, Supplied, SuppliedShape, AddNodeShape, SameRecs, NodesIn, LinkIn;
      ghost var c0, s0, pages0 := C(), shape, countsPages;
      InsertCountOk(c0, s0, pages0, p, list, k, prev, nxt, count);
      ghost var c1, s1 := Supplied(c0, pages0), SuppliedShape(c0, s0, pages0);
      SuppliedEnds(c0, pages0);
      var m := NewNode(list, prev, nxt, count, p);
      NodesFit(countsPages);
      SetLink(p, Link(m, 0, 0));
      shape := AddNodeShape(c1, s1, list, k, p);
      assert C() == AddNode(c1, list, prev, nxt, count, p);
    }

    /** Joins the neighbours of `p` on its chain past it. */
    method Unlink(p: nat, k: Link)
      requires TableOk() && p in links && k == links[p] && k.next != p && k.last != p
      requires k.next != 0 ==> k.next in links
      requires k.last != 0 ==> k.last in links
      modifies this`kvdata, this`recs, this`links
      ensures |kvdata| == |old(kvdata)|
      ensures TableOk() && SameRecs(old(recs), recs, links)
      ensures (k.next != 0 ==> k.next in old(links)) && (k.last != 0 ==> k.last in old(links))
      ensures links == JoinPast(old(links), k)
    {
      ghost var recs0, links0 := recs, links;
      hide TableOk, SameRecs;
      RecsInBounds();
      SameNothing(recs, links);
      if k.next != 0 {
        SetLinkField(k.next, 8, k.last);
      }
      ghost var recs1, links1 := recs, links;
      if k.last != 0 {
        SetLinkField(k.last, 4, k.next);
        SameTwice(recs0, recs1, recs, links1, links);
      }
      assert links == JoinPast(links0, k);
    }

    /** Frees the node `n` that lost its last key, and unlinks it from between `prev` and `nxt`. */
    method DropCount(n: nat, list: nat, prev: nat, nxt: nat)
      requires 1 <= n < |counts| && prev < |counts| && nxt < |counts| && n != prev && n != nxt && prev != nxt
      requires counts[n].hkv1 == 0 && countsUsed > 0 && list < |countsLo|
      requires nxt != 0
      modifies this`counts, this`countsNextFree, this`countsFree, this`countsUsed, this`countsLo
      ensures C() == DropNode(old(C()), list, n, prev, nxt)
    {
      ghost var c0 := C();
      FreeCountPush(n, n);
      countsUsed := countsUsed - 1;
      if nxt != 0 {
        counts := counts[nxt := counts[nxt].(last := prev)];
      } else {
        assert false;
      }
      if prev != 0 {
        counts := counts[prev := counts[prev].(next := nxt)];
      } else {
        countsLo := countsLo[list := if countsLo[list] == n then nxt else countsLo[list]];
      }
      assert counts == LinkPast(c0.nodes, n, prev, nxt, c0.nextFree);
    }

    /** Takes a key off its chain. */
    method Detach(p: nat)
      requires TableOk() && HasNeighbours(C(), p) && links[p].next != p && links[p].last != p
      modifies this`kvdata, this`recs, this`links, this`counts
      ensures |kvdata| == |old(kvdata)|
      ensures TableOk() && SameRecs(old(recs), recs, links) && p in recs && |recs[p].val| == LINK_BYTES
      ensures HasNeighbours(old(C()), p) && C() == Unchain(old(C()), p) && |counts| == |old(counts)|
    {
      hide TableOk, SameRecs, JoinPast;
      var k := GetLink(p);
      Unlink(p, k);
      CountersAreRecs();
      if counts[k.node].hkv1 == p {
        counts := counts[k.node := counts[k.node].(hkv1 := k.next)];
      }
    }

    /** Takes a key off the chain of its node, and frees the node when that was its last key. */
    method Leave(p: nat, list: nat)
      requires Valid() && ListOf(C(), shape, p) == Some(list)
      requires p in links && links[p].node < |counts| && !CanBump(C(), p)
      modifies this`kvdata, this`recs, this`links, this`shape
      modifies this`counts, this`countsNextFree, this`countsFree, this`countsUsed, this`countsLo
      ensures |kvdata| == |old(kvdata)|
      ensures Loose(p) && SameRecs(old(recs), recs, links) && links.Keys == old(links).Keys
      ensures OthersKept(old(C()), old(shape), C(), shape, p) && countsFree >= old(countsFree)
      ensures Left(old(C()), old(shape), C(), shape, p, list)
    {
      ghost var c0, s0 := C(), shape;
      hide Ok, TableOk, OthersKept, SameRecs, DropNode, DropShape, Remove, ListOf, NodesIn, JoinPast, Left;
      ghost var i := KeyPlace(c0, s0, p, list);
      ghost var j := KeyOnChain(c0, s0, p);
      if counts[links[p].node].hkv1 == p && links[p].next == 0 {
        LoneLeaves(c0, s0, p, list, i);
      }
      hide PlacedAt;
      var n := GetLink(p).node;
      var next, last := counts[n].next, counts[n].last;
      Detach(p);
      if counts[n].hkv1 == 0 {
        LoneUnchain(c0, p, list);
        DropCount(n, list, last, next);
        shape := DropShape(s0, list, i);
      } else {
        UnchainOk(c0, s0, p, j);
        ChainLeft(c0, s0, p, list, s0.chains[n := Remove(s0.chains[n], j)]);
        shape := s0.(chains := s0.chains[n := Remove(s0.chains[n], j)]);
      }
    }

    /** Increments a counter that is already counted. */
    method IncOld(p: nat, list: nat) returns (count: nat)
      requires Valid() && p in links && ListOf(C(), shape, p) == Some(list)
      requires countsFree == 0 ==> countsPages + 1 < PAGES_MAX
      modifies this`kvdata, this`recs, this`links, this`shape
      modifies this`counts, this`countsPages, this`countsNextFree, this`countsFree, this`countsUsed, this`countsLo, this`countsHi
      ensures |kvdata| == |old(kvdata)|
      ensures Valid() && SameRecs(old(recs), recs, links) && links.Keys == old(links).Keys && countsPages <= old(countsPages) + 1
      ensures OthersKept(old(C()), old(shape), C(), shape, p)
      ensures count == CountOf(C(), p) == old(CountOf(C(), p)) + 1 && ListOf(C(), shape, p) == Some(list)
    {
      ghost var c0, s0, recs0 := C(), shape, recs;
      hide Ok, TableOk, OthersKept, SameRecs, ListOf, NodesIn, Fits, Left;
      ghost var i := KeyPlace(c0, s0, p, list);
      DistinctNext(c0, s0, p, list, i);
      var k := GetLink(p);
      var n := k.node;
      var next := counts[n].next;
      count := counts[n].count + 1;
      if counts[n].hkv1 == p && k.next == 0 {
        if next == 0 || counts[next].count > count {
          BumpOk(c0, s0, p);
          SameNothing(recs, links);
          counts := counts[n := counts[n].(count := counts[n].count + 1)];
          assert C() == Bump(c0, n);
          return;
        }
      }
      Leave(p, list);
      ghost var c1, s1, recs1, links1 := C(), shape, recs, links;
      AfterLeave(c0, s0, p, list, i, c1, s1, next);
      hide PlacedAt, CountOf, At;
      Rejoin(p, list, i + 1, n, next, count);
      KeptTwice(c0, s0, c1, s1, C(), shape, p);
      SameTwice(recs0, recs1, recs, links1, links);
    }

    /** Puts a key that left node `n` on the count after it: the next node if that has it, or else a new one. */
    method Rejoin(p: nat, list: nat, ghost i: nat, n: nat, next: nat, count: nat)
      requires Loose(p) && Rejoinable(C(), shape, list, i, n, next, count)
      requires countsFree == 0 ==> countsPages + 1 < PAGES_MAX
      modifies this`kvdata, this`recs, this`links, this`shape
      modifies this`counts, this`countsPages, this`countsNextFree, this`countsFree, this`countsUsed, this`countsLo, this`countsHi
      ensures |kvdata| == |old(kvdata)|
      ensures Valid() && SameRecs(old(recs), recs, links) && countsPages <= old(countsPages) + 1
      ensures OthersKept(old(C()), old(shape), C(), shape, p) && links.Keys == old(links).Keys + {p}
      ensures CountOf(C(), p) == count && ListOf(C(), shape, p) == Some(list)
    {
      hide Loose, Valid, OthersKept, SameRecs, ListOf, CountOf, NodesIn, Fits;
      if next == 0 {
        InsertCount(p, list, i, n, 0, count);
      } else {
        if counts[next].count == count {
          PushOn(p, next);
        } else {
          InsertCount(p, list, i, n, next, count);
        }
      }
    }

    /** Counts a key for the first time. */
    method IncNew(p: nat, list: nat)
      requires Loose(p) && list < LISTS_MAX
      requires countsFree == 0 ==> countsPages + 1 < PAGES_MAX
      modifies this`kvdata, this`recs, this`links, this`shape
      modifies this`counts, this`countsPages, this`countsNextFree, this`countsFree, this`countsUsed, this`countsLo, this`countsHi
      ensures |kvdata| == |old(kvdata)|
      ensures Valid() && SameRecs(old(recs), recs, links) && countsPages <= old(countsPages) + 1
      ensures OthersKept(old(C()), old(shape), C(), shape, p) && links.Keys == old(links).Keys + {p}
      ensures CountOf(C(), p) == 1 && ListOf(C(), shape, p) == Some(list)
    {
      hide Ok, TableOk, Valid, OthersKept, SameRecs, ListOf, CountOf, NodesIn, Fits;
      FitsFirst(C(), shape, list, p);
      var c := countsLo[list];
      if c == 0 {
        InsertCount(p, list, 0, 0, 0, 1);
      } else if 1 < counts[c].count {
        InsertCount(p, list, 0, 0, c, 1);
      } else {
        PushOn(p, c);
      }
    }

    /** The count of a key; 0 for a key that is no counter. */
    ghost function Tally(key: bytes): nat
      reads this
    {
      TallyIn(recs, C(), key)
    }

    ghost function TallyList(key: bytes): Option<nat>
      reads this
    {
      ListIn(recs, C(), shape, key)
    }

    ghost function Value(key: bytes): Option<bytes>
      reads this
    {
      ValueIn(recs, links, key)
    }

    lemma TableFacts()
      requires TableOk()
      ensures KeysDistinct(recs) && 0 !in recs
      ensures forall q :: q in links ==> q in recs && |recs[q].val| == LINK_BYTES
    {
      hide CellsOk, RecsIndexed, Shaped, RecAt, Size;
    }

    lemma LooseKey(c0: Counts, s0: Shape, p: nat)
      requires TableOk() && PagesOk() && C() == c0 && shape == s0 && Ok(c0, s0, 0)
      requires p in recs && |recs[p].val| == LINK_BYTES && p !in links && p != 0
      ensures Loose(p)
    {
      hide TableOk, PagesOk, ListsOk, FreeOk;
      NewKeyIsHole(c0, s0, p);
      hide ChainsOk;
    }

    /** A record whose value cannot be a link in use is no counter. */
    lemma NoCounter(p: nat)
      requires Valid() && p in recs
      requires |recs[p].val| != LINK_BYTES || DecodeLink(recs[p].val).node >= |counts|
      ensures p !in links
    {
      hide ListsOk, FreeOk, StoreOk, IndexOk, Threaded, DecodeLink;
      forall q | q in links
        ensures links[q].node < |counts|
      {
        assert links[q].node in shape.chains;
      }
    }

    /** A counter in use is on a list. */
    lemma KeyListed(p: nat)
      requires Valid() && p in links
      ensures links[p].node < |counts| && ListOf(C(), shape, p).Some?
    {
      hide ListsOk, FreeOk, TableOk, Threaded;
      assert links[p].node in shape.chains;
    }

    function ValLenAt(p: nat): (n: nat)
      requires TableOk() && p in recs
      reads this`index, this`sheets, this`kvdata, this`kvdataUsed, this`recs, this`slot, this`links
      ensures n == |recs[p].val|
    {
      RecAtPos(kvdata, kvdataUsed, recs, p);
      Unpack(kvdata, p).valLen
    }

    function NodeAt(p: nat): (n: nat)
      requires TableOk() && p in recs && |recs[p].val| == LINK_BYTES
      reads this`index, this`sheets, this`kvdata, this`kvdataUsed, this`recs, this`slot, this`links
      ensures n == DecodeLink(recs[p].val).node
    {
      ReadLink(kvdata, kvdataUsed, recs, p);
      LinkAtPos(kvdata, p).node
    }

    /** Counts a key that is not stored: stores it with room for a link, then links it in. */
    method IncAbsent(key: bytes, list: nat) returns (count: nat)
      requires Valid() && list < LISTS_MAX && forall p :: p in recs ==> recs[p].key != key
      requires |key| + LINK_BYTES + 8 < MEMORY_MAX - 2 * PAGE
      requires countsFree == 0 ==> countsPages + 1 < PAGES_MAX
      modifies this
      ensures Valid() && countsPages <= old(countsPages) + 1
      ensures count == 0 ==> recs == old(recs) && C() == old(C()) && shape == old(shape)
      ensures Incremented(old(recs), old(C()), old(shape), recs, C(), shape, key, list, count)
      ensures |kvdata| >= |old(kvdata)| && StaysFull(old(index), old(sheets), index, sheets)
      ensures |kvdata| < |old(kvdata)| + RecordMost(|key|, LINK_BYTES) + 2 * PAGE
      ensures count == 0 ==> |kvdata| == |old(kvdata)|
      ensures SlotsKept(old(recs), old(slot), recs, slot)
      ensures count == 0 ==> kvdata == old(kvdata) && kvdataUsed == old(kvdataUsed)
      ensures NoMemory(|old(kvdata)|, kvdataMaximum, old(kvdataUsed), |key|, LINK_BYTES) ==> count == 0
      ensures count == 0 ==>
        NoMemory(|old(kvdata)|, kvdataMaximum, old(kvdataUsed), |key|, LINK_BYTES) || RowsFull(hash(key), index, sheets)
      ensures count == 0 ==> Refused(|old(kvdata)|, kvdataMaximum, hash, index, sheets, key, LINK_BYTES)
    {
      ghost var c0, s0, recs0 := C(), shape, recs;
      hide Ok, TableOk, OthersKept, SameRecs, NodesIn, Incremented, ListOf, CountOf, StaysFull, RowsFull, NoMemory, Refused, SlotsKept;
      var dummy := AnyValue();
      TableFacts();
      var p := kvdataUsed;
      var uid := PutVal(key, dummy);
      if uid == UID_NONE {
        NothingIncremented(recs, C(), shape, key, list);
        SlotsUnchanged(recs, slot);
        return 0;
      }
      ghost var recs1 := recs;
      TableFacts();
      LooseKey(c0, s0, p);
      IncNew(p, list);
      TableFacts();
      AbsentTally(recs0, c0, key);
      OneIncremented(recs0, c0, s0, recs1, recs, C(), shape, p, key, list, 1);
      SlotAdded(recs0, old(slot), recs1, slot, recs, links, p);
      return 1;
    }

    /** Counts a stored key up, unless it is no counter. */
    method IncPresent(key: bytes, p: nat, list: nat) returns (count: nat)
      requires Valid() && p in recs && recs[p].key == key
      requires countsFree == 0 ==> countsPages + 1 < PAGES_MAX
      requires TallyList(key).Some? ==> TallyList(key).value == list
      requires p !in links && |recs[p].val| == LINK_BYTES ==> DecodeLink(recs[p].val).node >= |counts|
      modifies this
      ensures Valid() && countsPages <= old(countsPages) + 1
      ensures count == 0 ==> recs == old(recs) && C() == old(C()) && shape == old(shape)
      ensures Incremented(old(recs), old(C()), old(shape), recs, C(), shape, key, list, count)
      ensures count == 0 <==> p !in old(links)
      ensures |kvdata| >= |old(kvdata)| && StaysFull(old(index), old(sheets), index, sheets)
      ensures |kvdata| < |old(kvdata)| + RecordMost(|key|, LINK_BYTES) + 2 * PAGE
      ensures count == 0 ==> |kvdata| == |old(kvdata)|
      ensures SlotsKept(old(recs), old(slot), recs, slot)
    {
      ghost var c0, s0, recs0 := C(), shape, recs;
      hide Ok, TableOk, OthersKept, SameRecs, NodesIn, Incremented, ListOf, CountOf, DecodeLink, RowsFull, SlotsKept;
      SlotsUnchanged(recs, slot);
      TableFacts();
      PosOfIs(recs, p);
      if ValLenAt(p) != LINK_BYTES || NodeAt(p) >= |counts| {
        NoCounter(p);
        NothingIncremented(recs, C(), shape, key, list);
        return 0;
      }
      KeyListed(p);
      count := IncOld(p, list);
      TableFacts();
      OneIncremented(recs0, c0, s0, recs0, recs, C(), shape, p, key, list, count);
      SlotsSame(recs0, slot, recs, links);
    }

    /** Counts a key up, and returns its new count; 0 when the key cannot be stored or is no counter. */
    method Inc(key: bytes, list: nat) returns (count: nat)
      requires Valid() && list < LISTS_MAX
      requires |key| + LINK_BYTES + 8 < MEMORY_MAX - 2 * PAGE
      requires countsFree == 0 ==> countsPages + 1 < PAGES_MAX
      // a counter is always counted on the same list, and its count fits 48 bits
      requires TallyList(key).Some? ==> TallyList(key).value == list
      requires Tally(key) + 1 < COUNT_MAX
      // no other value was made to look like a counter's
      requires forall p :: p in recs && recs[p].key == key && p !in links && |recs[p].val| == LINK_BYTES ==>
        DecodeLink(recs[p].val).node >= |counts|
      modifies this
      ensures Valid() && countsPages <= old(countsPages) + 1
      ensures count == 0 ==> recs == old(recs) && C() == old(C()) && shape == old(shape)
      ensures count != 0 ==> count == Tally(key) == old(Tally(key)) + 1 && TallyList(key) == Some(list)
      ensures old(Tally(key)) > 0 ==> count > 0
      ensures forall k :: k != key ==> KeyKept(old(recs), old(C()), old(shape), recs, C(), shape, k)
      ensures |kvdata| >= |old(kvdata)| && StaysFull(old(index), old(sheets), index, sheets)
      ensures |kvdata| < |old(kvdata)| + RecordMost(|key|, LINK_BYTES) + 2 * PAGE
      ensures count == 0 ==> |kvdata| == |old(kvdata)|
      ensures SlotsKept(old(recs), old(slot), recs, slot)
      // a key that is stored fails when it is no counter; one that is not, when it cannot be put
      ensures (exists p :: p in old(recs) && old(recs)[p].key == key && p !in old(links)) ==> count == 0
      ensures NoMemory(|old(kvdata)|, kvdataMaximum, old(kvdataUsed), |key|, LINK_BYTES) ==>
        count == 0 || exists p :: p in old(recs) && old(recs)[p].key == key
      ensures count == 0 ==>
        || (exists p :: p in old(recs) && old(recs)[p].key == key && p !in old(links))
        || NoMemory(|old(kvdata)|, kvdataMaximum, old(kvdataUsed), |key|, LINK_BYTES) || RowsFull(hash(key), index, sheets)
      ensures count == 0 ==>
        || (exists p :: p in old(recs) && old(recs)[p].key == key && p !in old(links))
        || Refused(|old(kvdata)|, kvdataMaximum, hash, index, sheets, key, LINK_BYTES)
    {
      ghost var recs0, c0 := recs, C();
      hide Ok, TableOk, KeyKept, NodesIn, DecodeLink, StaysFull, RowsFull, NoMemory, Refused, SlotsKept;
      var at, p := Find(key);
      TableFacts();
      if at.None? {
        AbsentTally(recs, c0, key);
        count := IncAbsent(key, list);
      } else {
        PosOfIs(recs, p);
        count := IncPresent(key, p, list);
      }
    }
  }
}
