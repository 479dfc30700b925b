/**
 * The hash table of sxe-cdb, on values: `index` maps a hash to a sheet, every key lives in a cell of one of
 * two rows of its sheet, and a full sheet splits into two without moving a key to another row or cell.
 */
module CdbIndex {
  import opened Bytes
  import opened CdbHkv

  const CELLS: nat := 16
  const ROWS: nat := 4096
  const SHEETS_MAX: nat := 8192

  /** The three 16-bit words of a prepared hash: the one that picks the sheet and those that pick the rows. */
  datatype Hash = Hash(hi: nat, lo: nat, alt: nat)

  datatype Cell = Cell(lo: nat, hi: nat, pos: nat)
  datatype Slot = Slot(row: nat, cell: nat)

  type Sheet = seq<seq<Cell>>

  /** The first words of the raw hash, adjusted so that `lo` and `alt` differ. */
  function Prepare(w: seq<nat>): (h: Hash)
    requires |w| >= 5 && forall i :: 0 <= i < |w| ==> w[i] < 0x1_0000
    ensures h.hi == w[0] && h.alt == w[2] && h.lo < 0x1_0000
    ensures h.lo != h.alt && (w[1] != w[2] ==> h.lo == w[1])
  {
    var lo1 := if w[1] == w[2] then w[3] else w[1];
    var lo2 := if w[1] == w[2] && lo1 == w[2] then w[4] else lo1;
    var lo3 := if w[1] == w[2] && lo2 == w[2] then (w[2] + 1) % 0x1_0000 else lo2;
    Hash(w[0], lo3, w[2])
  }

  function IndexOf(h: Hash): nat { h.hi % SHEETS_MAX }
  function Row1(h: Hash): nat { h.lo % ROWS }
  function Row2(h: Hash): nat { h.alt % ROWS }

  predicate SheetShape(s: Sheet) {
    |s| == ROWS && forall r :: 0 <= r < ROWS ==> |s[r]| == CELLS
  }

  ghost predicate Shaped(index: seq<nat>, sheets: seq<Sheet>) {
    && |index| == SHEETS_MAX
    && (forall i :: 0 <= i < SHEETS_MAX ==> index[i] < |sheets|)
    && (forall s :: 0 <= s < |sheets| ==> SheetShape(sheets[s]))
  }

  predicate InSheets(sheets: seq<Sheet>, s: nat, r: nat, c: nat) {
    s < |sheets| && r < |sheets[s]| && c < |sheets[s][r]|
  }

  /** The cell (s, r, c), if used, is the one place of the record it points at. */
  ghost predicate CellOk(hash: bytes -> Hash, index: seq<nat>, recs: map<nat, Rec>, slot: map<nat, Slot>,
                         s: nat, r: nat, c: nat, x: Cell)
    requires |index| == SHEETS_MAX
  {
    x.pos != 0 ==>
      && x.pos in recs && x.pos in slot && slot[x.pos] == Slot(r, c)
      && var h := hash(recs[x.pos].key);
         x.lo == h.lo && x.hi == h.hi && s == index[IndexOf(h)]
  }

  /** The record `p` is indexed: its slot, on one of the two rows of its key, points at it. */
  ghost predicate Indexed(hash: bytes -> Hash, index: seq<nat>, sheets: seq<Sheet>, key: bytes, p: nat, at: Slot)
    requires |index| == SHEETS_MAX
  {
    var h := hash(key);
    && p != 0 && (at.row == Row1(h) || at.row == Row2(h))
    && InSheets(sheets, index[IndexOf(h)], at.row, at.cell)
    && sheets[index[IndexOf(h)]][at.row][at.cell] == Cell(h.lo, h.hi, p)
  }

  ghost predicate CellsOk(hash: bytes -> Hash, index: seq<nat>, sheets: seq<Sheet>, recs: map<nat, Rec>, slot: map<nat, Slot>)
    requires |index| == SHEETS_MAX
  {
    forall s, r, c {:trigger sheets[s][r][c]} :: 0 <= s < |sheets| && 0 <= r < |sheets[s]| && 0 <= c < |sheets[s][r]| ==>
      CellOk(hash, index, recs, slot, s, r, c, sheets[s][r][c])
  }

  ghost predicate RecsIndexed(hash: bytes -> Hash, index: seq<nat>, sheets: seq<Sheet>, recs: map<nat, Rec>, slot: map<nat, Slot>)
    requires |index| == SHEETS_MAX
  {
    && slot.Keys == recs.Keys
    && (forall p :: p in recs ==> Indexed(hash, index, sheets, recs[p].key, p, slot[p]))
  }

  ghost predicate KeysDistinct(recs: map<nat, Rec>) {
    forall p, q :: p in recs && q in recs && recs[p].key == recs[q].key ==> p == q
  }

  ghost predicate IndexOk(hash: bytes -> Hash, index: seq<nat>, sheets: seq<Sheet>, recs: map<nat, Rec>, slot: map<nat, Slot>) {
    && Shaped(index, sheets)
    && CellsOk(hash, index, sheets, recs, slot)
    && RecsIndexed(hash, index, sheets, recs, slot)
    && KeysDistinct(recs)
  }

  // ---------------------------------------------------------------- splitting a sheet

  /** How many of the first `n` indexes lead to sheet `x`. */
  function Occurrences(index: seq<nat>, x: nat, n: nat): nat
    requires n <= |index|
  {
    if n == 0 then 0 else Occurrences(index, x, n - 1) + (if index[n - 1] == x then 1 else 0)
  }

  /** The indexes of sheet `this_` shared out, the second, fourth, ... of them going to sheet `that`. */
  function SplitIndex(index: seq<nat>, this_: nat, that: nat): (r: seq<nat>)
    ensures |r| == |index|
    ensures forall i :: 0 <= i < |index| ==>
      r[i] == if index[i] == this_ && Occurrences(index, this_, i) % 2 == 1 then that else index[i]
  {
    seq(|index|, i requires 0 <= i < |index| =>
      if index[i] == this_ && Occurrences(index, this_, i) % 2 == 1 then that else index[i])
  }

  lemma {:induction false} SplitCounts(index: seq<nat>, this_: nat, that: nat, n: nat)
    requires this_ != that && that !in index && n <= |index|
    ensures var r := SplitIndex(index, this_, that);
      && Occurrences(r, that, n) == Occurrences(index, this_, n) / 2
      && Occurrences(r, this_, n) == (Occurrences(index, this_, n) + 1) / 2
  {
    if n > 0 {
      SplitCounts(index, this_, that, n - 1);
      assert index[n - 1] != that;
    }
  }

  /** A split shares the indexes of a sheet out evenly: the old sheet keeps at most one more than the new one gets. */
  lemma SplitIsEven(index: seq<nat>, this_: nat, that: nat)
    requires this_ != that && that !in index
    ensures var r := SplitIndex(index, this_, that);
      var kept, gone := Occurrences(r, this_, |r|), Occurrences(r, that, |r|);
      kept + gone == Occurrences(index, this_, |index|) && gone <= kept <= gone + 1
  {
    SplitCounts(index, this_, that, |index|);
  }

  /** A used cell of the split sheet moves when its hash now leads to the new sheet. */
  predicate Moves(index: seq<nat>, that: nat, x: Cell)
    requires |index| == SHEETS_MAX
  {
    x.pos != 0 && index[x.hi % SHEETS_MAX] == that
  }

  function Stays(index: seq<nat>, that: nat, x: Cell): Cell
    requires |index| == SHEETS_MAX
  {
    if Moves(index, that, x) then x.(pos := 0) else x
  }

  function Arrives(index: seq<nat>, that: nat, x: Cell): Cell
    requires |index| == SHEETS_MAX
  {
    if Moves(index, that, x) then x else Cell(0, 0, 0)
  }

  /** What a split does to the sheets: each moving cell keeps its row and its place in the row. */
  ghost predicate SplitSheets(index: seq<nat>, sheets: seq<Sheet>, this_: nat, sheets': seq<Sheet>)
    requires |index| == SHEETS_MAX && this_ < |sheets| && SheetShape(sheets[this_])
  {
    && |sheets'| == |sheets| + 1
    && (forall s :: 0 <= s < |sheets| && s != this_ ==> sheets'[s] == sheets[s])
    && SheetShape(sheets'[this_]) && SheetShape(sheets'[|sheets|])
    && (forall r, c {:trigger sheets'[this_][r][c]} :: 0 <= r < ROWS && 0 <= c < CELLS ==>
          sheets'[this_][r][c] == Stays(index, |sheets|, sheets[this_][r][c]))
    && (forall r, c {:trigger sheets'[|sheets|][r][c]} :: 0 <= r < ROWS && 0 <= c < CELLS ==>
          sheets'[|sheets|][r][c] == Arrives(index, |sheets|, sheets[this_][r][c]))
  }

  lemma SplitCells(hash: bytes -> Hash, index: seq<nat>, sheets: seq<Sheet>, recs: map<nat, Rec>, slot: map<nat, Slot>,
                   this_: nat, sheets': seq<Sheet>, s: nat, r: nat, c: nat)
    requires IndexOk(hash, index, sheets, recs, slot) && this_ < |sheets|
    requires var index' := SplitIndex(index, this_, |sheets|); SplitSheets(index', sheets, this_, sheets')
    requires InSheets(sheets', s, r, c)
    ensures CellOk(hash, SplitIndex(index, this_, |sheets|), recs, slot, s, r, c, sheets'[s][r][c])
  {
    hide RecsIndexed, KeysDistinct;
    var o := if s == |sheets| then this_ else s;
    assert SheetShape(sheets[o]);
    var x := sheets[o][r][c];
    assert CellOk(hash, index, recs, slot, o, r, c, x);
    hide CellsOk, Shaped, SplitIndex;
  }

  lemma SplitIndexed(hash: bytes -> Hash, index: seq<nat>, sheets: seq<Sheet>, recs: map<nat, Rec>, slot: map<nat, Slot>,
                     this_: nat, sheets': seq<Sheet>, p: nat)
    requires IndexOk(hash, index, sheets, recs, slot) && this_ < |sheets| && p in recs
    requires var index' := SplitIndex(index, this_, |sheets|); SplitSheets(index', sheets, this_, sheets')
    ensures Indexed(hash, SplitIndex(index, this_, |sheets|), sheets', recs[p].key, p, slot[p])
  {
    hide CellsOk, KeysDistinct;
    assert Indexed(hash, index, sheets, recs[p].key, p, slot[p]);
    var h, at := hash(recs[p].key), slot[p];
    var o := index[IndexOf(h)];
    var index' := SplitIndex(index, this_, |sheets|);
    assert SheetShape(sheets[o]);
    hide RecsIndexed, Shaped, SplitIndex;
    if o == this_ {
      var x := sheets[o][at.row][at.cell];
      assert sheets'[this_][at.row][at.cell] == Stays(index', |sheets|, x);
      assert sheets'[|sheets|][at.row][at.cell] == Arrives(index', |sheets|, x);
    }
  }

  /** Splitting a sheet keeps every record indexed, at the row and cell where it was. */
  lemma SplitOk(hash: bytes -> Hash, index: seq<nat>, sheets: seq<Sheet>, recs: map<nat, Rec>, slot: map<nat, Slot>,
                this_: nat, sheets': seq<Sheet>)
    requires IndexOk(hash, index, sheets, recs, slot) && this_ < |sheets|
    requires var index' := SplitIndex(index, this_, |sheets|); SplitSheets(index', sheets, this_, sheets')
    ensures IndexOk(hash, SplitIndex(index, this_, |sheets|), sheets', recs, slot)
  {
    var index' := SplitIndex(index, this_, |sheets|);
    assert Shaped(index', sheets');
    hide Shaped, CellOk, Indexed, SplitIndex;
    forall s, r, c | 0 <= s < |sheets'| && 0 <= r < |sheets'[s]| && 0 <= c < |sheets'[s][r]|
      ensures CellOk(hash, index', recs, slot, s, r, c, sheets'[s][r][c])
    {
      SplitCells(hash, index, sheets, recs, slot, this_, sheets', s, r, c);
    }
    forall p | p in recs
      ensures Indexed(hash, index', sheets', recs[p].key, p, slot[p])
    {
      SplitIndexed(hash, index, sheets, recs, slot, this_, sheets', p);
    }
  }

  // ---------------------------------------------------------------- putting a record in a free cell

  function SetCell(sheets: seq<Sheet>, s: nat, r: nat, c: nat, x: Cell): seq<Sheet>
    requires InSheets(sheets, s, r, c)
  {
    sheets[s := sheets[s][r := sheets[s][r][c := x]]]
  }

  lemma SetCellAt(sheets: seq<Sheet>, s: nat, r: nat, c: nat, x: Cell)
    requires InSheets(sheets, s, r, c)
    ensures var t := SetCell(sheets, s, r, c, x);
      && |t| == |sheets| && (forall a :: 0 <= a < |t| ==> |t[a]| == |sheets[a]|)
      && (forall a, b {:trigger t[a][b]} :: 0 <= a < |t| && 0 <= b < |t[a]| ==> |t[a][b]| == |sheets[a][b]|)
      && (forall a: nat, b: nat, d: nat {:trigger t[a][b][d]} :: InSheets(sheets, a, b, d) ==>
            t[a][b][d] == if a == s && b == r && d == c then x else sheets[a][b][d])
  {
    var t := SetCell(sheets, s, r, c, x);
    assert t[s] == sheets[s][r := sheets[s][r][c := x]];
    assert forall b :: 0 <= b < |t[s]| && b != r ==> t[s][b] == sheets[s][b];
  }

  lemma PutIndexed(hash: bytes -> Hash, index: seq<nat>, sheets: seq<Sheet>, recs: map<nat, Rec>, slot: map<nat, Slot>,
                   at: Slot, k: nat, r: Rec, p: nat)
    requires IndexOk(hash, index, sheets, recs, slot)
    requires var s := index[IndexOf(hash(r.key))];
      InSheets(sheets, s, at.row, at.cell) && sheets[s][at.row][at.cell].pos == 0
    requires p in recs
    ensures var h := hash(r.key);
      Indexed(hash, index, SetCell(sheets, index[IndexOf(h)], at.row, at.cell, Cell(h.lo, h.hi, k)), recs[p].key, p, slot[p])
  {
    hide CellsOk, KeysDistinct;
    var h := hash(r.key);
    assert Indexed(hash, index, sheets, recs[p].key, p, slot[p]);
    SetCellAt(sheets, index[IndexOf(h)], at.row, at.cell, Cell(h.lo, h.hi, k));
    hide SetCell, RecsIndexed, Shaped;
  }

  lemma PutCells(hash: bytes -> Hash, index: seq<nat>, sheets: seq<Sheet>, recs: map<nat, Rec>, slot: map<nat, Slot>,
                 at: Slot, k: nat, r: Rec, a: nat, b: nat, d: nat)
    requires IndexOk(hash, index, sheets, recs, slot) && k !in recs
    requires var s := index[IndexOf(hash(r.key))];
      InSheets(sheets, s, at.row, at.cell) && sheets[s][at.row][at.cell].pos == 0
    requires InSheets(sheets, a, b, d)
    ensures var h := hash(r.key);
      var t := SetCell(sheets, index[IndexOf(h)], at.row, at.cell, Cell(h.lo, h.hi, k));
      InSheets(t, a, b, d) && CellOk(hash, index, recs[k := r], slot[k := at], a, b, d, t[a][b][d])
  {
    hide RecsIndexed, KeysDistinct;
    var h := hash(r.key);
    assert CellOk(hash, index, recs, slot, a, b, d, sheets[a][b][d]);
    SetCellAt(sheets, index[IndexOf(h)], at.row, at.cell, Cell(h.lo, h.hi, k));
    hide SetCell, CellsOk, Shaped;
  }

  lemma PutShaped(index: seq<nat>, sheets: seq<Sheet>, s: nat, r: nat, c: nat, x: Cell)
    requires Shaped(index, sheets) && InSheets(sheets, s, r, c)
    ensures Shaped(index, SetCell(sheets, s, r, c, x))
  {
    SetCellAt(sheets, s, r, c, x);
    var t := SetCell(sheets, s, r, c, x);
    hide SetCell;
    forall a | 0 <= a < |t|
      ensures SheetShape(t[a])
    {
      assert SheetShape(sheets[a]);
    }
  }

  /** A new key put in a free cell of one of its rows keeps the index, and nothing else moves. */
  lemma PutOk(hash: bytes -> Hash, index: seq<nat>, sheets: seq<Sheet>, recs: map<nat, Rec>, slot: map<nat, Slot>,
              at: Slot, k: nat, r: Rec)
    requires IndexOk(hash, index, sheets, recs, slot) && k != 0 && k !in recs
    requires forall p :: p in recs ==> recs[p].key != r.key
    requires at.row == Row1(hash(r.key)) || at.row == Row2(hash(r.key))
    requires var s := index[IndexOf(hash(r.key))];
      InSheets(sheets, s, at.row, at.cell) && sheets[s][at.row][at.cell].pos == 0
    ensures var h := hash(r.key);
      IndexOk(hash, index, SetCell(sheets, index[IndexOf(h)], at.row, at.cell, Cell(h.lo, h.hi, k)), recs[k := r], slot[k := at])
  {
    var h := hash(r.key);
    var s := index[IndexOf(h)];
    var x := Cell(h.lo, h.hi, k);
    var t := SetCell(sheets, s, at.row, at.cell, x);
    PutShaped(index, sheets, s, at.row, at.cell, x);
    SetCellAt(sheets, s, at.row, at.cell, x);
    hide SetCell, CellOk, Shaped;
    forall a, b, d | 0 <= a < |t| && 0 <= b < |t[a]| && 0 <= d < |t[a][b]|
      ensures CellOk(hash, index, recs[k := r], slot[k := at], a, b, d, t[a][b][d])
    {
      PutCells(hash, index, sheets, recs, slot, at, k, r, a, b, d);
    }
    assert Indexed(hash, index, t, r.key, k, at);
    hide Indexed;
    forall p | p in recs
      ensures Indexed(hash, index, t, recs[p].key, p, slot[p])
    {
      PutIndexed(hash, index, sheets, recs, slot, at, k, r, p);
    }
  }

  lemma CellFrame(hash: bytes -> Hash, index: seq<nat>, recs: map<nat, Rec>, recs': map<nat, Rec>,
                  slot: map<nat, Slot>, s: nat, r: nat, c: nat, x: Cell)
    requires |index| == SHEETS_MAX && CellOk(hash, index, recs, slot, s, r, c, x)
    requires recs'.Keys == recs.Keys && forall p :: p in recs ==> recs'[p].key == recs[p].key
    ensures CellOk(hash, index, recs', slot, s, r, c, x)
  {
  }

  lemma RecsFrame(hash: bytes -> Hash, index: seq<nat>, sheets: seq<Sheet>,
                  recs: map<nat, Rec>, recs': map<nat, Rec>, slot: map<nat, Slot>)
    requires |index| == SHEETS_MAX && RecsIndexed(hash, index, sheets, recs, slot) && KeysDistinct(recs)
    requires recs'.Keys == recs.Keys && forall p :: p in recs ==> recs'[p].key == recs[p].key
    ensures RecsIndexed(hash, index, sheets, recs', slot) && KeysDistinct(recs')
  {
    hide Indexed;
  }

  /** The index depends on the keys of the records only. */
  lemma IndexFrame(hash: bytes -> Hash, index: seq<nat>, sheets: seq<Sheet>,
                   recs: map<nat, Rec>, recs': map<nat, Rec>, slot: map<nat, Slot>)
    requires IndexOk(hash, index, sheets, recs, slot)
    requires recs'.Keys == recs.Keys && forall p :: p in recs ==> recs'[p].key == recs[p].key
    ensures IndexOk(hash, index, sheets, recs', slot)
  {
    assert |index| == SHEETS_MAX;
    hide Shaped, CellOk, RecsIndexed, KeysDistinct;
    RecsFrame(hash, index, sheets, recs, recs', slot);
    forall s, r, c | 0 <= s < |sheets| && 0 <= r < |sheets[s]| && 0 <= c < |sheets[s][r]|
      ensures CellOk(hash, index, recs', slot, s, r, c, sheets[s][r][c])
    {
      CellFrame(hash, index, recs, recs', slot, s, r, c, sheets[s][r][c]);
    }
  }
}
