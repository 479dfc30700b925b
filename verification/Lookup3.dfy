/**
 * The hashes of lookup3: loops that read the key by words, half words or bytes, against one definition on the bytes
 * of the key. Words are integers modulo 2^32. Memory is bytes by address, in whole words; an aligned word may be read
 * although the key ends inside it.
 */
module Lookup3 {
  import opened Bytes

  const M: nat := 0x1_0000_0000

  type Word = w: int | 0 <= w < M

  /** The internal state of a hash. */
  datatype State = State(a: Word, b: Word, c: Word)

  // ---------------------------------------------------------------- words

  function Plus(x: Word, y: Word): Word {
    if x + y < M then x + y else x + y - M
  }

  function Minus(x: Word, y: Word): Word {
    if x >= y then x - y else x - y + M
  }

  /** Exclusive or, bit by bit. */
  function XorBits(x: nat, y: nat, n: nat): (r: nat)
    ensures r < Pow2(n)
  {
    if n == 0 then 0 else (if x % 2 == y % 2 then 0 else 1) + 2 * XorBits(x / 2, y / 2, n - 1)
  }

  function Pow2(n: nat): (p: nat)
    ensures p > 0
  {
    if n == 0 then 1 else 2 * Pow2(n - 1)
  }

  lemma Pow32()
    ensures Pow2(32) == M
  {
    assert Pow2(8) == 0x100;
    assert Pow2(16) == 0x1_0000;
    assert Pow2(24) == 0x100_0000;
  }

  function Xor(x: Word, y: Word): Word {
    Pow32();
    XorBits(x, y, 32)
  }

  lemma {:induction false} PowSum(j: nat, k: nat)
    ensures Pow2(j + k) == Pow2(j) * Pow2(k)
  {
    if j > 0 {
      PowSum(j - 1, k);
    }
  }

  lemma Fits(x: nat, p: nat, q: nat)
    requires p > 0 && x < p * q
    ensures x % p * q + x / p < p * q
  {
    var lo, hi := x % p, x / p;
    assert x == p * hi + lo;
    Below(hi, q, p);
    Below(lo, p, q);
  }

  lemma {:induction false} Grows(a: nat, b: nat, m: nat)
    requires a <= b
    ensures a * m <= b * m
    decreases b - a
  {
    if a < b {
      Grows(a, b - 1, m);
    }
  }

  lemma Below(a: nat, b: nat, m: nat)
    ensures if a < b then a * m + m <= b * m else b * m <= a * m
  {
    if a < b {
      Grows(a + 1, b, m);
    } else {
      Grows(b, a, m);
    }
  }

  /** The part of a number below `p` moved up by a factor of `q`, with the rest after it. */
  function Moved(x: nat, p: nat, q: nat): (r: nat)
    requires p > 0 && x < p * q
    ensures r < p * q
  {
    Fits(x, p, q);
    x % p * q + x / p
  }

  /** The rotation macro: the low bits move up by `k` places, and the high `k` bits come after them. */
  function Rot(x: Word, k: nat): Word
    requires 0 < k < 32
  {
    Pow32();
    PowSum(32 - k, k);
    Moved(x, Pow2(32 - k), Pow2(k))
  }

  lemma {:induction false} XorTwiceBits(x: nat, y: nat, n: nat)
    requires x < Pow2(n)
    ensures XorBits(XorBits(x, y, n), y, n) == x
  {
    if n > 0 {
      var h, bit := XorBits(x / 2, y / 2, n - 1), if x % 2 == y % 2 then 0 else 1;
      var r := bit + 2 * h;
      assert r == XorBits(x, y, n) && r / 2 == h && r % 2 == bit;
      XorTwiceBits(x / 2, y / 2, n - 1);
    }
  }

  lemma XorTwice(x: Word, y: Word)
    ensures Xor(Xor(x, y), y) == x
  {
    Pow32();
    XorTwiceBits(x, y, 32);
  }

  // ---------------------------------------------------------------- mixing

  /** The lines of `mix`: x -= z; x ^= rot(z, k); z += y. */
  function Line1(s: State, k: nat): State
    requires 0 < k < 32
  {
    State(Xor(Minus(s.a, s.c), Rot(s.c, k)), s.b, Plus(s.c, s.b))
  }

  function Line2(s: State, k: nat): State
    requires 0 < k < 32
  {
    State(Plus(s.a, s.c), Xor(Minus(s.b, s.a), Rot(s.a, k)), s.c)
  }

  function Line3(s: State, k: nat): State
    requires 0 < k < 32
  {
    State(s.a, Plus(s.b, s.a), Xor(Minus(s.c, s.b), Rot(s.b, k)))
  }

  function Mix(s: State): State {
    Line3(Line2(Line1(Line3(Line2(Line1(s, 4), 6), 8), 16), 19), 4)
  }

  function Undo1(s: State, k: nat): State
    requires 0 < k < 32
  {
    var c := Minus(s.c, s.b);
    State(Plus(Xor(s.a, Rot(c, k)), c), s.b, c)
  }

  function Undo2(s: State, k: nat): State
    requires 0 < k < 32
  {
    var a := Minus(s.a, s.c);
    State(a, Plus(Xor(s.b, Rot(a, k)), a), s.c)
  }

  function Undo3(s: State, k: nat): State
    requires 0 < k < 32
  {
    var b := Minus(s.b, s.a);
    State(s.a, b, Plus(Xor(s.c, Rot(b, k)), b))
  }

  lemma LinesUndone(s: State, k: nat)
    requires 0 < k < 32
    ensures Undo1(Line1(s, k), k) == s && Undo2(Line2(s, k), k) == s && Undo3(Line3(s, k), k) == s
  {
    hide Rot, Xor;
    XorTwice(Minus(s.a, s.c), Rot(s.c, k));
    XorTwice(Minus(s.b, s.a), Rot(s.a, k));
    XorTwice(Minus(s.c, s.b), Rot(s.b, k));
  }

  function Unmix(s: State): State {
    Undo1(Undo2(Undo3(Undo1(Undo2(Undo3(s, 4), 19), 16), 8), 6), 4)
  }

  /** `mix` is reversible: no two states mix to the same state. */
  lemma MixIsReversible(s: State)
    ensures Unmix(Mix(s)) == s
  {
    hide Line1, Line2, Line3, Undo1, Undo2, Undo3;
    LinesUndone(s, 4);
    LinesUndone(Line1(s, 4), 6);
    LinesUndone(Line2(Line1(s, 4), 6), 8);
    var m := Line3(Line2(Line1(s, 4), 6), 8);
    LinesUndone(m, 16);
    LinesUndone(Line1(m, 16), 19);
    LinesUndone(Line2(Line1(m, 16), 19), 4);
  }

  function Final(s: State): State {
    var c1 := Minus(Xor(s.c, s.b), Rot(s.b, 14));
    var a1 := Minus(Xor(s.a, c1), Rot(c1, 11));
    var b1 := Minus(Xor(s.b, a1), Rot(a1, 25));
    var c2 := Minus(Xor(c1, b1), Rot(b1, 16));
    var a2 := Minus(Xor(a1, c2), Rot(c2, 4));
    var b2 := Minus(Xor(b1, a2), Rot(a2, 14));
    State(a2, b2, Minus(Xor(c2, b2), Rot(b2, 24)))
  }

  // ---------------------------------------------------------------- the definition

  /** Byte `i` of a key, with zeros after the key. */
  function At(k: bytes, i: nat): byte {
    if i < |k| then k[i] else 0
  }

  /** The little-endian and the big-endian word of four bytes. */
  function Little(p: byte, q: byte, r: byte, s: byte): Word {
    p + 0x100 * q + 0x1_0000 * r + 0x100_0000 * s
  }

  function Word4(big: bool, p: byte, q: byte, r: byte, s: byte): Word {
    if big then Little(s, r, q, p) else Little(p, q, r, s)
  }

  /** The word of the four bytes from `i` on, with zeros after the key. */
  function WordOf(big: bool, k: bytes, i: nat): Word {
    Word4(big, At(k, i), At(k, i + 1), At(k, i + 2), At(k, i + 3))
  }

  function AddBlock(big: bool, s: State, k: bytes): State {
    State(Plus(s.a, WordOf(big, k, 0)), Plus(s.b, WordOf(big, k, 4)), Plus(s.c, WordOf(big, k, 8)))
  }

  /** The hash of a key: twelve bytes at a time mixed in, the last one to twelve by `final`, and nothing for an empty key. */
  function Hash(big: bool, s: State, k: bytes): State
    decreases |k|
  {
    if |k| > 12 then Hash(big, Mix(AddBlock(big, s, k[..12])), k[12..])
    else if k == [] then s
    else Final(AddBlock(big, s, k))
  }

  function Start(len: nat, initval: Word): State {
    var x := Plus(Plus(0xdeadbeef, len % M), initval);
    State(x, x, x)
  }

  // ---------------------------------------------------------------- reading memory

  function Word32(big: bool, mem: bytes, p: nat): Word
    requires p + 4 <= |mem|
  {
    Word4(big, mem[p], mem[p + 1], mem[p + 2], mem[p + 3])
  }

  function Word16(mem: bytes, p: nat): Word
    requires p + 2 <= |mem|
  {
    mem[p] as int + 0x100 * (mem[p + 1] as int)
  }

  /** A byte shifted left by `n` bytes. */
  function ShiftUp(b: byte, n: nat): Word
    requires n < 4
  {
    if n == 0 then b as int else if n == 1 then 0x100 * (b as int) else if n == 2 then 0x1_0000 * (b as int) else 0x100_0000 * (b as int)
  }

  function Byte(mem: bytes, p: nat, n: nat): Word
    requires p < |mem| && n < 4
  {
    ShiftUp(mem[p], n)
  }

  /** The key at address `p`. */
  function Key(mem: bytes, p: nat, len: nat): bytes
    requires p + len <= |mem|
  {
    mem[p..p + len]
  }

  lemma KeyAt(mem: bytes, p: nat, len: nat, i: nat)
    requires p + len <= |mem|
    ensures At(Key(mem, p, len), i) == if i < len then mem[p + i] else 0
  {
  }

  // ---------------------------------------------------------------- one block by aligned words

  /** A word cut to its first `n` bytes: masked at the low end, or at the high end on a big-endian machine. */
  function Cut(big: bool, w: Word, n: nat): Word
    requires 0 < n < 4
  {
    var m := if n == 1 then 0x100 else if n == 2 then 0x1_0000 else 0x100_0000;
    if big then w - w % (M / m) else w % m
  }

  /** And, bit by bit. */
  function AndBits(x: nat, y: nat, n: nat): nat {
    if n == 0 then 0 else (if x % 2 == 1 && y % 2 == 1 then 1 else 0) + 2 * AndBits(x / 2, y / 2, n - 1)
  }

  lemma ModDouble(x: nat, m: nat)
    requires m > 0
    ensures x % (2 * m) == x % 2 + 2 * (x / 2 % m)
  {
    var h := x / 2;
    var q, r := h / m, x % 2 + 2 * (h % m);
    assert h == q * m + h % m;
    assert x == 2 * m * q + r;
    Remainder(x, 2 * m, q, r);
  }

  lemma Multiple(m: nat, d: nat)
    requires d >= 1
    ensures m * d >= m
  {
  }

  lemma Remainder(x: nat, m: nat, q: nat, r: nat)
    requires r < m && x == m * q + r
    ensures x % m == r
  {
    var d: int := x / m - q;
    assert m * d == r - x % m;
    if d >= 1 {
      Multiple(m, d);
    } else if d <= -1 {
      Multiple(m, -d);
    }
  }

  /** A mask of the lowest `k` bits leaves the remainder. */
  lemma {:induction false} AndLow(x: nat, k: nat, n: nat)
    requires k <= n
    ensures AndBits(x, Pow2(k) - 1, n) == x % Pow2(k)
  {
    if k > 0 {
      AndLow(x / 2, k - 1, n - 1);
      AndLowStep(x, Pow2(k - 1), n);
      assert Pow2(k) == 2 * Pow2(k - 1);
      hide Pow2, AndBits;
    } else if n > 0 {
      AndLow(x / 2, 0, n - 1);
      Remainder(x, 1, x, 0);
      Remainder(x / 2, 1, x / 2, 0);
    }
  }

  lemma AndLowStep(x: nat, m: nat, n: nat)
    requires n > 0 && m > 0 && AndBits(x / 2, m - 1, n - 1) == x / 2 % m
    ensures AndBits(x, 2 * m - 1, n) == x % (2 * m)
  {
    assert (2 * m - 1) / 2 == m - 1 && (2 * m - 1) % 2 == 1;
    assert AndBits(x, 2 * m - 1, n) == x % 2 + 2 * AndBits(x / 2, m - 1, n - 1);
    hide AndBits;
    ModDouble(x, m);
  }

  lemma AndEven(x: nat, y: nat, n: nat)
    requires n > 0
    ensures AndBits(x, 2 * y, n) == 2 * AndBits(x / 2, y, n - 1)
  {
    assert 2 * y / 2 == y && 2 * y % 2 == 0;
  }

  lemma AndHighStep(x: nat, a: nat, b: nat, n: nat)
    requires n > 0 && 0 < b <= a && AndBits(x / 2, a - b, n - 1) == x / 2 - x / 2 % b
    ensures AndBits(x, 2 * a - 2 * b, n) == x - x % (2 * b)
  {
    hide AndBits;
    ModDouble(x, b);
    AndEven(x, a - b, n);
  }

  /** A mask of the others takes it off. */
  lemma {:induction false} AndHigh(x: nat, k: nat, n: nat)
    requires k <= n && x < Pow2(n)
    ensures Pow2(k) <= Pow2(n) && AndBits(x, Pow2(n) - Pow2(k), n) == x - x % Pow2(k)
  {
    if k == 0 {
      AndLow(x, n, n);
      Remainder(x, Pow2(n), 0, x);
      Remainder(x, 1, x, 0);
      assert Pow2(k) == 1;
      hide Pow2, AndBits;
    } else {
      AndHigh(x / 2, k - 1, n - 1);
      AndHighStep(x, Pow2(n - 1), Pow2(k - 1), n);
      assert Pow2(n) == 2 * Pow2(n - 1) && Pow2(k) == 2 * Pow2(k - 1);
      hide Pow2, AndBits;
    }
  }

  /** The masks of the source for the first one to three bytes of a word. */
  function Mask(big: bool, n: nat): Word
    requires 0 < n < 4
  {
    if big then (if n == 1 then 0xff00_0000 else if n == 2 then 0xffff_0000 else 0xffff_ff00)
    else if n == 1 then 0xff else if n == 2 then 0xffff else 0xff_ffff
  }

  /** Cutting a word is its bitwise and with the mask. */
  lemma CutIsMasked(big: bool, w: Word, n: nat)
    requires 0 < n < 4
    ensures Cut(big, w, n) == AndBits(w, Mask(big, n), 32)
  {
    Pow32();
    var k := if big then 32 - 8 * n else 8 * n;
    assert Pow2(8) == 0x100;
    assert Pow2(16) == 0x1_0000;
    assert Pow2(24) == 0x100_0000;
    hide Pow2, AndBits;
    if big {
      AndHigh(w, k, 32);
    } else {
      AndLow(w, k, 32);
    }
  }

  /** One to twelve bytes by aligned words, the last word cut. */
  function WordsLast(big: bool, s: State, mem: bytes, k: nat, len: nat): State
    requires 0 < len <= 12 && k % 4 == 0 && k + len <= |mem| && |mem| % 4 == 0
  {
    WordsInside(k, len, |mem|);
    if len == 12 then
      State(Plus(s.a, Word32(big, mem, k)), Plus(s.b, Word32(big, mem, k + 4)), Plus(s.c, Word32(big, mem, k + 8)))
    else if len > 8 then
      State(Plus(s.a, Word32(big, mem, k)), Plus(s.b, Word32(big, mem, k + 4)), Plus(s.c, Cut(big, Word32(big, mem, k + 8), len - 8)))
    else if len == 8 then
      State(Plus(s.a, Word32(big, mem, k)), Plus(s.b, Word32(big, mem, k + 4)), s.c)
    else if len > 4 then
      State(Plus(s.a, Word32(big, mem, k)), Plus(s.b, Cut(big, Word32(big, mem, k + 4), len - 4)), s.c)
    else if len == 4 then s.(a := Plus(s.a, Word32(big, mem, k)))
    else s.(a := Plus(s.a, Cut(big, Word32(big, mem, k), len)))
  }

  /** A word in which an aligned key ends is all in memory. */
  lemma WordsInside(k: nat, len: nat, size: nat)
    requires 0 < len && k % 4 == 0 && k + len <= size && size % 4 == 0
    ensures k + 4 <= size && (len > 4 ==> k + 8 <= size) && (len > 8 ==> k + 12 <= size)
  {
  }

  lemma LowBytes(p: byte, q: byte, r: byte, s: byte)
    ensures Little(p, q, r, s) % 0x100_0000 == Little(p, q, r, 0)
    ensures Little(p, q, r, s) % 0x1_0000 == Little(p, q, 0, 0)
    ensures Little(p, q, r, s) % 0x100 == p
  {
    assert Little(p, q, r, s) == Little(p, q, r, 0) + 0x100_0000 * s;
    LowPart(0x100_0000, s, Little(p, q, r, 0));
    var high2, high3 := r + 0x100 * s, q + 0x100 * r + 0x1_0000 * s;
    assert Little(p, q, r, s) == Little(p, q, 0, 0) + 0x1_0000 * high2;
    LowPart(0x1_0000, high2, Little(p, q, 0, 0));
    assert Little(p, q, r, s) == p + 0x100 * high3;
    LowPart(0x100, high3, p);
  }

  lemma LowPart(m: nat, high: nat, low: nat)
    requires m in {0x100, 0x1_0000, 0x100_0000} && low < m
    ensures (low + m * high) % m == low
  {
  }

  lemma CutIs(big: bool, p: byte, q: byte, r: byte, s: byte)
    ensures Cut(big, Word4(big, p, q, r, s), 3) == Word4(big, p, q, r, 0)
    ensures Cut(big, Word4(big, p, q, r, s), 2) == Word4(big, p, q, 0, 0)
    ensures Cut(big, Word4(big, p, q, r, s), 1) == Word4(big, p, 0, 0, 0)
  {
    if big {
      LowBytes(s, r, q, p);
    } else {
      LowBytes(p, q, r, s);
    }
  }

  /** A word of the key is a word of memory, cut at the end of the key. */
  lemma WordOfKey(big: bool, mem: bytes, p: nat, len: nat, i: nat)
    requires p + len <= |mem|
    ensures i + 4 <= len ==> WordOf(big, Key(mem, p, len), i) == Word32(big, mem, p + i)
    ensures i < len < i + 4 && p + i + 4 <= |mem| ==> WordOf(big, Key(mem, p, len), i) == Cut(big, Word32(big, mem, p + i), len - i)
    ensures i >= len ==> WordOf(big, Key(mem, p, len), i) == 0
  {
    KeyAt(mem, p, len, i);
    KeyAt(mem, p, len, i + 1);
    KeyAt(mem, p, len, i + 2);
    KeyAt(mem, p, len, i + 3);
    hide Key, At, Cut;
    if p + i + 4 <= |mem| {
      CutIs(big, mem[p + i], mem[p + i + 1], mem[p + i + 2], mem[p + i + 3]);
    }
  }

  lemma WordsLastIs(big: bool, s: State, mem: bytes, k: nat, len: nat)
    requires 0 < len <= 12 && k % 4 == 0 && k + len <= |mem| && |mem| % 4 == 0
    ensures WordsLast(big, s, mem, k, len) == AddBlock(big, s, Key(mem, k, len))
  {
    hide Key, WordOf, Word32, Cut;
    WordOfKey(big, mem, k, len, 0);
    WordOfKey(big, mem, k, len, 4);
    WordOfKey(big, mem, k, len, 8);
  }

  // ---------------------------------------------------------------- one block by half words

  lemma PlusTwice(x: Word, u: Word, v: Word)
    requires u + v < M
    ensures Plus(Plus(x, u), v) == Plus(x, u + v)
  {
  }

  /** k[i] + (k[i + 1] << 16) */
  function Halves(mem: bytes, p: nat): Word
    requires p + 4 <= |mem|
  {
    Word16(mem, p) + 0x1_0000 * Word16(mem, p + 2)
  }

  /** One to twelve bytes by half words. */
  function HalvesLast(s: State, mem: bytes, k: nat, len: nat): State
    requires 0 < len <= 12 && k + len <= |mem|
  {
    if len == 12 then State(Plus(s.a, Halves(mem, k)), Plus(s.b, Halves(mem, k + 4)), Plus(s.c, Halves(mem, k + 8)))
    else if len == 11 then
      State(Plus(s.a, Halves(mem, k)), Plus(s.b, Halves(mem, k + 4)), Plus(Plus(s.c, Byte(mem, k + 10, 2)), Word16(mem, k + 8)))
    else if len == 10 then State(Plus(s.a, Halves(mem, k)), Plus(s.b, Halves(mem, k + 4)), Plus(s.c, Word16(mem, k + 8)))
    else if len == 9 then State(Plus(s.a, Halves(mem, k)), Plus(s.b, Halves(mem, k + 4)), Plus(s.c, Byte(mem, k + 8, 0)))
    else if len == 8 then State(Plus(s.a, Halves(mem, k)), Plus(s.b, Halves(mem, k + 4)), s.c)
    else if len == 7 then State(Plus(s.a, Halves(mem, k)), Plus(Plus(s.b, Byte(mem, k + 6, 2)), Word16(mem, k + 4)), s.c)
    else if len == 6 then State(Plus(s.a, Halves(mem, k)), Plus(s.b, Word16(mem, k + 4)), s.c)
    else if len == 5 then State(Plus(s.a, Halves(mem, k)), Plus(s.b, Byte(mem, k + 4, 0)), s.c)
    else if len == 4 then s.(a := Plus(s.a, Halves(mem, k)))
    else if len == 3 then s.(a := Plus(Plus(s.a, Byte(mem, k + 2, 2)), Word16(mem, k)))
    else if len == 2 then s.(a := Plus(s.a, Word16(mem, k)))
    else s.(a := Plus(s.a, Byte(mem, k, 0)))
  }

  /** A word of the key, by the half words and bytes that the key has of it. */
  lemma HalvesOfKey(x: Word, mem: bytes, p: nat, len: nat, i: nat)
    requires p + len <= |mem|
    ensures i + 4 <= len ==> WordOf(false, Key(mem, p, len), i) == Halves(mem, p + i)
    ensures i + 3 == len ==> Plus(x, WordOf(false, Key(mem, p, len), i)) == Plus(Plus(x, Byte(mem, p + i + 2, 2)), Word16(mem, p + i))
    ensures i + 2 == len ==> WordOf(false, Key(mem, p, len), i) == Word16(mem, p + i)
    ensures i + 1 == len ==> WordOf(false, Key(mem, p, len), i) == Byte(mem, p + i, 0)
    ensures i >= len ==> WordOf(false, Key(mem, p, len), i) == 0
  {
    KeyAt(mem, p, len, i);
    KeyAt(mem, p, len, i + 1);
    KeyAt(mem, p, len, i + 2);
    KeyAt(mem, p, len, i + 3);
    hide Key, At;
    if i + 3 == len {
      PlusTwice(x, Byte(mem, p + i + 2, 2), Word16(mem, p + i));
      hide Plus;
    }
  }

  lemma HalvesLastIs(s: State, mem: bytes, k: nat, len: nat)
    requires 0 < len <= 12 && k + len <= |mem|
    ensures HalvesLast(s, mem, k, len) == AddBlock(false, s, Key(mem, k, len))
  {
    hide Key, WordOf, Halves, Word16, Byte;
    HalvesOfKey(s.a, mem, k, len, 0);
    HalvesOfKey(s.b, mem, k, len, 4);
    HalvesOfKey(s.c, mem, k, len, 8);
  }

  // ---------------------------------------------------------------- one block by bytes

  /** Byte `i` of a word, shifted to its place in it. */
  function Part(big: bool, mem: bytes, p: nat, i: nat): Word
    requires p + i < |mem| && i < 4
  {
    Byte(mem, p + i, if big then 3 - i else i)
  }

  /** The first `n` bytes of a word added one after the other, the last one first. */
  function AddDown(big: bool, x: Word, mem: bytes, p: nat, n: nat): Word
    requires 0 < n <= 4 && p + n <= |mem|
  {
    var x4 := if n > 3 then Plus(x, Part(big, mem, p, 3)) else x;
    var x3 := if n > 2 then Plus(x4, Part(big, mem, p, 2)) else x4;
    var x2 := if n > 1 then Plus(x3, Part(big, mem, p, 1)) else x3;
    Plus(x2, Part(big, mem, p, 0))
  }

  /** The four bytes of a word added one after the other, the first one first. */
  function AddUp(big: bool, x: Word, mem: bytes, p: nat): Word
    requires p + 4 <= |mem|
  {
    Plus(Plus(Plus(Plus(x, Part(big, mem, p, 0)), Part(big, mem, p, 1)), Part(big, mem, p, 2)), Part(big, mem, p, 3))
  }

  /** One to twelve bytes, byte by byte. */
  function BytesLast(big: bool, s: State, mem: bytes, k: nat, len: nat): State
    requires 0 < len <= 12 && k + len <= |mem|
  {
    if len > 8 then
      State(AddDown(big, s.a, mem, k, 4), AddDown(big, s.b, mem, k + 4, 4), AddDown(big, s.c, mem, k + 8, len - 8))
    else if len > 4 then s.(a := AddDown(big, s.a, mem, k, 4), b := AddDown(big, s.b, mem, k + 4, len - 4))
    else s.(a := AddDown(big, s.a, mem, k, len))
  }

  lemma PlusFour(x: Word, p: Word, q: Word, r: Word, t: Word)
    requires p + q + r + t < M
    ensures Plus(Plus(Plus(Plus(x, p), q), r), t) == Plus(x, p + q + r + t)
  {
    PlusTwice(x, p, q);
    PlusTwice(x, p + q, r);
    PlusTwice(x, p + q + r, t);
    hide Plus;
  }

  lemma PartsFit(big: bool, mem: bytes, p: nat)
    requires p + 4 <= |mem|
    ensures Part(big, mem, p, 0) + Part(big, mem, p, 1) + Part(big, mem, p, 2) + Part(big, mem, p, 3) == Word32(big, mem, p)
  {
  }

  lemma AddUpIs(big: bool, x: Word, mem: bytes, p: nat)
    requires p + 4 <= |mem|
    ensures AddUp(big, x, mem, p) == Plus(x, Word32(big, mem, p))
  {
    hide Part, Word32, Plus;
    PartsFit(big, mem, p);
    PlusFour(x, Part(big, mem, p, 0), Part(big, mem, p, 1), Part(big, mem, p, 2), Part(big, mem, p, 3));
  }

  /** Adding the bytes that the key has of a word adds the word of the key. */
  lemma AddDownIs(big: bool, x: Word, mem: bytes, p: nat, len: nat, i: nat, n: nat)
    requires p + len <= |mem| && 0 < n <= 4 && i + n <= len && (n < 4 ==> i + n == len)
    ensures AddDown(big, x, mem, p + i, n) == Plus(x, WordOf(big, Key(mem, p, len), i))
  {
    KeyAt(mem, p, len, i);
    KeyAt(mem, p, len, i + 1);
    KeyAt(mem, p, len, i + 2);
    KeyAt(mem, p, len, i + 3);
    var k := Key(mem, p, len);
    hide ShiftUp, Key, Plus, Word4, At;
    WordParts(big, At(k, i), At(k, i + 1), At(k, i + 2), At(k, i + 3));
    var p0 := ShiftUp(At(k, i), if big then 3 else 0);
    var p1 := ShiftUp(At(k, i + 1), if big then 2 else 1);
    var p2 := ShiftUp(At(k, i + 2), if big then 1 else 2);
    var p3 := ShiftUp(At(k, i + 3), if big then 0 else 3);
    PlusFour(x, p3, p2, p1, p0);
    PlusNothing(x);
  }

  lemma PlusNothing(x: Word)
    ensures Plus(x, 0) == x
  {
  }

  lemma WordParts(big: bool, p: byte, q: byte, r: byte, s: byte)
    ensures ShiftUp(p, if big then 3 else 0) + ShiftUp(q, if big then 2 else 1) + ShiftUp(r, if big then 1 else 2)
      + ShiftUp(s, if big then 0 else 3) == Word4(big, p, q, r, s)
    ensures ShiftUp(0, 0) == 0 && ShiftUp(0, 1) == 0 && ShiftUp(0, 2) == 0 && ShiftUp(0, 3) == 0
  {
  }

  lemma NoWord(big: bool, mem: bytes, p: nat, len: nat, i: nat)
    requires p + len <= |mem| && i >= len
    ensures WordOf(big, Key(mem, p, len), i) == 0
  {
  }

  lemma BytesLastIs(big: bool, s: State, mem: bytes, k: nat, len: nat)
    requires 0 < len <= 12 && k + len <= |mem|
    ensures BytesLast(big, s, mem, k, len) == AddBlock(big, s, Key(mem, k, len))
  {
    hide Key, WordOf, AddDown;
    AddDownIs(big, s.a, mem, k, len, 0, if len > 4 then 4 else len);
    if len > 4 {
      AddDownIs(big, s.b, mem, k, len, 4, if len > 8 then 4 else len - 4);
    } else {
      NoWord(big, mem, k, len, 4);
    }
    if len > 8 {
      AddDownIs(big, s.c, mem, k, len, 8, len - 8);
    } else {
      NoWord(big, mem, k, len, 8);
    }
  }

  // ---------------------------------------------------------------- the loops

  lemma HashStep(big: bool, s: State, mem: bytes, k: nat, len: nat)
    requires len > 12 && k + len <= |mem|
    ensures Hash(big, s, Key(mem, k, len)) == Hash(big, Mix(AddBlock(big, s, Key(mem, k, 12))), Key(mem, k + 12, len - 12))
  {
    hide Mix, AddBlock;
    assert Key(mem, k, len)[..12] == Key(mem, k, 12) && Key(mem, k, len)[12..] == Key(mem, k + 12, len - 12);
  }

  /** Hashes a word-aligned key by words. */
  method HashByWords(big: bool, s0: State, mem: bytes, p: nat, len0: nat) returns (s: State)
    requires p % 4 == 0 && p + len0 <= |mem| && |mem| % 4 == 0
    ensures s == Hash(big, s0, Key(mem, p, len0))
  {
    var k, len := p, len0;
    s := s0;
    hide Mix, AddBlock, Key, Final, WordsLast, Word32;
    while len > 12
      invariant k % 4 == 0 && k + len == p + len0 && (len0 > 0 ==> len > 0)
      invariant Hash(big, s, Key(mem, k, len)) == Hash(big, s0, Key(mem, p, len0))
    {
      HashStep(big, s, mem, k, len);
      FullWords(big, s, mem, k);
      s := Mix(State(Plus(s.a, Word32(big, mem, k)), Plus(s.b, Word32(big, mem, k + 4)), Plus(s.c, Word32(big, mem, k + 8))));
      len := len - 12;
      k := k + 12;
    }
    KeyLength(mem, k, len);
    if len == 0 {
      return;
    }
    WordsLastIs(big, s, mem, k, len);
    s := Final(WordsLast(big, s, mem, k, len));
  }

  lemma KeyLength(mem: bytes, p: nat, len: nat)
    requires p + len <= |mem|
    ensures |Key(mem, p, len)| == len
  {
  }

  lemma FullWords(big: bool, s: State, mem: bytes, k: nat)
    requires k + 12 <= |mem|
    ensures AddBlock(big, s, Key(mem, k, 12)) ==
      State(Plus(s.a, Word32(big, mem, k)), Plus(s.b, Word32(big, mem, k + 4)), Plus(s.c, Word32(big, mem, k + 8)))
  {
    hide Key, WordOf, Word32, Plus;
    WordOfKey(big, mem, k, 12, 0);
    WordOfKey(big, mem, k, 12, 4);
    WordOfKey(big, mem, k, 12, 8);
  }

  lemma FullHalves(s: State, mem: bytes, k: nat)
    requires k + 12 <= |mem|
    ensures AddBlock(false, s, Key(mem, k, 12)) ==
      State(Plus(s.a, Halves(mem, k)), Plus(s.b, Halves(mem, k + 4)), Plus(s.c, Halves(mem, k + 8)))
  {
    hide Key, WordOf, Halves, Plus;
    HalvesOfKey(s.a, mem, k, 12, 0);
    HalvesOfKey(s.b, mem, k, 12, 4);
    HalvesOfKey(s.c, mem, k, 12, 8);
  }

  lemma FullBytes(big: bool, s: State, mem: bytes, k: nat)
    requires k + 12 <= |mem|
    ensures AddBlock(big, s, Key(mem, k, 12)) ==
      State(AddUp(big, s.a, mem, k), AddUp(big, s.b, mem, k + 4), AddUp(big, s.c, mem, k + 8))
  {
    hide AddBlock, Word32, Plus, AddUp;
    FullWords(big, s, mem, k);
    AddUpIs(big, s.a, mem, k);
    AddUpIs(big, s.b, mem, k + 4);
    AddUpIs(big, s.c, mem, k + 8);
  }

  /** Hashes a key by half words. */
  method HashByHalves(s0: State, mem: bytes, p: nat, len0: nat) returns (s: State)
    requires p + len0 <= |mem|
    ensures s == Hash(false, s0, Key(mem, p, len0))
  {
    var k, len := p, len0;
    s := s0;
    hide Mix, AddBlock, Key, Final, HalvesLast, Halves;
    while len > 12
      invariant k + len == p + len0 && Hash(false, s, Key(mem, k, len)) == Hash(false, s0, Key(mem, p, len0))
    {
      HashStep(false, s, mem, k, len);
      FullHalves(s, mem, k);
      s := Mix(State(Plus(s.a, Halves(mem, k)), Plus(s.b, Halves(mem, k + 4)), Plus(s.c, Halves(mem, k + 8))));
      len := len - 12;
      k := k + 12;
    }
    KeyLength(mem, k, len);
    if len == 0 {
      return;
    }
    HalvesLastIs(s, mem, k, len);
    s := Final(HalvesLast(s, mem, k, len));
  }

  /** Hashes a key byte by byte. */
  method HashByBytes(big: bool, s0: State, mem: bytes, p: nat, len0: nat) returns (s: State)
    requires p + len0 <= |mem|
    ensures s == Hash(big, s0, Key(mem, p, len0))
  {
    var k, len := p, len0;
    s := s0;
    hide Mix, AddBlock, Key, Final, BytesLast, AddUp;
    while len > 12
      invariant k + len == p + len0 && Hash(big, s, Key(mem, k, len)) == Hash(big, s0, Key(mem, p, len0))
    {
      HashStep(big, s, mem, k, len);
      FullBytes(big, s, mem, k);
      s := Mix(State(AddUp(big, s.a, mem, k), AddUp(big, s.b, mem, k + 4), AddUp(big, s.c, mem, k + 8)));
      len := len - 12;
      k := k + 12;
    }
    KeyLength(mem, k, len);
    if len == 0 {
      return;
    }
    BytesLastIs(big, s, mem, k, len);
    s := Final(BytesLast(big, s, mem, k, len));
  }

  // ---------------------------------------------------------------- the hashes

  /** On a little-endian machine: the same hash of the key wherever it lies and whatever follows it. */
  method HashLittle(mem: bytes, p: nat, len: nat, initval: Word) returns (h: Word)
    requires p + len <= |mem| && |mem| % 4 == 0
    ensures h == Hash(false, Start(len, initval), Key(mem, p, len)).c
  {
    var s := Start(len, initval);
    hide Hash, Start, Key;
    if p % 4 == 0 {
      s := HashByWords(false, s, mem, p, len);
    } else if p % 2 == 0 {
      s := HashByHalves(s, mem, p, len);
    } else {
      s := HashByBytes(false, s, mem, p, len);
    }
    h := s.c;
  }

  /** Two hashes of a key; with a secondary seed of 0 the primary one is that of `HashLittle`. */
  method HashLittle2(mem: bytes, p: nat, len: nat, pc: Word, pb: Word) returns (primary: Word, secondary: Word)
    requires p + len <= |mem| && |mem| % 4 == 0
    ensures var s := Hash(false, Start(len, pc).(c := Plus(Start(len, pc).c, pb)), Key(mem, p, len));
      primary == s.c && secondary == s.b
    ensures pb == 0 ==> primary == Hash(false, Start(len, pc), Key(mem, p, len)).c
  {
    var s := Start(len, pc);
    s := s.(c := Plus(s.c, pb));
    assert pb == 0 ==> s == Start(len, pc);
    hide Hash, Start, Key, Plus;
    if p % 4 == 0 {
      s := HashByWords(false, s, mem, p, len);
    } else if p % 2 == 0 {
      s := HashByHalves(s, mem, p, len);
    } else {
      s := HashByBytes(false, s, mem, p, len);
    }
    primary, secondary := s.c, s.b;
  }

  /** The big-endian hash, by words on a big-endian machine when the key is aligned, and by bytes otherwise. */
  method HashBig(bigEndian: bool, mem: bytes, p: nat, len: nat, initval: Word) returns (h: Word)
    requires p + len <= |mem| && |mem| % 4 == 0
    ensures h == Hash(true, Start(len, initval), Key(mem, p, len)).c
  {
    var s := Start(len, initval);
    hide Hash, Start, Key;
    if bigEndian && p % 4 == 0 {
      s := HashByWords(true, s, mem, p, len);
    } else {
      s := HashByBytes(true, s, mem, p, len);
    }
    h := s.c;
  }

  /** The bytes of words on a little-endian machine. */
  function LittleBytes(k: seq<Word>): (b: bytes)
    ensures |b| == 4 * |k|
  {
    if k == [] then [] else LittleBytes(k[..|k| - 1]) + Le4(k[|k| - 1])
  }

  lemma {:induction false} LittleBytesAt(k: seq<Word>, i: nat)
    requires i < |k|
    ensures Word32(false, LittleBytes(k), 4 * i) == k[i]
  {
    var n := |k| - 1;
    var b := LittleBytes(k);
    if i < n {
      LittleBytesAt(k[..n], i);
      assert b[..4 * n] == LittleBytes(k[..n]);
      assert forall j :: 0 <= j < 4 * n ==> b[j] == LittleBytes(k[..n])[j];
    } else {
      var w := Le4(k[n]);
      assert b[4 * n] == w[0] && b[4 * n + 1] == w[1] && b[4 * n + 2] == w[2] && b[4 * n + 3] == w[3];
    }
  }

  /** The bytes of the words from number `i` on. */
  ghost function BytesFrom(k: seq<Word>, i: nat): bytes
    requires i <= |k|
  {
    Key(LittleBytes(k), 4 * i, 4 * (|k| - i))
  }

  lemma WordsStep(s: State, k: seq<Word>, i: nat)
    requires i + 3 < |k|
    ensures Hash(false, s, BytesFrom(k, i)) ==
      Hash(false, Mix(State(Plus(s.a, k[i]), Plus(s.b, k[i + 1]), Plus(s.c, k[i + 2]))), BytesFrom(k, i + 3))
  {
    hide Hash, Mix, AddBlock, Key, LittleBytes, Word32, Plus;
    var mem := LittleBytes(k);
    HashStep(false, s, mem, 4 * i, 4 * (|k| - i));
    FullWords(false, s, mem, 4 * i);
    LittleBytesAt(k, i);
    LittleBytesAt(k, i + 1);
    LittleBytesAt(k, i + 2);
  }

  /** A word of the key added, if there is one. */
  ghost function PlusAny(x: Word, k: seq<Word>, i: nat): Word {
    if i < |k| then Plus(x, k[i]) else x
  }

  lemma WordsEnd(s: State, k: seq<Word>, i: nat)
    requires i < |k| <= i + 3
    ensures Hash(false, s, BytesFrom(k, i)) ==
      Final(State(PlusAny(s.a, k, i), PlusAny(s.b, k, i + 1), PlusAny(s.c, k, i + 2)))
  {
    hide Final, AddBlock, Key, LittleBytes, Word32, Plus, Cut;
    var mem := LittleBytes(k);
    KeyLength(mem, 4 * i, 4 * (|k| - i));
    WordsLastIs(false, s, mem, 4 * i, 4 * (|k| - i));
    LittleBytesAt(k, i);
    if i + 1 < |k| {
      LittleBytesAt(k, i + 1);
    }
    if i + 2 < |k| {
      LittleBytesAt(k, i + 2);
    }
  }

  /** The hash of words is the little-endian hash of their bytes. */
  method HashWord(k: seq<Word>, initval: Word) returns (h: Word)
    ensures h == Hash(false, Start(4 * |k|, initval), LittleBytes(k)).c
  {
    var x := Plus(Plus(0xdeadbeef, |k| % M * 4 % M), initval);
    var s := State(x, x, x);
    ShiftedLength(|k|);
    assert s == Start(4 * |k|, initval);
    ghost var s0 := s;
    assert BytesFrom(k, 0) == LittleBytes(k);
    hide Mix, Hash, Final, LittleBytes, Start, BytesFrom, Plus;
    var i: nat, len: nat := 0, |k|;
    while len > 3
      invariant i + len == |k| && (|k| > 0 ==> len > 0)
      invariant Hash(false, s, BytesFrom(k, i)) == Hash(false, s0, LittleBytes(k))
    {
      WordsStep(s, k, i);
      s := Mix(State(Plus(s.a, k[i]), Plus(s.b, k[i + 1]), Plus(s.c, k[i + 2])));
      len := len - 3;
      i := i + 3;
    }
    if len == 0 {
      NoWords(s, k);
      return s.c;
    }
    WordsEnd(s, k, i);
    var a, b, c := Plus(s.a, k[i]), s.b, s.c;
    if len > 1 {
      b := Plus(b, k[i + 1]);
    }
    if len > 2 {
      c := Plus(c, k[i + 2]);
    }
    h := Final(State(a, b, c)).c;
  }

  lemma NoWords(s: State, k: seq<Word>)
    requires k == []
    ensures Hash(false, s, LittleBytes(k)) == s
  {
  }

  lemma ShiftedLength(n: nat)
    ensures n % M * 4 % M == 4 * n % M
  {
    var q := n / M;
    assert 4 * n == M * (4 * q) + 4 * (n % M);
    Same(4 * q, 4 * (n % M));
  }

  lemma Same(q: nat, r: nat)
    ensures (M * q + r) % M == r % M
  {
  }

  /** The hash of a key does not depend on its alignment or on what lies around it. */
  method SameWherever(mem1: bytes, p1: nat, mem2: bytes, p2: nat, len: nat, initval: Word) returns (h1: Word, h2: Word)
    requires p1 + len <= |mem1| && |mem1| % 4 == 0 && p2 + len <= |mem2| && |mem2| % 4 == 0
    requires Key(mem1, p1, len) == Key(mem2, p2, len)
    ensures h1 == h2 == Hash(false, Start(len, initval), Key(mem1, p1, len)).c
  {
    hide Hash, Start, Key;
    h1 := HashLittle(mem1, p1, len, initval);
    h2 := HashLittle(mem2, p2, len, initval);
  }
}
