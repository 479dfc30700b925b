/** A published hash of lookup3, computed step by step: that of "Four score and seven years ago", with the seed 0. */
module Lookup3Known {
  import opened Bytes
  import opened Lookup3

  // ---------------------------------------------------------------- exclusive or by bytes

  function Int(u: bv8): byte { u as int }

  function Half(u: bv8): bv8 { u >> 1 }

  function Odd(u: bv8): bool { u & 1 == 1 }

  function Both(u: bv8, v: bv8): bv8 { u ^ v }

  lemma IntOf(u: bv8)
    ensures Int(u) == (if Odd(u) then 1 else 0) + 2 * Int(Half(u))
  {
  }

  lemma BothOf(u: bv8, v: bv8)
    ensures Half(Both(u, v)) == Both(Half(u), Half(v)) && Odd(Both(u, v)) == (Odd(u) != Odd(v))
  {
  }

  lemma NoBits(u: bv8, v: bv8)
    requires Int(u) == Int(v) == 0
    ensures Int(Both(u, v)) == 0
  {
    assert u == 0 && v == 0;
  }

  lemma OneBit(u: bv8, v: bv8, n: nat)
    ensures Int(Both(u, v)) == (if Odd(u) == Odd(v) then 0 else 1) + 2 * Int(Both(Half(u), Half(v)))
    ensures XorBits(Int(u), Int(v), n + 1) == (if Odd(u) == Odd(v) then 0 else 1) + 2 * XorBits(Int(Half(u)), Int(Half(v)), n)
  {
    hide Half, Odd, Int, Both;
    BothOf(u, v);
    IntOf(Both(u, v));
    IntOf(u);
    IntOf(v);
  }

  /** The exclusive or of bytes as numbers is that of their bits. */
  lemma {:induction false} XorIsBoth(u: bv8, v: bv8, n: nat)
    requires Int(u) < Pow2(n) && Int(v) < Pow2(n)
    ensures XorBits(Int(u), Int(v), n) == Int(Both(u, v))
    decreases n
  {
    hide Half, Odd, Int, Both;
    if n == 0 {
      NoBits(u, v);
    } else {
      hide XorBits;
      OneBit(u, v, n - 1);
      IntOf(u);
      IntOf(v);
      XorIsBoth(Half(u), Half(v), n - 1);
    }
  }

  /** A number moved up by `k` bits. */
  function Up(x: nat, k: nat): nat {
    if k == 0 then x else 2 * Up(x, k - 1)
  }

  /** The lowest `k` bits and those above them are combined apart. */
  lemma {:induction false} XorApart(a: nat, x: nat, b: nat, y: nat, k: nat, n: nat)
    requires a < Pow2(k) && b < Pow2(k)
    ensures XorBits(a + Up(x, k), b + Up(y, k), k + n) == XorBits(a, b, k) + Up(XorBits(x, y, n), k)
    decreases k
  {
    hide *;
    if k > 0 {
      Doubled(a, b, x, y, k, XorBits(x, y, n));
      XorApart(a / 2, x, b / 2, y, k - 1, n);
      OneLess(a + Up(x, k), b + Up(y, k), k + n, a / 2 + Up(x, k - 1), b / 2 + Up(y, k - 1), k - 1 + n);
      OneLess(a, b, k, a / 2, b / 2, k - 1);
    } else {
      NoneApart(a, x, b, y, n);
    }
  }

  lemma NoneApart(a: nat, x: nat, b: nat, y: nat, n: nat)
    requires a < Pow2(0) && b < Pow2(0)
    ensures XorBits(a + Up(x, 0), b + Up(y, 0), 0 + n) == XorBits(a, b, 0) + Up(XorBits(x, y, n), 0)
  {
    hide XorBits;
    assert XorBits(a, b, 0) == 0 by {
      NoXor(a, b);
    }
    assert a + Up(x, 0) == x && b + Up(y, 0) == y;
  }

  lemma Doubled(a: nat, b: nat, x: nat, y: nat, k: nat, z: nat)
    requires k > 0 && a < Pow2(k) && b < Pow2(k)
    ensures a / 2 < Pow2(k - 1) && b / 2 < Pow2(k - 1) && Up(z, k) == 2 * Up(z, k - 1)
    ensures (a + Up(x, k)) / 2 == a / 2 + Up(x, k - 1) && (a + Up(x, k)) % 2 == a % 2
    ensures (b + Up(y, k)) / 2 == b / 2 + Up(y, k - 1) && (b + Up(y, k)) % 2 == b % 2
  {
  }

  lemma OneLess(x: nat, y: nat, n: nat, halfX: nat, halfY: nat, m: nat)
    requires n == m + 1 && x / 2 == halfX && y / 2 == halfY
    ensures XorBits(x, y, n) == (if x % 2 == y % 2 then 0 else 1) + 2 * XorBits(halfX, halfY, m)
  {
  }

  lemma ByteApart(p: nat, q: nat, u: bv8, x: nat, v: bv8, y: nat, n: nat, m: nat)
    requires p == Int(u) + 0x100 * x && q == Int(v) + 0x100 * y && n == 8 + m
    ensures XorBits(p, q, n) == Int(Both(u, v)) + 0x100 * XorBits(x, y, m)
  {
    EightBits();
    EightUp(x);
    EightUp(y);
    EightUp(XorBits(x, y, m));
    hide *;
    XorIsBoth(u, v, 8);
    XorApart(Int(u), x, Int(v), y, 8, m);
  }

  lemma EightBits()
    ensures Pow2(8) == 0x100
  {
  }

  lemma EightUp(x: nat)
    ensures Up(x, 8) == 0x100 * x
  {
    assert Up(x, 1) == 2 * x && Up(x, 2) == 4 * x && Up(x, 3) == 8 * x && Up(x, 4) == 0x10 * x;
    assert Up(x, 5) == 0x20 * x && Up(x, 6) == 0x40 * x && Up(x, 7) == 0x80 * x;
  }

  lemma XorOfLittle(a: bv8, b: bv8, c: bv8, d: bv8, e: bv8, f: bv8, g: bv8, h: bv8)
    ensures Xor(Little(Int(a), Int(b), Int(c), Int(d)), Little(Int(e), Int(f), Int(g), Int(h))) ==
      Little(Int(Both(a, e)), Int(Both(b, f)), Int(Both(c, g)), Int(Both(d, h)))
  {
    hide *;
    XorOf(Little(Int(a), Int(b), Int(c), Int(d)), Little(Int(e), Int(f), Int(g), Int(h)));
    LittleIs(Int(a), Int(b), Int(c), Int(d));
    LittleIs(Int(e), Int(f), Int(g), Int(h));
    LittleIs(Int(Both(a, e)), Int(Both(b, f)), Int(Both(c, g)), Int(Both(d, h)));
    var p2, q2 := Int(c) + 0x100 * Int(d), Int(g) + 0x100 * Int(h);
    FourApart(a, b, c, d, e, f, g, h, Little(Int(a), Int(b), Int(c), Int(d)), Int(b) + 0x100 * p2, p2, Int(d),
              Little(Int(e), Int(f), Int(g), Int(h)), Int(f) + 0x100 * q2, q2, Int(h));
  }

  lemma FourApart(a: bv8, b: bv8, c: bv8, d: bv8, e: bv8, f: bv8, g: bv8, h: bv8,
                  p0: nat, p1: nat, p2: nat, p3: nat, q0: nat, q1: nat, q2: nat, q3: nat)
    requires p3 == Int(d) && p2 == Int(c) + 0x100 * p3 && p1 == Int(b) + 0x100 * p2 && p0 == Int(a) + 0x100 * p1
    requires q3 == Int(h) && q2 == Int(g) + 0x100 * q3 && q1 == Int(f) + 0x100 * q2 && q0 == Int(e) + 0x100 * q1
    ensures XorBits(p0, q0, 32) == Int(Both(a, e)) + 0x100 * (Int(Both(b, f)) + 0x100 * (Int(Both(c, g)) + 0x100 * Int(Both(d, h))))
  {
    hide *;
    ByteApart(p0, q0, a, p1, e, q1, 32, 24);
    ByteApart(p1, q1, b, p2, f, q2, 24, 16);
    ByteApart(p2, q2, c, p3, g, q3, 16, 8);
    ByteApart(p3, q3, d, 0, h, 0, 8, 0);
    NoXor(0, 0);
  }

  lemma XorOf(x: Word, y: Word)
    ensures Xor(x, y) == XorBits(x, y, 32)
  {
    Pow32();
    hide XorBits;
  }

  lemma LittleIs(p: byte, q: byte, r: byte, s: byte)
    ensures Little(p, q, r, s) == p + 0x100 * (q + 0x100 * (r + 0x100 * s))
  {
  }

  lemma NoXor(x: nat, y: nat)
    ensures XorBits(x, y, 0) == 0
  {
  }

  lemma XorIs(x: Word, y: Word, r: Word, a: bv8, b: bv8, c: bv8, d: bv8, e: bv8, f: bv8, g: bv8, h: bv8)
    requires x == Little(Int(a), Int(b), Int(c), Int(d)) && y == Little(Int(e), Int(f), Int(g), Int(h))
    requires r == Little(Int(Both(a, e)), Int(Both(b, f)), Int(Both(c, g)), Int(Both(d, h)))
    ensures Xor(x, y) == r
  {
    hide Little, Xor;
    XorOfLittle(a, b, c, d, e, f, g, h);
  }

  // ---------------------------------------------------------------- rotations

  lemma Powers()
    ensures Pow2(4) == 0x10 && Pow2(6) == 0x40 && Pow2(7) == 0x80 && Pow2(8) == 0x100 && Pow2(11) == 0x800
    ensures Pow2(13) == 0x2000 && Pow2(14) == 0x4000 && Pow2(16) == 0x1_0000 && Pow2(18) == 0x4_0000 && Pow2(19) == 0x8_0000
    ensures Pow2(21) == 0x20_0000 && Pow2(24) == 0x100_0000 && Pow2(25) == 0x200_0000 && Pow2(26) == 0x400_0000
    ensures Pow2(28) == 0x1000_0000
  {
  }

  lemma RotIs(x: Word, k: nat, p: nat, q: nat, hi: nat, lo: nat, r: Word)
    requires 0 < k < 32 && Pow2(32 - k) == p && Pow2(k) == q && x == p * hi + lo && lo < p && r == lo * q + hi
    ensures Rot(x, k) == r
  {
    hide Pow2;
    Remainder(x, p, hi, lo);
    Quotient(x, p, hi, lo);
    RotOf(x, k);
  }

  lemma Quotient(x: nat, p: nat, hi: nat, lo: nat)
    requires lo < p && x == p * hi + lo
    ensures x / p == hi
  {
    Remainder(x, p, hi, lo);
    assert p * (x / p) == p * hi;
    Below(hi, x / p, p);
    Below(x / p, hi, p);
  }

  lemma RotOf(x: Word, k: nat)
    requires 0 < k < 32
    ensures Rot(x, k) == x % Pow2(32 - k) * Pow2(k) + x / Pow2(32 - k)
  {
    Pow32();
    PowSum(32 - k, k);
    hide Pow2;
  }

  // ---------------------------------------------------------------- the key

  /** The first twelve bytes mixed in. */
  lemma FirstMix()
    ensures Mix(State(0x51232e53, 0x4e11322d, 0x3fce247f)) == State(0xf859ad7a, 0x04bc57ae, 0x40dddd7e)
  {
    Powers();
    hide Pow2, Rot, Xor, XorBits, Moved;
    assert Line1(State(0x51232e53, 0x4e11322d, 0x3fce247f), 4) == State(0xedb74e27, 0x4e11322d, 0x8ddf56ac) by {
      RotIs(0x3fce247f, 4, 0x10000000, 0x10, 3, 0xfce247f, 0xfce247f3);
      XorIs(0x115509d4, 0xfce247f3, 0xedb74e27, 0xd4, 0x09, 0x55, 0x11, 0xf3, 0x47, 0xe2, 0xfc);
    }
    assert Line2(State(0xedb74e27, 0x4e11322d, 0x8ddf56ac), 6) == State(0x7b96a4d3, 0x0d8a6dfd, 0x8ddf56ac) by {
      RotIs(0xedb74e27, 6, 0x4000000, 0x40, 59, 0x1b74e27, 0x6dd389fb);
      XorIs(0x6059e406, 0x6dd389fb, 0x0d8a6dfd, 0x06, 0xe4, 0x59, 0x60, 0xfb, 0x89, 0xd3, 0x6d);
    }
    assert Line3(State(0x7b96a4d3, 0x0d8a6dfd, 0x8ddf56ac), 8) == State(0x7b96a4d3, 0x892112d0, 0x0a3915a2) by {
      RotIs(0x0d8a6dfd, 8, 0x1000000, 0x100, 13, 0x8a6dfd, 0x8a6dfd0d);
      XorIs(0x8054e8af, 0x8a6dfd0d, 0x0a3915a2, 0xaf, 0xe8, 0x54, 0x80, 0x0d, 0xfd, 0x6d, 0x8a);
    }
    assert Line1(State(0x7b96a4d3, 0x892112d0, 0x0a3915a2), 16) == State(0x64ff8508, 0x892112d0, 0x935a2872) by {
      RotIs(0x0a3915a2, 16, 0x10000, 0x10000, 2617, 0x15a2, 0x15a20a39);
      XorIs(0x715d8f31, 0x15a20a39, 0x64ff8508, 0x31, 0x8f, 0x5d, 0x71, 0x39, 0x0a, 0xa2, 0x15);
    }
    assert Line2(State(0x64ff8508, 0x892112d0, 0x935a2872), 19) == State(0xf859ad7a, 0x0c62aa34, 0x935a2872) by {
      RotIs(0x64ff8508, 19, 0x2000, 0x80000, 206844, 0x508, 0x284327fc);
      XorIs(0x24218dc8, 0x284327fc, 0x0c62aa34, 0xc8, 0x8d, 0x21, 0x24, 0xfc, 0x27, 0x43, 0x28);
    }
    assert Line3(State(0xf859ad7a, 0x0c62aa34, 0x935a2872), 4) == State(0xf859ad7a, 0x04bc57ae, 0x40dddd7e) by {
      RotIs(0x0c62aa34, 4, 0x10000000, 0x10, 0, 0xc62aa34, 0xc62aa340);
      XorIs(0x86f77e3e, 0xc62aa340, 0x40dddd7e, 0x3e, 0x7e, 0xf7, 0x86, 0x40, 0xa3, 0x2a, 0xc6);
    }
    hide Line1, Line2, Line3;
  }

  /** The second twelve bytes mixed in. */
  lemma SecondMix()
    ensures Mix(State(0x6b7a11e8, 0x7321ce13, 0xa243569e)) == State(0x336aded2, 0x059f2642, 0xbd02ebd5)
  {
    Powers();
    hide Pow2, Rot, Xor, XorBits, Moved;
    assert Line1(State(0x6b7a11e8, 0x7321ce13, 0xa243569e), 4) == State(0xed03d2a0, 0x7321ce13, 0x156524b1) by {
      RotIs(0xa243569e, 4, 0x10000000, 0x10, 10, 0x243569e, 0x243569ea);
      XorIs(0xc936bb4a, 0x243569ea, 0xed03d2a0, 0x4a, 0xbb, 0x36, 0xc9, 0xea, 0x69, 0x35, 0x24);
    }
    assert Line2(State(0xed03d2a0, 0x7321ce13, 0x156524b1), 6) == State(0x0268f751, 0xc6e95348, 0x156524b1) by {
      RotIs(0xed03d2a0, 6, 0x4000000, 0x40, 59, 0x103d2a0, 0x40f4a83b);
      XorIs(0x861dfb73, 0x40f4a83b, 0xc6e95348, 0x73, 0xfb, 0x1d, 0x86, 0x3b, 0xa8, 0xf4, 0x40);
    }
    assert Line3(State(0x0268f751, 0xc6e95348, 0x156524b1), 8) == State(0x0268f751, 0xc9524a99, 0xa72899af) by {
      RotIs(0xc6e95348, 8, 0x1000000, 0x100, 198, 0xe95348, 0xe95348c6);
      XorIs(0x4e7bd169, 0xe95348c6, 0xa72899af, 0x69, 0xd1, 0x7b, 0x4e, 0xc6, 0x48, 0x53, 0xe9);
    }
    assert Line1(State(0x0268f751, 0xc9524a99, 0xa72899af), 16) == State(0xc2effa8a, 0xc9524a99, 0x707ae448) by {
      RotIs(0xa72899af, 16, 0x10000, 0x10000, 42792, 0x99af, 0x99afa728);
      XorIs(0x5b405da2, 0x99afa728, 0xc2effa8a, 0xa2, 0x5d, 0x40, 0x5b, 0x28, 0xa7, 0xaf, 0x99);
    }
    assert Line2(State(0xc2effa8a, 0xc9524a99, 0x707ae448), 19) == State(0x336aded2, 0xd2344770, 0x707ae448) by {
      RotIs(0xc2effa8a, 19, 0x2000, 0x80000, 399231, 0x1a8a, 0xd456177f);
      XorIs(0x0662500f, 0xd456177f, 0xd2344770, 0x0f, 0x50, 0x62, 0x06, 0x7f, 0x17, 0x56, 0xd4);
    }
    assert Line3(State(0x336aded2, 0xd2344770, 0x707ae448), 4) == State(0x336aded2, 0x059f2642, 0xbd02ebd5) by {
      RotIs(0xd2344770, 4, 0x10000000, 0x10, 13, 0x2344770, 0x2344770d);
      XorIs(0x9e469cd8, 0x2344770d, 0xbd02ebd5, 0xd8, 0x9c, 0x46, 0x9e, 0x0d, 0x77, 0x44, 0x23);
    }
    hide Line1, Line2, Line3;
  }

  /** The last six bytes. */
  lemma LastFinal()
    ensures Final(State(0x948b5244, 0x059f95a9, 0xbd02ebd5)) == State(0x9a837816, 0xce7226e6, 0x17770551)
  {
    Powers();
    hide Pow2, Rot, Xor, XorBits, Moved;
    assert Minus(Xor(0xbd02ebd5, 0x059f95a9), Rot(0x059f95a9, 14)) == 0xd3333d15 by {
      XorIs(0xbd02ebd5, 0x059f95a9, 0xb89d7e7c, 0xd5, 0xeb, 0x02, 0xbd, 0xa9, 0x95, 0x9f, 0x05);
      RotIs(0x059f95a9, 14, 0x40000, 0x4000, 359, 0x395a9, 0xe56a4167);
    }
    assert Minus(Xor(0x948b5244, 0xd3333d15), Rot(0xd3333d15, 11)) == 0xadcfc0b8 by {
      XorIs(0x948b5244, 0xd3333d15, 0x47b86f51, 0x44, 0x52, 0x8b, 0x94, 0x15, 0x3d, 0x33, 0xd3);
      RotIs(0xd3333d15, 11, 0x200000, 0x800, 1689, 0x133d15, 0x99e8ae99);
    }
    assert Minus(Xor(0x059f95a9, 0xadcfc0b8), Rot(0xadcfc0b8, 25)) == 0x36f4b590 by {
      XorIs(0x059f95a9, 0xadcfc0b8, 0xa8505511, 0xa9, 0x95, 0x9f, 0x05, 0xb8, 0xc0, 0xcf, 0xad);
      RotIs(0xadcfc0b8, 25, 0x80, 0x2000000, 22781825, 0x38, 0x715b9f81);
    }
    assert Minus(Xor(0xd3333d15, 0x36f4b590), Rot(0x36f4b590, 16)) == 0x30375191 by {
      XorIs(0xd3333d15, 0x36f4b590, 0xe5c78885, 0x15, 0x3d, 0x33, 0xd3, 0x90, 0xb5, 0xf4, 0x36);
      RotIs(0x36f4b590, 16, 0x10000, 0x10000, 14068, 0xb590, 0xb59036f4);
    }
    assert Minus(Xor(0xadcfc0b8, 0x30375191), Rot(0x30375191, 4)) == 0x9a837816 by {
      XorIs(0xadcfc0b8, 0x30375191, 0x9df89129, 0xb8, 0xc0, 0xcf, 0xad, 0x91, 0x51, 0x37, 0x30);
      RotIs(0x30375191, 4, 0x10000000, 0x10, 3, 0x375191, 0x03751913);
    }
    assert Minus(Xor(0x36f4b590, 0x9a837816), Rot(0x9a837816, 14)) == 0xce7226e6 by {
      XorIs(0x36f4b590, 0x9a837816, 0xac77cd86, 0x90, 0xb5, 0xf4, 0x36, 0x16, 0x78, 0x83, 0x9a);
      RotIs(0x9a837816, 14, 0x40000, 0x4000, 9888, 0x37816, 0xde05a6a0);
    }
    assert Minus(Xor(0x30375191, 0xce7226e6), Rot(0xce7226e6, 24)) == 0x17770551 by {
      XorIs(0x30375191, 0xce7226e6, 0xfe457777, 0x91, 0x51, 0x37, 0x30, 0xe6, 0x26, 0x72, 0xce);
      RotIs(0xce7226e6, 24, 0x100, 0x1000000, 13529638, 0xe6, 0xe6ce7226);
    }
    hide Minus;
  }

  const FIRST: bytes := [0x46, 0x6f, 0x75, 0x72, 0x20, 0x73, 0x63, 0x6f, 0x72, 0x65, 0x20, 0x61]
  const SECOND: bytes := [0x6e, 0x64, 0x20, 0x73, 0x65, 0x76, 0x65, 0x6e, 0x20, 0x79, 0x65, 0x61]
  const LAST: bytes := [0x72, 0x73, 0x20, 0x61, 0x67, 0x6f]

  /** "Four score and seven years ago" */
  const FOUR_SCORE: bytes := FIRST + (SECOND + LAST)

  lemma FirstWords(k: bytes)
    requires k == FIRST
    ensures WordOf(false, k, 0) == 0x72756f46
    ensures WordOf(false, k, 4) == 0x6f637320
    ensures WordOf(false, k, 8) == 0x61206572
  {
  }

  lemma FirstBlock(k: bytes)
    requires WordOf(false, k, 0) == 0x72756f46 && WordOf(false, k, 4) == 0x6f637320 && WordOf(false, k, 8) == 0x61206572
    ensures Adds(State(0xdeadbf0d, 0xdeadbf0d, 0xdeadbf0d), k, State(0x51232e53, 0x4e11322d, 0x3fce247f))
  {
    assert Plus(0xdeadbf0d, 0x72756f46) == 0x51232e53;
    assert Plus(0xdeadbf0d, 0x6f637320) == 0x4e11322d;
    assert Plus(0xdeadbf0d, 0x61206572) == 0x3fce247f;
    hide *;
    Added(State(0xdeadbf0d, 0xdeadbf0d, 0xdeadbf0d), k, 0x72756f46, 0x6f637320, 0x61206572, State(0x51232e53, 0x4e11322d, 0x3fce247f));
  }

  lemma SecondWords(k: bytes)
    requires k == SECOND
    ensures WordOf(false, k, 0) == 0x7320646e
    ensures WordOf(false, k, 4) == 0x6e657665
    ensures WordOf(false, k, 8) == 0x61657920
  {
  }

  lemma SecondBlock(k: bytes)
    requires WordOf(false, k, 0) == 0x7320646e && WordOf(false, k, 4) == 0x6e657665 && WordOf(false, k, 8) == 0x61657920
    ensures Adds(State(0xf859ad7a, 0x04bc57ae, 0x40dddd7e), k, State(0x6b7a11e8, 0x7321ce13, 0xa243569e))
  {
    assert Plus(0xf859ad7a, 0x7320646e) == 0x6b7a11e8;
    assert Plus(0x04bc57ae, 0x6e657665) == 0x7321ce13;
    assert Plus(0x40dddd7e, 0x61657920) == 0xa243569e;
    hide *;
    Added(State(0xf859ad7a, 0x04bc57ae, 0x40dddd7e), k, 0x7320646e, 0x6e657665, 0x61657920, State(0x6b7a11e8, 0x7321ce13, 0xa243569e));
  }

  lemma LastWords(k: bytes)
    requires k == LAST
    ensures WordOf(false, k, 0) == 0x61207372
    ensures WordOf(false, k, 4) == 0x00006f67
    ensures WordOf(false, k, 8) == 0x00000000
  {
  }

  lemma LastBlock(k: bytes)
    requires WordOf(false, k, 0) == 0x61207372 && WordOf(false, k, 4) == 0x00006f67 && WordOf(false, k, 8) == 0x00000000
    ensures Adds(State(0x336aded2, 0x059f2642, 0xbd02ebd5), k, State(0x948b5244, 0x059f95a9, 0xbd02ebd5))
  {
    assert Plus(0x336aded2, 0x61207372) == 0x948b5244;
    assert Plus(0x059f2642, 0x00006f67) == 0x059f95a9;
    assert Plus(0xbd02ebd5, 0x00000000) == 0xbd02ebd5;
    hide *;
    Added(State(0x336aded2, 0x059f2642, 0xbd02ebd5), k, 0x61207372, 0x00006f67, 0x00000000, State(0x948b5244, 0x059f95a9, 0xbd02ebd5));
  }

  predicate Adds(s: State, k: bytes, r: State) {
    AddBlock(false, s, k) == r
  }

  /** A block whose words are these added. */
  lemma Added(s: State, k: bytes, x: Word, y: Word, z: Word, r: State)
    requires WordOf(false, k, 0) == x && WordOf(false, k, 4) == y && WordOf(false, k, 8) == z
    requires Plus(s.a, x) == r.a && Plus(s.b, y) == r.b && Plus(s.c, z) == r.c
    ensures Adds(s, k, r)
  {
    hide WordOf, Plus;
  }

  lemma OneMoreBlock(s: State, k: bytes, rest: bytes, r: State)
    requires |k| == 12 && rest != [] && Adds(s, k, r)
    ensures Hash(false, s, k + rest) == Hash(false, Mix(r), rest)
  {
    hide Mix, AddBlock;
    assert (k + rest)[..12] == k && (k + rest)[12..] == rest;
  }

  lemma NoMoreBlocks(s: State, k: bytes, r: State)
    requires 0 < |k| <= 12 && Adds(s, k, r)
    ensures Hash(false, s, k) == Final(r)
  {
    hide Final, AddBlock;
  }

  lemma Lengths()
    ensures |FIRST| == |SECOND| == 12 && |LAST| == 6 && FOUR_SCORE == FIRST + (SECOND + LAST) && SECOND + LAST != []
  {
  }

  lemma StartsWith()
    ensures Start(30, 0) == State(0xdeadbf0d, 0xdeadbf0d, 0xdeadbf0d)
  {
  }

  /** The hash is the published one. */
  lemma HashOfFourScore()
    ensures |FOUR_SCORE| == 30 && Hash(false, Start(30, 0), FOUR_SCORE).c == 0x17770551 && Hash(false, Start(30, 0), FOUR_SCORE).b == 0xce7226e6
  {
    hide *;
    StartsWith();
    FirstWords(FIRST);
    FirstBlock(FIRST);
    SecondWords(SECOND);
    SecondBlock(SECOND);
    LastWords(LAST);
    LastBlock(LAST);
    FirstMix();
    SecondMix();
    LastFinal();
    Lengths();
    OneMoreBlock(State(0xdeadbf0d, 0xdeadbf0d, 0xdeadbf0d), FIRST, SECOND + LAST, State(0x51232e53, 0x4e11322d, 0x3fce247f));
    OneMoreBlock(State(0xf859ad7a, 0x04bc57ae, 0x40dddd7e), SECOND, LAST, State(0x6b7a11e8, 0x7321ce13, 0xa243569e));
    NoMoreBlocks(State(0x336aded2, 0x059f2642, 0xbd02ebd5), LAST, State(0x948b5244, 0x059f95a9, 0xbd02ebd5));
  }

  /** An empty key is not mixed at all. */
  lemma HashOfNothing(seed: Word)
    ensures Hash(false, Start(0, seed), []).c == Plus(0xdeadbeef, seed)
  {
  }
}
