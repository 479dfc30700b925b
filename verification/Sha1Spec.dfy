/** SHA-1 as FIPS 180-1 defines it, for messages of whole bytes: padding by its section 4, the digest by its section 7. */
module Sha1Spec {
  import opened Bytes

  /** A 32-bit word, with the operations of section 3. */
  datatype Word = Word(bits: bv32)

  function And(a: Word, b: Word): Word { Word(a.bits & b.bits) }

  function Or(a: Word, b: Word): Word { Word(a.bits | b.bits) }

  function Xor(a: Word, b: Word): Word { Word(a.bits ^ b.bits) }

  function Not(a: Word): Word { Word(!a.bits) }

  function Add(a: Word, b: Word): Word { Word(a.bits + b.bits) }

  /** The circular left shift of section 3, part d. */
  function Shift(a: Word, n: nat): Word
    requires n <= 32
  {
    Word(a.bits.RotateLeft(n))
  }

  datatype Digest = Digest(h0: Word, h1: Word, h2: Word, h3: Word, h4: Word)

  const BLOCK: nat := 64
  const INITIAL: Digest := Digest(Word(0x67452301), Word(0xEFCDAB89), Word(0x98BADCFE), Word(0x10325476), Word(0xC3D2E1F0))

  // ---------------------------------------------------------------- section 4: padding

  /** A number as eight bytes, the highest first. */
  function Be8(n: nat): (b: bytes)
    requires n < 0x1_0000_0000_0000_0000
    ensures |b| == 8
  {
    Be4(n / 0x1_0000_0000) + Be4(n % 0x1_0000_0000)
  }

  function Be4(n: nat): (b: bytes)
    requires n < 0x1_0000_0000
    ensures |b| == 4
  {
    [n / 0x100_0000, n / 0x1_0000 % 0x100, n / 0x100 % 0x100, n % 0x100]
  }

  /** How many zero bytes bring the message, the 1 bit and the length to a whole number of blocks. */
  function ZerosNeeded(len: nat): (n: nat)
    ensures n < BLOCK && (len + 1 + n + 8) % BLOCK == 0
  {
    (119 - len % BLOCK) % BLOCK
  }

  const MESSAGE_MAX: nat := 0x2000_0000_0000_0000

  function Padding(len: nat): (b: bytes)
    requires len < MESSAGE_MAX
    ensures (len + |b|) % BLOCK == 0
  {
    [0x80] + Zeros(ZerosNeeded(len)) + Be8(8 * len)
  }

  // ---------------------------------------------------------------- section 7: the digest

  /** The functions of section 5 and the constants of section 6. */
  function F(t: nat, b: Word, c: Word, d: Word): Word {
    if t < 20 then Or(And(b, c), And(Not(b), d))
    else if t < 40 then Xor(Xor(b, c), d)
    else if t < 60 then Or(Or(And(b, c), And(b, d)), And(c, d))
    else Xor(Xor(b, c), d)
  }

  function K(t: nat): Word {
    if t < 20 then Word(0x5A827999) else if t < 40 then Word(0x6ED9EBA1) else if t < 60 then Word(0x8F1BBCDC) else Word(0xCA62C1D6)
  }

  function WordAt(block: bytes, i: nat): Word
    requires 4 * i + 4 <= |block|
  {
    Join(block[4 * i], block[4 * i + 1], block[4 * i + 2], block[4 * i + 3])
  }

  function Join(a: byte, b: byte, c: byte, d: byte): Word {
    Word((Bits(a) as bv32 << 24) | (Bits(b) as bv32 << 16) | (Bits(c) as bv32 << 8) | Bits(d) as bv32)
  }

  function Bits(b: byte): bv8 { b as bv8 }

  /** The words of section 7, steps a and b. */
  function W(block: bytes, t: nat): Word
    requires |block| == BLOCK
  {
    if t < 16 then WordAt(block, t)
    else Shift(Xor(Xor(Xor(W(block, t - 3), W(block, t - 8)), W(block, t - 14)), W(block, t - 16)), 1)
  }

  /** One round of section 7, step d. */
  function Round(s: Digest, t: nat, w: Word): Digest {
    Digest(Add(Add(Add(Add(Shift(s.h0, 5), F(t, s.h1, s.h2, s.h3)), s.h4), w), K(t)), s.h0, Shift(s.h1, 30), s.h2, s.h3)
  }

  function Rounds(s: Digest, block: bytes, t: nat): Digest
    requires |block| == BLOCK
  {
    if t == 0 then s else Round(Rounds(s, block, t - 1), t - 1, W(block, t - 1))
  }

  function Sum(a: Digest, b: Digest): Digest {
    Digest(Add(a.h0, b.h0), Add(a.h1, b.h1), Add(a.h2, b.h2), Add(a.h3, b.h3), Add(a.h4, b.h4))
  }

  /** Section 7, steps a to e, on one block. */
  function ProcessBlock(s: Digest, block: bytes): Digest
    requires |block| == BLOCK
  {
    Sum(s, Rounds(s, block, 80))
  }

  function ProcessBlocks(s: Digest, m: bytes): Digest
    requires |m| % BLOCK == 0
  {
    if m == [] then s else ProcessBlock(ProcessBlocks(s, m[..|m| - BLOCK]), m[|m| - BLOCK..])
  }

  function Sha1(m: bytes): Digest
    requires |m| < MESSAGE_MAX
  {
    ProcessBlocks(INITIAL, m + Padding(|m|))
  }

  /** The whole blocks of a message, and the bytes after them. */
  function Whole(m: bytes): (w: bytes)
    ensures |w| % BLOCK == 0 && |w| <= |m| < |w| + BLOCK && w == m[..|w|]
  {
    m[..|m| - |m| % BLOCK]
  }

  function Rest(m: bytes): (r: bytes)
    ensures |r| == |m| % BLOCK
  {
    m[|m| - |m| % BLOCK..]
  }

  lemma OneMoreBlock(s: Digest, m: bytes, block: bytes)
    requires |m| % BLOCK == 0 && |block| == BLOCK
    ensures |m + block| % BLOCK == 0
    ensures ProcessBlocks(s, m + block) == ProcessBlock(ProcessBlocks(s, m), block)
  {
    hide ProcessBlock;
    assert (m + block)[..|m + block| - BLOCK] == m && (m + block)[|m + block| - BLOCK..] == block;
  }

  /** One more byte either joins the rest or completes a block. */
  lemma OneMoreByte(m: bytes, b: byte)
    ensures |Rest(m)| + 1 < BLOCK ==> Whole(m + [b]) == Whole(m) && Rest(m + [b]) == Rest(m) + [b]
    ensures |Rest(m)| + 1 == BLOCK ==> Whole(m + [b]) == Whole(m) + (Rest(m) + [b]) && Rest(m + [b]) == []
  {
    NextPlace(|m|);
    var n := |Whole(m)|;
    if |Rest(m)| + 1 < BLOCK {
      assert (m + [b])[..n] == m[..n] && (m + [b])[n..] == m[n..] + [b];
    } else {
      assert m + [b] == m[..n] + (m[n..] + [b]);
    }
  }

  lemma NextPlace(n: nat)
    ensures (n + 1) % BLOCK == if n % BLOCK + 1 == BLOCK then 0 else n % BLOCK + 1
  {
  }

  /** The blocks that padding adds after the whole blocks of a message: one, or two when the rest is too long. */
  lemma PaddedBlocks(m: bytes, tail: bytes)
    requires |m| < MESSAGE_MAX && tail == Rest(m) + Padding(|m|)
    ensures |tail| % BLOCK == 0 && m + Padding(|m|) == Whole(m) + tail
    ensures |tail| == if |Rest(m)| > 55 then 2 * BLOCK else BLOCK
  {
    PaddingLength(|m|);
    hide Padding;
    assert m == Whole(m) + Rest(m);
    assert m + Padding(|m|) == Whole(m) + (Rest(m) + Padding(|m|));
  }

  lemma PaddingLength(len: nat)
    requires len < MESSAGE_MAX
    ensures len % BLOCK + |Padding(len)| == if len % BLOCK > 55 then 2 * BLOCK else BLOCK
  {
  }

  lemma Sha1Short(m: bytes, tail: bytes)
    requires |m| < MESSAGE_MAX && tail == Rest(m) + Padding(|m|) && |Rest(m)| <= 55
    ensures |tail| == BLOCK && Sha1(m) == ProcessBlock(ProcessBlocks(INITIAL, Whole(m)), tail)
  {
    hide ProcessBlock, Padding, Whole, Rest, ProcessBlocks;
    PaddedBlocks(m, tail);
    OneMoreBlock(INITIAL, Whole(m), tail);
  }

  lemma Sha1Long(m: bytes, tail: bytes)
    requires |m| < MESSAGE_MAX && tail == Rest(m) + Padding(|m|) && |Rest(m)| > 55
    ensures |tail| == 2 * BLOCK
    ensures Sha1(m) == ProcessBlock(ProcessBlock(ProcessBlocks(INITIAL, Whole(m)), tail[..BLOCK]), tail[BLOCK..])
  {
    hide ProcessBlock, Padding, Whole, Rest, ProcessBlocks;
    PaddedBlocks(m, tail);
    OneMoreBlock(INITIAL, Whole(m), tail[..BLOCK]);
    OneMoreBlock(INITIAL, Whole(m) + tail[..BLOCK], tail[BLOCK..]);
    assert Whole(m) + tail[..BLOCK] + tail[BLOCK..] == Whole(m) + tail;
  }
}
