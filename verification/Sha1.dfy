/** The streaming SHA-1 of lib-sha1, against the definition of FIPS 180-1. */
module Sha1 {
  import opened Bytes
  import opened Sha1Spec

  /** The circular shift macro of the source. */
  function CircularShift(bits: nat, x: Word): (r: Word)
    requires bits in {1, 5, 30}
    ensures r == Shift(x, bits)
  {
    ShiftsRotate(x.bits);
    if bits == 1 then Word((x.bits << 1) | (x.bits >> 31))
    else if bits == 5 then Word((x.bits << 5) | (x.bits >> 27))
    else Word((x.bits << 30) | (x.bits >> 2))
  }

  lemma ShiftsRotate(x: bv32)
    ensures (x << 1) | (x >> 31) == x.RotateLeft(1)
    ensures (x << 5) | (x >> 27) == x.RotateLeft(5)
    ensures (x << 30) | (x >> 2) == x.RotateLeft(30)
  {
  }

  /** The expanded word of the second loop. */
  function Mix(a: Word, b: Word, c: Word, d: Word): Word {
    CircularShift(1, Xor(Xor(Xor(a, b), c), d))
  }

  lemma EarlyWord(block: bytes, t: nat)
    requires |block| == BLOCK && t < 16
    ensures W(block, t) == Join(block[4 * t], block[4 * t + 1], block[4 * t + 2], block[4 * t + 3])
  {
    hide Join;
  }

  lemma LateWord(block: bytes, t: nat)
    requires |block| == BLOCK && t >= 16
    ensures W(block, t) == Mix(W(block, t - 3), W(block, t - 8), W(block, t - 14), W(block, t - 16))
  {
    hide WordAt, Shift, Xor;
  }

  /** The first words of the expansion of a block. */
  ghost predicate Expanded(words: seq<Word>, block: bytes) {
    |block| == BLOCK && forall i :: 0 <= i < |words| ==> words[i] == W(block, i)
  }

  lemma ExpandStep(words: seq<Word>, block: bytes)
    requires Expanded(words, block) && |words| >= 16
    ensures var t := |words|;
      Expanded(words + [Mix(words[t - 3], words[t - 8], words[t - 14], words[t - 16])], block)
  {
    hide W, Mix;
    var t := |words|;
    LateWord(block, t);
    assert words[t - 3] == W(block, t - 3) && words[t - 8] == W(block, t - 8);
    assert words[t - 14] == W(block, t - 14) && words[t - 16] == W(block, t - 16);
  }

  /** The new word of a round, in each of the four loops. */
  function Temp0(s: Digest, w: Word): Word {
    Add(Add(Add(Add(CircularShift(5, s.h0), Or(And(s.h1, s.h2), And(Not(s.h1), s.h3))), s.h4), w), Word(0x5A827999))
  }

  function Temp1(s: Digest, w: Word): Word {
    Add(Add(Add(Add(CircularShift(5, s.h0), Xor(Xor(s.h1, s.h2), s.h3)), s.h4), w), Word(0x6ED9EBA1))
  }

  function Temp2(s: Digest, w: Word): Word {
    Add(Add(Add(Add(CircularShift(5, s.h0), Or(Or(And(s.h1, s.h2), And(s.h1, s.h3)), And(s.h2, s.h3))), s.h4), w), Word(0x8F1BBCDC))
  }

  function Temp3(s: Digest, w: Word): Word {
    Add(Add(Add(Add(CircularShift(5, s.h0), Xor(Xor(s.h1, s.h2), s.h3)), s.h4), w), Word(0xCA62C1D6))
  }

  /** The words moved along, with the new one in front. */
  function Shifted(s: Digest, temp: Word): Digest {
    Digest(temp, s.h0, CircularShift(30, s.h1), s.h2, s.h3)
  }

  lemma RoundIs(s: Digest, t: nat, w: Word)
    ensures Round(s, t, w) == Shifted(s, if t < 20 then Temp0(s, w) else if t < 40 then Temp1(s, w) else if t < 60 then Temp2(s, w) else Temp3(s, w))
  {
    hide Add, And, Or, Xor, Not, Shift;
  }

  /** One more round. */
  lemma NextRound(s: Digest, block: bytes, t: nat, now: Digest, w: Word)
    requires |block| == BLOCK && now == Rounds(s, block, t) && w == W(block, t)
    ensures t < 20 ==> Rounds(s, block, t + 1) == Shifted(now, Temp0(now, w))
    ensures 20 <= t < 40 ==> Rounds(s, block, t + 1) == Shifted(now, Temp1(now, w))
    ensures 40 <= t < 60 ==> Rounds(s, block, t + 1) == Shifted(now, Temp2(now, w))
    ensures 60 <= t ==> Rounds(s, block, t + 1) == Shifted(now, Temp3(now, w))
  {
    hide Round, Shifted, Temp0, Temp1, Temp2, Temp3, W;
    RoundIs(now, t, w);
  }

  /** A word as four bytes, the highest first. */
  function Octets(w: Word): (b: bytes)
    ensures |b| == 4
  {
    [Octet(Part(w.bits, 24)), Octet(Part(w.bits, 16)), Octet(Part(w.bits, 8)), Octet(Part(w.bits, 0))]
  }

  function Part(x: bv32, n: nat): bv8
    requires n <= 24
  {
    ((x >> n) & 0xff) as bv8
  }

  function Octet(b: bv8): byte { b as int }

  function Encode(d: Digest): (b: bytes)
    ensures |b| == 20
  {
    Octets(d.h0) + Octets(d.h1) + Octets(d.h2) + Octets(d.h3) + Octets(d.h4)
  }

  lemma SameOctet(b: bv8)
    ensures Bits(Octet(b)) == b
  {
  }

  function Joined(a: bv8, b: bv8, c: bv8, d: bv8): bv32 {
    (a as bv32 << 24) | (b as bv32 << 16) | (c as bv32 << 8) | d as bv32
  }

  lemma PartsJoined(x: bv32)
    ensures Joined(Part(x, 24), Part(x, 16), Part(x, 8), Part(x, 0)) == x
  {
  }

  lemma JoinBits(a: bv8, b: bv8, c: bv8, d: bv8)
    ensures Join(Octet(a), Octet(b), Octet(c), Octet(d)) == Word(Joined(a, b, c, d))
  {
    hide Octet, Bits;
    SameOctet(a);
    SameOctet(b);
    SameOctet(c);
    SameOctet(d);
  }

  /** The octets of a word joined as the message's words are joined give the word back. */
  lemma JoinOctets(w: Word)
    ensures var b := Octets(w); Join(b[0], b[1], b[2], b[3]) == w
  {
    hide Part, Joined, Octet, Join;
    var x := w.bits;
    PartsJoined(x);
    JoinBits(Part(x, 24), Part(x, 16), Part(x, 8), Part(x, 0));
  }

  /** The words of a digest are read back from its bytes, so different digests have different bytes. */
  lemma EncodeReadBack(d: Digest)
    ensures var b := Encode(d);
      Digest(WordAt(b, 0), WordAt(b, 1), WordAt(b, 2), WordAt(b, 3), WordAt(b, 4)) == d
  {
    hide Octets, Join;
    JoinOctets(d.h0);
    JoinOctets(d.h1);
    JoinOctets(d.h2);
    JoinOctets(d.h3);
    JoinOctets(d.h4);
  }

  class Context {
    const block: array<byte>
    var digest: Digest
    var lengthLow: nat
    var lengthHigh: nat
    var index: nat
    var computed: bool
    var corrupted: bool
    ghost var message: bytes

    /** The length of the message in bits, in two words. */
    ghost predicate Lengths(n: nat)
      reads `lengthLow, `lengthHigh
    {
      lengthLow < 0x1_0000_0000 && lengthHigh < 0x1_0000_0000 && lengthHigh * 0x1_0000_0000 + lengthLow == 8 * n
    }

    /** The context after the whole blocks of `m`: the bytes after them are in the block. */
    ghost predicate Holding(m: bytes)
      reads this, block
    {
      && block.Length == BLOCK && |m| < MESSAGE_MAX && Lengths(|m|)
      && index == |Rest(m)| < BLOCK && block[..index] == Rest(m) && digest == ProcessBlocks(INITIAL, Whole(m))
    }

    ghost predicate Valid()
      reads this, block
    {
      && block.Length == BLOCK
      && (!corrupted && !computed ==> Holding(message))
      && (!corrupted && computed ==> |message| < MESSAGE_MAX && digest == Sha1Spec.Sha1(message))
    }

    constructor ()
      ensures Valid() && fresh(block) && !computed && !corrupted && message == []
    {
      block := new byte[BLOCK];
      digest := INITIAL;
      lengthLow, lengthHigh, index, computed, corrupted := 0, 0, 0, false, false;
      message := [];
    }

    /** Starts a new message. */
    method Init()
      requires block.Length == BLOCK
      modifies this
      ensures Valid() && !computed && !corrupted && message == []
    {
      lengthLow, lengthHigh, index := 0, 0, 0;
      digest := INITIAL;
      computed, corrupted := false, false;
      message := [];
    }

    /** Adds bytes to the message: -1 for none, -2 for a message that is finished or too long. */
    method Update(data: bytes) returns (rc: int)
      requires Valid()
      modifies this, block
      ensures Valid() && computed == old(computed)
      ensures data == [] ==> rc == -1 && corrupted == old(corrupted) && message == old(message)
      ensures data != [] && (old(computed) || old(corrupted)) ==> rc == -2 && corrupted
      ensures data != [] && !old(computed) && !old(corrupted) ==> rc == 0 && corrupted == (|old(message)| + |data| >= MESSAGE_MAX)
      ensures data != [] && !corrupted ==> message == old(message) + data
    {
      if |data| == 0 {
        return -1;
      }
      if computed || corrupted {
        corrupted := true;
        return -2;
      }
      hide Holding;
      ghost var m := message;
      var i := 0;
      assert m + data[..0] == m;
      while i < |data| && !corrupted
        invariant 0 <= i <= |data| && Valid() && !computed
        invariant !corrupted ==> message == m + data[..i]
        invariant corrupted ==> |m| + |data| >= MESSAGE_MAX
        decreases |data| - i
      {
        assert m + data[..i] + [data[i]] == m + data[..i + 1];
        UpdateByte(data[i]);
        i := i + 1;
      }
      if !corrupted {
        assert data[..i] == data;
        HoldingShort(message);
      }
      return 0;
    }

    lemma HoldingShort(m: bytes)
      requires Holding(m)
      ensures |m| < MESSAGE_MAX
    {
    }

    /** Takes in one byte. */
    method UpdateByte(b: byte)
      requires Holding(message) && !corrupted && !computed
      modifies this, block
      ensures block.Length == BLOCK && !computed && message == old(message) + [b]
      ensures corrupted == (|message| >= MESSAGE_MAX) && (!corrupted ==> Holding(message))
    {
      ghost var m := message;
      hide ProcessBlocks, Whole, Rest, ProcessBlock;
      OneMoreByte(m, b);
      ghost var was := block[..index];
      block[index] := b;
      index := index + 1;
      assert block[..index] == was + [b];
      AddLength(|m|);
      message := m + [b];
      if index == BLOCK {
        assert block[..] == Rest(m) + [b];
        ProcessMessageBlock();
        OneMoreBlock(INITIAL, Whole(m), Rest(m) + [b]);
      }
    }

    /** Counts eight more bits; notes when the count passes 64 bits. */
    method AddLength(ghost n: nat)
      requires Lengths(n) && !corrupted
      modifies `lengthLow, `lengthHigh, `corrupted
      ensures corrupted == (n + 1 >= MESSAGE_MAX)
      ensures !corrupted ==> Lengths(n + 1)
    {
      lengthLow := (lengthLow + 8) % 0x1_0000_0000;
      if lengthLow == 0 {
        lengthHigh := (lengthHigh + 1) % 0x1_0000_0000;
        if lengthHigh == 0 {
          corrupted := true;
        }
      }
    }

    /** Processes the full block. */
    method ProcessMessageBlock()
      requires block.Length == BLOCK
      modifies `digest, `index
      ensures digest == ProcessBlock(old(digest), block[..]) && index == 0
    {
      hide W, Rounds, Sum;
      ghost var bs := block[..];
      var w := Expand();
      var s := RoundsOf(w, bs);
      digest := Sum(digest, s);
      index := 0;
    }

    /** The eighty words of the block. */
    method Expand() returns (words: seq<Word>)
      requires block.Length == BLOCK
      ensures |words| == 80 && Expanded(words, block[..])
    {
      ghost var bs := block[..];
      hide Expanded, Mix;
      words := FirstWords();
      while |words| < 80
        invariant 16 <= |words| <= 80 && Expanded(words, bs)
      {
        var t := |words|;
        ExpandStep(words, bs);
        words := words + [Mix(words[t - 3], words[t - 8], words[t - 14], words[t - 16])];
      }
    }

    /** The words of the block itself. */
    method FirstWords() returns (words: seq<Word>)
      requires block.Length == BLOCK
      ensures |words| == 16 && Expanded(words, block[..])
    {
      ghost var bs := block[..];
      hide Join, W;
      words := [];
      while |words| < 16
        invariant |words| <= 16 && Expanded(words, bs)
      {
        var t := |words|;
        EarlyWord(bs, t);
        words := words + [Join(block[4 * t], block[4 * t + 1], block[4 * t + 2], block[4 * t + 3])];
      }
    }

    /** The eighty rounds, in four loops. */
    method RoundsOf(w: seq<Word>, ghost bs: bytes) returns (s: Digest)
      requires |w| == 80 && Expanded(w, bs)
      ensures s == Rounds(digest, bs, 80)
    {
      s := digest;
      hide W, Shifted, Temp0, Temp1, Temp2, Temp3;
      var t := 0;
      assert s == Rounds(digest, bs, 0);
      hide Rounds;
      while t < 20
        invariant 0 <= t <= 20 && s == Rounds(digest, bs, t)
      {
        NextRound(digest, bs, t, s, w[t]);
        s := Shifted(s, Temp0(s, w[t]));
        t := t + 1;
      }
      while t < 40
        invariant 20 <= t <= 40 && s == Rounds(digest, bs, t)
      {
        NextRound(digest, bs, t, s, w[t]);
        s := Shifted(s, Temp1(s, w[t]));
        t := t + 1;
      }
      while t < 60
        invariant 40 <= t <= 60 && s == Rounds(digest, bs, t)
      {
        NextRound(digest, bs, t, s, w[t]);
        s := Shifted(s, Temp2(s, w[t]));
        t := t + 1;
      }
      while t < 80
        invariant 60 <= t <= 80 && s == Rounds(digest, bs, t)
      {
        NextRound(digest, bs, t, s, w[t]);
        s := Shifted(s, Temp3(s, w[t]));
        t := t + 1;
      }
    }

    /** Fills the block with zeros up to place `to`. */
    method Zero(to: nat)
      requires block.Length == BLOCK && index <= to <= BLOCK
      modifies block, `index
      ensures block.Length == BLOCK && index == to && block[..to] == old(block[..index]) + Zeros(to - old(index))
    {
      ghost var was, from := block[..index], index;
      while index < to
        invariant from <= index <= to && block[..index] == was + Zeros(index - from)
      {
        ghost var now := block[..index];
        block[index] := 0;
        index := index + 1;
        assert block[..index] == now + [0];
        assert Zeros(index - 1 - from) + [0] == Zeros(index - from);
      }
    }

    /** Puts the 1 bit after the message. */
    method Mark()
      requires block.Length == BLOCK && index < BLOCK
      modifies block, `index
      ensures index == old(index) + 1 && block[..index] == old(block[..index]) + [0x80]
    {
      ghost var was := block[..index];
      block[index] := 0x80;
      index := index + 1;
      assert block[..index] == was + [0x80];
    }

    /** Pads a block that has room for the length. */
    method PadShort()
      requires Holding(message) && index <= 55
      modifies block, `index
      ensures block[..56] == Rest(message) + [0x80] + Zeros(55 - |Rest(message)|)
      ensures block.Length == BLOCK && digest == old(digest)
    {
      Mark();
      Zero(56);
    }

    /** Pads a block that has no room for the length, and starts another. */
    method PadLong(ghost tail: bytes)
      requires Holding(message) && index > 55 && tail == Rest(message) + Padding(|message|)
      modifies block, `index, `digest
      ensures block.Length == BLOCK && block[..56] == Zeros(56) && |tail| == 2 * BLOCK
      ensures digest == ProcessBlock(old(digest), tail[..BLOCK])
    {
      hide ProcessBlock, ProcessBlocks, Rest, Whole, Padding;
      LongTail(message, tail);
      Mark();
      Zero(BLOCK);
      assert block[..] == block[..BLOCK];
      ProcessMessageBlock();
      assert block[..0] == [];
      Zero(56);
      assert [] + Zeros(56) == Zeros(56);
    }

    /** Pads the message and processes its last one or two blocks. */
    method PadMessage()
      requires Holding(message)
      modifies `digest, `index, block
      ensures |message| < MESSAGE_MAX && block.Length == BLOCK && digest == Sha1Spec.Sha1(message)
    {
      ghost var tail := Rest(message) + Padding(|message|);
      hide ProcessBlock, ProcessBlocks, Rest, Whole, Sha1Spec.Sha1, Padding;
      if index > 55 {
        Sha1Long(message, tail);
        LongTail(message, tail);
        PadLong(tail);
      } else {
        Sha1Short(message, tail);
        ShortTail(message, tail);
        PadShort();
      }
      hide Holding;
      EndOfTail(message, tail);
      hide Be8, Zeros;
      StoreLength(|message|);
      ProcessMessageBlock();
    }

    /** Stores the length of the message as the last eight bytes of the block. */
    method StoreLength(ghost n: nat)
      requires block.Length == BLOCK && Lengths(n) && n < MESSAGE_MAX
      modifies block
      ensures block[..] == old(block[..56]) + Be8(8 * n)
    {
      ghost var was := block[..56];
      block[56] := lengthHigh / 0x100_0000;
      block[57] := lengthHigh / 0x1_0000 % 0x100;
      block[58] := lengthHigh / 0x100 % 0x100;
      block[59] := lengthHigh % 0x100;
      block[60] := lengthLow / 0x100_0000;
      block[61] := lengthLow / 0x1_0000 % 0x100;
      block[62] := lengthLow / 0x100 % 0x100;
      block[63] := lengthLow % 0x100;
      assert 8 * n / 0x1_0000_0000 == lengthHigh && 8 * n % 0x1_0000_0000 == lengthLow;
      assert block[56..60] == Be4(lengthHigh) && block[60..64] == Be4(lengthLow);
      assert block[..56] == was;
      assert block[..] == block[..56] + (block[56..60] + block[60..64]);
    }

    /** The digest of the message: -1 when it was too long or added to after it was finished. */
    method Final() returns (rc: int, digestOut: bytes)
      requires Valid()
      modifies this, block
      ensures Valid() && message == old(message) && corrupted == old(corrupted)
      ensures rc == if corrupted then -1 else 0
      ensures rc == 0 ==> computed && |message| < MESSAGE_MAX && digestOut == Encode(Sha1Spec.Sha1(message))
    {
      if corrupted {
        return -1, [];
      }
      hide Holding, Sha1Spec.Sha1;
      if !computed {
        PadMessage();
        computed := true;
      }
      digestOut := Encode(digest);
      rc := 0;
    }
  }

  lemma EndOfTail(m: bytes, tail: bytes)
    requires |m| < MESSAGE_MAX && tail == Rest(m) + Padding(|m|)
    ensures |tail| >= BLOCK && tail[|tail| - BLOCK..] == tail[|tail| - BLOCK..|tail| - 8] + Be8(8 * |m|)
    ensures |tail| == BLOCK ==> tail[|tail| - BLOCK..|tail| - 8] == tail[..56] && tail[|tail| - BLOCK..] == tail
    ensures |tail| == 2 * BLOCK ==> tail[|tail| - BLOCK..|tail| - 8] == tail[BLOCK..2 * BLOCK - 8] && tail[|tail| - BLOCK..] == tail[BLOCK..]
  {
    PaddedBlocks(m, tail);
    hide Rest;
    assert tail[|tail| - 8..] == Be8(8 * |m|);
  }

  lemma ShortTail(m: bytes, tail: bytes)
    requires |m| < MESSAGE_MAX && tail == Rest(m) + Padding(|m|) && |Rest(m)| <= 55
    ensures |tail| == BLOCK && tail[..56] == Rest(m) + [0x80] + Zeros(55 - |Rest(m)|)
  {
    PaddedBlocks(m, tail);
    hide Rest;
    assert ZerosNeeded(|m|) == 55 - |Rest(m)|;
  }

  lemma LongTail(m: bytes, tail: bytes)
    requires |m| < MESSAGE_MAX && tail == Rest(m) + Padding(|m|) && |Rest(m)| > 55
    ensures |tail| == 2 * BLOCK && tail[..BLOCK] == Rest(m) + [0x80] + Zeros(63 - |Rest(m)|)
    ensures tail[BLOCK..2 * BLOCK - 8] == Zeros(56)
  {
    PaddedBlocks(m, tail);
    hide Rest;
    assert ZerosNeeded(|m|) == 119 - |Rest(m)|;
  }

  function Concat(chunks: seq<bytes>): (m: bytes) {
    if chunks == [] then [] else Concat(chunks[..|chunks| - 1]) + chunks[|chunks| - 1]
  }

  lemma {:induction false} PrefixShorter(chunks: seq<bytes>, i: nat)
    requires i <= |chunks|
    ensures |Concat(chunks[..i])| <= |Concat(chunks)|
  {
    if i < |chunks| {
      assert chunks[..|chunks| - 1][..i] == chunks[..i];
      PrefixShorter(chunks[..|chunks| - 1], i);
    } else {
      assert chunks[..i] == chunks;
    }
  }

  /** However a message is cut into chunks, updates with them and two finals both give the digest of the whole message. */
  method DigestOfChunks(chunks: seq<bytes>) returns (first: bytes, second: bytes)
    requires (forall i :: 0 <= i < |chunks| ==> chunks[i] != []) && |Concat(chunks)| < MESSAGE_MAX
    ensures first == Encode(Sha1Spec.Sha1(Concat(chunks))) && second == first
  {
    var context := new Context();
    hide context.Valid, Sha1Spec.Sha1, Encode;
    var i := 0;
    while i < |chunks|
      invariant 0 <= i <= |chunks| && context.Valid() && fresh(context) && fresh(context.block)
      invariant !context.computed && !context.corrupted && context.message == Concat(chunks[..i])
    {
      PrefixShorter(chunks, i + 1);
      assert chunks[..i + 1][..i] == chunks[..i];
      var rc := context.Update(chunks[i]);
      i := i + 1;
    }
    assert chunks[..i] == chunks;
    var rc;
    rc, first := context.Final();
    rc, second := context.Final();
  }

  /** A length as the 32-bit parameter holds it. */
  function Truncated(n: nat): (r: nat)
    ensures r <= n && r < 0x1_0000_0000
    ensures n < 0x1_0000_0000 ==> r == n
  {
    n % 0x1_0000_0000
  }

  /** The digest in one call, of the bytes that a 32-bit length leaves of the message; none when it leaves no bytes. */
  method DigestInOne(m: bytes) returns (digest: Option<bytes>)
    ensures digest.None? <==> |m| % 0x1_0000_0000 == 0
    ensures 0 < |m| < 0x1_0000_0000 ==> digest == Some(Encode(Sha1Spec.Sha1(m)))
    ensures digest.Some? ==> digest == Some(Encode(Sha1Spec.Sha1(m[..Truncated(|m|)])))
  {
    var context := new Context();
    hide context.Valid, Sha1Spec.Sha1, Encode;
    var part := m[..Truncated(|m|)];
    assert [] + part == part;
    assert |m| < 0x1_0000_0000 ==> part == m;
    var rc := context.Update(part);
    if rc != 0 {
      return None;
    }
    var md;
    rc, md := context.Final();
    if rc != 0 {
      return None;
    }
    return Some(md);
  }
}
