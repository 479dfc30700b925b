/** The first example of FIPS 180-1, its appendix A: the digest of "abc", word by word and round by round. */
module Sha1Known {
  import opened Bytes
  import opened Sha1Spec

  const ABC: bytes := [0x61, 0x62, 0x63]

  ghost predicate IsBlock(b: bytes) {
    |b| == BLOCK && b[..4] == ABC + [0x80] && (forall i :: 4 <= i < 63 ==> b[i] == 0) && b[63] == 0x18
  }

  lemma Padded(b: bytes)
    requires b == ABC + Padding(3)
    ensures IsBlock(b)
  {
    assert ZerosNeeded(3) == 52;
    var z := Zeros(52);
    assert Be8(24) == [0, 0, 0, 0, 0, 0, 0, 24];
    assert b == ABC + ([0x80] + z + [0, 0, 0, 0, 0, 0, 0, 24]);
  }

  lemma NextWord(b: bytes, t: nat, w: Word)
    requires IsBlock(b) && t >= 16 && Shift(Xor(Xor(Xor(W(b, t - 3), W(b, t - 8)), W(b, t - 14)), W(b, t - 16)), 1) == w
    ensures W(b, t) == w
  {
    hide Shift, Xor;
  }

  lemma Rounds0(b: bytes)
    requires IsBlock(b)
    ensures Rounds(INITIAL, b, 0) == Digest(Word(0x67452301), Word(0xEFCDAB89), Word(0x98BADCFE), Word(0x10325476), Word(0xC3D2E1F0))
  {
  }

  lemma NextRound(b: bytes, t: nat, w: Word, r: Digest)
    requires IsBlock(b) && W(b, t) == w && Round(Rounds(INITIAL, b, t), t, w) == r
    ensures Rounds(INITIAL, b, t + 1) == r
  {
    hide Round, W;
  }

  lemma WordIs(b: bytes, i: nat, p: byte, q: byte, r: byte, s: byte)
    requires |b| == BLOCK && i < 16 && b[4 * i] == p && b[4 * i + 1] == q && b[4 * i + 2] == r && b[4 * i + 3] == s
    ensures W(b, i) == Join(p, q, r, s)
  {
    hide Join;
  }

  lemma FirstWords(b: bytes)
    requires IsBlock(b)
    ensures W(b, 0) == Word(0x61626380) && (forall i :: 1 <= i < 15 ==> W(b, i) == Word(0)) && W(b, 15) == Word(0x18)
  {
    WordIs(b, 0, 0x61, 0x62, 0x63, 0x80);
    WordIs(b, 15, 0, 0, 0, 0x18);
    forall i | 1 <= i < 15
      ensures W(b, i) == Join(0, 0, 0, 0)
    {
      WordIs(b, i, 0, 0, 0, 0);
    }
    hide W;
    Joins();
  }

  lemma Joins()
    ensures Join(0x61, 0x62, 0x63, 0x80) == Word(0x61626380) && Join(0, 0, 0, 0) == Word(0) && Join(0, 0, 0, 0x18) == Word(0x18)
  {
    assert Bits(0) == 0 && Bits(0x61) == 0x61 && Bits(0x62) == 0x62 && Bits(0x63) == 0x63 && Bits(0x80) == 0x80 && Bits(0x18) == 0x18;
    hide Bits;
  }

  lemma Words0(b: bytes)
    requires IsBlock(b)
    ensures W(b, 0) == Word(0x61626380) && W(b, 1) == Word(0x00000000) && W(b, 2) == Word(0x00000000) && W(b, 3) == Word(0x00000000)
    ensures W(b, 4) == Word(0x00000000) && W(b, 5) == Word(0x00000000) && W(b, 6) == Word(0x00000000) && W(b, 7) == Word(0x00000000)
    ensures W(b, 8) == Word(0x00000000) && W(b, 9) == Word(0x00000000) && W(b, 10) == Word(0x00000000) && W(b, 11) == Word(0x00000000)
    ensures W(b, 12) == Word(0x00000000) && W(b, 13) == Word(0x00000000) && W(b, 14) == Word(0x00000000) && W(b, 15) == Word(0x00000018)
  {
    FirstWords(b);
  }

  lemma Words1(b: bytes)
    requires IsBlock(b)
    ensures W(b, 16) == Word(0xC2C4C700) && W(b, 17) == Word(0x00000000) && W(b, 18) == Word(0x00000030) && W(b, 19) == Word(0x85898E01)
    ensures W(b, 20) == Word(0x00000000) && W(b, 21) == Word(0x00000060) && W(b, 22) == Word(0x0B131C03) && W(b, 23) == Word(0x00000030)
    ensures W(b, 24) == Word(0x85898EC1) && W(b, 25) == Word(0x16263806) && W(b, 26) == Word(0x00000000) && W(b, 27) == Word(0x00000180)
    ensures W(b, 28) == Word(0x2C4C700C) && W(b, 29) == Word(0x000000F0) && W(b, 30) == Word(0x93AFB507) && W(b, 31) == Word(0x5898E048)
  {
    Words0(b);
    hide W;
    NextWord(b, 16, Word(0xC2C4C700));
    NextWord(b, 17, Word(0x00000000));
    NextWord(b, 18, Word(0x00000030));
    NextWord(b, 19, Word(0x85898E01));
    NextWord(b, 20, Word(0x00000000));
    NextWord(b, 21, Word(0x00000060));
    NextWord(b, 22, Word(0x0B131C03));
    NextWord(b, 23, Word(0x00000030));
    NextWord(b, 24, Word(0x85898EC1));
    NextWord(b, 25, Word(0x16263806));
    NextWord(b, 26, Word(0x00000000));
    NextWord(b, 27, Word(0x00000180));
    NextWord(b, 28, Word(0x2C4C700C));
    NextWord(b, 29, Word(0x000000F0));
    NextWord(b, 30, Word(0x93AFB507));
    NextWord(b, 31, Word(0x5898E048));
  }

  lemma Words2(b: bytes)
    requires IsBlock(b)
    ensures W(b, 32) == Word(0x8E9A9202) && W(b, 33) == Word(0x00000600) && W(b, 34) == Word(0xB131C0F0) && W(b, 35) == Word(0x16263BC6)
    ensures W(b, 36) == Word(0x4EBED41E) && W(b, 37) == Word(0x626380A1) && W(b, 38) == Word(0x16263806) && W(b, 39) == Word(0x000018C0)
    ensures W(b, 40) == Word(0xD2E138C4) && W(b, 41) == Word(0x00000F00) && W(b, 42) == Word(0x3AFB5079) && W(b, 43) == Word(0x898E04E5)
    ensures W(b, 44) == Word(0xE2BA3C2B) && W(b, 45) == Word(0x000060C0) && W(b, 46) == Word(0x053A37CD) && W(b, 47) == Word(0x74458547)
  {
    Words1(b);
    hide W;
    NextWord(b, 32, Word(0x8E9A9202));
    NextWord(b, 33, Word(0x00000600));
    NextWord(b, 34, Word(0xB131C0F0));
    NextWord(b, 35, Word(0x16263BC6));
    NextWord(b, 36, Word(0x4EBED41E));
    NextWord(b, 37, Word(0x626380A1));
    NextWord(b, 38, Word(0x16263806));
    NextWord(b, 39, Word(0x000018C0));
    NextWord(b, 40, Word(0xD2E138C4));
    NextWord(b, 41, Word(0x00000F00));
    NextWord(b, 42, Word(0x3AFB5079));
    NextWord(b, 43, Word(0x898E04E5));
    NextWord(b, 44, Word(0xE2BA3C2B));
    NextWord(b, 45, Word(0x000060C0));
    NextWord(b, 46, Word(0x053A37CD));
    NextWord(b, 47, Word(0x74458547));
  }

  lemma Words3(b: bytes)
    requires IsBlock(b)
    ensures W(b, 48) == Word(0xDA9415ED) && W(b, 49) == Word(0x26380A16) && W(b, 50) == Word(0x626383A1) && W(b, 51) == Word(0x4EBF54DE)
    ensures W(b, 52) == Word(0x3835B44B) && W(b, 53) == Word(0x0000F600) && W(b, 54) == Word(0x1E84C7A3) && W(b, 55) == Word(0x98E04D98)
    ensures W(b, 56) == Word(0x651D16A0) && W(b, 57) == Word(0x62658CA1) && W(b, 58) == Word(0x458544D6) && W(b, 59) == Word(0x44584CB7)
    ensures W(b, 60) == Word(0x7BA06619) && W(b, 61) == Word(0x6380AEA2) && W(b, 62) == Word(0x0AE55269) && W(b, 63) == Word(0x627B49A1)
  {
    Words2(b);
    hide W;
    NextWord(b, 48, Word(0xDA9415ED));
    NextWord(b, 49, Word(0x26380A16));
    NextWord(b, 50, Word(0x626383A1));
    NextWord(b, 51, Word(0x4EBF54DE));
    NextWord(b, 52, Word(0x3835B44B));
    NextWord(b, 53, Word(0x0000F600));
    NextWord(b, 54, Word(0x1E84C7A3));
    NextWord(b, 55, Word(0x98E04D98));
    NextWord(b, 56, Word(0x651D16A0));
    NextWord(b, 57, Word(0x62658CA1));
    NextWord(b, 58, Word(0x458544D6));
    NextWord(b, 59, Word(0x44584CB7));
    NextWord(b, 60, Word(0x7BA06619));
    NextWord(b, 61, Word(0x6380AEA2));
    NextWord(b, 62, Word(0x0AE55269));
    NextWord(b, 63, Word(0x627B49A1));
  }

  lemma Words4(b: bytes)
    requires IsBlock(b)
    ensures W(b, 64) == Word(0x7CD45C9D) && W(b, 65) == Word(0x000F0000) && W(b, 66) == Word(0xFB50753A) && W(b, 67) == Word(0xEC6765E8)
    ensures W(b, 68) == Word(0xBA3C2BE2) && W(b, 69) == Word(0x0060C000) && W(b, 70) == Word(0x3A37CD05) && W(b, 71) == Word(0x458546F4)
    ensures W(b, 72) == Word(0xB8599DD6) && W(b, 73) == Word(0x380A1A26) && W(b, 74) == Word(0x01E02203) && W(b, 75) == Word(0xE7CC3456)
    ensures W(b, 76) == Word(0xE6E60B69) && W(b, 77) == Word(0x00F60A00) && W(b, 78) == Word(0x5795EF4F) && W(b, 79) == Word(0x822E0879)
  {
    Words3(b);
    hide W;
    NextWord(b, 64, Word(0x7CD45C9D));
    NextWord(b, 65, Word(0x000F0000));
    NextWord(b, 66, Word(0xFB50753A));
    NextWord(b, 67, Word(0xEC6765E8));
    NextWord(b, 68, Word(0xBA3C2BE2));
    NextWord(b, 69, Word(0x0060C000));
    NextWord(b, 70, Word(0x3A37CD05));
    NextWord(b, 71, Word(0x458546F4));
    NextWord(b, 72, Word(0xB8599DD6));
    NextWord(b, 73, Word(0x380A1A26));
    NextWord(b, 74, Word(0x01E02203));
    NextWord(b, 75, Word(0xE7CC3456));
    NextWord(b, 76, Word(0xE6E60B69));
    NextWord(b, 77, Word(0x00F60A00));
    NextWord(b, 78, Word(0x5795EF4F));
    NextWord(b, 79, Word(0x822E0879));
  }

  lemma Rounds1(b: bytes)
    requires IsBlock(b)
    ensures Rounds(INITIAL, b, 1) == Digest(Word(0x0116FC33), Word(0x67452301), Word(0x7BF36AE2), Word(0x98BADCFE), Word(0x10325476))
  {
    Words0(b);
    Rounds0(b);
    hide W, Rounds, IsBlock;
    NextRound(b, 0, Word(0x61626380), Digest(Word(0x0116FC33), Word(0x67452301), Word(0x7BF36AE2), Word(0x98BADCFE), Word(0x10325476)));
  }

  lemma Rounds10(b: bytes)
    requires IsBlock(b)
    ensures Rounds(INITIAL, b, 10) == Digest(Word(0x8351F929), Word(0x4B6AE328), Word(0x27A301F5), Word(0x664F8C30), Word(0x0FF1F290))
  {
    Words0(b);
    Rounds1(b);
    hide W, Rounds, IsBlock;
    NextRound(b, 1, Word(0x00000000), Digest(Word(0x8990536D), Word(0x0116FC33), Word(0x59D148C0), Word(0x7BF36AE2), Word(0x98BADCFE)));
    NextRound(b, 2, Word(0x00000000), Digest(Word(0xA1390F08), Word(0x8990536D), Word(0xC045BF0C), Word(0x59D148C0), Word(0x7BF36AE2)));
    NextRound(b, 3, Word(0x00000000), Digest(Word(0xCDD8E11B), Word(0xA1390F08), Word(0x626414DB), Word(0xC045BF0C), Word(0x59D148C0)));
    NextRound(b, 4, Word(0x00000000), Digest(Word(0xCFD499DE), Word(0xCDD8E11B), Word(0x284E43C2), Word(0x626414DB), Word(0xC045BF0C)));
    NextRound(b, 5, Word(0x00000000), Digest(Word(0x3FC7CA40), Word(0xCFD499DE), Word(0xF3763846), Word(0x284E43C2), Word(0x626414DB)));
    NextRound(b, 6, Word(0x00000000), Digest(Word(0x993E30C1), Word(0x3FC7CA40), Word(0xB3F52677), Word(0xF3763846), Word(0x284E43C2)));
    NextRound(b, 7, Word(0x00000000), Digest(Word(0x9E8C07D4), Word(0x993E30C1), Word(0x0FF1F290), Word(0xB3F52677), Word(0xF3763846)));
    NextRound(b, 8, Word(0x00000000), Digest(Word(0x4B6AE328), Word(0x9E8C07D4), Word(0x664F8C30), Word(0x0FF1F290), Word(0xB3F52677)));
    NextRound(b, 9, Word(0x00000000), Digest(Word(0x8351F929), Word(0x4B6AE328), Word(0x27A301F5), Word(0x664F8C30), Word(0x0FF1F290)));
  }

  lemma Rounds20(b: bytes)
    requires IsBlock(b)
    ensures Rounds(INITIAL, b, 20) == Digest(Word(0xFD9E1D7D), Word(0xDC64901D), Word(0x20AA99CA), Word(0xD3A49608), Word(0xC82F758B))
  {
    Words0(b);
    Words1(b);
    Rounds10(b);
    hide W, Rounds, IsBlock;
    NextRound(b, 10, Word(0x00000000), Digest(Word(0xFBDA9E89), Word(0x8351F929), Word(0x12DAB8CA), Word(0x27A301F5), Word(0x664F8C30)));
    NextRound(b, 11, Word(0x00000000), Digest(Word(0x63188FE4), Word(0xFBDA9E89), Word(0x60D47E4A), Word(0x12DAB8CA), Word(0x27A301F5)));
    NextRound(b, 12, Word(0x00000000), Digest(Word(0x4607B664), Word(0x63188FE4), Word(0x7EF6A7A2), Word(0x60D47E4A), Word(0x12DAB8CA)));
    NextRound(b, 13, Word(0x00000000), Digest(Word(0x9128F695), Word(0x4607B664), Word(0x18C623F9), Word(0x7EF6A7A2), Word(0x60D47E4A)));
    NextRound(b, 14, Word(0x00000000), Digest(Word(0x196BEE77), Word(0x9128F695), Word(0x1181ED99), Word(0x18C623F9), Word(0x7EF6A7A2)));
    NextRound(b, 15, Word(0x00000018), Digest(Word(0x20BDD62F), Word(0x196BEE77), Word(0x644A3DA5), Word(0x1181ED99), Word(0x18C623F9)));
    NextRound(b, 16, Word(0xC2C4C700), Digest(Word(0x4E925823), Word(0x20BDD62F), Word(0xC65AFB9D), Word(0x644A3DA5), Word(0x1181ED99)));
    NextRound(b, 17, Word(0x00000000), Digest(Word(0x82AA6728), Word(0x4E925823), Word(0xC82F758B), Word(0xC65AFB9D), Word(0x644A3DA5)));
    NextRound(b, 18, Word(0x00000030), Digest(Word(0xDC64901D), Word(0x82AA6728), Word(0xD3A49608), Word(0xC82F758B), Word(0xC65AFB9D)));
    NextRound(b, 19, Word(0x85898E01), Digest(Word(0xFD9E1D7D), Word(0xDC64901D), Word(0x20AA99CA), Word(0xD3A49608), Word(0xC82F758B)));
  }

  lemma Rounds30(b: bytes)
    requires IsBlock(b)
    ensures Rounds(INITIAL, b, 30) == Digest(Word(0xC5FBAF5D), Word(0x8370B52E), Word(0xD2AA1365), Word(0x6F8D7EF5), Word(0x12104EE9))
  {
    Words1(b);
    Rounds20(b);
    hide W, Rounds, IsBlock;
    NextRound(b, 20, Word(0x00000000), Digest(Word(0x1A37B0CA), Word(0xFD9E1D7D), Word(0x77192407), Word(0x20AA99CA), Word(0xD3A49608)));
    NextRound(b, 21, Word(0x00000060), Digest(Word(0x33A23BFC), Word(0x1A37B0CA), Word(0x7F67875F), Word(0x77192407), Word(0x20AA99CA)));
    NextRound(b, 22, Word(0x0B131C03), Digest(Word(0x21283486), Word(0x33A23BFC), Word(0x868DEC32), Word(0x7F67875F), Word(0x77192407)));
    NextRound(b, 23, Word(0x00000030), Digest(Word(0xD541F12D), Word(0x21283486), Word(0x0CE88EFF), Word(0x868DEC32), Word(0x7F67875F)));
    NextRound(b, 24, Word(0x85898EC1), Digest(Word(0xC7567DC6), Word(0xD541F12D), Word(0x884A0D21), Word(0x0CE88EFF), Word(0x868DEC32)));
    NextRound(b, 25, Word(0x16263806), Digest(Word(0x48413BA4), Word(0xC7567DC6), Word(0x75507C4B), Word(0x884A0D21), Word(0x0CE88EFF)));
    NextRound(b, 26, Word(0x00000000), Digest(Word(0xBE35FBD5), Word(0x48413BA4), Word(0xB1D59F71), Word(0x75507C4B), Word(0x884A0D21)));
    NextRound(b, 27, Word(0x00000180), Digest(Word(0x4AA84D97), Word(0xBE35FBD5), Word(0x12104EE9), Word(0xB1D59F71), Word(0x75507C4B)));
    NextRound(b, 28, Word(0x2C4C700C), Digest(Word(0x8370B52E), Word(0x4AA84D97), Word(0x6F8D7EF5), Word(0x12104EE9), Word(0xB1D59F71)));
    NextRound(b, 29, Word(0x000000F0), Digest(Word(0xC5FBAF5D), Word(0x8370B52E), Word(0xD2AA1365), Word(0x6F8D7EF5), Word(0x12104EE9)));
  }

  lemma Rounds40(b: bytes)
    requires IsBlock(b)
    ensures Rounds(INITIAL, b, 40) == Digest(Word(0x32DE1CBA), Word(0x4C986405), Word(0xF718E5CF), Word(0x03D447F6), Word(0xF72EEC32))
  {
    Words1(b);
    Words2(b);
    Rounds30(b);
    hide W, Rounds, IsBlock;
    NextRound(b, 30, Word(0x93AFB507), Digest(Word(0x1267B407), Word(0xC5FBAF5D), Word(0xA0DC2D4B), Word(0xD2AA1365), Word(0x6F8D7EF5)));
    NextRound(b, 31, Word(0x5898E048), Digest(Word(0x3B845D33), Word(0x1267B407), Word(0x717EEBD7), Word(0xA0DC2D4B), Word(0xD2AA1365)));
    NextRound(b, 32, Word(0x8E9A9202), Digest(Word(0x046FAA0A), Word(0x3B845D33), Word(0xC499ED01), Word(0x717EEBD7), Word(0xA0DC2D4B)));
    NextRound(b, 33, Word(0x00000600), Digest(Word(0x2C0EBC11), Word(0x046FAA0A), Word(0xCEE1174C), Word(0xC499ED01), Word(0x717EEBD7)));
    NextRound(b, 34, Word(0xB131C0F0), Digest(Word(0x21796AD4), Word(0x2C0EBC11), Word(0x811BEA82), Word(0xCEE1174C), Word(0xC499ED01)));
    NextRound(b, 35, Word(0x16263BC6), Digest(Word(0xDCBBB0CB), Word(0x21796AD4), Word(0x4B03AF04), Word(0x811BEA82), Word(0xCEE1174C)));
    NextRound(b, 36, Word(0x4EBED41E), Digest(Word(0x0F511FD8), Word(0xDCBBB0CB), Word(0x085E5AB5), Word(0x4B03AF04), Word(0x811BEA82)));
    NextRound(b, 37, Word(0x626380A1), Digest(Word(0xDC63973F), Word(0x0F511FD8), Word(0xF72EEC32), Word(0x085E5AB5), Word(0x4B03AF04)));
    NextRound(b, 38, Word(0x16263806), Digest(Word(0x4C986405), Word(0xDC63973F), Word(0x03D447F6), Word(0xF72EEC32), Word(0x085E5AB5)));
    NextRound(b, 39, Word(0x000018C0), Digest(Word(0x32DE1CBA), Word(0x4C986405), Word(0xF718E5CF), Word(0x03D447F6), Word(0xF72EEC32)));
  }

  lemma Rounds50(b: bytes)
    requires IsBlock(b)
    ensures Rounds(INITIAL, b, 50) == Digest(Word(0x120731C5), Word(0xBAF39337), Word(0xAFAB40B2), Word(0x2806E11B), Word(0x8714787C))
  {
    Words2(b);
    Words3(b);
    Rounds40(b);
    hide W, Rounds, IsBlock;
    NextRound(b, 40, Word(0xD2E138C4), Digest(Word(0xFC87DEDF), Word(0x32DE1CBA), Word(0x53261901), Word(0xF718E5CF), Word(0x03D447F6)));
    NextRound(b, 41, Word(0x00000F00), Digest(Word(0x970A0D5C), Word(0xFC87DEDF), Word(0x8CB7872E), Word(0x53261901), Word(0xF718E5CF)));
    NextRound(b, 42, Word(0x3AFB5079), Digest(Word(0x7F193DC5), Word(0x970A0D5C), Word(0xFF21F7B7), Word(0x8CB7872E), Word(0x53261901)));
    NextRound(b, 43, Word(0x898E04E5), Digest(Word(0xEE1B1AAF), Word(0x7F193DC5), Word(0x25C28357), Word(0xFF21F7B7), Word(0x8CB7872E)));
    NextRound(b, 44, Word(0xE2BA3C2B), Digest(Word(0x40F28E09), Word(0xEE1B1AAF), Word(0x5FC64F71), Word(0x25C28357), Word(0xFF21F7B7)));
    NextRound(b, 45, Word(0x000060C0), Digest(Word(0x1C51E1F2), Word(0x40F28E09), Word(0xFB86C6AB), Word(0x5FC64F71), Word(0x25C28357)));
    NextRound(b, 46, Word(0x053A37CD), Digest(Word(0xA01B846C), Word(0x1C51E1F2), Word(0x503CA382), Word(0xFB86C6AB), Word(0x5FC64F71)));
    NextRound(b, 47, Word(0x74458547), Digest(Word(0xBEAD02CA), Word(0xA01B846C), Word(0x8714787C), Word(0x503CA382), Word(0xFB86C6AB)));
    NextRound(b, 48, Word(0xDA9415ED), Digest(Word(0xBAF39337), Word(0xBEAD02CA), Word(0x2806E11B), Word(0x8714787C), Word(0x503CA382)));
    NextRound(b, 49, Word(0x26380A16), Digest(Word(0x120731C5), Word(0xBAF39337), Word(0xAFAB40B2), Word(0x2806E11B), Word(0x8714787C)));
  }

  lemma Rounds60(b: bytes)
    requires IsBlock(b)
    ensures Rounds(INITIAL, b, 60) == Digest(Word(0x3F52DE5A), Word(0x09D785FD), Word(0x3498BFD4), Word(0xF211824F), Word(0xD79915AB))
  {
    Words3(b);
    Rounds50(b);
    hide W, Rounds, IsBlock;
    NextRound(b, 50, Word(0x626383A1), Digest(Word(0x641DB2CE), Word(0x120731C5), Word(0xEEBCE4CD), Word(0xAFAB40B2), Word(0x2806E11B)));
    NextRound(b, 51, Word(0x4EBF54DE), Digest(Word(0x3847AD66), Word(0x641DB2CE), Word(0x4481CC71), Word(0xEEBCE4CD), Word(0xAFAB40B2)));
    NextRound(b, 52, Word(0x3835B44B), Digest(Word(0xE490436D), Word(0x3847AD66), Word(0x99076CB3), Word(0x4481CC71), Word(0xEEBCE4CD)));
    NextRound(b, 53, Word(0x0000F600), Digest(Word(0x27E9F1D8), Word(0xE490436D), Word(0x8E11EB59), Word(0x99076CB3), Word(0x4481CC71)));
    NextRound(b, 54, Word(0x1E84C7A3), Digest(Word(0x7B71F76D), Word(0x27E9F1D8), Word(0x792410DB), Word(0x8E11EB59), Word(0x99076CB3)));
    NextRound(b, 55, Word(0x98E04D98), Digest(Word(0x5E6456AF), Word(0x7B71F76D), Word(0x09FA7C76), Word(0x792410DB), Word(0x8E11EB59)));
    NextRound(b, 56, Word(0x651D16A0), Digest(Word(0xC846093F), Word(0x5E6456AF), Word(0x5EDC7DDB), Word(0x09FA7C76), Word(0x792410DB)));
    NextRound(b, 57, Word(0x62658CA1), Digest(Word(0xD262FF50), Word(0xC846093F), Word(0xD79915AB), Word(0x5EDC7DDB), Word(0x09FA7C76)));
    NextRound(b, 58, Word(0x458544D6), Digest(Word(0x09D785FD), Word(0xD262FF50), Word(0xF211824F), Word(0xD79915AB), Word(0x5EDC7DDB)));
    NextRound(b, 59, Word(0x44584CB7), Digest(Word(0x3F52DE5A), Word(0x09D785FD), Word(0x3498BFD4), Word(0xF211824F), Word(0xD79915AB)));
  }

  lemma Rounds70(b: bytes)
    requires IsBlock(b)
    ensures Rounds(INITIAL, b, 70) == Digest(Word(0x3F2588C2), Word(0x497093C0), Word(0xDE37534A), Word(0x030F7CAD), Word(0x4405957E))
  {
    Words3(b);
    Words4(b);
    Rounds60(b);
    hide W, Rounds, IsBlock;
    NextRound(b, 60, Word(0x7BA06619), Digest(Word(0xD756C147), Word(0x3F52DE5A), Word(0x4275E17F), Word(0x3498BFD4), Word(0xF211824F)));
    NextRound(b, 61, Word(0x6380AEA2), Digest(Word(0x548C9CB2), Word(0xD756C147), Word(0x8FD4B796), Word(0x4275E17F), Word(0x3498BFD4)));
    NextRound(b, 62, Word(0x0AE55269), Digest(Word(0xB66C020B), Word(0x548C9CB2), Word(0xF5D5B051), Word(0x8FD4B796), Word(0x4275E17F)));
    NextRound(b, 63, Word(0x627B49A1), Digest(Word(0x6B61C9E1), Word(0xB66C020B), Word(0x9523272C), Word(0xF5D5B051), Word(0x8FD4B796)));
    NextRound(b, 64, Word(0x7CD45C9D), Digest(Word(0x19DFA7AC), Word(0x6B61C9E1), Word(0xED9B0082), Word(0x9523272C), Word(0xF5D5B051)));
    NextRound(b, 65, Word(0x000F0000), Digest(Word(0x101655F9), Word(0x19DFA7AC), Word(0x5AD87278), Word(0xED9B0082), Word(0x9523272C)));
    NextRound(b, 66, Word(0xFB50753A), Digest(Word(0x0C3DF2B4), Word(0x101655F9), Word(0x0677E9EB), Word(0x5AD87278), Word(0xED9B0082)));
    NextRound(b, 67, Word(0xEC6765E8), Digest(Word(0x78DD4D2B), Word(0x0C3DF2B4), Word(0x4405957E), Word(0x0677E9EB), Word(0x5AD87278)));
    NextRound(b, 68, Word(0xBA3C2BE2), Digest(Word(0x497093C0), Word(0x78DD4D2B), Word(0x030F7CAD), Word(0x4405957E), Word(0x0677E9EB)));
    NextRound(b, 69, Word(0x0060C000), Digest(Word(0x3F2588C2), Word(0x497093C0), Word(0xDE37534A), Word(0x030F7CAD), Word(0x4405957E)));
  }

  lemma Rounds80(b: bytes)
    requires IsBlock(b)
    ensures Rounds(INITIAL, b, 80) == Digest(Word(0x42541B35), Word(0x5738D5E1), Word(0x21834873), Word(0x681E6DF6), Word(0xD8FDF6AD))
  {
    Words4(b);
    Rounds70(b);
    hide W, Rounds, IsBlock;
    NextRound(b, 70, Word(0x3A37CD05), Digest(Word(0xC199F8C7), Word(0x3F2588C2), Word(0x125C24F0), Word(0xDE37534A), Word(0x030F7CAD)));
    NextRound(b, 71, Word(0x458546F4), Digest(Word(0x39859DE7), Word(0xC199F8C7), Word(0x8FC96230), Word(0x125C24F0), Word(0xDE37534A)));
    NextRound(b, 72, Word(0xB8599DD6), Digest(Word(0xEDB42DE4), Word(0x39859DE7), Word(0xF0667E31), Word(0x8FC96230), Word(0x125C24F0)));
    NextRound(b, 73, Word(0x380A1A26), Digest(Word(0x11793F6F), Word(0xEDB42DE4), Word(0xCE616779), Word(0xF0667E31), Word(0x8FC96230)));
    NextRound(b, 74, Word(0x01E02203), Digest(Word(0x5EE76897), Word(0x11793F6F), Word(0x3B6D0B79), Word(0xCE616779), Word(0xF0667E31)));
    NextRound(b, 75, Word(0xE7CC3456), Digest(Word(0x63F7DAB7), Word(0x5EE76897), Word(0xC45E4FDB), Word(0x3B6D0B79), Word(0xCE616779)));
    NextRound(b, 76, Word(0xE6E60B69), Digest(Word(0xA079B7D9), Word(0x63F7DAB7), Word(0xD7B9DA25), Word(0xC45E4FDB), Word(0x3B6D0B79)));
    NextRound(b, 77, Word(0x00F60A00), Digest(Word(0x860D21CC), Word(0xA079B7D9), Word(0xD8FDF6AD), Word(0xD7B9DA25), Word(0xC45E4FDB)));
    NextRound(b, 78, Word(0x5795EF4F), Digest(Word(0x5738D5E1), Word(0x860D21CC), Word(0x681E6DF6), Word(0xD8FDF6AD), Word(0xD7B9DA25)));
    NextRound(b, 79, Word(0x822E0879), Digest(Word(0x42541B35), Word(0x5738D5E1), Word(0x21834873), Word(0x681E6DF6), Word(0xD8FDF6AD)));
  }

  /** The digest of "abc" is the published one. */
  lemma DigestOfAbc()
    ensures Sha1(ABC) == Digest(Word(0xA9993E36), Word(0x4706816A), Word(0xBA3E2571), Word(0x7850C26C), Word(0x9CD0D89D))
  {
    var b := ABC + Padding(3);
    Padded(b);
    Rounds80(b);
    hide Rounds, Padding, IsBlock;
    assert b[..|b| - BLOCK] == [] && b[|b| - BLOCK..] == b;
    assert ProcessBlocks(INITIAL, []) == INITIAL;
    assert ProcessBlocks(INITIAL, b) == ProcessBlock(INITIAL, b);
  }
}
