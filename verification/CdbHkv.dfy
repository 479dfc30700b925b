/** The packed record of sxe-cdb: a header of 1, 3, 5 or 8 bytes, then the key, then the value. */
module CdbHkv {
  import opened Bytes

  datatype Rec = Rec(key: bytes, val: bytes)
  datatype Part = Part(headerLen: nat, keyLen: nat, valLen: nat)

  const KEY_MAX: nat := 0xff_ffff
  const VAL_MAX: nat := 0xffff_ffff

  /** A record that some header can describe. */
  predicate Packable(r: Rec) {
    1 <= |r.key| <= KEY_MAX && |r.val| <= VAL_MAX
  }

  /** The header length that put chooses for these lengths; 0 means the key cannot be stored. */
  function HeaderLen(keyLen: nat, valLen: nat): nat {
    if keyLen == 0 then 0
    else if keyLen <= 0x7 && valLen <= 0xf then 1
    else if keyLen <= 0x7f && valLen <= 0xffff then 3
    else if keyLen <= 0xffff && valLen <= 0xffff then 5
    else if keyLen <= KEY_MAX && valLen <= VAL_MAX then 8
    else 0
  }

  /** The header bytes: bit 0 of the first byte is `flag`, and bit fields fill from the low bits up. */
  function Header(headerLen: nat, keyLen: nat, valLen: nat): (h: bytes)
    requires keyLen > 0 && headerLen == HeaderLen(keyLen, valLen) != 0
    ensures |h| == headerLen
  {
    if headerLen == 1 then [2 * keyLen + 16 * valLen]
    else if headerLen == 3 then [1 + 2 * keyLen] + Le2(valLen)
    else if headerLen == 5 then [0] + Le2(keyLen) + Le2(valLen)
    else [16] + Le3(keyLen) + Le4(valLen)
  }

  function Size(r: Rec): nat {
    HeaderLen(|r.key|, |r.val|) + |r.key| + |r.val|
  }

  /** The header form, which the first byte alone decides. */
  function StoredHeaderLen(b: byte): nat {
    if b % 2 == 0 && b / 2 % 8 == 0 && b / 16 == 1 then 8
    else if b % 2 == 0 && b / 2 % 8 == 0 && b / 16 == 0 then 5
    else if b % 2 == 0 && b / 2 % 8 != 0 then 1
    else 3
  }

  function Unpack(m: bytes, pos: nat): Part
    requires pos < |m| && pos + StoredHeaderLen(m[pos]) <= |m|
  {
    var h := StoredHeaderLen(m[pos]);
    if h == 8 then Part(8, Nat3(m, pos + 1), Nat4(m, pos + 4))
    else if h == 5 then Part(5, Nat2(m, pos + 1), Nat2(m, pos + 3))
    else if h == 1 then Part(1, m[pos] / 2 % 8, m[pos] / 16)
    else Part(3, m[pos] / 2, Nat2(m, pos + 1))
  }

  /** Memory `m` holds `a`, `b` and `c` one after the other from `pos` on. */
  ghost predicate Holds(m: bytes, pos: nat, a: bytes, b: bytes, c: bytes) {
    var k, v := pos + |a|, pos + |a| + |b|;
    v + |c| <= |m| && m[pos..k] == a && m[k..v] == b && m[v..v + |c|] == c
  }

  /** Memory `m` holds the record `r` at `pos`: its header, its key and its value. */
  ghost predicate RecAt(m: bytes, pos: nat, r: Rec) {
    Packable(r) && Holds(m, pos, Header(HeaderLen(|r.key|, |r.val|), |r.key|, |r.val|), r.key, r.val)
  }

  /** Writing a record: the header fields, then the key, then the value. */
  function Store(m: bytes, pos: nat, r: Rec): bytes
    requires Packable(r) && pos + Size(r) <= |m|
  {
    var h := HeaderLen(|r.key|, |r.val|);
    Write(Write(Write(m, pos, Header(h, |r.key|, |r.val|)), pos + h, r.key), pos + h + |r.key|, r.val)
  }

  lemma ShortHeaderFields(keyLen: nat, valLen: nat)
    requires 1 <= keyLen <= 7 && valLen <= 15
    ensures var b := 2 * keyLen + 16 * valLen;
      b < 256 && b % 2 == 0 && b / 2 % 8 == keyLen && b / 16 == valLen
  {
    assert (2 * keyLen + 16 * valLen) / 2 == keyLen + 8 * valLen;
  }

  /** No header form is mistaken for another. */
  lemma HeaderFormIsRecovered(keyLen: nat, valLen: nat)
    requires 1 <= keyLen <= KEY_MAX && valLen <= VAL_MAX
    ensures var h := HeaderLen(keyLen, valLen);
      h in {1, 3, 5, 8} && StoredHeaderLen(Header(h, keyLen, valLen)[0]) == h
  {
    var h := HeaderLen(keyLen, valLen);
    var b := Header(h, keyLen, valLen)[0];
    if h == 1 {
      ShortHeaderFields(keyLen, valLen);
    } else if h == 3 {
      assert b == 1 + 2 * keyLen;
      assert b % 2 == 1;
    } else if h == 5 {
      assert b == 0;
    } else {
      assert b == 16;
    }
  }

  /** The header chosen is the shortest: no fewer bytes are unpacked to these lengths. */
  lemma HeaderIsShortest(h: bytes, keyLen: nat, valLen: nat)
    requires 1 <= keyLen && h != [] && |h| == StoredHeaderLen(h[0]) && Unpack(h, 0) == Part(|h|, keyLen, valLen)
    ensures 0 < HeaderLen(keyLen, valLen) <= |h|
  {
    assert h[0] / 2 % 8 <= 7 && h[0] / 16 <= 15 && h[0] / 2 <= 127;
  }

  lemma UnpackHeader8(m: bytes, pos: nat, keyLen: nat, valLen: nat)
    requires keyLen < 0x100_0000 && valLen < 0x1_0000_0000
    requires pos + 8 <= |m| && m[pos..pos + 8] == [16] + Le3(keyLen) + Le4(valLen)
    ensures m[pos] == 16 && Nat3(m, pos + 1) == keyLen && Nat4(m, pos + 4) == valLen
  {
    var k, v, s := Le3(keyLen), Le4(valLen), m[pos..pos + 8];
    assert m[pos] == s[0];
    assert m[pos + 1] == s[1] == k[0] && m[pos + 2] == s[2] == k[1] && m[pos + 3] == s[3] == k[2];
    assert m[pos + 4] == s[4] == v[0] && m[pos + 5] == s[5] == v[1];
    assert m[pos + 6] == s[6] == v[2] && m[pos + 7] == s[7] == v[3];
    hide Le3, Le4;
  }

  lemma UnpackHeader5(m: bytes, pos: nat, keyLen: nat, valLen: nat)
    requires keyLen < 0x1_0000 && valLen < 0x1_0000
    requires pos + 5 <= |m| && m[pos..pos + 5] == [0] + Le2(keyLen) + Le2(valLen)
    ensures m[pos] == 0 && Nat2(m, pos + 1) == keyLen && Nat2(m, pos + 3) == valLen
  {
    hide Le2;
    var k, v, s := Le2(keyLen), Le2(valLen), m[pos..pos + 5];
    assert m[pos] == s[0];
    assert m[pos + 1] == s[1] == k[0] && m[pos + 2] == s[2] == k[1];
    assert m[pos + 3] == s[3] == v[0] && m[pos + 4] == s[4] == v[1];
  }

  lemma UnpackHeader3(m: bytes, pos: nat, keyLen: nat, valLen: nat)
    requires keyLen <= 0x7f && valLen < 0x1_0000
    requires pos + 3 <= |m| && m[pos..pos + 3] == [1 + 2 * keyLen] + Le2(valLen)
    ensures m[pos] == 1 + 2 * keyLen && Nat2(m, pos + 1) == valLen
  {
    hide Le2;
    var v, s := Le2(valLen), m[pos..pos + 3];
    assert m[pos] == s[0] && m[pos + 1] == s[1] == v[0] && m[pos + 2] == s[2] == v[1];
  }

  /** Unpacking the header in place gives back both lengths, in whatever memory the record lies. */
  lemma UnpackHeader(m: bytes, pos: nat, keyLen: nat, valLen: nat)
    requires 1 <= keyLen <= KEY_MAX && valLen <= VAL_MAX
    requires var h := HeaderLen(keyLen, valLen);
      pos + h <= |m| && m[pos..pos + h] == Header(h, keyLen, valLen)
    ensures pos < |m| && pos + StoredHeaderLen(m[pos]) <= |m|
    ensures Unpack(m, pos) == Part(HeaderLen(keyLen, valLen), keyLen, valLen)
  {
    HeaderFormIsRecovered(keyLen, valLen);
    var h := HeaderLen(keyLen, valLen);
    assert m[pos] == m[pos..pos + h][0] == Header(h, keyLen, valLen)[0];
    hide Le2, Le3, Le4, Nat2, Nat3, Nat4, StoredHeaderLen;
    if h == 8 {
      UnpackHeader8(m, pos, keyLen, valLen);
    } else if h == 5 {
      UnpackHeader5(m, pos, keyLen, valLen);
    } else if h == 3 {
      UnpackHeader3(m, pos, keyLen, valLen);
    } else {
      ShortHeaderFields(keyLen, valLen);
    }
  }

  /** Unpacking what was stored gives back the lengths and bytes of the key and the value exactly. */
  lemma UnpackStored(m: bytes, pos: nat, r: Rec)
    requires RecAt(m, pos, r)
    ensures pos < |m| && pos + StoredHeaderLen(m[pos]) <= |m|
    ensures var p := Unpack(m, pos);
      var k := pos + p.headerLen;
      && p == Part(HeaderLen(|r.key|, |r.val|), |r.key|, |r.val|)
      && k + p.keyLen + p.valLen == pos + Size(r) <= |m|
      && m[k..k + p.keyLen] == r.key
      && m[k + p.keyLen..k + p.keyLen + p.valLen] == r.val
  {
    UnpackHeader(m, pos, |r.key|, |r.val|);
  }

  lemma StoreThreeParts(m: bytes, pos: nat, a: bytes, b: bytes, c: bytes)
    requires pos + |a| + |b| + |c| <= |m|
    ensures var m' := Write(Write(Write(m, pos, a), pos + |a|, b), pos + |a| + |b|, c);
      && |m'| == |m| && Holds(m', pos, a, b, c)
      && forall i :: 0 <= i < pos || pos + |a| + |b| + |c| <= i < |m| ==> m'[i] == m[i]
  {
    var k, v := pos + |a|, pos + |a| + |b|;
    var m1 := Write(m, pos, a);
    var m2 := Write(m1, k, b);
    var m3 := Write(m2, v, c);
    hide Write;
    assert m3[k..v] == m2[k..v];
    assert m2[pos..k] == m1[pos..k];
    assert m3[pos..k] == m2[pos..k];
  }

  /** Storing puts the record at `pos` and touches no byte outside it. */
  lemma StoreIsRecAt(m: bytes, pos: nat, r: Rec)
    requires Packable(r) && pos + Size(r) <= |m|
    ensures RecAt(Store(m, pos, r), pos, r) && |Store(m, pos, r)| == |m|
    ensures forall i :: 0 <= i < pos || pos + Size(r) <= i < |m| ==> Store(m, pos, r)[i] == m[i]
  {
    var hd := Header(HeaderLen(|r.key|, |r.val|), |r.key|, |r.val|);
    hide Header, HeaderLen, Write, Holds;
    StoreThreeParts(m, pos, hd, r.key, r.val);
  }

  lemma HoldsFrame(m: bytes, m': bytes, pos: nat, a: bytes, b: bytes, c: bytes)
    requires Holds(m, pos, a, b, c) && pos + |a| + |b| + |c| <= |m'|
    requires forall i :: pos <= i < pos + |a| + |b| + |c| ==> m'[i] == m[i]
    ensures Holds(m', pos, a, b, c)
  {
    var k, v := pos + |a|, pos + |a| + |b|;
    assert m'[pos..k] == m[pos..k];
    assert m'[k..v] == m[k..v];
    assert m'[v..v + |c|] == m[v..v + |c|];
  }

  /** A record survives any change outside its own bytes. */
  lemma RecAtFrame(m: bytes, m': bytes, pos: nat, r: Rec)
    requires RecAt(m, pos, r) && pos + Size(r) <= |m'|
    requires forall i :: pos <= i < pos + Size(r) && i < |m| ==> m'[i] == m[i]
    ensures RecAt(m', pos, r)
  {
    assert pos + Size(r) <= |m|;
    hide Header, HeaderLen, Holds;
    HoldsFrame(m, m', pos, Header(HeaderLen(|r.key|, |r.val|), |r.key|, |r.val|), r.key, r.val);
  }
}
