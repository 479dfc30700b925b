/** The kvdata memory of sxe-cdb: records appended one after the other, values updated in place. */
module CdbStore {
  import opened Bytes
  import opened CdbHkv
  import opened CdbCounts

  const LINK_BYTES: nat := 12

  function DecodeLink(b: bytes): Link
    requires |b| == LINK_BYTES
  {
    Link(Nat4(b, 0), Nat4(b, 4), Nat4(b, 8))
  }

  /** The address of the value of the record at `p`. */
  function ValPos(p: nat, r: Rec): nat {
    p + HeaderLen(|r.key|, |r.val|) + |r.key|
  }

  /** Every record lies in the used part of the memory, and no two records overlap. */
  ghost predicate StoreOk(kv: bytes, used: nat, recs: map<nat, Rec>) {
    && 1 <= used <= |kv|
    && (forall p :: p in recs ==> 1 <= p && RecAt(kv, p, recs[p]) && p + Size(recs[p]) <= used)
    && (forall p, q :: p in recs && q in recs && p < q ==> p + Size(recs[p]) <= q)
  }

  /** The counters are the records whose value is a link. */
  ghost predicate LinksOk(recs: map<nat, Rec>, links: map<nat, Link>) {
    forall p :: p in links ==>
      p in recs && |recs[p].val| == LINK_BYTES && DecodeLink(recs[p].val) == links[p]
  }

  lemma AppendOk(kv: bytes, used: nat, recs: map<nat, Rec>, r: Rec)
    requires StoreOk(kv, used, recs) && Packable(r) && used + Size(r) <= |kv|
    ensures used !in recs
    ensures StoreOk(Store(kv, used, r), used + Size(r), recs[used := r])
  {
    var kv' := Store(kv, used, r);
    StoreIsRecAt(kv, used, r);
    SizePositive(r);
    hide Size, RecAt, Store;
    forall p | p in recs
      ensures p != used && RecAt(kv', p, recs[p])
    {
      SizePositive(recs[p]);
      RecAtFrame(kv, kv', p, recs[p]);
    }
  }

  lemma SizePositive(r: Rec)
    requires Packable(r)
    ensures Size(r) > 0
  {
  }

  lemma PackableAt(kv: bytes, p: nat, r: Rec)
    requires RecAt(kv, p, r)
    ensures Packable(r) && p + Size(r) <= |kv|
  {
  }

  lemma ExtendOk(kv: bytes, used: nat, recs: map<nat, Rec>, n: nat)
    requires StoreOk(kv, used, recs)
    ensures StoreOk(kv + Zeros(n), used, recs)
  {
    hide RecAt, Size;
    forall p | p in recs
      ensures RecAt(kv + Zeros(n), p, recs[p])
    {
      RecAtFrame(kv, kv + Zeros(n), p, recs[p]);
    }
  }

  function WithVal(r: Rec, off: nat, b: bytes): Rec
    requires off + |b| <= |r.val|
  {
    r.(val := Write(r.val, off, b))
  }

  lemma WriteSlice(m: bytes, v: nat, s: bytes, off: nat, b: bytes)
    requires v + |s| <= |m| && m[v..v + |s|] == s && off + |b| <= |s|
    ensures Write(m, v + off, b)[v..v + |s|] == Write(s, off, b)
  {
    var m', s' := Write(m, v + off, b), Write(s, off, b);
    forall i | 0 <= i < |s|
      ensures m'[v + i] == s'[i]
    {
      assert m[v..v + |s|][i] == m[v + i];
      if off <= i < off + |b| {
        assert m'[v + off..v + off + |b|][i - off] == b[i - off];
        assert s'[off..off + |b|][i - off] == b[i - off];
      }
    }
  }

  lemma HoldsInside(m: bytes, pos: nat, a: bytes, b: bytes, c: bytes)
    requires Holds(m, pos, a, b, c)
    ensures pos + |a| + |b| + |c| <= |m|
  {
  }

  lemma SliceBefore(m: bytes, i: nat, b: bytes, from: nat, to: nat)
    requires from <= to <= i && i + |b| <= |m|
    ensures Write(m, i, b)[from..to] == m[from..to]
  {
  }

  lemma HoldsWrite(m: bytes, pos: nat, a: bytes, b: bytes, c: bytes, off: nat, w: bytes)
    requires Holds(m, pos, a, b, c) && off + |w| <= |c|
    ensures Holds(Write(m, pos + |a| + |b| + off, w), pos, a, b, Write(c, off, w))
  {
    hide Write;
    var k, v := pos + |a|, pos + |a| + |b|;
    WriteSlice(m, v, c, off, w);
    SliceBefore(m, v + off, w, pos, k);
    SliceBefore(m, v + off, w, k, v);
  }

  lemma RecOf(m: bytes, pos: nat, r: Rec, val: bytes)
    requires Packable(r) && |val| == |r.val|
    requires Holds(m, pos, Header(HeaderLen(|r.key|, |r.val|), |r.key|, |r.val|), r.key, val)
    ensures RecAt(m, pos, Rec(r.key, val))
  {
    hide Header, HeaderLen, Holds;
  }

  lemma WriteValRec(kv: bytes, p: nat, r: Rec, off: nat, b: bytes)
    requires RecAt(kv, p, r) && off + |b| <= |r.val|
    ensures ValPos(p, r) + off + |b| <= |kv|
    ensures RecAt(Write(kv, ValPos(p, r) + off, b), p, WithVal(r, off, b))
    ensures Size(WithVal(r, off, b)) == Size(r)
  {
    var h := Header(HeaderLen(|r.key|, |r.val|), |r.key|, |r.val|);
    hide Header, HeaderLen, Write, Holds;
    HoldsInside(kv, p, h, r.key, r.val);
    var i := p + |h| + |r.key| + off;
    assert i == ValPos(p, r) + off;
    HoldsWrite(kv, p, h, r.key, r.val, off, b);
    hide RecAt;
    RecOf(Write(kv, i, b), p, r, Write(r.val, off, b));
  }

  lemma ValInside(kv: bytes, p: nat, r: Rec)
    requires RecAt(kv, p, r)
    ensures p < ValPos(p, r) && ValPos(p, r) + |r.val| == p + Size(r) <= |kv|
    ensures kv[ValPos(p, r)..ValPos(p, r) + |r.val|] == r.val
  {
  }

  lemma OtherRecKept(kv: bytes, i: nat, b: bytes, q: nat, r: Rec)
    requires i + |b| <= |kv| && RecAt(kv, q, r)
    requires q + Size(r) <= i || i + |b| <= q
    ensures RecAt(Write(kv, i, b), q, r)
  {
    PackableAt(kv, q, r);
    var kv' := Write(kv, i, b);
    hide RecAt, Size, Write;
    RecAtFrame(kv, kv', q, r);
  }

  /** Overwriting part of one value in place changes that record and no other. */
  lemma WriteValOk(kv: bytes, used: nat, recs: map<nat, Rec>, p: nat, off: nat, b: bytes)
    requires StoreOk(kv, used, recs) && p in recs && off + |b| <= |recs[p].val|
    ensures ValPos(p, recs[p]) + off + |b| <= |kv|
    ensures StoreOk(Write(kv, ValPos(p, recs[p]) + off, b), used, recs[p := WithVal(recs[p], off, b)])
  {
    hide RecAt, Size, ValPos, Write, WithVal;
    ValInside(kv, p, recs[p]);
    WriteValRec(kv, p, recs[p], off, b);
    var v := ValPos(p, recs[p]);
    forall q | q in recs && q != p
      ensures RecAt(Write(kv, v + off, b), q, recs[q])
    {
      OtherRecKept(kv, v + off, b, q, recs[q]);
    }
  }

  /** One 32-bit field of a link: 0 is the node, 4 the next key, 8 the last key. */
  function SetField(k: Link, off: nat, x: nat): Link
    requires off in {0, 4, 8}
  {
    if off == 0 then k.(node := x) else if off == 4 then k.(next := x) else k.(last := x)
  }

  lemma WriteField(b: bytes, off: nat, x: nat)
    requires |b| == LINK_BYTES && off in {0, 4, 8} && x < 0x1_0000_0000
    ensures DecodeLink(Write(b, off, Le4(x))) == SetField(DecodeLink(b), off, x)
  {
    var w, r := Le4(x), Write(b, off, Le4(x));
    hide Le4, Write;
    var u := r[off..off + 4];
    assert r[off] == u[0] && r[off + 1] == u[1] && r[off + 2] == u[2] && r[off + 3] == u[3];
  }

  lemma SliceNat4(m: bytes, v: nat, s: bytes, off: nat)
    requires v + |s| <= |m| && m[v..v + |s|] == s && off + 4 <= |s|
    ensures Nat4(m, v + off) == Nat4(s, off)
  {
    assert m[v + off] == s[off] && m[v + off + 1] == s[off + 1];
    assert m[v + off + 2] == s[off + 2] && m[v + off + 3] == s[off + 3];
  }

  /** Reading a link in place. */
  lemma RecStored(kv: bytes, used: nat, recs: map<nat, Rec>, p: nat)
    requires StoreOk(kv, used, recs) && p in recs
    ensures RecAt(kv, p, recs[p]) && p + Size(recs[p]) <= used <= |kv|
  {
    hide RecAt, Size;
  }

  lemma ReadLinkAt(kv: bytes, used: nat, recs: map<nat, Rec>, p: nat, off: nat)
    requires StoreOk(kv, used, recs) && p in recs && |recs[p].val| == LINK_BYTES && off in {0, 4, 8}
    ensures ValPos(p, recs[p]) + LINK_BYTES <= used
    ensures Nat4(kv, ValPos(p, recs[p]) + off) == Nat4(recs[p].val, off)
  {
    hide Nat4, RecAt, ValPos, Size;
    RecStored(kv, used, recs, p);
    hide StoreOk;
    ValInside(kv, p, recs[p]);
    SliceNat4(kv, ValPos(p, recs[p]), recs[p].val, off);
  }

  /** The link stored in the value of the record at `p`, found by unpacking the record's header. */
  function LinkAtPos(kv: bytes, p: nat): Link
    requires p < |kv| && p + StoredHeaderLen(kv[p]) <= |kv|
    requires p + Unpack(kv, p).headerLen + Unpack(kv, p).keyLen + LINK_BYTES <= |kv|
  {
    var u := Unpack(kv, p);
    var v := p + u.headerLen + u.keyLen;
    Link(Nat4(kv, v), Nat4(kv, v + 4), Nat4(kv, v + 8))
  }

  /** Unpacking a record in place finds the lengths of its parts and the address of its value. */
  lemma RecAtPos(kv: bytes, used: nat, recs: map<nat, Rec>, p: nat)
    requires StoreOk(kv, used, recs) && p in recs
    ensures p < |kv| && p + StoredHeaderLen(kv[p]) <= |kv|
    ensures var u := Unpack(kv, p);
      p + u.headerLen + u.keyLen == ValPos(p, recs[p]) && u.valLen == |recs[p].val|
  {
    assert RecAt(kv, p, recs[p]);
    hide StoreOk, RecAt, HeaderLen, Unpack;
    UnpackStored(kv, p, recs[p]);
  }

  lemma ValueAddress(kv: bytes, used: nat, recs: map<nat, Rec>, p: nat)
    requires StoreOk(kv, used, recs) && p in recs
    ensures p < |kv| && p + StoredHeaderLen(kv[p]) <= |kv|
    ensures p + Unpack(kv, p).headerLen + Unpack(kv, p).keyLen == ValPos(p, recs[p])
  {
    assert RecAt(kv, p, recs[p]);
    hide StoreOk, RecAt, HeaderLen, Unpack;
    UnpackStored(kv, p, recs[p]);
  }

  lemma ReadLinkFields(kv: bytes, used: nat, recs: map<nat, Rec>, p: nat)
    requires StoreOk(kv, used, recs) && p in recs && |recs[p].val| == LINK_BYTES
    ensures var v := ValPos(p, recs[p]);
      v + LINK_BYTES <= |kv| && Link(Nat4(kv, v), Nat4(kv, v + 4), Nat4(kv, v + 8)) == DecodeLink(recs[p].val)
  {
    hide StoreOk, Nat4, ValPos;
    ReadLinkAt(kv, used, recs, p, 0);
    ReadLinkAt(kv, used, recs, p, 4);
    ReadLinkAt(kv, used, recs, p, 8);
    UsedInMemory(kv, used, recs);
  }

  lemma ReadLink(kv: bytes, used: nat, recs: map<nat, Rec>, p: nat)
    requires StoreOk(kv, used, recs) && p in recs && |recs[p].val| == LINK_BYTES
    ensures p < |kv| && p + StoredHeaderLen(kv[p]) <= |kv|
    ensures p + Unpack(kv, p).headerLen + Unpack(kv, p).keyLen + LINK_BYTES <= |kv|
    ensures LinkAtPos(kv, p) == DecodeLink(recs[p].val)
  {
    hide StoreOk, Unpack, Nat4, ValPos, DecodeLink;
    ReadLinkFields(kv, used, recs, p);
    ValueAddress(kv, used, recs, p);
  }

  lemma UsedInMemory(kv: bytes, used: nat, recs: map<nat, Rec>)
    requires StoreOk(kv, used, recs)
    ensures 1 <= used <= |kv|
  {
  }

  lemma WriteLinkField(recs: map<nat, Rec>, links: map<nat, Link>, p: nat, off: nat, x: nat)
    requires LinksOk(recs, links) && p in recs && |recs[p].val| == LINK_BYTES && off in {0, 4, 8} && x < 0x1_0000_0000
    ensures var recs' := recs[p := WithVal(recs[p], off, Le4(x))];
      && LinksOk(recs', if p in links then links[p := SetField(links[p], off, x)] else links)
      && recs'[p].key == recs[p].key && |recs'[p].val| == LINK_BYTES
      && DecodeLink(recs'[p].val) == SetField(DecodeLink(recs[p].val), off, x)
  {
    WriteField(recs[p].val, off, x);
    hide DecodeLink, Write, Le4, SetField;
  }
}
