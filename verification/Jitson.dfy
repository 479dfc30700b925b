/** Lookups in objects and arrays, which are indexed on first use. */
module Jitson {
  import opened Bytes
  import opened JsonValue
  import opened JsonOrder
  import opened JitsonTokens
  import opened JitsonIndex

  /** The names of an object hold no NUL, so that they can be measured. */
  ghost predicate NamesPlain(ms: seq<Member>) {
    forall k :: 0 <= k < |ms| ==> 0 !in ms[k].name
  }

  /** The bytes of a buffer up to its first NUL. */
  function CString(b: bytes): bytes {
    if b == [] || b[0] == 0 then [] else [b[0]] + CString(b[1..])
  }

  /** The name asked for: its length may be given, or 0 when it is not known. */
  function KeyOf(name: bytes, len: nat): bytes
    requires len <= |name|
  {
    if len == 0 then CString(name) else name[..len]
  }

  /** Where the value of a member is. */
  function ValueAt(i: nat, ms: seq<Member>, k: nat): nat
    requires k < |ms|
  {
    i + 1 + MembersTo(ms, k) + StringSize(|ms[k].name|)
  }

  /** The last member with a name was found, or there is none. */
  ghost predicate FoundLast(i: nat, ms: seq<Member>, key: bytes, found: Option<nat>) {
    var k := LastNamed(ms, key);
    if k < 0 then found == None else found == Some(ValueAt(i, ms, k))
  }

  /** The search in a bucket: at member `k`, with no member after it that has the name. */
  ghost predicate Searching(hash: bytes -> nat, ms: seq<Member>, key: bytes, k: int) {
    && -1 <= k < |ms|
    && (k >= 0 ==> Bucket(hash, ms, ms[k].name) == Bucket(hash, ms, key))
    && forall j :: k < j < |ms| ==> ms[j].name != key
  }

  lemma SearchStarts(hash: bytes -> nat, ms: seq<Member>, key: bytes)
    requires ms != []
    ensures Searching(hash, ms, key, LastIn(hash, ms, Bucket(hash, ms, key), |ms|))
  {
    hide Bucket, LastIn;
    LastInIs(hash, ms, Bucket(hash, ms, key), |ms|);
  }

  lemma SearchGoesOn(hash: bytes -> nat, ms: seq<Member>, key: bytes, k: nat)
    requires k < |ms| && Searching(hash, ms, key, k) && ms[k].name != key
    ensures var l := LastIn(hash, ms, Bucket(hash, ms, key), k);
      l < k && Searching(hash, ms, key, l) && LinkOf(hash, ms, k) == Offset(ms, l)
  {
    hide Bucket, LastIn;
    LastInIs(hash, ms, Bucket(hash, ms, key), k);
  }

  lemma SearchEnds(hash: bytes -> nat, i: nat, ms: seq<Member>, key: bytes, k: int)
    requires Searching(hash, ms, key, k)
    ensures k < 0 ==> FoundLast(i, ms, key, None)
    ensures k >= 0 && ms[k].name == key ==> FoundLast(i, ms, key, Some(ValueAt(i, ms, k)))
  {
    hide Bucket, ValueAt;
  }

  /** Member `k` of an indexed object, by its offset. */
  lemma MemberHere(hash: bytes -> nat, t: seq<Token>, i: nat, ms: seq<Member>, k: nat)
    requires IsAt(hash, t, i, Object(ms)) && k < |ms| && 0 !in ms[k].name
    ensures Offset(ms, k) > 0 && i + Offset(ms, k) < |t| && t[i + Offset(ms, k)].Head?
    ensures NameAt(t, i + Offset(ms, k), ms[k].name) && IsAt(hash, t, ValueAt(i, ms, k), ms[k].value)
    ensures SizeAt(t, i + Offset(ms, k)) == StringSize(|ms[k].name|) && StringLen(t, i + Offset(ms, k)) == |ms[k].name|
    ensures CharsOf(t, i + Offset(ms, k), |ms[k].name|) == ms[k].name
    ensures t[i].indexed ==> t[i + Offset(ms, k)].len == LinkOf(hash, ms, k)
  {
    hide ObjectIndex, LinkOf, MembersTo, StringSize, SizeAt, StringLen, CharsOf, CharsAt, Unlinked;
    assert MemberAt(hash, t, i + 1 + MembersTo(ms, k), ms[k]);
    NameIs(t, i + 1 + MembersTo(ms, k), ms[k].name);
  }

  class Jitson {
    var jitsons: seq<Token>
    const hash: bytes -> nat

    constructor (jitsons: seq<Token>, hash: bytes -> nat)
      ensures this.jitsons == jitsons && this.hash == hash
    {
      this.jitsons, this.hash := jitsons, hash;
    }

    // -------------------------------------------------------------- objects

    /** Replaces the size of an object by an index, and the lengths of its names by links. */
    method IndexObject(i: nat, ghost ms: seq<Member>)
      requires IsAt(hash, jitsons, i, Object(ms)) && !jitsons[i].indexed && ms != [] && NamesPlain(ms)
      modifies this
      ensures IsAt(hash, jitsons, i, Object(ms)) && jitsons[i].indexed
      ensures Within(old(jitsons), jitsons, i, i + SizeOf(Object(ms)))
    {
      hide IsAt, MembersAt, MembersTo, Linking, BucketsAt, Bucket, LinkOf, StringSize, SizeAt, CharsOf, Within;
      ghost var t := jitsons;
      HeadIs(hash, t, i, ms);
      LinkingStarts(hash, t, i, ms);
      BucketsStart(hash, ms);
      var len := jitsons[i].len;
      var index: seq<nat> := Zeros(len) + [jitsons[i].data.n];
      var member, k: nat := 1, 0;
      while k < len
        invariant k <= len == |ms| && member == 1 + MembersTo(ms, k)
        invariant Linking(hash, t, jitsons, i, ms, k) && BucketsAt(hash, index, ms, k)
      {
        LinkStep(hash, t, jitsons, i, ms, k);
        BucketStep(hash, index, ms, k);
        BucketIs(hash, ms, ms[k].name);
        LinkingMember(hash, t, jitsons, i, ms, k, k);
        var j := i + member;
        var name := CharsOf(jitsons, j, jitsons[j].len);
        var bucket := hash(name) % len;
        jitsons := Link(jitsons, j, index[bucket]);
        index := index[bucket := member];
        LinkingMember(hash, t, jitsons, i, ms, k + 1, k);
        member := member + SizeAt(jitsons, i + member);
        member := member + SizeAt(jitsons, i + member);
        k := k + 1;
      }
      LinkingEnds(hash, t, jitsons, i, ms, index);
      jitsons := Indexed(jitsons, i, index);
    }

    /** Follows the links of a bucket of an indexed object. */
    method FindMember(i: nat, key: bytes, ghost ms: seq<Member>) returns (found: Option<nat>)
      requires IsAt(hash, jitsons, i, Object(ms)) && jitsons[i].indexed && ms != [] && NamesPlain(ms)
      ensures FoundLast(i, ms, key, found)
    {
      hide IsAt, Bucket, LastIn, Searching, FoundLast, LinkOf, StringLen, CharsOf, SizeAt, StringSize, NameAt, ObjectIndex, ValueAt;
      HeadIs(hash, jitsons, i, ms);
      BucketIs(hash, ms, key);
      var b := hash(key) % jitsons[i].len;
      ghost var k: int := LastIn(hash, ms, b, |ms|);
      SearchStarts(hash, ms, key);
      IndexedBucket(hash, jitsons[i].data.index, ms, b);
      var m := jitsons[i].data.index[b];
      while m != 0
        invariant Searching(hash, ms, key, k) && -1 <= k < |ms| && m == Offset(ms, k)
        decreases k
      {
        OffsetIs(ms, k);
        MemberHere(hash, jitsons, i, ms, k);
        ValueHere(i, ms, k);
        var len := StringLen(jitsons, i + m);
        if len == |key| && CharsOf(jitsons, i + m, len) == key {
          SearchEnds(hash, i, ms, key, k);
          return Some(i + m + SizeAt(jitsons, i + m));
        }
        SearchGoesOn(hash, ms, key, k);
        m := jitsons[i + m].len;
        k := LastIn(hash, ms, Bucket(hash, ms, key), k);
      }
      OffsetIs(ms, k);
      SearchEnds(hash, i, ms, key, k);
      found := None;
    }

    /**
     * The token of the value of the last member with a name, or none; the object may be indexed on the way, but it
     * stays the same value of the same size.
     */
    method GetMember(i: nat, name: bytes, len: nat, ghost ms: seq<Member>) returns (found: Option<nat>)
      requires IsAt(hash, jitsons, i, Object(ms)) && NamesPlain(ms) && len <= |name|
      modifies this
      ensures IsAt(hash, jitsons, i, Object(ms)) && Within(old(jitsons), jitsons, i, i + SizeOf(Object(ms)))
      ensures FoundLast(i, ms, KeyOf(name, len), found)
      ensures found.Some? ==> IsAt(hash, jitsons, found.value, ms[LastNamed(ms, KeyOf(name, len))].value)
      ensures ms != [] ==> i < |jitsons| && jitsons[i].Head? && jitsons[i].indexed
    {
      hide IsAt, ObjectIndex, NamesPlain, MembersTo, SizeOf, ValueAt;
      HeadIs(hash, jitsons, i, ms);
      IsAtFits(hash, jitsons, i, Object(ms));
      var key := if len == 0 then CString(name) else name[..len];
      if jitsons[i].len == 0 {
        return None;
      }
      if !jitsons[i].indexed {
        IndexObject(i, ms);
      }
      HeadIs(hash, jitsons, i, ms);
      found := FindMember(i, key, ms);
      if found.Some? {
        ValueIsThere(hash, jitsons, i, ms, LastNamed(ms, key));
      }
    }

    // -------------------------------------------------------------- arrays

    /** Replaces the size of an array by an index. */
    method IndexArray(i: nat, ghost es: seq<Value>)
      requires IsAt(hash, jitsons, i, Array(es)) && !jitsons[i].indexed
      modifies this
      ensures IsAt(hash, jitsons, i, Array(es)) && jitsons[i].indexed
      ensures Within(old(jitsons), jitsons, i, i + SizeOf(Array(es)))
    {
      hide IsAt, SizeTo, SizeAt, Within;
      ghost var t := jitsons;
      ArrayHeadIs(hash, t, i, es);
      var len := jitsons[i].len;
      var index: seq<nat> := Zeros(len) + [jitsons[i].data.n];
      var element, k: nat := 1, 0;
      while k < len
        invariant k <= len == |es| && element == 1 + SizeTo(es, k) && jitsons == t
        invariant |index| == len + 1 && index[len] == 1 + SizeTo(es, |es|)
        invariant forall l :: 0 <= l < k ==> index[l] == 1 + SizeTo(es, l)
      {
        index := index[k := element];
        ElementHere(hash, t, i, es, k);
        element := element + SizeAt(jitsons, i + element);
        k := k + 1;
      }
      ArrayIndexed(hash, t, i, es, index);
      jitsons := Indexed(jitsons, i, index);
    }

    /** The token of an element of an array, or none; the array may be indexed on the way. */
    method GetElement(i: nat, idx: nat, ghost es: seq<Value>) returns (found: Option<nat>)
      requires IsAt(hash, jitsons, i, Array(es))
      modifies this
      ensures IsAt(hash, jitsons, i, Array(es)) && Within(old(jitsons), jitsons, i, i + SizeOf(Array(es)))
      ensures found == if idx < |es| then Some(i + 1 + SizeTo(es, idx)) else None
      ensures found.Some? ==> IsAt(hash, jitsons, found.value, es[idx])
    {
      hide IsAt, SizeTo, SizeAt, SizeOf;
      ArrayHeadIs(hash, jitsons, i, es);
      IsAtFits(hash, jitsons, i, Array(es));
      if idx >= jitsons[i].len {
        return None;
      }
      if !jitsons[i].indexed {
        IndexArray(i, es);
      }
      ArrayHeadIs(hash, jitsons, i, es);
      ElementHere(hash, jitsons, i, es, idx);
      found := Some(i + jitsons[i].data.index[idx]);
    }
  }

  lemma HeadIs(hash: bytes -> nat, t: seq<Token>, i: nat, ms: seq<Member>)
    requires IsAt(hash, t, i, Object(ms))
    ensures i < |t| && t[i].Head? && t[i].len == |ms|
    ensures !t[i].indexed ==> t[i].data == Integer(1 + MembersTo(ms, |ms|))
    ensures t[i].indexed ==> t[i].data.Index? && ObjectIndex(hash, t[i].data.index, ms)
  {
    hide MembersAt, Linked, Unlinked, ObjectIndex, MembersTo;
  }

  lemma BucketsStart(hash: bytes -> nat, ms: seq<Member>)
    ensures MembersTo(ms, 0) == 0 && BucketsAt(hash, Zeros(|ms|) + [1 + MembersTo(ms, |ms|)], ms, 0)
  {
    assert MembersTo(ms, 0) == 0;
    hide MembersTo;
  }

  lemma BucketIs(hash: bytes -> nat, ms: seq<Member>, name: bytes)
    requires ms != []
    ensures Bucket(hash, ms, name) == hash(name) % |ms|
  {
  }

  /** The name and the value of member `k`, while the members are being linked. */
  ghost predicate NameAndValue(u: seq<Token>, j: nat, m: Member, size: nat) {
    && j < |u|
    && u[j].Head?
    && SizeAt(u, j) == StringSize(|m.name|)
    && CharsOf(u, j, |m.name|) == m.name
    && j + StringSize(|m.name|) < |u|
    && u[j + StringSize(|m.name|)].Head?
    && SizeAt(u, j + StringSize(|m.name|)) == SizeOf(m.value)
    && size == StringSize(|m.name|) + SizeOf(m.value)
  }

  lemma LinkingMember(hash: bytes -> nat, t: seq<Token>, u: seq<Token>, i: nat, ms: seq<Member>, n: nat, k: nat)
    requires k < |ms| && n <= |ms| && 0 !in ms[k].name && Linking(hash, t, u, i, ms, n)
    ensures NameAndValue(u, i + 1 + MembersTo(ms, k), ms[k], MembersTo(ms, k + 1) - MembersTo(ms, k))
    ensures k >= n ==> LenAt(u, i + 1 + MembersTo(ms, k)) == |ms[k].name|
  {
    hide Linking, MemberAt, StringSize, SizeOf, MembersTo, NameAndValue;
    MembersToNext(ms, k);
    LinkingHas(hash, t, u, i, ms, n, k);
    MemberSizes(hash, u, i + 1 + MembersTo(ms, k), ms[k]);
  }

  lemma MembersToNext(ms: seq<Member>, k: nat)
    requires k < |ms|
    ensures MembersTo(ms, k + 1) == MembersTo(ms, k) + StringSize(|ms[k].name|) + SizeOf(ms[k].value)
  {
    hide StringSize, SizeOf;
  }

  lemma MemberSizes(hash: bytes -> nat, u: seq<Token>, j: nat, m: Member)
    requires MemberAt(hash, u, j, m) && 0 !in m.name
    ensures NameAndValue(u, j, m, StringSize(|m.name|) + SizeOf(m.value))
  {
    hide StringSize, SizeAt, CharsOf, CharsAt;
    NameIs(u, j, m.name);
    SizeAtIs(hash, u, j + StringSize(|m.name|), m.value);
  }

  lemma IndexedBucket(hash: bytes -> nat, index: seq<nat>, ms: seq<Member>, b: nat)
    requires ObjectIndex(hash, index, ms) && b < |ms|
    ensures b < |index| && index[b] == Offset(ms, LastIn(hash, ms, b, |ms|))
  {
    hide LastIn, Offset;
  }

  lemma OffsetIs(ms: seq<Member>, k: int)
    requires -1 <= k < |ms|
    ensures Offset(ms, k) == 0 <==> k < 0
  {
    hide MembersTo;
  }

  lemma ValueHere(i: nat, ms: seq<Member>, k: nat)
    requires k < |ms|
    ensures ValueAt(i, ms, k) == i + Offset(ms, k) + StringSize(|ms[k].name|)
  {
    hide MembersTo, StringSize;
  }

  lemma ValueIsThere(hash: bytes -> nat, t: seq<Token>, i: nat, ms: seq<Member>, k: nat)
    requires IsAt(hash, t, i, Object(ms)) && NamesPlain(ms) && k < |ms|
    ensures IsAt(hash, t, ValueAt(i, ms, k), ms[k].value)
  {
    hide IsAt, ValueAt, CharsOf, SizeAt;
    MemberHere(hash, t, i, ms, k);
  }

  lemma IsAtFits(hash: bytes -> nat, t: seq<Token>, i: nat, v: Value)
    requires IsAt(hash, t, i, v)
    ensures i + SizeOf(v) <= |t| && Within(t, t, i, i + SizeOf(v))
  {
    hide ElementsAt, MembersAt, CharsAt, ArrayHead, ObjectHead, SizeOf;
  }

  lemma ArrayHeadIs(hash: bytes -> nat, t: seq<Token>, i: nat, es: seq<Value>)
    requires IsAt(hash, t, i, Array(es))
    ensures i < |t| && t[i].Head? && t[i].len == |es|
    ensures !t[i].indexed ==> t[i].data == Integer(1 + SizeTo(es, |es|))
    ensures t[i].indexed ==> t[i].data.Index? && ArrayIndex(t[i].data.index, es)
    ensures SizeTo(es, 0) == 0
  {
    assert SizeTo(es, 0) == 0;
    hide ElementsAt, ArrayIndex, SizeTo;
  }

  lemma ElementHere(hash: bytes -> nat, t: seq<Token>, i: nat, es: seq<Value>, k: nat)
    requires IsAt(hash, t, i, Array(es)) && k < |es|
    ensures IsAt(hash, t, i + 1 + SizeTo(es, k), es[k]) && SizeTo(es, k + 1) == SizeTo(es, k) + SizeOf(es[k])
    ensures i + 1 + SizeTo(es, k) < |t| && t[i + 1 + SizeTo(es, k)].Head? && SizeAt(t, i + 1 + SizeTo(es, k)) == SizeOf(es[k])
  {
    hide IsAt, SizeTo, SizeOf, SizeAt;
    SizeToNext(es, k);
    ElementIs(hash, t, i, es, k);
    var j := i + 1 + SizeTo(es, k);
    SizeAtIs(hash, t, j, es[k]);
    IsAtHead(hash, t, j, es[k]);
  }

  lemma SizeToNext(es: seq<Value>, k: nat)
    requires k < |es|
    ensures SizeTo(es, k + 1) == SizeTo(es, k) + SizeOf(es[k])
  {
    hide SizeOf;
  }

  lemma ElementIs(hash: bytes -> nat, t: seq<Token>, i: nat, es: seq<Value>, k: nat)
    requires IsAt(hash, t, i, Array(es)) && k < |es|
    ensures IsAt(hash, t, i + 1 + SizeTo(es, k), es[k])
  {
    hide ArrayHead, SizeTo, SizeOf, CharsAt;
  }

  lemma IsAtHead(hash: bytes -> nat, t: seq<Token>, i: nat, v: Value)
    requires IsAt(hash, t, i, v)
    ensures i < |t| && t[i].Head?
  {
    hide ElementsAt, MembersAt, CharsAt, ArrayHead, ObjectHead;
  }

  lemma ArrayIndexed(hash: bytes -> nat, t: seq<Token>, i: nat, es: seq<Value>, index: seq<nat>)
    requires IsAt(hash, t, i, Array(es)) && ArrayIndex(index, es)
    ensures i < |t| && t[i].Head? && IsAt(hash, Indexed(t, i, index), i, Array(es))
    ensures Within(t, Indexed(t, i, index), i, i + SizeOf(Array(es)))
  {
    hide ElementsAt, SizeTo;
    ElementsSame(hash, t, Indexed(t, i, index), i + 1, es);
  }
}
