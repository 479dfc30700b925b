/**
 * How a JSON value lies in jitson tokens of 16 bytes: which tokens it takes, where the parts of a collection are, and
 * what an index adds to a collection that has one.
 */
module JitsonTokens {
  import opened Bytes
  import opened JsonValue
  import opened JsonOrder

  datatype Kind = KNull | KBool | KNumber | KString | KArray | KObject

  /** The union in the second half of a token. An index is an array of its own. */
  datatype Data =
    | Nothing
    | Boolean(b: bool)
    | Integer(n: nat)
    | Double(text: bytes)
    | Chars(chars: bytes)
    | Index(index: seq<nat>)
    | Partial(noValue: bool, collection: nat)

  /** A token that starts a value or a name, with its type flags, or one with 16 more characters of a string. */
  datatype Token =
    | Head(kind: Kind, key: bool, uint: bool, indexed: bool, len: nat, data: Data)
    | More(text: bytes)

  const TOKEN_SIZE: nat := 16
  const STRING_SIZE: nat := 8

  // ---------------------------------------------------------------- sizes

  /** The tokens of a string of `n` characters and its NUL. */
  function StringSize(n: nat): (size: nat)
    ensures size > 0
  {
    1 + (n + TOKEN_SIZE - STRING_SIZE) / TOKEN_SIZE
  }

  /** The tokens of a string are the fewest with room for its characters and a NUL: 8 in the first and 16 in each other. */
  lemma StringSizeIsLeast(n: nat, size: nat)
    requires size > 0
    ensures 8 + 16 * (size - 1) >= n + 1 <==> size >= StringSize(n)
  {
  }

  function SizeOf(v: Value): (size: nat)
    ensures size > 0
    decreases v
  {
    match v
    case Str(s) => StringSize(|s|)
    case Array(es) => 1 + SizeTo(es, |es|)
    case Object(ms) => 1 + MembersTo(ms, |ms|)
    case _ => 1
  }

  /** The tokens of the first `k` elements of an array, or of the first `k` members of an object. */
  function SizeTo(es: seq<Value>, k: nat): nat
    requires k <= |es|
    decreases es, k
  {
    if k == 0 then 0 else SizeTo(es, k - 1) + SizeOf(es[k - 1])
  }

  function MembersTo(ms: seq<Member>, k: nat): nat
    requires k <= |ms|
    decreases ms, k
  {
    if k == 0 then 0 else MembersTo(ms, k - 1) + StringSize(|ms[k - 1].name|) + SizeOf(ms[k - 1].value)
  }

  lemma {:induction false} SizeToGrows(es: seq<Value>, j: nat, k: nat)
    requires j < k <= |es|
    ensures SizeTo(es, j) + SizeOf(es[j]) <= SizeTo(es, k)
    decreases k
  {
    hide SizeOf;
    if j < k - 1 {
      SizeToGrows(es, j, k - 1);
    }
  }

  lemma {:induction false} MembersToGrows(ms: seq<Member>, j: nat, k: nat)
    requires j < k <= |ms|
    ensures MembersTo(ms, j) + StringSize(|ms[j].name|) + SizeOf(ms[j].value) <= MembersTo(ms, k)
    decreases k
  {
    hide SizeOf, StringSize;
    if j < k - 1 {
      MembersToGrows(ms, j, k - 1);
    }
  }

  lemma {:induction false} SizeToPrefix(es: seq<Value>, fs: seq<Value>, k: nat)
    requires k <= |es| <= |fs| && fs[..|es|] == es
    ensures SizeTo(fs, k) == SizeTo(es, k)
    decreases k
  {
    hide SizeOf;
    if k > 0 {
      assert fs[k - 1] == es[k - 1];
      SizeToPrefix(es, fs, k - 1);
    }
  }

  lemma {:induction false} MembersToPrefix(ms: seq<Member>, ns: seq<Member>, k: nat)
    requires k <= |ms| <= |ns| && ns[..|ms|] == ms
    ensures MembersTo(ns, k) == MembersTo(ms, k)
    decreases k
  {
    hide SizeOf, StringSize;
    if k > 0 {
      assert ns[k - 1] == ms[k - 1];
      MembersToPrefix(ms, ns, k - 1);
    }
  }

  // ---------------------------------------------------------------- characters

  /** The 16 bytes of a token, as far as they hold characters. */
  ghost predicate HoldsChars(t: Token, first: bool) {
    if first then t.Head? && t.data.Chars? && |t.data.chars| == STRING_SIZE else t.More? && |t.text| == TOKEN_SIZE
  }

  /** The tokens from `i` on have room for `n - 1` tokens of characters after the first 8. */
  ghost predicate Room(t: seq<Token>, i: nat, n: nat) {
    i + n <= |t| && forall j :: i <= j < i + n ==> HoldsChars(t[j], j == i)
  }

  /** Character `p` of the string at token `i`: the characters go on from the second half of its first token. */
  function CharAt(t: seq<Token>, i: nat, p: nat): byte {
    var j := i + (p + STRING_SIZE) / TOKEN_SIZE;
    if j >= |t| then 0
    else if p < STRING_SIZE then if t[j].Head? && t[j].data.Chars? && p < |t[j].data.chars| then t[j].data.chars[p] else 0
    else
      var o := (p + STRING_SIZE) % TOKEN_SIZE;
      if t[j].More? && o < |t[j].text| then t[j].text[o] else 0
  }

  /** The characters of a string and the NUL after them. */
  ghost predicate CharsAt(t: seq<Token>, i: nat, s: bytes) {
    && Room(t, i, StringSize(|s|))
    && (forall p: nat :: p < |s| ==> CharAt(t, i, p) == s[p])
    && CharAt(t, i, |s|) == 0
  }

  // ---------------------------------------------------------------- values

  /** The name of a member; its length field may be in use for something else. */
  ghost predicate NameAt(t: seq<Token>, i: nat, name: bytes) {
    i < |t| && t[i].Head? && t[i].kind == KString && t[i].key && CharsAt(t, i, name)
  }

  function LenAt(t: seq<Token>, i: nat): nat {
    if i < |t| && t[i].Head? then t[i].len else 0
  }

  /** The value `v` lies in the tokens from `i` on. */
  ghost predicate IsAt(hash: bytes -> nat, t: seq<Token>, i: nat, v: Value)
    decreases v
  {
    && i + SizeOf(v) <= |t|
    && t[i].Head?
    && match v
       case Null => t[i].kind == KNull
       case Bool(b) => t[i].kind == KBool && t[i].data == Boolean(b)
       case Uint(n) => t[i].kind == KNumber && t[i].uint && t[i].data == Integer(n)
       case Number(x) => t[i].kind == KNumber && !t[i].uint && t[i].data == Double(x)
       case Str(s) => t[i].kind == KString && !t[i].key && t[i].len == |s| && CharsAt(t, i, s)
       case Array(es) => ArrayHead(t[i], es) && ElementsAt(hash, t, i + 1, es)
       case Object(ms) => ObjectHead(hash, t, i, ms) && MembersAt(hash, t, i + 1, ms)
  }

  ghost predicate ElementsAt(hash: bytes -> nat, t: seq<Token>, i: nat, es: seq<Value>)
    decreases es
  {
    forall k :: 0 <= k < |es| ==> IsAt(hash, t, i + SizeTo(es, k), es[k])
  }

  ghost predicate MembersAt(hash: bytes -> nat, t: seq<Token>, i: nat, ms: seq<Member>)
    decreases ms
  {
    forall k :: 0 <= k < |ms| ==> MemberAt(hash, t, i + MembersTo(ms, k), ms[k])
  }

  ghost predicate MemberAt(hash: bytes -> nat, t: seq<Token>, i: nat, m: Member)
    decreases m
  {
    NameAt(t, i, m.name) && IsAt(hash, t, i + StringSize(|m.name|), m.value)
  }

  /** The first token of an array: its size, or an index with the offset of every element and the size at its end. */
  ghost predicate ArrayHead(h: Token, es: seq<Value>) {
    && h.Head?
    && h.kind == KArray
    && h.len == |es|
    && if h.indexed then h.data.Index? && ArrayIndex(h.data.index, es) else h.data == Integer(1 + SizeTo(es, |es|))
  }

  ghost predicate ArrayIndex(index: seq<nat>, es: seq<Value>) {
    && |index| == |es| + 1
    && index[|es|] == 1 + SizeTo(es, |es|)
    && forall k :: 0 <= k < |es| ==> index[k] == 1 + SizeTo(es, k)
  }

  /** The first token of an object: its size, or an index with a bucket for every member and the size at its end. */
  ghost predicate ObjectHead(hash: bytes -> nat, t: seq<Token>, i: nat, ms: seq<Member>) {
    && i < |t|
    && t[i].Head?
    && t[i].kind == KObject
    && t[i].len == |ms|
    && if t[i].indexed then t[i].data.Index? && ObjectIndex(hash, t[i].data.index, ms) && Linked(hash, t, i, ms, |ms|)
       else t[i].data == Integer(1 + MembersTo(ms, |ms|)) && Unlinked(t, i, ms, 0)
  }

  /** The last member below `n` in a bucket, or -1. */
  function LastIn(hash: bytes -> nat, ms: seq<Member>, b: nat, n: nat): (k: int)
    requires n <= |ms|
    ensures -1 <= k < n
  {
    if n == 0 then -1
    else if Bucket(hash, ms, ms[n - 1].name) == b then n - 1
    else LastIn(hash, ms, b, n - 1)
  }

  /** The offset of a member from its object, 0 for none. */
  function Offset(ms: seq<Member>, k: int): nat
    requires -1 <= k <= |ms|
  {
    if k < 0 then 0 else 1 + MembersTo(ms, k)
  }

  /** Every bucket holds the offset of its last member. */
  ghost predicate ObjectIndex(hash: bytes -> nat, index: seq<nat>, ms: seq<Member>) {
    && |index| == |ms| + 1
    && index[|ms|] == 1 + MembersTo(ms, |ms|)
    && forall b :: 0 <= b < |ms| ==> index[b] == Offset(ms, LastIn(hash, ms, b, |ms|))
  }

  /** The length fields of the first `n` names link each member to the one before it in its bucket. */
  ghost predicate Linked(hash: bytes -> nat, t: seq<Token>, i: nat, ms: seq<Member>, n: nat)
    requires n <= |ms|
  {
    forall k :: 0 <= k < n ==> LenAt(t, i + 1 + MembersTo(ms, k)) == LinkOf(hash, ms, k)
  }

  function LinkOf(hash: bytes -> nat, ms: seq<Member>, k: nat): nat
    requires k < |ms|
  {
    Offset(ms, LastIn(hash, ms, Bucket(hash, ms, ms[k].name), k))
  }

  /** The length fields of the names from number `n` on hold the lengths of the names. */
  ghost predicate Unlinked(t: seq<Token>, i: nat, ms: seq<Member>, n: nat) {
    forall k :: n <= k < |ms| ==> LenAt(t, i + 1 + MembersTo(ms, k)) == |ms[k].name|
  }

  // ---------------------------------------------------------------- what a value depends on

  /** Tokens `i` to `j` are the same. */
  ghost predicate Same(t: seq<Token>, u: seq<Token>, i: nat, j: nat) {
    j <= |t| && j <= |u| && forall k :: i <= k < j ==> u[k] == t[k]
  }

  lemma SameIn(t: seq<Token>, u: seq<Token>, i: nat, j: nat, a: nat, b: nat)
    requires Same(t, u, i, j) && i <= a && b <= j
    ensures Same(t, u, a, b)
  {
  }

  lemma CharSame(t: seq<Token>, u: seq<Token>, i: nat, n: nat, p: nat)
    requires Same(t, u, i + 1, i + n) && n > 0 && i < |t| && i < |u| && t[i].Head? && u[i].Head? && u[i].data == t[i].data
    requires (p + STRING_SIZE) / TOKEN_SIZE < n
    ensures CharAt(u, i, p) == CharAt(t, i, p)
  {
  }

  /** The characters of a string are not touched when other fields of its first token are. */
  lemma CharsSame(t: seq<Token>, u: seq<Token>, i: nat, s: bytes)
    requires CharsAt(t, i, s) && i < |u| && u[i].Head? && u[i].data == t[i].data
    requires Same(t, u, i + 1, i + StringSize(|s|))
    ensures CharsAt(u, i, s)
  {
    hide CharAt;
    forall p: nat | p <= |s|
      ensures CharAt(u, i, p) == CharAt(t, i, p)
    {
      CharSame(t, u, i, StringSize(|s|), p);
    }
  }

  lemma {:induction false} IsAtSame(hash: bytes -> nat, t: seq<Token>, u: seq<Token>, i: nat, v: Value)
    requires IsAt(hash, t, i, v) && Same(t, u, i, i + SizeOf(v))
    ensures IsAt(hash, u, i, v)
    decreases v, 1
  {
    hide ArrayHead, ObjectHead, ElementsAt, MembersAt, CharsAt, SizeTo, MembersTo, StringSize;
    assert u[i] == t[i];
    SameIn(t, u, i, i + SizeOf(v), i + 1, i + SizeOf(v));
    match v
    case Str(s) => CharsSame(t, u, i, s);
    case Array(es) => ElementsSame(hash, t, u, i + 1, es);
    case Object(ms) =>
      MembersSame(hash, t, u, i + 1, ms);
      ObjectHeadSame(hash, t, u, i, ms);
    case _ =>
  }

  lemma {:induction false} ElementsSame(hash: bytes -> nat, t: seq<Token>, u: seq<Token>, i: nat, es: seq<Value>)
    requires ElementsAt(hash, t, i, es) && Same(t, u, i, i + SizeTo(es, |es|))
    ensures ElementsAt(hash, u, i, es)
    decreases es
  {
    hide IsAt, SizeOf, SizeTo, Same;
    forall k | 0 <= k < |es|
      ensures IsAt(hash, u, i + SizeTo(es, k), es[k])
    {
      ElementSame(hash, t, u, i, es, k);
    }
  }

  lemma {:induction false} ElementSame(hash: bytes -> nat, t: seq<Token>, u: seq<Token>, i: nat, es: seq<Value>, k: nat)
    requires k < |es| && IsAt(hash, t, i + SizeTo(es, k), es[k]) && Same(t, u, i, i + SizeTo(es, |es|))
    ensures IsAt(hash, u, i + SizeTo(es, k), es[k])
    decreases es, 0
  {
    hide IsAt, SizeOf, SizeTo, Same;
    SizeToGrows(es, k, |es|);
    var a := i + SizeTo(es, k);
    SameIn(t, u, i, i + SizeTo(es, |es|), a, a + SizeOf(es[k]));
    IsAtSame(hash, t, u, a, es[k]);
  }

  lemma {:induction false} MembersSame(hash: bytes -> nat, t: seq<Token>, u: seq<Token>, i: nat, ms: seq<Member>)
    requires MembersAt(hash, t, i, ms) && Same(t, u, i, i + MembersTo(ms, |ms|))
    ensures MembersAt(hash, u, i, ms)
    decreases ms
  {
    hide MemberAt, SizeOf, MembersTo, StringSize, Same;
    forall k | 0 <= k < |ms|
      ensures MemberAt(hash, u, i + MembersTo(ms, k), ms[k])
    {
      MemberSameAt(hash, t, u, i, ms, k);
    }
  }

  lemma {:induction false} MemberSameAt(hash: bytes -> nat, t: seq<Token>, u: seq<Token>, i: nat, ms: seq<Member>, k: nat)
    requires k < |ms| && MemberAt(hash, t, i + MembersTo(ms, k), ms[k]) && Same(t, u, i, i + MembersTo(ms, |ms|))
    ensures MemberAt(hash, u, i + MembersTo(ms, k), ms[k])
    decreases ms, 0
  {
    hide MemberAt, SizeOf, MembersTo, StringSize, Same;
    MembersToGrows(ms, k, |ms|);
    var a := i + MembersTo(ms, k);
    SameIn(t, u, i, i + MembersTo(ms, |ms|), a, a + StringSize(|ms[k].name|) + SizeOf(ms[k].value));
    MemberSame(hash, t, u, a, ms[k]);
  }

  lemma {:induction false} MemberSame(hash: bytes -> nat, t: seq<Token>, u: seq<Token>, i: nat, m: Member)
    requires MemberAt(hash, t, i, m) && Same(t, u, i, i + StringSize(|m.name|) + SizeOf(m.value))
    ensures MemberAt(hash, u, i, m)
    decreases m
  {
    hide IsAt, SizeOf, StringSize, CharsAt;
    var a := i + StringSize(|m.name|);
    SameIn(t, u, i, a + SizeOf(m.value), i + 1, a);
    SameIn(t, u, i, a + SizeOf(m.value), a, a + SizeOf(m.value));
    assert u[i] == t[i];
    hide Same;
    CharsSame(t, u, i, m.name);
    IsAtSame(hash, t, u, a, m.value);
  }

  /** The first token of an object and the length fields of its names. */
  lemma ObjectHeadSame(hash: bytes -> nat, t: seq<Token>, u: seq<Token>, i: nat, ms: seq<Member>)
    requires ObjectHead(hash, t, i, ms) && Same(t, u, i, i + 1 + MembersTo(ms, |ms|))
    ensures ObjectHead(hash, u, i, ms)
  {
    hide ObjectIndex, MembersTo, LinkOf, StringSize, SizeOf;
    assert u[i] == t[i];
    forall k | 0 <= k < |ms|
      ensures LenAt(u, i + 1 + MembersTo(ms, k)) == LenAt(t, i + 1 + MembersTo(ms, k))
    {
      MembersToGrows(ms, k, |ms|);
    }
  }
}
