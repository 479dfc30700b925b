/** Values that are being built on top of a stack of tokens. */
module JitsonBuild {
  import opened Bytes
  import opened JsonValue
  import opened JitsonTokens
  import opened JitsonChars

  /** The tokens `u` are the tokens `t` with the value `v` on top. */
  ghost predicate OnTop(hash: bytes -> nat, t: seq<Token>, u: seq<Token>, v: Value) {
    |u| == |t| + SizeOf(v) && Same(t, u, 0, |t|) && IsAt(hash, u, |t|, v)
  }

  /** One token more on top of `t`. */
  ghost predicate OneMore(t: seq<Token>, u: seq<Token>) {
    |u| == |t| + 1 && Same(t, u, 0, |t|)
  }

  /** The token of a value that takes one token and is no collection. */
  ghost predicate Scalar(h: Token, v: Value) {
    && h.Head?
    && match v
       case Null => h.kind == KNull
       case Bool(b) => h.kind == KBool && h.data == Boolean(b)
       case Uint(n) => h.kind == KNumber && h.uint && h.data == Integer(n)
       case Number(x) => h.kind == KNumber && !h.uint && h.data == Double(x)
       case _ => false
  }

  lemma ScalarOnTop(hash: bytes -> nat, t: seq<Token>, u: seq<Token>, v: Value)
    requires OneMore(t, u) && Scalar(u[|t|], v)
    ensures OnTop(hash, t, u, v)
  {
  }

  /** A collection on top of `t`, with the count `len` and no index; its size is not yet known. */
  ghost predicate Opened(t: seq<Token>, u: seq<Token>, kind: Kind, len: nat) {
    var i := |t|;
    i < |u| && Same(t, u, 0, i) && u[i].Head? && u[i] == Head(kind, false, false, false, len, u[i].data)
  }

  /** An array on top of `t`, with the elements `es` so far. */
  ghost predicate BuildingArray(hash: bytes -> nat, t: seq<Token>, u: seq<Token>, es: seq<Value>) {
    Opened(t, u, KArray, |es|) && |u| == |t| + 1 + SizeTo(es, |es|) && ElementsAt(hash, u, |t| + 1, es)
  }

  /** An object on top of `t`, with the members `ms` so far. */
  ghost predicate BuildingObject(hash: bytes -> nat, t: seq<Token>, u: seq<Token>, ms: seq<Member>) {
    && Opened(t, u, KObject, |ms|)
    && |u| == |t| + 1 + MembersTo(ms, |ms|)
    && MembersAt(hash, u, |t| + 1, ms)
    && Unlinked(u, |t|, ms, 0)
  }

  /** The count of the collection at token `i` set. */
  function Counted(u: seq<Token>, i: nat, len: nat): seq<Token>
    requires i < |u| && u[i].Head?
  {
    u[i := u[i].(len := len)]
  }

  /** The size of the collection at token `i` set. */
  function Closed(u: seq<Token>, i: nat): seq<Token>
    requires i < |u| && u[i].Head?
  {
    u[i := u[i].(data := Integer(|u| - i))]
  }

  lemma ArrayStarts(hash: bytes -> nat, t: seq<Token>, u: seq<Token>)
    requires Opened(t, u, KArray, 0) && |u| == |t| + 1
    ensures BuildingArray(hash, t, u, [])
  {
  }

  lemma ObjectStarts(hash: bytes -> nat, t: seq<Token>, u: seq<Token>)
    requires Opened(t, u, KObject, 0) && |u| == |t| + 1
    ensures BuildingObject(hash, t, u, [])
  {
  }

  lemma OpenedKept(t: seq<Token>, u: seq<Token>, w: seq<Token>, kind: Kind, len: nat, more: nat)
    requires Opened(t, u, kind, len) && Same(u, w, 0, |u|)
    ensures w[|t|].Head? && Opened(t, Counted(w, |t|, more), kind, more)
  {
  }

  // ---------------------------------------------------------------- arrays

  lemma ElementAdded(hash: bytes -> nat, t: seq<Token>, u: seq<Token>, w: seq<Token>, es: seq<Value>, v: Value)
    requires BuildingArray(hash, t, u, es) && OnTop(hash, u, w, v)
    ensures |t| < |w| && w[|t|].Head? && BuildingArray(hash, t, Counted(w, |t|, |es| + 1), es + [v])
  {
    hide IsAt, SizeOf, SizeTo, Opened, ElementsAt;
    OpenedKept(t, u, w, KArray, |es|, |es| + 1);
    ElementsGrow(hash, u, w, |t|, es, v, |es| + 1);
  }

  lemma SizeToSnoc(es: seq<Value>, v: Value)
    ensures forall k: nat :: k <= |es| ==> SizeTo(es + [v], k) == SizeTo(es, k)
    ensures SizeTo(es + [v], |es| + 1) == SizeTo(es, |es|) + SizeOf(v)
  {
    hide SizeOf;
    var fs := es + [v];
    assert fs[|fs| - 1] == v;
    forall k: nat | k <= |es|
      ensures SizeTo(fs, k) == SizeTo(es, k)
    {
      SizeToPrefix(es, fs, k);
    }
  }

  lemma ElementsGrow(hash: bytes -> nat, u: seq<Token>, w: seq<Token>, i: nat, es: seq<Value>, v: Value, len: nat)
    requires ElementsAt(hash, u, i + 1, es) && OnTop(hash, u, w, v) && |u| == i + 1 + SizeTo(es, |es|) && w[i].Head?
    ensures |Counted(w, i, len)| == i + 1 + SizeTo(es + [v], |es| + 1)
    ensures ElementsAt(hash, Counted(w, i, len), i + 1, es + [v])
  {
    hide IsAt, SizeOf, SizeTo;
    SizeToLast(es, v);
    forall k: nat | k <= |es|
      ensures IsAt(hash, Counted(w, i, len), i + 1 + SizeTo(es + [v], k), (es + [v])[k])
    {
      ElementGrown(hash, u, w, i, es, v, len, k);
    }
  }

  lemma SizeToLast(es: seq<Value>, v: Value)
    ensures SizeTo(es + [v], |es| + 1) == SizeTo(es, |es|) + SizeOf(v)
  {
    hide SizeTo, SizeOf;
    SizeToSnoc(es, v);
  }

  lemma ElementGrown(hash: bytes -> nat, u: seq<Token>, w: seq<Token>, i: nat, es: seq<Value>, v: Value, len: nat, k: nat)
    requires ElementsAt(hash, u, i + 1, es) && OnTop(hash, u, w, v) && |u| == i + 1 + SizeTo(es, |es|) && w[i].Head?
    requires k <= |es|
    ensures IsAt(hash, Counted(w, i, len), i + 1 + SizeTo(es + [v], k), (es + [v])[k])
  {
    hide IsAt, SizeOf, SizeTo;
    SizeToSnoc(es, v);
    var x := Counted(w, i, len);
    if k < |es| {
      assert (es + [v])[k] == es[k];
      ElementKept(hash, u, x, i, es, k);
    } else {
      assert (es + [v])[k] == v;
      IsAtSame(hash, w, x, |u|, v);
    }
  }

  lemma ElementKept(hash: bytes -> nat, u: seq<Token>, x: seq<Token>, i: nat, es: seq<Value>, k: nat)
    requires k < |es| && IsAt(hash, u, i + 1 + SizeTo(es, k), es[k]) && i + 1 + SizeTo(es, |es|) <= |u|
    requires Same(u, x, i + 1, |u|)
    ensures IsAt(hash, x, i + 1 + SizeTo(es, k), es[k])
  {
    hide IsAt, SizeOf, SizeTo, Same;
    SizeToGrows(es, k, |es|);
    var a := i + 1 + SizeTo(es, k);
    SameIn(u, x, i + 1, |u|, a, a + SizeOf(es[k]));
    IsAtSame(hash, u, x, a, es[k]);
  }

  lemma ArrayCloses(hash: bytes -> nat, t: seq<Token>, u: seq<Token>, es: seq<Value>)
    requires BuildingArray(hash, t, u, es)
    ensures |t| < |u| && u[|t|].Head? && OnTop(hash, t, Closed(u, |t|), Array(es))
  {
    hide ElementsAt, SizeTo;
    ElementsSame(hash, u, Closed(u, |t|), |t| + 1, es);
  }

  // ---------------------------------------------------------------- objects

  lemma MembersToSnoc(ms: seq<Member>, m: Member)
    ensures forall k: nat :: k <= |ms| ==> MembersTo(ms + [m], k) == MembersTo(ms, k)
    ensures MembersTo(ms + [m], |ms| + 1) == MembersTo(ms, |ms|) + StringSize(|m.name|) + SizeOf(m.value)
  {
    hide SizeOf, StringSize;
    var ns := ms + [m];
    assert ns[|ns| - 1] == m;
    forall k: nat | k <= |ms|
      ensures MembersTo(ns, k) == MembersTo(ms, k)
    {
      MembersToPrefix(ms, ns, k);
    }
  }

  /** A name on top of `u`, and a value on top of that, make a member. */
  lemma MemberOnTop(hash: bytes -> nat, u: seq<Token>, w: seq<Token>, x: seq<Token>, m: Member)
    requires StringOnTop(u, w, true, m.name) && OnTop(hash, w, x, m.value)
    ensures |x| == |u| + StringSize(|m.name|) + SizeOf(m.value) && Same(u, x, 0, |u|)
    ensures MemberAt(hash, x, |u|, m) && LenAt(x, |u|) == |m.name|
  {
    hide IsAt, CharsAt, SizeOf, StringSize;
    CharsSame(w, x, |u|, m.name);
  }

  lemma MemberAdded(hash: bytes -> nat, t: seq<Token>, u: seq<Token>, w: seq<Token>, x: seq<Token>, ms: seq<Member>, m: Member)
    requires BuildingObject(hash, t, u, ms) && StringOnTop(u, w, true, m.name) && OnTop(hash, w, x, m.value)
    ensures |t| < |x| && x[|t|].Head? && BuildingObject(hash, t, Counted(x, |t|, |ms| + 1), ms + [m])
  {
    hide StringOnTop, OnTop, SizeOf, StringSize, MembersTo, Opened, MembersAt, Unlinked, MemberAt, Same;
    MemberOnTop(hash, u, w, x, m);
    OpenedKept(t, u, x, KObject, |ms|, |ms| + 1);
    MembersGrow(hash, u, x, |t|, ms, m, |ms| + 1);
  }

  /** The members so far, and one more on top. */
  ghost predicate MembersEnd(hash: bytes -> nat, u: seq<Token>, x: seq<Token>, i: nat, ms: seq<Member>, m: Member) {
    && |u| == i + 1 + MembersTo(ms, |ms|)
    && |x| == |u| + StringSize(|m.name|) + SizeOf(m.value)
    && Same(u, x, 0, |u|)
    && x[i].Head?
    && MemberAt(hash, x, |u|, m)
    && LenAt(x, |u|) == |m.name|
  }

  lemma MembersGrow(hash: bytes -> nat, u: seq<Token>, x: seq<Token>, i: nat, ms: seq<Member>, m: Member, len: nat)
    requires MembersAt(hash, u, i + 1, ms) && Unlinked(u, i, ms, 0) && MembersEnd(hash, u, x, i, ms, m)
    ensures |Counted(x, i, len)| == i + 1 + MembersTo(ms + [m], |ms| + 1)
    ensures MembersAt(hash, Counted(x, i, len), i + 1, ms + [m]) && Unlinked(Counted(x, i, len), i, ms + [m], 0)
  {
    hide MemberAt, SizeOf, MembersTo, StringSize;
    MembersToSnoc(ms, m);
    var y := Counted(x, i, len);
    var ns := ms + [m];
    forall k | 0 <= k < |ns|
      ensures MemberAt(hash, y, i + 1 + MembersTo(ns, k), ns[k])
      ensures LenAt(y, i + 1 + MembersTo(ns, k)) == |ns[k].name|
    {
      if k < |ms| {
        MembersToGrows(ms, k, |ms|);
        MemberSame(hash, u, y, i + 1 + MembersTo(ms, k), ms[k]);
      } else {
        MemberSame(hash, x, y, |u|, m);
      }
    }
  }

  lemma ObjectCloses(hash: bytes -> nat, t: seq<Token>, u: seq<Token>, ms: seq<Member>)
    requires BuildingObject(hash, t, u, ms)
    ensures |t| < |u| && u[|t|].Head? && OnTop(hash, t, Closed(u, |t|), Object(ms))
  {
    hide MembersAt, MembersTo, StringSize, SizeTo, LinkOf, ObjectIndex;
    var i, w := |t|, Closed(u, |t|);
    MembersSame(hash, u, w, i + 1, ms);
    forall k | 0 <= k < |ms|
      ensures LenAt(w, i + 1 + MembersTo(ms, k)) == |ms[k].name|
    {
    }
  }

  lemma StringIsValue(hash: bytes -> nat, t: seq<Token>, u: seq<Token>, x: bytes)
    requires StringOnTop(t, u, false, x)
    ensures OnTop(hash, t, u, Str(x))
  {
    hide CharsAt;
  }

  lemma StringKeeps(t: seq<Token>, u: seq<Token>, key: bool, x: bytes)
    requires StringOnTop(t, u, key, x)
    ensures |u| == |t| + StringSize(|x|) && Same(t, u, 0, |t|)
  {
  }
}
