/** Printing a value from its tokens. Objects and arrays are indexed on the way. */
module JitsonPrint {
  import opened Bytes
  import opened JsonValue
  import opened JsonParse
  import opened JsonPrint
  import opened JsonOrder
  import opened JitsonTokens
  import G = JsonGrammar
  import opened JitsonIndex
  import opened Jitson

  /** A buffer that is appended to. */
  class Factory {
    var data: bytes

    constructor ()
      ensures data == []
    {
      data := [];
    }

    method Add(more: bytes)
      modifies this
      ensures data == old(data) + more
    {
      data := data + more;
    }
  }

  /** A value that can be printed from its tokens: no name in it holds a NUL. */
  ghost predicate AllPlain(v: Value)
    decreases v
  {
    match v
    case Array(es) => forall k :: 0 <= k < |es| ==> AllPlain(es[k])
    case Object(ms) => NamesPlain(ms) && forall k :: 0 <= k < |ms| ==> AllPlain(ms[k].value)
    case _ => true
  }

  ghost predicate CanPrint(v: Value) {
    Printable(v) && AllPlain(v)
  }

  // ---------------------------------------------------------------- changes inside a collection

  lemma WithinTwice(t: seq<Token>, u: seq<Token>, w: seq<Token>, i: nat, j: nat, a: nat, b: nat)
    requires Within(t, u, i, j) && Within(u, w, a, b) && i <= a && b <= j
    ensures Within(t, w, i, j)
  {
  }

  /** An element that changed, but is still the same value, leaves its array the same value. */
  lemma ElementChanged(hash: bytes -> nat, t: seq<Token>, u: seq<Token>, i: nat, es: seq<Value>, k: nat)
    requires IsAt(hash, t, i, Array(es)) && k < |es|
    requires var a := i + 1 + SizeTo(es, k); Within(t, u, a, a + SizeOf(es[k])) && IsAt(hash, u, a, es[k])
    ensures IsAt(hash, u, i, Array(es)) && Within(t, u, i, i + SizeOf(Array(es)))
  {
    hide IsAt, SizeTo, SizeOf, ElementsAt;
    SizeToGrows(es, k, |es|);
    IsAtFits(hash, t, i, Array(es));
    ArraySize(es);
    var a := i + 1 + SizeTo(es, k);
    WithinTwice(t, t, u, i, i + SizeOf(Array(es)), a, a + SizeOf(es[k]));
    forall l: nat | l < |es|
      ensures IsAt(hash, u, i + 1 + SizeTo(es, l), es[l])
    {
      ElementStays(hash, t, u, i, es, k, l);
    }
    ArrayAgain(hash, t, u, i, es);
  }

  lemma ArraySize(es: seq<Value>)
    ensures SizeOf(Array(es)) == 1 + SizeTo(es, |es|)
  {
    hide SizeTo;
  }

  lemma ArrayAgain(hash: bytes -> nat, t: seq<Token>, u: seq<Token>, i: nat, es: seq<Value>)
    requires IsAt(hash, t, i, Array(es)) && |u| == |t| && u[i] == t[i]
    requires forall l: nat :: l < |es| ==> IsAt(hash, u, i + 1 + SizeTo(es, l), es[l])
    ensures IsAt(hash, u, i, Array(es))
  {
    hide ArrayHead, SizeTo, CharsAt;
  }

  lemma ElementStays(hash: bytes -> nat, t: seq<Token>, u: seq<Token>, i: nat, es: seq<Value>, k: nat, l: nat)
    requires IsAt(hash, t, i, Array(es)) && k < |es| && l < |es|
    requires var a := i + 1 + SizeTo(es, k); Within(t, u, a, a + SizeOf(es[k])) && IsAt(hash, u, a, es[k])
    ensures IsAt(hash, u, i + 1 + SizeTo(es, l), es[l])
  {
    hide IsAt, SizeTo, SizeOf;
    var c := i + 1 + SizeTo(es, l);
    ElementIs(hash, t, i, es, l);
    if l != k {
      if l < k {
        SizeToGrows(es, l, k);
      } else {
        SizeToGrows(es, k, l);
      }
      IsAtFits(hash, t, c, es[l]);
      IsAtSame(hash, t, u, c, es[l]);
    }
  }

  /** A member's value that changed, but is still the same value, leaves its object the same value. */
  lemma ValueChanged(hash: bytes -> nat, t: seq<Token>, u: seq<Token>, i: nat, ms: seq<Member>, k: nat)
    requires IsAt(hash, t, i, Object(ms)) && k < |ms|
    requires Within(t, u, ValueAt(i, ms, k), ValueAt(i, ms, k) + SizeOf(ms[k].value)) && IsAt(hash, u, ValueAt(i, ms, k), ms[k].value)
    ensures IsAt(hash, u, i, Object(ms)) && Within(t, u, i, i + SizeOf(Object(ms))) && u[i] == t[i]
  {
    hide IsAt, MembersTo, SizeOf, MemberStays, StringSize, Within, ValueAt;
    MembersToGrows(ms, k, |ms|);
    IsAtFits(hash, t, i, Object(ms));
    ObjectSize(ms);
    ValueAtIs(i, ms, k);
    var a := ValueAt(i, ms, k);
    WithinTwice(t, t, u, i, i + SizeOf(Object(ms)), a, a + SizeOf(ms[k].value));
    WithinBelow(t, u, a, a + SizeOf(ms[k].value), i);
    forall l: nat | l < |ms|
      ensures MemberStays(hash, t, u, i + 1 + MembersTo(ms, l), ms[l])
    {
      MemberKept(hash, t, u, i, ms, k, l);
    }
    ObjectAgain(hash, t, u, i, ms);
  }

  lemma WithinBelow(t: seq<Token>, u: seq<Token>, a: nat, b: nat, i: nat)
    requires Within(t, u, a, b) && i < a
    ensures |u| == |t| && i < |t| && u[i] == t[i]
  {
  }

  lemma ObjectSize(ms: seq<Member>)
    ensures SizeOf(Object(ms)) == 1 + MembersTo(ms, |ms|)
  {
    hide MembersTo;
  }

  ghost predicate MemberStays(hash: bytes -> nat, t: seq<Token>, u: seq<Token>, j: nat, m: Member) {
    MemberAt(hash, u, j, m) && LenAt(u, j) == LenAt(t, j)
  }

  lemma ObjectAgain(hash: bytes -> nat, t: seq<Token>, u: seq<Token>, i: nat, ms: seq<Member>)
    requires IsAt(hash, t, i, Object(ms)) && |u| == |t| && u[i] == t[i]
    requires forall l: nat :: l < |ms| ==> MemberStays(hash, t, u, i + 1 + MembersTo(ms, l), ms[l])
    ensures IsAt(hash, u, i, Object(ms))
  {
    hide ObjectIndex, MembersTo, MemberAt, LenAt, LinkOf;
  }

  lemma MemberKept(hash: bytes -> nat, t: seq<Token>, u: seq<Token>, i: nat, ms: seq<Member>, k: nat, l: nat)
    requires IsAt(hash, t, i, Object(ms)) && k < |ms| && l < |ms|
    requires Within(t, u, ValueAt(i, ms, k), ValueAt(i, ms, k) + SizeOf(ms[k].value)) && IsAt(hash, u, ValueAt(i, ms, k), ms[k].value)
    ensures MemberStays(hash, t, u, i + 1 + MembersTo(ms, l), ms[l])
  {
    hide IsAt, MembersTo, SizeOf, StringSize, MemberAt, ValueAt;
    var c := i + 1 + MembersTo(ms, l);
    MemberThere(hash, t, i, ms, l);
    ValueAtIs(i, ms, k);
    if l == k {
      NameKept(hash, t, u, c, ms[k]);
    } else {
      if l < k {
        MembersToGrows(ms, l, k);
      } else {
        MembersToGrows(ms, k, l);
      }
      MemberFits(hash, t, c, ms[l]);
      MemberSame(hash, t, u, c, ms[l]);
    }
  }

  lemma ValueAtIs(i: nat, ms: seq<Member>, k: nat)
    requires k < |ms|
    ensures ValueAt(i, ms, k) == i + 1 + MembersTo(ms, k) + StringSize(|ms[k].name|)
  {
    hide MembersTo, StringSize;
  }

  lemma MemberThere(hash: bytes -> nat, t: seq<Token>, i: nat, ms: seq<Member>, l: nat)
    requires IsAt(hash, t, i, Object(ms)) && l < |ms|
    ensures MemberAt(hash, t, i + 1 + MembersTo(ms, l), ms[l])
  {
    hide ObjectHead, MembersTo, MemberAt;
  }

  lemma NameKept(hash: bytes -> nat, t: seq<Token>, u: seq<Token>, j: nat, m: Member)
    requires MemberAt(hash, t, j, m) && Within(t, u, j + StringSize(|m.name|), j + StringSize(|m.name|) + SizeOf(m.value))
    requires IsAt(hash, u, j + StringSize(|m.name|), m.value)
    ensures MemberStays(hash, t, u, j, m)
  {
    hide IsAt, SizeOf, StringSize, CharsAt;
    CharsSame(t, u, j, m.name);
  }

  // ---------------------------------------------------------------- scalars and strings

  /** Prints the string at token `i` of a value or a name. */
  lemma RunEnds(data: bytes, run: bytes, escape: bytes, rest: bytes)
    ensures data + run + (escape + rest) == data + run + escape + [] + rest
  {
  }

  lemma RunGrows(data: bytes, run: bytes, c: byte, rest: bytes)
    ensures data + run + ([c] + rest) == data + (run + [c]) + rest
  {
  }

  method BuildString(j: Jitson, i: nat, factory: Factory, ghost s: bytes)
    requires i < |j.jitsons| && j.jitsons[i].Head? && StringLen(j.jitsons, i) == |s| && CharsOf(j.jitsons, i, |s|) == s
    modifies factory
    ensures factory.data == old(factory.data) + StringText(s)
  {
    hide StringLen, CharsOf, CharsText, CharText;
    var len := StringLen(j.jitsons, i);
    var chars := CharsOf(j.jitsons, i, len);
    factory.Add([QUOTE]);
    var first, k := 0, 0;
    ghost var whole := old(factory.data) + StringText(s);
    assert chars[first..k] == [];
    while k < len
      invariant first <= k <= len
      invariant factory.data + chars[first..k] + CharsText(chars, k) == whole
    {
      CharsTextOf(chars, k);
      var c := chars[k];
      ghost var data0, run, rest := factory.data, chars[first..k], CharsText(chars, k + 1);
      if c <= 0x1F || c == QUOTE || c == BACKSLASH {
        if first < k {
          factory.Add(chars[first..k]);
        }
        assert factory.data == data0 + run;
        EscapeText(c);
        factory.Add([BACKSLASH, 0x75, 0x30, 0x30, HexDigit(c / 16), HexDigit(c % 16)]);
        RunEnds(data0, run, CharText(c), rest);
        first := k + 1;
        assert chars[first..k + 1] == [];
      } else {
        PlainText(c);
        RunGrows(data0, run, c, rest);
        assert chars[first..k + 1] == run + [c];
      }
      k := k + 1;
    }
    CharsTextOf(chars, len);
    if first < len {
      factory.Add(chars[first..len]);
    }
    factory.Add([QUOTE]);
  }

  lemma EscapeText(c: byte)
    requires c <= 0x1F || c == QUOTE || c == BACKSLASH
    ensures CharText(c) == [BACKSLASH, 0x75, 0x30, 0x30, HexDigit(c / 16), HexDigit(c % 16)]
  {
  }

  lemma PlainText(c: byte)
    requires !(c <= 0x1F || c == QUOTE || c == BACKSLASH)
    ensures CharText(c) == [c]
  {
  }

  // ---------------------------------------------------------------- text

  lemma OrderStep(hash: bytes -> nat, ms: seq<Member>, b: nat, n: nat)
    requires n <= |ms| && b < |ms|
    ensures var k := LastIn(hash, ms, b, n);
      Order(hash, ms, b, n) == if k >= 0 then [k] + Order(hash, ms, b, k) else Order(hash, ms, b + 1, |ms|)
    decreases n
  {
    hide Bucket;
    if n > 0 {
      OrderStep(hash, ms, b, n - 1);
    }
  }

  /** The text of a member with the comma before it. */
  function MemberText(hash: bytes -> nat, m: Member, first: bool): bytes {
    (if first then [] else [COMMA]) + StringText(m.name) + [COLON] + Text(Reordered(hash, m.value))
  }

  /** The text of the members still to print. */
  function RestText(hash: bytes -> nat, ms: seq<Member>, o: seq<nat>, first: bool): bytes
    requires forall j :: 0 <= j < |o| ==> o[j] < |ms|
  {
    MembersText(Pick(hash, ms, o), first)
  }

  lemma RestStep(hash: bytes -> nat, ms: seq<Member>, k: nat, o: seq<nat>, first: bool)
    requires k < |ms| && forall j :: 0 <= j < |o| ==> o[j] < |ms|
    ensures RestText(hash, ms, [k] + o, first) == MemberText(hash, ms[k], first) + RestText(hash, ms, o, false)
  {
    hide Text, StringText, Reordered, Order;
    assert ([k] + o)[1..] == o;
    var m := Member(ms[k].name, Reordered(hash, ms[k].value));
    var rs := [m] + Pick(hash, ms, o);
    assert Pick(hash, ms, [k] + o) == rs;
    assert rs[1..] == Pick(hash, ms, o) && rs[0] == m;
    hide Pick;
    MembersTextOf(rs);
    hide MembersText;
  }

  /** The elements of an array, each with its members reordered. */
  function ReorderedElements(hash: bytes -> nat, es: seq<Value>): (rs: seq<Value>)
    ensures |rs| == |es| && forall k :: 0 <= k < |es| ==> rs[k] == Reordered(hash, es[k])
  {
    seq(|es|, k requires 0 <= k < |es| => Reordered(hash, es[k]))
  }

  lemma ArrayText(hash: bytes -> nat, es: seq<Value>)
    ensures Text(Reordered(hash, Array(es))) == [OPEN_ARRAY] + ElementsText(ReorderedElements(hash, es), true)
  {
    hide ElementsText;
    assert Reordered(hash, Array(es)).elems == ReorderedElements(hash, es);
  }

  lemma ObjectText(hash: bytes -> nat, ms: seq<Member>)
    ensures Text(Reordered(hash, Object(ms))) == [OPEN_OBJECT] + RestText(hash, ms, Order(hash, ms, 0, |ms|), true)
  {
    hide MembersText, Order, Pick;
  }

  /** The text of the elements from number `k` on. */
  function ElementsFrom(rs: seq<Value>, k: nat, first: bool): bytes
    requires k <= |rs|
  {
    ElementsText(rs[k..], first)
  }

  lemma ElementsStep(rs: seq<Value>, k: nat)
    requires k <= |rs|
    ensures k < |rs| ==> ElementsFrom(rs, k, true) == Text(rs[k]) + ElementsFrom(rs, k + 1, false)
    ensures ElementsFrom(rs, k, false) == if k == |rs| then [CLOSE_ARRAY] else [COMMA] + ElementsFrom(rs, k, true)
    ensures k == |rs| ==> ElementsFrom(rs, k, true) == [CLOSE_ARRAY]
  {
    hide Text;
    ElementsTextOf(rs[k..]);
    if k < |rs| {
      assert rs[k..][1..] == rs[k + 1..];
    }
    assert k == |rs| ==> rs[k..] == [];
    hide ElementsText;
  }

  // ---------------------------------------------------------------- collections

  /** The value is still there, with nothing changed outside it, and its text was appended. */
  ghost predicate IsPrinted(hash: bytes -> nat, t: seq<Token>, u: seq<Token>, i: nat, v: Value, data0: bytes, data: bytes) {
    && IsAt(hash, u, i, v)
    && Within(t, u, i, i + SizeOf(v))
    && data == data0 + Text(Reordered(hash, v))
  }

  /** Prints the value at token `i`. */
  method BuildJson(j: Jitson, i: nat, factory: Factory, ghost v: Value)
    requires IsAt(j.hash, j.jitsons, i, v) && CanPrint(v)
    modifies j, factory
    ensures IsPrinted(j.hash, old(j.jitsons), j.jitsons, i, v, old(factory.data), factory.data)
    decreases v, 0
  {
    hide ElementsAt, MembersAt, CharsAt, ArrayHead, SizeTo, MembersTo, StringText, ElementsText, MembersText, Within, StringSize;
    IsAtFits(j.hash, j.jitsons, i, v);
    KindIs(j.hash, j.jitsons, i, v);
    match j.jitsons[i].kind {
      case KNull => factory.Add(NULL);
      case KBool => factory.Add(if j.jitsons[i].data.b then TRUE else FALSE);
      case KNumber => factory.Add(Digits(j.jitsons[i].data.n));
      case KString =>
        StringIs(j.hash, j.jitsons, i, v.s);
        BuildString(j, i, factory, v.s);
      case KArray => BuildArray(j, i, factory, v.elems);
      case KObject => BuildObject(j, i, factory, v.members);
    }
  }

  method BuildArray(j: Jitson, i: nat, factory: Factory, ghost es: seq<Value>)
    requires IsAt(j.hash, j.jitsons, i, Array(es)) && CanPrint(Array(es))
    modifies j, factory
    ensures IsPrinted(j.hash, old(j.jitsons), j.jitsons, i, Array(es), old(factory.data), factory.data)
    decreases es
  {
    hide IsAt, ElementsText, Within, Text, SizeTo, SizeOf, CanPrint, ElementsFrom, Owed, Reordered, ReorderedElements;
    ghost var hash, t, rs := j.hash, j.jitsons, ReorderedElements(j.hash, es);
    ghost var end, goal := i + SizeOf(Array(es)), factory.data + Text(Reordered(hash, Array(es)));
    ArrayText(hash, es);
    IsAtFits(hash, t, i, Array(es));
    ArrayHeadIs(hash, t, i, es);
    ElementsFromAll(rs);
    OwedFirst(goal, factory.data, [OPEN_ARRAY], ElementsFrom(rs, 0, true));
    factory.Add([OPEN_ARRAY]);
    var len, k: nat := j.jitsons[i].len, 0;
    if len > 0 {
      while k < len - 1
        invariant k <= len - 1 && IsAt(hash, j.jitsons, i, Array(es)) && Within(t, j.jitsons, i, end)
        invariant Owed(goal, factory.data, ElementsFrom(rs, k, true))
      {
        ghost var u := j.jitsons;
        OwedElement(goal, factory.data, rs, k);
        BuildElement(j, i, k, factory, es);
        WithinTwice(t, u, j.jitsons, i, end, i, end);
        OwedComma(goal, factory.data, rs, k + 1);
        factory.Add([COMMA]);
        k := k + 1;
      }
      ghost var u := j.jitsons;
      OwedElement(goal, factory.data, rs, k);
      BuildElement(j, i, len - 1, factory, es);
      WithinTwice(t, u, j.jitsons, i, end, i, end);
    }
    ElementsStep(rs, len);
    OwedLast(goal, factory.data, [CLOSE_ARRAY]);
    factory.Add([CLOSE_ARRAY]);
  }

  /** What is still to be appended. */
  ghost predicate Owed(goal: bytes, data: bytes, rest: bytes) {
    goal == data + rest
  }

  lemma OwedFirst(goal: bytes, data: bytes, part: bytes, rest: bytes)
    requires goal == data + (part + rest)
    ensures Owed(goal, data + part, rest)
  {
    assert data + (part + rest) == (data + part) + rest;
  }

  lemma OwedStep(goal: bytes, data: bytes, part: bytes, rest: bytes)
    requires Owed(goal, data, part + rest)
    ensures Owed(goal, data + part, rest)
  {
    assert data + (part + rest) == (data + part) + rest;
  }

  /** An element of an array is printed, and then the comma before the next one. */
  lemma OwedElement(goal: bytes, data: bytes, rs: seq<Value>, k: nat)
    requires k < |rs| && Owed(goal, data, ElementsFrom(rs, k, true))
    ensures Owed(goal, data + Text(rs[k]), ElementsFrom(rs, k + 1, false))
  {
    hide Owed, ElementsFrom, Text;
    ElementsStep(rs, k);
    OwedStep(goal, data, Text(rs[k]), ElementsFrom(rs, k + 1, false));
  }

  lemma OwedComma(goal: bytes, data: bytes, rs: seq<Value>, k: nat)
    requires k < |rs| && Owed(goal, data, ElementsFrom(rs, k, false))
    ensures Owed(goal, data + [COMMA], ElementsFrom(rs, k, true))
  {
    hide Owed, ElementsFrom, Text;
    ElementsStep(rs, k);
    OwedStep(goal, data, [COMMA], ElementsFrom(rs, k, true));
  }

  lemma OwedLast(goal: bytes, data: bytes, rest: bytes)
    requires Owed(goal, data, rest)
    ensures data + rest == goal
  {
  }

  /** Prints one element of an array. */
  method BuildElement(j: Jitson, i: nat, k: nat, factory: Factory, ghost es: seq<Value>)
    requires IsAt(j.hash, j.jitsons, i, Array(es)) && CanPrint(Array(es)) && k < |es|
    modifies j, factory
    ensures IsAt(j.hash, j.jitsons, i, Array(es)) && Within(old(j.jitsons), j.jitsons, i, i + SizeOf(Array(es)))
    ensures factory.data == old(factory.data) + Text(Reordered(j.hash, es[k]))
    decreases es, 0
  {
    hide IsAt, Within, Text, SizeTo, SizeOf, Printable, AllPlain;
    ElementCanPrint(es, k);
    ghost var t := j.jitsons;
    var element := j.GetElement(i, k, es);
    ghost var u := j.jitsons;
    BuildJson(j, element.value, factory, es[k]);
    ElementChanged(j.hash, u, j.jitsons, i, es, k);
    WithinTwice(t, u, j.jitsons, i, i + SizeOf(Array(es)), i, i + SizeOf(Array(es)));
  }

  /** Prints the members of an object in the order of its buckets. */
  method BuildObject(j: Jitson, i: nat, factory: Factory, ghost ms: seq<Member>)
    requires IsAt(j.hash, j.jitsons, i, Object(ms)) && CanPrint(Object(ms))
    modifies j, factory
    ensures IsPrinted(j.hash, old(j.jitsons), j.jitsons, i, Object(ms), old(factory.data), factory.data)
    decreases ms
  {
    hide IsAt, Within, Text, MembersTo, SizeOf, CanPrint, RestText, Owed, Order, LastIn, ObjectIndex;
    ghost var hash, t := j.hash, j.jitsons;
    ghost var end, goal := i + SizeOf(Object(ms)), factory.data + Text(Reordered(hash, Object(ms)));
    ObjectText(hash, ms);
    IsAtFits(hash, t, i, Object(ms));
    HeadIs(hash, t, i, ms);
    MembersCanPrint(ms);
    var len := j.jitsons[i].len;
    if len == 0 {
      NoMembers(hash, ms);
      factory.Add([OPEN_OBJECT, CLOSE_OBJECT]);
      return;
    }
    if !j.jitsons[i].indexed {
      var _ := j.GetMember(i, [], 0, ms);
    }
    OwedFirst(goal, factory.data, [OPEN_OBJECT], RestText(hash, ms, Order(hash, ms, 0, |ms|), true));
    factory.Add([OPEN_OBJECT]);
    BuildBuckets(j, i, len, factory, ms, t, goal);
    OwedLast(goal, factory.data, [CLOSE_OBJECT]);
    factory.Add([CLOSE_OBJECT]);
  }

  /** An indexed object that is being printed, with the text `rest` still to be appended. */
  ghost predicate Printing(hash: bytes -> nat, t: seq<Token>, u: seq<Token>, i: nat, ms: seq<Member>, goal: bytes, data: bytes, rest: bytes) {
    && IsAt(hash, u, i, Object(ms))
    && u[i].indexed
    && Within(t, u, i, i + SizeOf(Object(ms)))
    && Owed(goal, data, rest)
  }

  /** Prints the members, bucket by bucket. */
  method BuildBuckets(j: Jitson, i: nat, len: nat, factory: Factory, ghost ms: seq<Member>, ghost t: seq<Token>, ghost goal: bytes)
    requires CanPrint(Object(ms)) && len == |ms| > 0
    requires Printing(j.hash, t, j.jitsons, i, ms, goal, factory.data, RestText(j.hash, ms, Order(j.hash, ms, 0, |ms|), true))
    modifies j, factory
    ensures Printing(j.hash, t, j.jitsons, i, ms, goal, factory.data, [CLOSE_OBJECT])
    decreases ms, 2
  {
    hide CanPrint, RestText, Order, LastIn, Printing, ObjectIndex, MembersTo;
    ghost var hash := j.hash;
    var first, b: nat := true, 0;
    while b < len
      invariant b <= len
      invariant Printing(hash, t, j.jitsons, i, ms, goal, factory.data, RestText(hash, ms, Order(hash, ms, b, |ms|), first))
    {
      PrintingHead(hash, t, j.jitsons, i, ms, goal, factory.data, RestText(hash, ms, Order(hash, ms, b, |ms|), first));
      IndexedBucket(hash, j.jitsons[i].data.index, ms, b);
      var index := j.jitsons[i].data.index[b];
      first := BuildBucket(j, i, b, index, first, factory, ms, t, goal);
      b := b + 1;
    }
    NoRest(hash, ms, first);
  }

  /** Prints the members of one bucket, from the offset of its last one on. */
  method BuildBucket(j: Jitson, i: nat, ghost b: nat, index0: nat, first0: bool, factory: Factory, ghost ms: seq<Member>, ghost t: seq<Token>, ghost goal: bytes)
    returns (first: bool)
    requires CanPrint(Object(ms)) && b < |ms| && index0 == Offset(ms, LastIn(j.hash, ms, b, |ms|))
    requires Printing(j.hash, t, j.jitsons, i, ms, goal, factory.data, RestText(j.hash, ms, Order(j.hash, ms, b, |ms|), first0))
    modifies j, factory
    ensures Printing(j.hash, t, j.jitsons, i, ms, goal, factory.data, RestText(j.hash, ms, Order(j.hash, ms, b + 1, |ms|), first))
    decreases ms, 1
  {
    hide CanPrint, RestText, Order, LastIn, Printing, MembersTo, Bucket, MemberText;
    ghost var hash := j.hash;
    ghost var n: nat := |ms|;
    var index := index0;
    first := first0;
    while index != 0
      invariant n <= |ms| && index == Offset(ms, LastIn(hash, ms, b, n))
      invariant Printing(hash, t, j.jitsons, i, ms, goal, factory.data, RestText(hash, ms, Order(hash, ms, b, n), first))
      decreases n
    {
      ghost var k: int := LastIn(hash, ms, b, n);
      OffsetIs(ms, k);
      OrderStep(hash, ms, b, n);
      RestStep(hash, ms, k, Order(hash, ms, b, k), first);
      index := BuildMember(j, i, index, first, factory, ms, k, t, goal, RestText(hash, ms, Order(hash, ms, b, k), false));
      LastInIs(hash, ms, b, n);
      LinkIs(hash, ms, b, k);
      first := false;
      n := k;
    }
    OffsetIs(ms, LastIn(hash, ms, b, n));
    OrderStep(hash, ms, b, n);
  }

  /** Prints one member and says where the next one in its bucket is. */
  method BuildMember(j: Jitson, i: nat, index: nat, first: bool, factory: Factory, ghost ms: seq<Member>, ghost k: nat, ghost t: seq<Token>, ghost goal: bytes, ghost rest: bytes)
    returns (next: nat)
    requires CanPrint(Object(ms)) && k < |ms| && index == Offset(ms, k)
    requires Printing(j.hash, t, j.jitsons, i, ms, goal, factory.data, MemberText(j.hash, ms[k], first) + rest)
    modifies j, factory
    ensures Printing(j.hash, t, j.jitsons, i, ms, goal, factory.data, rest)
    ensures next == LinkOf(j.hash, ms, k)
    decreases ms, 0
  {
    hide IsAt, Within, CanPrint, Owed, LinkOf, Offset, StringText, Text, ValueAt, SizeAt, StringLen, CharsOf, NameAt, SizeOf, MembersTo, StringSize;
    ghost var hash, u, data0, m := j.hash, j.jitsons, factory.data, ms[k];
    MembersCanPrint(ms);
    MemberHere(hash, u, i, ms, k);
    ValueHere(i, ms, k);
    if !first {
      factory.Add([COMMA]);
    }
    BuildString(j, i + index, factory, m.name);
    factory.Add([COLON]);
    BuildJson(j, i + index + SizeAt(j.jitsons, i + index), factory, m.value);
    ValueChanged(hash, u, j.jitsons, i, ms, k);
    WithinTwice(t, u, j.jitsons, i, i + SizeOf(Object(ms)), i, i + SizeOf(Object(ms)));
    assert factory.data == data0 + MemberText(hash, m, first);
    OwedStep(goal, data0, MemberText(hash, m, first), rest);
    MemberHere(hash, j.jitsons, i, ms, k);
    next := j.jitsons[i + index].len;
  }

  lemma PrintingHead(hash: bytes -> nat, t: seq<Token>, u: seq<Token>, i: nat, ms: seq<Member>, goal: bytes, data: bytes, rest: bytes)
    requires Printing(hash, t, u, i, ms, goal, data, rest)
    ensures i < |u| && u[i].Head? && u[i].data.Index? && ObjectIndex(hash, u[i].data.index, ms)
  {
    hide IsAt, Within, Owed, ObjectIndex;
    HeadIs(hash, u, i, ms);
  }

  lemma NoRest(hash: bytes -> nat, ms: seq<Member>, first: bool)
    ensures RestText(hash, ms, Order(hash, ms, |ms|, |ms|), first) == [CLOSE_OBJECT]
  {
  }

  lemma LinkIs(hash: bytes -> nat, ms: seq<Member>, b: nat, k: nat)
    requires k < |ms| && Bucket(hash, ms, ms[k].name) == b
    ensures LinkOf(hash, ms, k) == Offset(ms, LastIn(hash, ms, b, k))
  {
    hide Offset, LastIn, Bucket;
  }

  /**
   * The JSON text of the value at the start of the tokens: a strict text of the same value but for the order of the
   * members of its objects. Parsing it gives that value, and consumes all of it; the tokens still hold the value.
   */
  method ToJson(j: Jitson, ghost v: Value) returns (json: bytes)
    requires IsAt(j.hash, j.jitsons, 0, v) && CanPrint(v)
    modifies j
    ensures IsAt(j.hash, j.jitsons, 0, v) && |j.jitsons| == |old(j.jitsons)|
    ensures exists t :: G.SyntaxOk(t) && Strict(t) && G.Meaning(t) == Reordered(j.hash, v) && G.Spelled(t) == json
    ensures ParseValue(json, 0) == Ok(Reordered(j.hash, v), |json|) && SameUpToOrder(v, Reordered(j.hash, v))
  {
    hide IsAt, Text, Reordered, ParseValue, SameUpToOrder, SizeOf, Printable, Strict, G.SyntaxOk, G.Meaning, G.Spelled;
    var factory := new Factory();
    BuildJson(j, 0, factory, v);
    json := factory.data;
    assert json == Text(Reordered(j.hash, v));
    PrintRoundTrip(j.hash, v);
    ReorderedPrintable(j.hash, v);
    ghost var t := TextIsStrict(Reordered(j.hash, v));
  }

  lemma ElementsFromAll(rs: seq<Value>)
    ensures ElementsFrom(rs, 0, true) == ElementsText(rs, true)
  {
    assert rs[0..] == rs;
    hide ElementsText;
  }

  lemma ElementCanPrint(es: seq<Value>, k: nat)
    requires CanPrint(Array(es)) && k < |es|
    ensures CanPrint(es[k])
  {
  }

  lemma KindIs(hash: bytes -> nat, t: seq<Token>, i: nat, v: Value)
    requires IsAt(hash, t, i, v) && CanPrint(v)
    ensures i < |t| && t[i].Head?
    ensures match t[i].kind
      case KNull => v == Null
      case KBool => v.Bool? && t[i].data == Boolean(v.b)
      case KNumber => v.Uint? && t[i].data == Integer(v.n)
      case KString => v.Str?
      case KArray => v.Array?
      case KObject => v.Object?
  {
    hide ElementsAt, MembersAt, CharsAt, Linked, Unlinked, ObjectIndex, ArrayIndex, SizeTo, MembersTo;
  }

  lemma StringIs(hash: bytes -> nat, t: seq<Token>, i: nat, s: bytes)
    requires IsAt(hash, t, i, Str(s))
    ensures i < |t| && t[i].Head? && StringLen(t, i) == |s| && CharsOf(t, i, |s|) == s
  {
    hide CharsAt, CharsOf;
    CharsOfIs(t, i, s);
  }

  lemma MembersCanPrint(ms: seq<Member>)
    requires CanPrint(Object(ms))
    ensures NamesPlain(ms) && forall k :: 0 <= k < |ms| ==> CanPrint(ms[k].value)
  {
  }

  lemma NoMembers(hash: bytes -> nat, ms: seq<Member>)
    requires ms == []
    ensures Text(Reordered(hash, Object(ms))) == [OPEN_OBJECT, CLOSE_OBJECT]
  {
    assert Order(hash, ms, 0, 0) == [];
  }
}
