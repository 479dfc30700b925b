/** Sequences of calls that build a value, in terms of the collections that are under construction. */
module JitsonCalls {
  import opened Bytes
  import opened JsonValue
  import opened JitsonTokens
  import opened JitsonFrames

  datatype Call = Open(kind: Kind) | Name(name: bytes) | Add(v: Value) | Close

  /** The collections under construction, the number of tokens, and the collections that were completed. */
  datatype Builder = Builder(frames: seq<Frame>, count: nat, done: seq<Value>)

  /** A value that one call adds. */
  predicate Single(v: Value) {
    v.Null? || v.Bool? || v.Uint? || (v.Str? && 0 !in v.s)
  }

  /** What the calls assert. */
  predicate Legal(b: Builder, c: Call) {
    match c
    case Open(kind) => (kind == KArray || kind == KObject) && (b.frames == [] || CanAdd(Last(b.frames)))
    case Name(name) => 0 !in name && b.frames != [] && Last(b.frames).ObjectFrame? && Last(b.frames).name == None
    case Add(v) => Single(v) && b.frames != [] && CanAdd(Last(b.frames))
    case Close => b.frames != [] && !HasName(Last(b.frames)) && (|b.frames| > 1 ==> CanAdd(Last(Rest(b.frames))))
  }

  function Apply(b: Builder, c: Call): Builder
    requires Legal(b, c)
  {
    match c
    case Open(kind) => Builder(b.frames + [NewFrame(b.count, kind)], b.count + 1, b.done)
    case Name(name) => Builder(Named(b.frames, name), b.count + StringSize(|name|), b.done)
    case Add(v) => Builder(Added(b.frames, v), b.count + SizeOf(v), b.done)
    case Close =>
      if |b.frames| == 1 then Builder([], b.count, b.done + [ValueOf(Last(b.frames))])
      else Builder(Added(Rest(b.frames), ValueOf(Last(b.frames))), b.count, b.done)
  }

  function Run(b: Builder, cs: seq<Call>): Option<Builder>
    decreases |cs|
  {
    if cs == [] then Some(b)
    else if Legal(b, cs[0]) then Run(Apply(b, cs[0]), cs[1..])
    else None
  }

  lemma {:induction false} RunBoth(b: Builder, xs: seq<Call>, ys: seq<Call>)
    requires Run(b, xs).Some?
    ensures Run(b, xs + ys) == Run(Run(b, xs).value, ys)
    decreases |xs|
  {
    hide Apply, Legal;
    if xs == [] {
      assert xs + ys == ys;
    } else {
      RunBoth(Apply(b, xs[0]), xs[1..], ys);
      assert (xs + ys)[1..] == xs[1..] + ys;
    }
  }

  lemma RunOne(b: Builder, c: Call)
    requires Legal(b, c)
    ensures Run(b, [c]) == Some(Apply(b, c))
  {
    hide Apply, Legal;
    assert [c][1..] == [];
  }

  // ---------------------------------------------------------------- the calls that build a value

  /** A value that can be built: its numbers are unsigned integers, and its strings and names hold no NUL. */
  ghost predicate Buildable(v: Value)
    decreases v
  {
    match v
    case Array(es) => forall k :: 0 <= k < |es| ==> Buildable(es[k])
    case Object(ms) => forall k :: 0 <= k < |ms| ==> 0 !in ms[k].name && Buildable(ms[k].value)
    case _ => Single(v)
  }

  function Calls(v: Value): seq<Call>
    decreases v
  {
    match v
    case Array(es) => [Open(KArray)] + ElementCalls(es, |es|) + [Close]
    case Object(ms) => [Open(KObject)] + MemberCalls(ms, |ms|) + [Close]
    case _ => [Add(v)]
  }

  function ElementCalls(es: seq<Value>, k: nat): seq<Call>
    requires k <= |es|
    decreases es, k
  {
    if k == 0 then [] else ElementCalls(es, k - 1) + Calls(es[k - 1])
  }

  function MemberCalls(ms: seq<Member>, k: nat): seq<Call>
    requires k <= |ms|
    decreases ms, k
  {
    if k == 0 then [] else MemberCalls(ms, k - 1) + ([Name(ms[k - 1].name)] + Calls(ms[k - 1].value))
  }

  /** The builder with a value added to the innermost collection, or completed when there is none. */
  function With(b: Builder, v: Value): Builder
    requires b.frames != [] ==> CanAdd(Last(b.frames))
  {
    if b.frames == [] then Builder([], b.count + SizeOf(v), b.done + [v])
    else Builder(Added(b.frames, v), b.count + SizeOf(v), b.done)
  }

  /**
   * The calls for a value add that value, wherever one can be added, and take as many tokens as the value's size;
   * where no collection is open, an array or object is completed.
   */
  lemma {:induction false} CallsBuild(b: Builder, v: Value)
    requires Buildable(v)
    requires b.frames == [] ==> v.Array? || v.Object?
    requires b.frames != [] ==> CanAdd(Last(b.frames))
    ensures Run(b, Calls(v)) == Some(With(b, v))
    decreases v, 1
  {
    hide Run;
    if !v.Array? && !v.Object? {
      RunOne(b, Add(v));
      assert Apply(b, Add(v)) == With(b, v);
    } else {
      CollectionBuilt(b, v);
    }
  }

  function InnerCalls(v: Value): seq<Call>
    requires v.Array? || v.Object?
  {
    if v.Array? then ElementCalls(v.elems, |v.elems|) else MemberCalls(v.members, |v.members|)
  }

  ghost predicate BuildableElements(es: seq<Value>) {
    forall k :: 0 <= k < |es| ==> Buildable(es[k])
  }

  ghost predicate BuildableMembers(ms: seq<Member>) {
    forall k :: 0 <= k < |ms| ==> 0 !in ms[k].name && Buildable(ms[k].value)
  }

  /** The builder with `f` as its innermost collection instead. */
  function WithLast(b: Builder, f: Frame, size: nat): Builder
    requires b.frames != []
  {
    Builder(Rest(b.frames) + [f], b.count + size, b.done)
  }

  lemma {:induction false} CollectionBuilt(b: Builder, v: Value)
    requires Buildable(v) && (v.Array? || v.Object?)
    requires b.frames != [] ==> CanAdd(Last(b.frames))
    ensures Run(b, Calls(v)) == Some(With(b, v))
    decreases v, 0
  {
    hide Run, ElementCalls, MemberCalls, SizeTo, MembersTo, Apply;
    var open := Open(if v.Array? then KArray else KObject);
    var b1 := Apply(b, open);
    RunOne(b, open);
    OpenApplied(b, open.kind);
    var f, size := if v.Array? then ArrayFrame(b.count, v.elems) else ObjectFrame(b.count, v.members, None),
      if v.Array? then SizeTo(v.elems, |v.elems|) else MembersTo(v.members, |v.members|);
    if v.Array? {
      ElementsBuilt(b1, v.elems, |v.elems|);
      assert v.elems[..|v.elems|] == v.elems;
    } else {
      MembersBuilt(b1, v.members, |v.members|);
      assert v.members[..|v.members|] == v.members;
    }
    RunBoth(b, [open], InnerCalls(v));
    RunBoth(b, [open] + InnerCalls(v), [Close]);
    CloseApplied(b, f, 1 + size, v);
    RunOne(WithLast(b1, f, size), Close);
  }

  lemma OpenApplied(b: Builder, kind: Kind)
    requires Legal(b, Open(kind))
    ensures var b1 := Apply(b, Open(kind));
      b1.frames != [] && Last(b1.frames) == NewFrame(b.count, kind) && Rest(b1.frames) == b.frames && b1.count == b.count + 1 && b1.done == b.done
  {
    LastOf(b.frames, NewFrame(b.count, kind));
  }

  lemma CloseApplied(b: Builder, f: Frame, size: nat, v: Value)
    requires v == ValueOf(f) && !HasName(f) && size == SizeOf(v)
    requires b.frames != [] ==> CanAdd(Last(b.frames))
    ensures var b2 := Builder(b.frames + [f], b.count + size, b.done);
      Legal(b2, Close) && Apply(b2, Close) == With(b, v)
  {
    LastOf(b.frames, f);
  }

  lemma {:induction false} ElementsBuilt(b: Builder, es: seq<Value>, k: nat)
    requires k <= |es| && BuildableElements(es)
    requires b.frames != [] && Last(b.frames).ArrayFrame? && Last(b.frames).elems == []
    ensures Run(b, ElementCalls(es, k)) == Some(WithLast(b, ArrayFrame(Last(b.frames).index, es[..k]), SizeTo(es, k)))
    decreases es, 1, k
  {
    hide Run, Calls, Buildable, SizeOf;
    var i := Last(b.frames).index;
    if k == 0 {
      RunNone(b);
      assert es[..0] == [];
      assert Rest(b.frames) + [ArrayFrame(i, [])] == b.frames;
    } else {
      ElementsBuilt(b, es, k - 1);
      var c := WithLast(b, ArrayFrame(i, es[..k - 1]), SizeTo(es, k - 1));
      RunBoth(b, ElementCalls(es, k - 1), Calls(es[k - 1]));
      LastOf(Rest(b.frames), ArrayFrame(i, es[..k - 1]));
      CallsBuild(c, es[k - 1]);
      assert es[..k - 1] + [es[k - 1]] == es[..k];
    }
  }

  lemma RunNone(b: Builder)
    ensures Run(b, []) == Some(b)
  {
  }

  lemma {:induction false} MembersBuilt(b: Builder, ms: seq<Member>, k: nat)
    requires k <= |ms| && BuildableMembers(ms)
    requires b.frames != [] && Last(b.frames).ObjectFrame? && Last(b.frames).members == [] && Last(b.frames).name == None
    ensures Run(b, MemberCalls(ms, k)) == Some(WithLast(b, ObjectFrame(Last(b.frames).index, ms[..k], None), MembersTo(ms, k)))
    decreases ms, 1, k
  {
    hide Run, Calls, Buildable, SizeOf, StringSize;
    var i := Last(b.frames).index;
    if k == 0 {
      RunNone(b);
      assert ms[..0] == [];
      assert Rest(b.frames) + [ObjectFrame(i, [], None)] == b.frames;
    } else {
      MembersBuilt(b, ms, k - 1);
      var c := WithLast(b, ObjectFrame(i, ms[..k - 1], None), MembersTo(ms, k - 1));
      LastOf(Rest(b.frames), ObjectFrame(i, ms[..k - 1], None));
      var m := ms[k - 1];
      MemberBuilt(c, m);
      RunBoth(b, MemberCalls(ms, k - 1), [Name(m.name)] + Calls(m.value));
      assert ms[..k - 1] + [m] == ms[..k];
    }
  }

  /** The calls for one member. */
  lemma {:induction false} MemberBuilt(b: Builder, m: Member)
    requires 0 !in m.name && Buildable(m.value) && b.frames != [] && Last(b.frames).ObjectFrame? && Last(b.frames).name == None
    ensures Run(b, [Name(m.name)] + Calls(m.value)) ==
      Some(WithLast(b, Last(b.frames).(members := Last(b.frames).members + [m]), StringSize(|m.name|) + SizeOf(m.value)))
    decreases m
  {
    hide Run, Calls, Buildable, SizeOf, StringSize;
    var c := Apply(b, Name(m.name));
    RunOne(b, Name(m.name));
    RunBoth(b, [Name(m.name)], Calls(m.value));
    LastOf(Rest(b.frames), Last(b.frames).(name := Some(m.name)));
    CallsBuild(c, m.value);
  }
}
