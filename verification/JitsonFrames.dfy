/**
 * Collections under construction: the innermost one takes values, the others each wait for the collection inside
 * them, which they have already counted.
 */
module JitsonFrames {
  import opened Bytes
  import opened JsonValue
  import opened JitsonTokens
  import opened JitsonChars
  import opened JitsonBuild

  /** A collection under construction at token `index`, with what has been added to it. */
  datatype Frame =
    | ArrayFrame(index: nat, elems: seq<Value>)
    | ObjectFrame(index: nat, members: seq<Member>, name: Option<bytes>)

  function Count(f: Frame): nat {
    if f.ArrayFrame? then |f.elems| else |f.members|
  }

  /** A value can be added to an array, and to an object after the name of a member. */
  predicate CanAdd(f: Frame) {
    f.ArrayFrame? || f.name.Some?
  }

  predicate HasName(f: Frame) {
    f.ObjectFrame? && f.name.Some?
  }

  function AddTo(f: Frame, v: Value): Frame
    requires CanAdd(f)
  {
    if f.ArrayFrame? then f.(elems := f.elems + [v])
    else f.(members := f.members + [Member(f.name.value, v)], name := None)
  }

  function ValueOf(f: Frame): Value {
    if f.ArrayFrame? then Array(f.elems) else Object(f.members)
  }

  function Last(fs: seq<Frame>): Frame
    requires fs != []
  {
    fs[|fs| - 1]
  }

  function Rest(fs: seq<Frame>): seq<Frame>
    requires fs != []
  {
    fs[..|fs| - 1]
  }

  // ---------------------------------------------------------------- in the tokens

  /** The collection of a frame lies on top of the tokens, open and with all that was added. */
  ghost predicate FrameAt(hash: bytes -> nat, u: seq<Token>, f: Frame) {
    var i := f.index;
    && i < |u|
    && u[i].Head?
    && u[i].data.Partial?
    && u[i].data.noValue == HasName(f)
    && match f
       case ArrayFrame(_, es) => BuildingArray(hash, u[..i], u, es)
       case ObjectFrame(_, ms, None) => BuildingObject(hash, u[..i], u, ms)
       case ObjectFrame(_, ms, Some(name)) => NamedOnTop(hash, u, i, ms, name)
  }

  /** An object with the name of its next member. */
  ghost predicate NamedOnTop(hash: bytes -> nat, u: seq<Token>, i: nat, ms: seq<Member>, name: bytes) {
    && i < |u| - StringSize(|name|)
    && BuildingObject(hash, u[..i], u[..|u| - StringSize(|name|)], ms)
    && StringOnTop(u[..|u| - StringSize(|name|)], u, true, name)
  }

  /** The first token of the collection at `i`, after it has taken a value, and before. */
  function Taken(u: seq<Token>, i: int): seq<Token> {
    if 0 <= i < |u| && u[i].Head? && u[i].data.Partial?
    then u[i := u[i].(len := u[i].len + 1, data := Partial(false, u[i].data.collection))] else u
  }

  function Restored(u: seq<Token>, f: Frame): seq<Token>
    requires f.index < |u| && u[f.index].Head? && u[f.index].data.Partial?
  {
    u[f.index := u[f.index].(len := Count(f), data := Partial(HasName(f), u[f.index].data.collection))]
  }

  /** The collections of all frames, the last one innermost, and `open` says where that one is. */
  ghost predicate Stacked(hash: bytes -> nat, u: seq<Token>, open: nat, fs: seq<Frame>) {
    if fs == [] then open == 0
    else
      var f := Last(fs);
      open == f.index + 1 && FrameAt(hash, u, f) && Waiting(hash, u[..f.index], u[f.index].data.collection, Rest(fs))
  }

  /** The collections of frames that have all counted the one that comes after the tokens. */
  ghost predicate Waiting(hash: bytes -> nat, u: seq<Token>, open: nat, fs: seq<Frame>)
    decreases |fs|
  {
    if fs == [] then open == 0
    else
      var f := Last(fs);
      && open == f.index + 1
      && HasTaken(u, f)
      && CanAdd(f)
      && FrameAt(hash, Restored(u, f), f)
      && Waiting(hash, u[..f.index], u[f.index].data.collection, Rest(fs))
  }

  ghost predicate HasTaken(u: seq<Token>, f: Frame) {
    && f.index < |u|
    && u[f.index].Head?
    && u[f.index].data.Partial?
    && u[f.index].len == Count(f) + 1
    && !u[f.index].data.noValue
  }

  // ---------------------------------------------------------------- a value added

  /** What is built does not depend on the second half of the first token. */
  lemma DataFree(hash: bytes -> nat, t: seq<Token>, u: seq<Token>, d: Data, es: seq<Value>)
    requires BuildingArray(hash, t, u, es)
    ensures u[|t|].Head? && BuildingArray(hash, t, u[|t| := u[|t|].(data := d)], es)
  {
    hide ElementsAt, SizeTo;
    ElementsSame(hash, u, u[|t| := u[|t|].(data := d)], |t| + 1, es);
  }

  lemma DataFreeObject(hash: bytes -> nat, t: seq<Token>, u: seq<Token>, d: Data, ms: seq<Member>)
    requires BuildingObject(hash, t, u, ms)
    ensures u[|t|].Head? && BuildingObject(hash, t, u[|t| := u[|t|].(data := d)], ms)
  {
    hide MembersAt, MembersTo;
    MembersSame(hash, u, u[|t| := u[|t|].(data := d)], |t| + 1, ms);
  }

  /** A frame takes a value that lies on top. */
  lemma FrameTakes(hash: bytes -> nat, u: seq<Token>, w: seq<Token>, f: Frame, v: Value)
    requires FrameAt(hash, u, f) && CanAdd(f) && OnTop(hash, u, w, v)
    ensures f.index < |u| <= |w| && w[f.index] == u[f.index] && w[..f.index] == u[..f.index]
    ensures FrameAt(hash, Taken(w, f.index), AddTo(f, v))
  {
    hide FrameAt, OnTop, Taken;
    OnTopKept(hash, u, w, f, v);
    if f.ArrayFrame? {
      ArrayTakes(hash, u, w, f, v);
    } else {
      ObjectTakes(hash, u, w, f, v);
    }
  }

  lemma OnTopKept(hash: bytes -> nat, u: seq<Token>, w: seq<Token>, f: Frame, v: Value)
    requires FrameAt(hash, u, f) && OnTop(hash, u, w, v)
    ensures f.index < |u| <= |w| && w[f.index] == u[f.index] && w[..f.index] == u[..f.index]
    ensures u[f.index].Head? && u[f.index].data.Partial?
  {
    hide BuildingArray, BuildingObject, NamedOnTop, IsAt;
  }

  lemma TakenIs(w: seq<Token>, i: nat, len: nat, d: Data)
    requires i < |w| && w[i].Head? && w[i].data.Partial? && w[i].len + 1 == len && d == Partial(false, w[i].data.collection)
    ensures Counted(w, i, len)[i := Counted(w, i, len)[i].(data := d)] == Taken(w, i)
    ensures Taken(w, i)[i].Head? && Taken(w, i)[i].data == d && Taken(w, i)[..i] == w[..i] && |Taken(w, i)| == |w|
  {
  }

  lemma ArrayTakes(hash: bytes -> nat, u: seq<Token>, w: seq<Token>, f: Frame, v: Value)
    requires FrameAt(hash, u, f) && f.ArrayFrame? && OnTop(hash, u, w, v)
    requires f.index < |u| <= |w| && w[f.index] == u[f.index] && w[..f.index] == u[..f.index]
    ensures w[f.index].Head? && w[f.index].data.Partial? && FrameAt(hash, Taken(w, f.index), AddTo(f, v))
  {
    var i := f.index;
    FrameCounts(hash, u, f);
    hide OnTop, BuildingArray, Taken, Counted;
    var t, d := u[..i], Partial(false, u[i].data.collection);
    ElementAdded(hash, t, u, w, f.elems, v);
    DataFree(hash, t, Counted(w, i, |f.elems| + 1), d, f.elems + [v]);
    TakenIs(w, i, |f.elems| + 1, d);
  }

  lemma MemberTaken(hash: bytes -> nat, t: seq<Token>, u0: seq<Token>, u: seq<Token>, w: seq<Token>, ms: seq<Member>, m: Member)
    requires BuildingObject(hash, t, u0, ms) && StringOnTop(u0, u, true, m.name) && OnTop(hash, u, w, m.value)
    requires |t| < |w| && w[|t|].Head? && w[|t|].data.Partial? && w[|t|].len == |ms|
    ensures BuildingObject(hash, t, Taken(w, |t|), ms + [m])
  {
    hide OnTop, BuildingObject, Taken, Counted, StringOnTop, StringSize;
    var d := Partial(false, w[|t|].data.collection);
    MemberAdded(hash, t, u0, u, w, ms, m);
    DataFreeObject(hash, t, Counted(w, |t|, |ms| + 1), d, ms + [m]);
    TakenIs(w, |t|, |ms| + 1, d);
  }

  lemma ObjectTakes(hash: bytes -> nat, u: seq<Token>, w: seq<Token>, f: Frame, v: Value)
    requires FrameAt(hash, u, f) && HasName(f) && OnTop(hash, u, w, v)
    requires f.index < |u| <= |w| && w[f.index] == u[f.index] && w[..f.index] == u[..f.index]
    ensures w[f.index].Head? && w[f.index].data.Partial? && FrameAt(hash, Taken(w, f.index), AddTo(f, v))
  {
    var i := f.index;
    FrameCounts(hash, u, f);
    hide OnTop, BuildingObject, Taken, StringOnTop, StringSize;
    var m := Member(f.name.value, v);
    MemberTaken(hash, u[..i], u[..|u| - StringSize(|m.name|)], u, w, f.members, m);
    TakenIs(w, i, |f.members| + 1, Partial(false, w[i].data.collection));
  }

  lemma FrameCounts(hash: bytes -> nat, u: seq<Token>, f: Frame)
    requires FrameAt(hash, u, f)
    ensures u[f.index].len == Count(f)
  {
    hide ElementsAt, MembersAt, Unlinked, CharsAt, StringSize, MembersTo, SizeTo;
  }

  // ---------------------------------------------------------------- the calls

  /** The frames after a value was added to the innermost collection. */
  function Added(fs: seq<Frame>, v: Value): seq<Frame>
    requires fs != [] && CanAdd(Last(fs))
  {
    Rest(fs) + [AddTo(Last(fs), v)]
  }

  function Named(fs: seq<Frame>, name: bytes): seq<Frame>
    requires fs != [] && Last(fs).ObjectFrame?
  {
    Rest(fs) + [Last(fs).(name := Some(name))]
  }

  function NewFrame(index: nat, kind: Kind): Frame {
    if kind == KArray then ArrayFrame(index, []) else ObjectFrame(index, [], None)
  }

  /** The first token of a new collection; it remembers which collection was open. */
  function NewHead(kind: Kind, open: nat): Token {
    Head(kind, false, false, false, 0, Partial(false, open))
  }

  lemma LastOf(fs: seq<Frame>, f: Frame)
    ensures Last(fs + [f]) == f && Rest(fs + [f]) == fs
  {
  }

  lemma StackTakes(hash: bytes -> nat, u: seq<Token>, w: seq<Token>, open: nat, fs: seq<Frame>, v: Value)
    requires fs != [] && Stacked(hash, u, open, fs) && CanAdd(Last(fs)) && OnTop(hash, u, w, v)
    ensures 0 < open <= |u| <= |w| && w[open - 1] == u[open - 1]
    ensures w[open - 1].Head? && w[open - 1].data.Partial? && Stacked(hash, Taken(w, open - 1), open, Added(fs, v))
  {
    hide FrameAt, OnTop, Waiting, Taken;
    var f := Last(fs);
    FrameTakes(hash, u, w, f, v);
    OnTopKept(hash, u, w, f, v);
    TakenIs(w, f.index, w[f.index].len + 1, Partial(false, w[f.index].data.collection));
    LastOf(Rest(fs), AddTo(f, v));
  }

  /** A token added after the innermost collection has counted it. */
  lemma ScalarTaken(hash: bytes -> nat, u: seq<Token>, x: seq<Token>, open: nat, fs: seq<Frame>, h: Token, v: Value)
    requires fs != [] && Stacked(hash, u, open, fs) && CanAdd(Last(fs)) && Scalar(h, v)
    requires 0 < open <= |u| && u[open - 1].Head? && u[open - 1].data.Partial?
    requires x == Taken(u, open - 1) + [h]
    ensures Stacked(hash, x, open, Added(fs, v)) && |x| == |u| + SizeOf(v)
  {
    hide Stacked, OnTop, Scalar;
    var w := u + [h];
    ScalarOnTop(hash, u, w, v);
    StackTakes(hash, u, w, open, fs, v);
    assert Taken(w, open - 1) == x;
    OneToken(h, v);
  }

  lemma OneToken(h: Token, v: Value)
    requires Scalar(h, v)
    ensures SizeOf(v) == 1
  {
  }

  /** The innermost collection with its flag for a missing value cleared, before it counts the value. */
  function Flagged(u: seq<Token>, i: nat, noValue: bool): seq<Token>
    requires i < |u| && u[i].Head? && u[i].data.Partial?
  {
    u[i := u[i].(data := Partial(noValue, u[i].data.collection))]
  }

  /** A string pushed, and then counted by the innermost collection. */
  lemma StringTaken(hash: bytes -> nat, u: seq<Token>, x: seq<Token>, open: nat, fs: seq<Frame>, s: bytes)
    requires 0 < open <= |u| && u[open - 1].Head? && u[open - 1].data.Partial?
    requires StringOnTop(Flagged(u, open - 1, false), x, false, s)
    requires fs != [] && CanAdd(Last(fs)) && Stacked(hash, u, open, fs)
    ensures |u| <= |x| && x[open - 1] == Flagged(u, open - 1, false)[open - 1] && |x| == |u| + StringSize(|s|)
    ensures Stacked(hash, Counted(x, open - 1, x[open - 1].len + 1), open, Added(fs, Str(s)))
  {
    hide Stacked, StringOnTop, StringSize, OnTop;
    var i := open - 1;
    var y := Flagged(u, i, false);
    StringIsValue(hash, y, x, s);
    StringKeeps(y, x, false, s);
    OnTopUnder(hash, y, x, i, u[i], Str(s));
    assert y[i := u[i]] == u;
    StackTakes(hash, u, x[i := u[i]], open, fs, Str(s));
    assert Taken(x[i := u[i]], i) == Counted(x, i, x[i].len + 1);
  }

  /** A collection opened where none is open. */
  lemma FirstOpened(hash: bytes -> nat, u: seq<Token>, x: seq<Token>, kind: Kind)
    requires kind == KArray || kind == KObject
    requires x == u + [NewHead(kind, 0)]
    ensures Stacked(hash, x, |u| + 1, [NewFrame(|u|, kind)])
  {
    hide BuildingArray, BuildingObject;
    NewFrameAt(hash, u, x, kind, 0);
    assert Rest([NewFrame(|u|, kind)]) == [];
  }

  lemma NewFrameAt(hash: bytes -> nat, u: seq<Token>, x: seq<Token>, kind: Kind, open: nat)
    requires kind == KArray || kind == KObject
    requires x == u + [NewHead(kind, open)]
    ensures x[..|u|] == u && x[|u|] == NewHead(kind, open) && FrameAt(hash, x, NewFrame(|u|, kind))
  {
    assert x[..|u|] == u;
    if kind == KArray {
      ArrayStarts(hash, u, x);
    } else {
      ObjectStarts(hash, u, x);
    }
    hide BuildingArray, BuildingObject;
  }

  /** A collection opened inside another, which takes it at once. */
  lemma InnerOpened(hash: bytes -> nat, u: seq<Token>, x: seq<Token>, open: nat, fs: seq<Frame>, kind: Kind)
    requires kind == KArray || kind == KObject
    requires 0 < open <= |u| && u[open - 1].Head? && u[open - 1].data.Partial?
    requires x == Taken(u, open - 1) + [NewHead(kind, open)]
    requires fs != [] && Stacked(hash, u, open, fs) && CanAdd(Last(fs))
    ensures Stacked(hash, x, |u| + 1, fs + [NewFrame(|u|, kind)])
  {
    hide FrameAt, Waiting, BuildingArray, BuildingObject;
    var t := Taken(u, open - 1);
    NewFrameAt(hash, t, x, kind, open);
    LastOf(fs, NewFrame(|u|, kind));
    TakenWaits(hash, u, open, fs);
  }

  lemma TakenWaits(hash: bytes -> nat, u: seq<Token>, open: nat, fs: seq<Frame>)
    requires fs != [] && Stacked(hash, u, open, fs) && CanAdd(Last(fs))
    ensures Waiting(hash, Taken(u, open - 1), open, fs)
  {
    hide FrameAt, HasTaken, Restored, Taken;
    var f := Last(fs);
    FrameHead(hash, u, f);
    TakenRestored(u, f);
  }

  lemma FrameHead(hash: bytes -> nat, u: seq<Token>, f: Frame)
    requires FrameAt(hash, u, f)
    ensures f.index < |u| && u[f.index].Head? && u[f.index].data.Partial?
    ensures u[f.index].len == Count(f) && u[f.index].data.noValue == HasName(f)
  {
    FrameCounts(hash, u, f);
    hide BuildingArray, BuildingObject, NamedOnTop;
  }

  lemma TakenRestored(u: seq<Token>, f: Frame)
    requires f.index < |u| && u[f.index].Head? && u[f.index].data.Partial?
    requires u[f.index].len == Count(f) && u[f.index].data.noValue == HasName(f)
    ensures HasTaken(Taken(u, f.index), f) && Restored(Taken(u, f.index), f) == u
    ensures Taken(u, f.index)[..f.index] == u[..f.index]
    ensures Taken(u, f.index)[f.index].data.collection == u[f.index].data.collection
  {
  }

  /** A name pushed for the next member of an object. */
  lemma StackNames(hash: bytes -> nat, u: seq<Token>, w: seq<Token>, x: seq<Token>, open: nat, fs: seq<Frame>, name: bytes)
    requires fs != [] && Stacked(hash, u, open, fs) && Last(fs).ObjectFrame? && Last(fs).name == None
    requires 0 < open <= |u| && u[open - 1].Head? && u[open - 1].data.Partial?
    requires w == u[open - 1 := u[open - 1].(data := Partial(true, u[open - 1].data.collection))]
    requires StringOnTop(w, x, true, name)
    ensures Stacked(hash, x, open, Named(fs, name))
  {
    hide BuildingObject, Waiting, CharsAt, StringSize;
    var f := Last(fs);
    var i := f.index;
    DataFreeObject(hash, u[..i], u, Partial(true, u[i].data.collection), f.members);
    assert x[..|w|] == w && x[..i] == u[..i] && x[i] == w[i];
    LastOf(Rest(fs), f.(name := Some(name)));
  }

  /** The last collection closed: its value lies on top. */
  lemma LastCloses(hash: bytes -> nat, u: seq<Token>, open: nat, fs: seq<Frame>)
    requires |fs| == 1 && Stacked(hash, u, open, fs) && !HasName(Last(fs))
    ensures 0 < open <= |u| && u[open - 1].Head? && u[open - 1].data.Partial? && u[open - 1].data.collection == 0
    ensures OnTop(hash, u[..open - 1], Closed(u, open - 1), ValueOf(Last(fs)))
  {
    hide FrameAt, OnTop;
    FrameCloses(hash, u, Last(fs));
  }

  lemma FrameCloses(hash: bytes -> nat, u: seq<Token>, f: Frame)
    requires FrameAt(hash, u, f) && !HasName(f)
    ensures f.index < |u| && u[f.index].Head? && u[f.index].data.Partial?
    ensures OnTop(hash, u[..f.index], Closed(u, f.index), ValueOf(f))
  {
    hide OnTop, BuildingArray, BuildingObject;
    if f.ArrayFrame? {
      ArrayCloses(hash, u[..f.index], u, f.elems);
    } else {
      ObjectCloses(hash, u[..f.index], u, f.members);
    }
  }

  /** A collection closed inside another, which has taken it already. */
  lemma InnerCloses(hash: bytes -> nat, u: seq<Token>, open: nat, fs: seq<Frame>)
    requires |fs| > 1 && Stacked(hash, u, open, fs) && !HasName(Last(fs))
    ensures 0 < open <= |u| && u[open - 1].Head? && u[open - 1].data.Partial? && CanAdd(Last(Rest(fs)))
    ensures Stacked(hash, Closed(u, open - 1), u[open - 1].data.collection, Added(Rest(fs), ValueOf(Last(fs))))
  {
    hide FrameAt, OnTop, Waiting, Closed;
    var f := Last(fs);
    FrameCloses(hash, u, f);
    WaitingTakes(hash, u[..f.index], Closed(u, f.index), u[f.index].data.collection, Rest(fs), ValueOf(f));
  }

  lemma WaitingTakes(hash: bytes -> nat, u: seq<Token>, w: seq<Token>, open: nat, fs: seq<Frame>, v: Value)
    requires fs != [] && Waiting(hash, u, open, fs) && OnTop(hash, u, w, v)
    ensures CanAdd(Last(fs)) && Stacked(hash, w, open, Added(fs, v))
  {
    hide FrameAt, IsAt, Waiting, SizeOf;
    WaitingLast(hash, u, open, fs);
    var f := Last(fs);
    var i := f.index;
    var r, x := Restored(u, f), w[i := Restored(u, f)[i]];
    hide OnTop;
    OnTopUnder(hash, u, w, i, r[i], v);
    assert Stacked(hash, r, open, fs) by {
      assert r[..i] == u[..i];
    }
    StackTakes(hash, r, x, open, fs, v);
    OnTopPrefix(hash, u, w, i, v);
    assert Taken(x, i) == w;
  }

  lemma WaitingLast(hash: bytes -> nat, u: seq<Token>, open: nat, fs: seq<Frame>)
    requires fs != [] && Waiting(hash, u, open, fs)
    ensures open == Last(fs).index + 1 && HasTaken(u, Last(fs)) && CanAdd(Last(fs))
    ensures FrameAt(hash, Restored(u, Last(fs)), Last(fs))
    ensures Waiting(hash, u[..Last(fs).index], u[Last(fs).index].data.collection, Rest(fs))
  {
  }

  lemma OnTopPrefix(hash: bytes -> nat, u: seq<Token>, w: seq<Token>, i: nat, v: Value)
    requires OnTop(hash, u, w, v) && i < |u|
    ensures |u| < |w| && w[i] == u[i]
  {
  }

  /** A value on top does not depend on the tokens under it. */
  lemma OnTopUnder(hash: bytes -> nat, u: seq<Token>, w: seq<Token>, i: nat, h: Token, v: Value)
    requires OnTop(hash, u, w, v) && i < |u|
    ensures |u| < |w| && OnTop(hash, u[i := h], w[i := h], v)
  {
    hide IsAt, SizeOf;
    IsAtSame(hash, w, w[i := h], |u|, v);
  }
}
