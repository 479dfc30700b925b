/** The stack of tokens, and the parser that loads a JSON text onto it. */
module JitsonStack {
  import opened Bytes
  import opened JsonValue
  import opened JsonParse
  import opened JitsonTokens
  import opened JitsonChars
  import opened JitsonBuild
  import opened JitsonSource
  import opened JitsonFrames
  import opened JitsonCalls
  import opened Jitson
  import G = JsonGrammar

  const STACK_MAX_INCR: nat := 4096

  /** What loading a value reports, and what it leaves on the stack: the value, or nothing. */
  ghost predicate Loaded(hash: bytes -> nat, t: seq<Token>, u: seq<Token>, r: Parsed<Value>, ok: bool, errno: Errno, next: nat) {
    match r
    case Ok(v, q) => ok && next == q && OnTop(hash, t, u, v)
    case Err(e) => !ok && errno == e && u == t
  }

  ghost predicate StringLoaded(t: seq<Token>, u: seq<Token>, key: bool, r: Parsed<bytes>, ok: bool, errno: Errno, next: nat) {
    match r
    case Ok(x, q) => ok && next == q && StringOnTop(t, u, key, x)
    case Err(e) => !ok && errno == e && u == t
  }

  ghost predicate MemberLoaded(hash: bytes -> nat, t: seq<Token>, w: seq<Token>, u: seq<Token>, r: Parsed<Member>, ok: bool, errno: Errno, next: nat) {
    match r
    case Ok(m, q) => ok && next == q && StringOnTop(t, w, true, m.name) && OnTop(hash, w, u, m.value)
    case Err(e) => !ok && errno == e
  }

  /** The escape read from position `p` on. */
  ghost predicate EscapeGot(s: bytes, p: nat, ok: bool, c: byte, next: nat) {
    p <= |s| && match ParseEscape(s, p)
                case Ok(d, q) => ok && c == d && next == q
                case Err(e) => e == EILSEQ && !ok
  }

  /** The least multiple of `m` that is at least `e`. */
  lemma RoundedUp(e: nat, m: nat)
    requires e > 0 && m > 0
    ensures e <= ((e - 1) / m + 1) * m < e + m
  {
    var q, r := (e - 1) / m, (e - 1) % m;
    assert e - 1 == q * m + r;
    assert (q + 1) * m == q * m + m;
  }

  /** The tokens up to `count` of a stack; what lies after them is not represented. */
  class Stack {
    var maximum: nat
    var jitsons: seq<Token>
    var open: nat
    ghost const hash: bytes -> nat
    ghost var frames: seq<Frame>
    ghost var done: seq<Value>

    ghost predicate Valid()
      reads this
    {
      maximum > 0 && |jitsons| <= maximum
    }

    constructor (initSize: nat, ghost hash: bytes -> nat)
      requires initSize > 0
      ensures Valid() && jitsons == [] && open == 0 && this.hash == hash
      ensures Building() && Completed() && State() == Builder([], 0, [])
    {
      maximum, jitsons, open := initSize, [], 0;
      this.hash := hash;
      frames, done := [], [];
    }

    /** The collections under construction lie on the stack. */
    ghost predicate Building()
      reads this
    {
      Valid() && Stacked(hash, jitsons, open, frames)
    }

    /** Where the tokens end that no call for construction changes. */
    ghost function Base(): nat
      reads this
    {
      if frames == [] then |jitsons| else frames[0].index
    }

    /** All collections that were completed lie on the stack, one after the other. */
    ghost predicate Completed()
      reads this
    {
      AllAt(hash, jitsons, 0, done, Base())
    }

    ghost function State(): Builder
      reads this
    {
      Builder(frames, |jitsons|, done)
    }

    /** Makes room for more tokens; what is in them is not known. */
    method Expand(more: nat) returns (index: nat)
      requires Valid()
      modifies this`maximum, this`jitsons
      ensures Valid() && index == |old(jitsons)| && |jitsons| == index + more && Same(old(jitsons), jitsons, 0, index)
      ensures forall j :: index <= j < |jitsons| ==> HoldsChars(jitsons[j], false)
      ensures index + more <= old(maximum) ==> maximum == old(maximum)
      ensures index + more > old(maximum) ==>
        maximum < index + more + if index + more < STACK_MAX_INCR then old(maximum) else STACK_MAX_INCR
    {
      var expanded := |jitsons| + more;
      if expanded > maximum {
        if expanded < STACK_MAX_INCR {
          RoundedUp(expanded, maximum);
          maximum := ((expanded - 1) / maximum + 1) * maximum;
        } else {
          RoundedUp(expanded, STACK_MAX_INCR);
          maximum := ((expanded - 1) / STACK_MAX_INCR + 1) * STACK_MAX_INCR;
        }
      }
      index := |jitsons|;
      jitsons := jitsons + seq(more, _ => More(Zeros(TOKEN_SIZE)));
    }

    // -------------------------------------------------------------- strings

    /** The hexadecimal digits of an escape. */
    method GetHex(source: Source) returns (ok: bool, unicode: nat)
      requires source.next <= |source.json|
      modifies source
      ensures match ParseHex(source.json, old(source.next), 4, 0)
        case Ok(u, q) => ok && unicode == u && source.next == q
        case Err(e) => e == EILSEQ && !ok
    {
      var i := 0;
      unicode := 0;
      while i < 4
        invariant i <= 4 && source.next <= |source.json|
        invariant ParseHex(source.json, old(source.next), 4, 0) == ParseHex(source.json, source.next, 4 - i, unicode)
      {
        var c := source.GetChar();
        if HexValue(c) < 0 {
          return false, 0;
        }
        unicode := 16 * unicode + HexValue(c);
        i := i + 1;
      }
      ok := true;
    }

    /** The character that an escape stands for. */
    method GetEscape(source: Source) returns (ok: bool, c: byte)
      requires source.next <= |source.json| && ParseEscape(source.json, source.next) != Err(Wide)
      modifies source
      ensures EscapeGot(source.json, old(source.next), ok, c, source.next)
      ensures forall d: byte, q: nat :: G.EscapeAt(source.json, old(source.next), d, q) <==> ok && d == c && q == source.next
    {
      hide ParseHex, G.EscapeAt;
      G.EscapesRead(source.json, source.next);
      c := source.GetChar();
      if Escaped(c).Some? {
        return true, Escaped(c).value;
      } else if c == 0x75 {
        var unicode;
        ok, unicode := GetHex(source);
        c := if ok then unicode else 0;
      } else {
        ok := false;
      }
    }

    /** Puts a character at the end of the string at `index`, and makes room for another token when it reaches the edge. */
    method AppendChar(index: nat, c: byte, ghost t: seq<Token>, ghost key: bool, ghost x: bytes)
      requires Valid() && index == |t| && Reading(t, jitsons, key, x)
      modifies this`maximum, this`jitsons
      ensures Valid() && Reading(t, jitsons, key, x + [c])
    {
      hide CharAt;
      var len := jitsons[index].len;
      ghost var u := jitsons;
      PutCharIs(jitsons, index, StringSize(len), len, c);
      jitsons := PutChar(jitsons, index, len, c);
      jitsons := jitsons[index := jitsons[index].(len := len + 1)];
      var edge := (len + 1) % TOKEN_SIZE;
      hide Reading, PutChar, Room;
      if TOKEN_SIZE / 2 <= edge < TOKEN_SIZE / 2 + 1 {
        var _ := Expand(1);
      }
      ReadingGoesOn(t, u, jitsons, key, x, c);
    }

    /** Discards all tokens from `index` on. */
    method Discard(index: nat, ghost t: seq<Token>)
      requires Valid() && index == |t| <= |jitsons| && Same(t, jitsons, 0, index)
      modifies this`jitsons
      ensures Valid() && jitsons == t
    {
      jitsons := jitsons[..index];
    }

    /** Loads a string, or the name of a member, from after its first quote on. */
    method LoadString(source: Source, isName: bool) returns (ok: bool, errno: Errno)
      requires Valid() && source.next <= |source.json| && ParseString(source.json, source.next, []) != Err(Wide)
      modifies this`maximum, this`jitsons, source
      ensures Valid()
      ensures StringLoaded(old(jitsons), jitsons, isName, ParseString(source.json, old(source.next), []), ok, errno, source.next)
      ensures forall x: bytes, q: nat :: G.StringAt(source.json, old(source.next), x, q) ==>
        ok && source.next == q && StringOnTop(old(jitsons), jitsons, isName, x)
      ensures ok ==> exists x :: G.StringAt(source.json, old(source.next), x, source.next) && StringOnTop(old(jitsons), jitsons, isName, x)
    {
      hide Reading, StringOnTop, ParseEscape, CharAt, G.StringAt;
      G.StringsRead(source.json, source.next);
      ghost var t, p, x: bytes := jitsons, source.next, [];
      var index := Expand(1);
      jitsons := jitsons[index := Head(KString, isName, false, false, 0, Chars(Zeros(STRING_SIZE)))];
      ReadingStarts(t, Zeros(STRING_SIZE), isName);
      assert jitsons == t + [Head(KString, isName, false, false, 0, Chars(Zeros(STRING_SIZE)))];
      var c := source.GetChar();
      while c != QUOTE
        invariant Valid() && index == |t| && Reading(t, jitsons, isName, x)
        invariant 0 < source.next <= |source.json| + 1 && c == At(source.json, source.next - 1)
        invariant ParseString(source.json, p, []) == ParseString(source.json, source.next - 1, x) != Err(Wide)
        decreases |source.json| + 1 - source.next
      {
        ok, errno := c != 0, EINVAL;
        if c == BACKSLASH {
          ok, c := GetEscape(source);
          errno := EILSEQ;
        }
        if !ok {
          ReadingKeeps(t, jitsons, isName, x);
          Discard(index, t);
          return;
        }
        AppendChar(index, c, t, isName, x);
        x := x + [c];
        c := source.GetChar();
      }
      ReadingEnds(t, jitsons, isName, x);
      ReadingKeeps(t, jitsons, isName, x);
      jitsons := PutChar(jitsons, index, jitsons[index].len, 0);
      ok, errno := true, EINVAL;
    }

    // -------------------------------------------------------------- values

    /** Loads a number into the token at `index`. */
    method LoadNumber(source: Source, index: nat, ghost t: seq<Token>) returns (ok: bool, errno: Errno)
      requires Valid() && source.next <= |source.json| && index == |t| && OneMore(t, jitsons)
      modifies this`jitsons, source
      ensures Valid()
      ensures Loaded(hash, t, jitsons, ParseNumber(source.json, old(source.next)), ok, errno, source.next)
    {
      hide ParseNumber, IsAt, StrToUl;
      var token := source.next;
      var len, isUint;
      errno := EINVAL;
      ok, len, isUint := source.GetNumber();
      if !ok {
        Discard(index, t);
        return;
      }
      var text := source.json[token..token + len];
      ghost var v := NumberOf(text, isUint);
      if isUint {
        UintText(text);
        jitsons := jitsons[index := Head(KNumber, false, true, false, 0, Integer(StrToUl(text)))];
      } else {
        jitsons := jitsons[index := Head(KNumber, false, false, false, 0, Double(text))];
      }
      ScalarOnTop(hash, t, jitsons, v);
      hide OnTop;
    }

    /** Loads one of the words of JSON into the token at `index`. */
    method LoadWord(source: Source, index: nat, ghost t: seq<Token>) returns (ok: bool, errno: Errno)
      requires Valid() && source.next <= |source.json| && index == |t| && OneMore(t, jitsons)
      modifies this`jitsons, source
      ensures Valid()
      ensures Loaded(hash, t, jitsons, ParseWord(source.json, old(source.next)), ok, errno, source.next)
    {
      hide SkipIdent, IsAt;
      var token := source.next;
      var len := source.GetIdentifier();
      var text := source.json[token..token + len];
      ok, errno := true, EINVAL;
      if text == FALSE {
        jitsons := jitsons[index := Head(KBool, false, false, false, 0, Boolean(false))];
        ScalarOnTop(hash, t, jitsons, Bool(false));
      } else if text == NULL {
        jitsons := jitsons[index := Head(KNull, false, false, false, 0, Nothing)];
        ScalarOnTop(hash, t, jitsons, Null);
      } else if text == TRUE {
        jitsons := jitsons[index := Head(KBool, false, false, false, 0, Boolean(true))];
        ScalarOnTop(hash, t, jitsons, Bool(true));
      } else {
        ok := false;
        Discard(index, t);
      }
      hide OnTop;
    }

    /** Loads an array, from after its opening bracket on, into the token at `index` and those after it. */
    method LoadArray(source: Source, index: nat, ghost t: seq<Token>) returns (ok: bool, errno: Errno)
      requires Valid() && source.next <= |source.json| && index == |t| && OneMore(t, jitsons)
      requires ParseArray(source.json, source.next) != Err(Wide)
      modifies this`maximum, this`jitsons, source
      ensures Valid()
      ensures Loaded(hash, t, jitsons, ParseArray(source.json, old(source.next)), ok, errno, source.next)
      decreases |source.json| - source.next, 1
    {
      hide ParseValue, SkipSpace, BuildingArray, OnTop, G.ValueAt;
      ghost var p, es: seq<Value> := source.next, [];
      errno := EINVAL;
      jitsons := jitsons[index := Head(KArray, false, false, false, 0, Nothing)];
      ArrayStarts(hash, t, jitsons);
      var c := source.GetNonspace();
      if c == CLOSE_ARRAY {
        ArrayCloses(hash, t, jitsons, []);
        jitsons := jitsons[index := jitsons[index].(data := Integer(1))];
        return true, errno;
      }
      source.PushChar(c);
      while true
        invariant Valid() && BuildingArray(hash, t, jitsons, es) && p <= source.next <= |source.json|
        invariant ParseArray(source.json, p) == ParseElements(source.json, source.next, es) != Err(Wide)
        decreases |source.json| - source.next
      {
        ghost var u, r := jitsons, ParseValue(source.json, source.next);
        BuildingKeeps(hash, t, u, es);
        ok, errno := LoadJson(source);
        if !ok {
          Discard(index, t);
          return;
        }
        ElementAdded(hash, t, u, jitsons, es, r.value);
        OnTopKeeps(hash, u, jitsons, r.value);
        jitsons := Counted(jitsons, index, jitsons[index].len + 1);
        es := es + [r.value];
        c := source.GetNonspace();
        if c != COMMA {
          break;
        }
      }
      BuildingKeeps(hash, t, jitsons, es);
      if c == CLOSE_ARRAY {
        ArrayCloses(hash, t, jitsons, es);
        jitsons := Closed(jitsons, index);
      } else {
        ok, errno := false, EINVAL;
        Discard(index, t);
      }
    }

    /** Loads a member of an object, from after the quote of its name on. */
    method LoadMember(source: Source) returns (ok: bool, errno: Errno, ghost named: seq<Token>)
      requires Valid() && source.next <= |source.json| && ParseMember(source.json, source.next) != Err(Wide)
      modifies this`maximum, this`jitsons, source
      ensures Valid() && |old(jitsons)| <= |jitsons| && Same(old(jitsons), jitsons, 0, |old(jitsons)|)
      ensures MemberLoaded(hash, old(jitsons), named, jitsons, ParseMember(source.json, old(source.next)), ok, errno, source.next)
      decreases |source.json| - source.next, 1
    {
      hide ParseValue, ParseString, SkipSpace, OnTop, StringOnTop, G.ValueAt, G.StringAt;
      ghost var t := jitsons;
      ghost var name := ParseString(source.json, source.next, []);
      ok, errno := LoadString(source, true);
      named := jitsons;
      if !ok {
        return;
      }
      StringKeeps(t, named, true, name.value);
      var c := source.GetNonspace();
      if c != COLON {
        return false, EINVAL, named;
      }
      ghost var value := ParseValue(source.json, source.next);
      ok, errno := LoadJson(source);
      if ok {
        OnTopKeeps(hash, named, jitsons, value.value);
      }
    }

    /** Loads an object, from after its opening bracket on, into the token at `index` and those after it. */
    method LoadObject(source: Source, index: nat, ghost t: seq<Token>) returns (ok: bool, errno: Errno)
      requires Valid() && source.next <= |source.json| && index == |t| && OneMore(t, jitsons)
      requires ParseObject(source.json, source.next) != Err(Wide)
      modifies this`maximum, this`jitsons, source
      ensures Valid()
      ensures Loaded(hash, t, jitsons, ParseObject(source.json, old(source.next)), ok, errno, source.next)
      decreases |source.json| - source.next, 2
    {
      hide ParseMember, SkipSpace, BuildingObject, OnTop, StringOnTop, G.ValueAt, G.StringAt;
      ghost var p, ms: seq<Member> := source.next, [];
      errno := EINVAL;
      jitsons := jitsons[index := Head(KObject, false, false, false, 0, Nothing)];
      ObjectStarts(hash, t, jitsons);
      var c := source.GetNonspace();
      if c == CLOSE_OBJECT {
        ObjectCloses(hash, t, jitsons, []);
        jitsons := jitsons[index := jitsons[index].(data := Integer(1))];
        return true, errno;
      }
      while true
        invariant Valid() && BuildingObject(hash, t, jitsons, ms)
        invariant p < source.next <= |source.json| + 1 && c == At(source.json, source.next - 1)
        invariant ParseObject(source.json, p) == ParseMembers(source.json, source.next - 1, ms) != Err(Wide)
        decreases |source.json| + 1 - source.next
      {
        ghost var u := jitsons;
        BuildingObjectKeeps(hash, t, u, ms);
        if c != QUOTE {
          Discard(index, t);
          return false, EINVAL;
        }
        ghost var r := ParseMember(source.json, source.next);
        ghost var named;
        ok, errno, named := LoadMember(source);
        if !ok {
          Discard(index, t);
          return;
        }
        MemberAdded(hash, t, u, named, jitsons, ms, r.value);
        jitsons := Counted(jitsons, index, jitsons[index].len + 1);
        ms := ms + [r.value];
        c := source.GetNonspace();
        if c != COMMA {
          break;
        }
        c := source.GetNonspace();
        if c == 0 {
          break;
        }
      }
      BuildingObjectKeeps(hash, t, jitsons, ms);
      if c == CLOSE_OBJECT {
        ObjectCloses(hash, t, jitsons, ms);
        jitsons := Closed(jitsons, index);
      } else {
        ok, errno := false, EINVAL;
        Discard(index, t);
      }
    }

    /** Loads any value. */
    method LoadJson(source: Source) returns (ok: bool, errno: Errno)
      requires Valid() && source.next <= |source.json| && ParseValue(source.json, source.next) != Err(Wide)
      modifies this`maximum, this`jitsons, source
      ensures Valid()
      ensures Loaded(hash, old(jitsons), jitsons, ParseValue(source.json, old(source.next)), ok, errno, source.next)
      ensures forall v: Value, q: nat :: G.ValueAt(source.json, old(source.next), v, q) ==>
        ok && source.next == q && OnTop(hash, old(jitsons), jitsons, v)
      ensures ok ==> exists v :: G.ValueAt(source.json, old(source.next), v, source.next) && OnTop(hash, old(jitsons), jitsons, v)
      decreases |source.json| - source.next, 0
    {
      hide G.ValueAt, OnTop, ParseString, ParseNumber, ParseWord, ParseArray, ParseObject, SkipSpace, StringOnTop;
      G.ValuesRead(source.json, source.next);
      ghost var t := jitsons;
      var c := source.GetNonspace();
      if c == 0 {
        return false, ENODATA;
      }
      var index := Expand(1);
      if c == QUOTE {
        Discard(index, t);
        ghost var r := ParseString(source.json, source.next, []);
        ok, errno := LoadString(source, false);
        if ok {
          StringIsValue(hash, t, jitsons, r.value);
        }
      } else if c == OPEN_OBJECT {
        ok, errno := LoadObject(source, index, t);
      } else if c == OPEN_ARRAY {
        ok, errno := LoadArray(source, index, t);
      } else if c == MINUS || Digit(c) {
        source.PushChar(c);
        ok, errno := LoadNumber(source, index, t);
      } else if Alpha(c) {
        source.PushChar(c);
        ok, errno := LoadWord(source, index, t);
      } else {
        ok, errno := false, EINVAL;
        Discard(index, t);
      }
    }

    /**
     * Parses the JSON at the start of a NUL-terminated text: the value is on top of the stack and the number of
     * characters consumed is returned, or the stack is as it was.
     */
    method ParseJson(json: bytes) returns (consumed: Option<nat>, errno: Errno)
      requires Valid() && ParseValue(json, 0) != Err(Wide)
      modifies this`maximum, this`jitsons
      ensures Valid()
      ensures match ParseValue(json, 0)
        case Ok(v, q) => consumed == Some(q) && OnTop(hash, old(jitsons), jitsons, v)
        case Err(e) => consumed == None && errno == e && jitsons == old(jitsons)
      ensures forall v: Value, q: nat :: G.ValueAt(json, 0, v, q) ==> consumed == Some(q) && OnTop(hash, old(jitsons), jitsons, v)
      ensures consumed.Some? ==> exists v :: G.ValueAt(json, 0, v, consumed.value) && OnTop(hash, old(jitsons), jitsons, v)
    {
      hide ParseValue, OnTop, G.ValueAt;
      G.ValuesRead(json, 0);
      var source := new Source(json);
      var ok;
      ok, errno := LoadJson(source);
      consumed := if ok then Some(source.next) else None;
    }

    // -------------------------------------------------------------- construction

    /** Counts a value in the innermost collection and makes room for it. */
    method AddValue(size: nat) returns (index: nat)
      requires Building() && frames != [] && CanAdd(Last(frames))
      modifies this`maximum, this`jitsons
      ensures Valid() && frames[0].index < open <= index == |old(jitsons)| && |jitsons| == index + size
      ensures old(jitsons)[open - 1].Head? && old(jitsons)[open - 1].data.Partial?
      ensures Same(Taken(old(jitsons), open - 1), jitsons, 0, index)
    {
      hide Stacked;
      StackedOpen(hash, jitsons, open, frames);
      var collection := open - 1;
      index := Expand(size);
      jitsons := jitsons[collection := jitsons[collection].(len := jitsons[collection].len + 1)];
      jitsons := jitsons[collection := jitsons[collection].(data := Partial(false, jitsons[collection].data.collection))];
    }

    method AddNull()
      requires Building() && Legal(State(), Add(Null))
      modifies this`maximum, this`jitsons, this`frames
      ensures Building() && State() == Apply(old(State()), Add(Null))
      ensures |jitsons| >= old(Base()) && Same(old(jitsons), jitsons, 0, old(Base()))
    {
      hide Stacked;
      var index := AddValue(1);
      jitsons := jitsons[index := Head(KNull, false, false, false, 0, Nothing)];
      ScalarTaken(hash, old(jitsons), jitsons, open, frames, jitsons[index], Null);
      frames := Added(frames, Null);
    }

    method AddBool(b: bool)
      requires Building() && Legal(State(), Add(Bool(b)))
      modifies this`maximum, this`jitsons, this`frames
      ensures Building() && State() == Apply(old(State()), Add(Bool(b)))
      ensures |jitsons| >= old(Base()) && Same(old(jitsons), jitsons, 0, old(Base()))
    {
      hide Stacked;
      var index := AddValue(1);
      jitsons := jitsons[index := Head(KBool, false, false, false, 0, Boolean(b))];
      ScalarTaken(hash, old(jitsons), jitsons, open, frames, jitsons[index], Bool(b));
      frames := Added(frames, Bool(b));
    }

    method AddUint(n: nat)
      requires Building() && Legal(State(), Add(Uint(n))) && n <= UINT_MAX
      modifies this`maximum, this`jitsons, this`frames
      ensures Building() && State() == Apply(old(State()), Add(Uint(n)))
      ensures |jitsons| >= old(Base()) && Same(old(jitsons), jitsons, 0, old(Base()))
    {
      hide Stacked;
      var index := AddValue(1);
      jitsons := jitsons[index := Head(KNumber, false, true, false, 0, Integer(n))];
      ScalarTaken(hash, old(jitsons), jitsons, open, frames, jitsons[index], Uint(n));
      frames := Added(frames, Uint(n));
    }

    /** Pushes a copy of a NUL-terminated string. */
    method PushString(chars: bytes, isName: bool)
      requires Valid() && 0 !in chars
      modifies this`maximum, this`jitsons
      ensures Valid() && StringOnTop(old(jitsons), jitsons, isName, chars)
    {
      hide Copying, StringOnTop;
      var index := Expand(1);
      var len: nat := |chars|;
      if len < STRING_SIZE {
        jitsons := jitsons[index := Head(KString, isName, false, false, len, Chars(Write(Zeros(STRING_SIZE), 0, chars + [0])))];
        ShortCopied(old(jitsons), jitsons, isName, chars);
        return;
      }
      jitsons := jitsons[index := Head(KString, isName, false, false, len, Chars(chars[..STRING_SIZE]))];
      CopyStarts(old(jitsons), jitsons, isName, chars);
      var copied := STRING_SIZE;
      len := len - STRING_SIZE;
      while true
        invariant Valid() && copied + len == |chars| && len >= 0 && Copying(old(jitsons), jitsons, isName, chars, copied)
        decreases len
      {
        ghost var u := jitsons;
        index := Expand(1);
        if len < TOKEN_SIZE {
          CopyingIs(old(jitsons), u, isName, chars, copied);
          var last := Write(Zeros(TOKEN_SIZE), 0, chars[copied..] + [0]);
          jitsons := jitsons[index := More(last)];
          assert jitsons == u + [More(last)];
          CopyEnds(old(jitsons), u, jitsons, isName, chars, copied, last);
          return;
        }
        CopyingIs(old(jitsons), u, isName, chars, copied);
        jitsons := jitsons[index := More(chars[copied..copied + TOKEN_SIZE])];
        assert jitsons == u + [More(chars[copied..copied + TOKEN_SIZE])];
        CopyGoesOn(old(jitsons), u, jitsons, isName, chars, copied);
        copied := copied + TOKEN_SIZE;
        len := len - TOKEN_SIZE;
      }
    }

    method AddString(chars: bytes)
      requires Building() && Legal(State(), Add(Str(chars)))
      modifies this`maximum, this`jitsons, this`frames
      ensures Building() && State() == Apply(old(State()), Add(Str(chars)))
      ensures |jitsons| >= old(Base()) && Same(old(jitsons), jitsons, 0, old(Base()))
    {
      hide StringOnTop, Stacked, StringSize;
      StackedOpen(hash, jitsons, open, frames);
      var collection := open - 1;
      jitsons := Flagged(jitsons, collection, false);
      PushString(chars, false);
      StringKeeps(Flagged(old(jitsons), collection, false), jitsons, false, chars);
      StringTaken(hash, old(jitsons), jitsons, open, frames, chars);
      jitsons := Counted(jitsons, collection, jitsons[collection].len + 1);
      frames := Added(frames, Str(chars));
    }

    method AddMemberName(name: bytes)
      requires Building() && Legal(State(), Name(name))
      modifies this`maximum, this`jitsons, this`frames
      ensures Building() && State() == Apply(old(State()), Name(name))
      ensures |jitsons| >= old(Base()) && Same(old(jitsons), jitsons, 0, old(Base()))
    {
      hide StringOnTop, Stacked, StringSize;
      StackedOpen(hash, jitsons, open, frames);
      jitsons := Flagged(jitsons, open - 1, true);
      ghost var w := jitsons;
      PushString(name, true);
      StringKeeps(w, jitsons, true, name);
      StackNames(hash, old(jitsons), w, jitsons, open, frames, name);
      frames := Named(frames, name);
    }

    /** Begins an array or an object, as a value of the innermost collection if there is one. */
    method OpenCollection(kind: Kind)
      requires Building() && Legal(State(), Open(kind))
      modifies this`maximum, this`jitsons, this`open, this`frames
      ensures Building() && State() == Apply(old(State()), Open(kind))
      ensures |jitsons| >= old(Base()) && Same(old(jitsons), jitsons, 0, old(Base()))
    {
      hide Stacked;
      ghost var u, fs := jitsons, frames;
      StackedOpen(hash, jitsons, open, frames);
      var index;
      if open != 0 {
        index := AddValue(1);
      } else {
        index := Expand(1);
      }
      jitsons := jitsons[index := Head(kind, false, false, false, 0, Partial(false, open))];
      if open != 0 {
        assert jitsons == Taken(u, open - 1) + [NewHead(kind, open)];
        InnerOpened(hash, u, jitsons, open, fs, kind);
      } else {
        assert jitsons == u + [NewHead(kind, 0)];
        FirstOpened(hash, u, jitsons, kind);
        assert fs + [NewFrame(index, kind)] == [NewFrame(index, kind)];
      }
      open := index + 1;
      frames := frames + [NewFrame(index, kind)];
    }

    /** Completes the innermost collection; the last one is then a value on top of the stack. */
    method CloseCollection()
      requires Building() && Legal(State(), Close)
      modifies this`jitsons, this`open, this`frames, this`done
      ensures Building() && State() == Apply(old(State()), Close)
      ensures |jitsons| >= old(Base()) && Same(old(jitsons), jitsons, 0, old(Base()))
      ensures |old(frames)| == 1 ==>
        0 < old(open) <= |old(jitsons)| && OnTop(hash, old(jitsons)[..old(open) - 1], jitsons, done[|done| - 1])
    {
      hide Stacked, OnTop;
      ghost var fs := frames;
      StackedOpen(hash, jitsons, open, frames);
      if |fs| == 1 {
        LastCloses(hash, jitsons, open, fs);
        NoneStacked(hash, Closed(jitsons, open - 1));
        frames, done := [], done + [ValueOf(Last(fs))];
      } else {
        InnerCloses(hash, jitsons, open, fs);
        frames := Added(Rest(fs), ValueOf(Last(fs)));
      }
      var index := open - 1;
      open := jitsons[index].data.collection;
      jitsons := Closed(jitsons, index);
    }

    /** Makes one of the calls above. */
    method Perform(c: Call)
      requires Building() && Completed() && Legal(State(), c) && InRange(c)
      modifies this
      ensures Building() && Completed() && State() == Apply(old(State()), c)
    {
      hide Stacked, OnTop, AllAt;
      ghost var b, t, open0 := State(), jitsons, open;
      StackedOpen(hash, jitsons, open, frames);
      match c {
        case Open(kind) => OpenCollection(kind);
        case Name(name) => AddMemberName(name);
        case Add(v) =>
          if v.Null? {
            AddNull();
          } else if v.Bool? {
            AddBool(v.b);
          } else if v.Uint? {
            AddUint(v.n);
          } else {
            AddString(v.s);
          }
        case Close => CloseCollection();
      }
      StackedOpen(hash, jitsons, open, frames);
      if c == Close && |b.frames| == 1 {
        AllAtGrows(hash, t, jitsons, 0, b.done, open0 - 1, ValueOf(Last(b.frames)));
      } else {
        BaseApplied(b, c);
        AllAtSame(hash, t, jitsons, 0, b.done, old(Base()));
      }
    }

    /** Makes a sequence of calls. */
    method PerformAll(cs: seq<Call>)
      requires Building() && Completed() && Run(State(), cs).Some? && forall i :: 0 <= i < |cs| ==> InRange(cs[i])
      modifies this
      ensures Building() && Completed() && Some(State()) == Run(old(State()), cs)
    {
      hide Stacked, AllAt, Apply, Legal;
      var i := 0;
      while i < |cs|
        invariant i <= |cs| && Building() && Completed()
        invariant Run(State(), cs[i..]) == Run(old(State()), cs)
      {
        assert cs[i..][1..] == cs[i + 1..];
        Perform(cs[i]);
        i := i + 1;
      }
    }

    /** Builds a collection by calls: it is on top of the stack, just as if it had been loaded. */
    method Build(v: Value)
      requires Building() && Completed() && frames == [] && done == []
      requires (v.Array? || v.Object?) && Buildable(v) && forall i :: 0 <= i < |Calls(v)| ==> InRange(Calls(v)[i])
      modifies this
      ensures Building() && Completed() && State() == Builder([], |old(jitsons)| + SizeOf(v), [v]) && IsAt(hash, jitsons, 0, v)
    {
      hide Stacked, Run, Calls, Apply;
      CallsBuild(State(), v);
      PerformAll(Calls(v));
      hide IsAt;
      assert done[0] == v;
    }

    /** Takes the tokens off the stack, when no collection is open. */
    method GetJitson(hash: bytes -> nat) returns (j: Jitson)
      requires Building() && jitsons != [] && open == 0 && hash == this.hash
      modifies this
      ensures fresh(j) && j.jitsons == old(jitsons) && j.hash == hash
      ensures Building() && Completed() && State() == Builder([], 0, [])
    {
      hide Stacked;
      StackedOpen(this.hash, jitsons, open, frames);
      NoneStacked(this.hash, []);
      j := new Jitson(jitsons, hash);
      jitsons, done := [], [];
    }

    /** Empties the stack. */
    method Clear()
      requires Valid()
      modifies this
      ensures Building() && State() == Builder([], 0, [])
    {
      jitsons, open := [], 0;
      frames, done := [], [];
      NoneStacked(hash, jitsons);
    }

    /** Parses a JSON text into tokens of its own. */
    method New(json: bytes, hash: bytes -> nat) returns (j: Option<Jitson>, errno: Errno)
      requires Building() && jitsons == [] && open == 0 && hash == this.hash && ParseValue(json, 0) != Err(Wide)
      modifies this
      ensures Building() && State() == Builder([], 0, [])
      ensures match ParseValue(json, 0)
        case Ok(v, _) => j.Some? && fresh(j.value) && j.value.hash == hash && |j.value.jitsons| == SizeOf(v) && IsAt(hash, j.value.jitsons, 0, v)
        case Err(e) => j == None && errno == e
    {
      hide Stacked, ParseValue, IsAt, SizeOf;
      StackedOpen(this.hash, jitsons, open, frames);
      var consumed;
      consumed, errno := ParseJson(json);
      if consumed == None {
        Clear();
        return None, errno;
      }
      NoneStacked(this.hash, jitsons);
      var jitson := GetJitson(hash);
      j := Some(jitson);
    }
  }

  lemma ReadingKeeps(t: seq<Token>, u: seq<Token>, key: bool, x: bytes)
    requires Reading(t, u, key, x)
    ensures |t| < |u| && Same(t, u, 0, |t|) && u[|t|].Head? && u[|t|].len == |x|
  {
  }

  lemma BuildingObjectKeeps(hash: bytes -> nat, t: seq<Token>, u: seq<Token>, ms: seq<Member>)
    requires BuildingObject(hash, t, u, ms)
    ensures |t| < |u| && Same(t, u, 0, |t|) && u[|t|].Head? && u[|t|].len == |ms|
  {
  }

  lemma OnTopKeeps(hash: bytes -> nat, t: seq<Token>, u: seq<Token>, v: Value)
    requires OnTop(hash, t, u, v)
    ensures |t| <= |u| && Same(t, u, 0, |t|)
  {
  }

  lemma BuildingKeeps(hash: bytes -> nat, t: seq<Token>, u: seq<Token>, es: seq<Value>)
    requires BuildingArray(hash, t, u, es)
    ensures |t| < |u| && Same(t, u, 0, |t|) && u[|t|].Head? && u[|t|].len == |es|
  {
  }

  lemma UintText(text: bytes)
    requires NumberOf(text, true).Uint?
    ensures forall i :: 0 <= i < |text| ==> Digit(text[i])
    ensures NumberOf(text, true) == Uint(StrToUl(text))
  {
  }

  lemma StackedOpen(hash: bytes -> nat, u: seq<Token>, open: nat, fs: seq<Frame>)
    requires Stacked(hash, u, open, fs)
    ensures open > 0 <==> fs != []
    ensures open > 0 ==> open <= |u| && u[open - 1].Head? && u[open - 1].data.Partial? && fs[0].index < open
    ensures open > 0 ==> open == Last(fs).index + 1
  {
    hide BuildingArray, BuildingObject, NamedOnTop, Waiting;
    if fs != [] && Rest(fs) != [] {
      WaitingBelow(hash, u[..Last(fs).index], u[Last(fs).index].data.collection, Rest(fs));
    }
  }

  lemma {:induction false} WaitingBelow(hash: bytes -> nat, u: seq<Token>, open: nat, fs: seq<Frame>)
    requires fs != [] && Waiting(hash, u, open, fs)
    ensures fs[0].index < |u|
    decreases |fs|
  {
    hide FrameAt;
    if Rest(fs) != [] {
      WaitingBelow(hash, u[..Last(fs).index], u[Last(fs).index].data.collection, Rest(fs));
    }
  }

  lemma NoneStacked(hash: bytes -> nat, u: seq<Token>)
    ensures Stacked(hash, u, 0, [])
  {
  }

  lemma CopyingIs(t: seq<Token>, u: seq<Token>, key: bool, x: bytes, n: nat)
    requires Copying(t, u, key, x, n)
    ensures n <= |x|
  {
  }

  predicate InRange(c: Call) {
    c.Add? && c.v.Uint? ==> c.v.n <= UINT_MAX
  }

  /** Values that lie one after the other, up to token `end`. */
  ghost predicate AllAt(hash: bytes -> nat, u: seq<Token>, start: nat, vs: seq<Value>, end: nat) {
    ElementsAt(hash, u, start, vs) && end == start + SizeTo(vs, |vs|)
  }

  lemma BaseApplied(b: Builder, c: Call)
    requires Legal(b, c) && Apply(b, c).frames != []
    ensures Apply(b, c).frames[0].index == if b.frames == [] then b.count else b.frames[0].index
    ensures Apply(b, c).done == b.done
  {
  }

  lemma AllAtSame(hash: bytes -> nat, t: seq<Token>, u: seq<Token>, start: nat, vs: seq<Value>, end: nat)
    requires AllAt(hash, t, start, vs, end) && Same(t, u, 0, end)
    ensures AllAt(hash, u, start, vs, end)
  {
    hide ElementsAt, SizeTo;
    SameIn(t, u, 0, end, start, end);
    ElementsSame(hash, t, u, start, vs);
  }

  lemma AllAtGrows(hash: bytes -> nat, t: seq<Token>, u: seq<Token>, start: nat, vs: seq<Value>, end: nat, v: Value)
    requires AllAt(hash, t, start, vs, end) && end <= |t| && OnTop(hash, t[..end], u, v)
    ensures AllAt(hash, u, start, vs + [v], |u|)
  {
    hide IsAt, SizeOf, SizeTo;
    SizeToLast(vs, v);
    forall k: nat | k <= |vs|
      ensures IsAt(hash, u, start + SizeTo(vs + [v], k), (vs + [v])[k])
    {
      SizeToSnoc(vs, v);
      if k < |vs| {
        SizeToGrows(vs, k, |vs|);
        IsAtSame(hash, t, u, start + SizeTo(vs, k), vs[k]);
      }
    }
  }
}
