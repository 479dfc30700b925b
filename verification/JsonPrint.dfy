/** The text that is printed for a value, and what parsing it gives. */
module JsonPrint {
  import opened Bytes
  import opened JsonValue
  import opened JsonParse
  import opened JsonGrammar

  /** The decimal digits of a number. */
  function Digits(n: nat): (d: bytes)
    ensures |d| > 0 && forall i :: 0 <= i < |d| ==> Digit(d[i])
  {
    (if n < 10 then [] else Digits(n / 10)) + [0x30 + n % 10]
  }

  function HexDigit(h: nat): byte
    requires h < 16
  {
    if h < 10 then 0x30 + h else 0x61 + h - 10
  }

  /** A character of a string: as it is, or as a `\u` escape for control characters, quotes and backslashes. */
  function CharText(c: byte): (t: bytes)
    ensures |t| > 0
  {
    if c <= 0x1F || c == QUOTE || c == BACKSLASH then [BACKSLASH, 0x75, 0x30, 0x30, HexDigit(c / 16), HexDigit(c % 16)]
    else [c]
  }

  /** The rest of a string from character `i` on, with the closing quote. */
  function CharsText(s: bytes, i: nat): (t: bytes)
    requires i <= |s|
    ensures |t| > 0
    decreases |s| - i
  {
    if i == |s| then [QUOTE] else CharText(s[i]) + CharsText(s, i + 1)
  }

  function StringText(s: bytes): (t: bytes)
    ensures |t| > 0
  {
    [QUOTE] + CharsText(s, 0)
  }

  /** The text of a value; a number that is not an unsigned integer is not printed here, its text stands for it. */
  function Text(v: Value): (t: bytes)
    decreases v
  {
    match v
    case Null => NULL
    case Bool(b) => if b then TRUE else FALSE
    case Uint(n) => Digits(n)
    case Number(text) => text
    case Str(s) => StringText(s)
    case Array(es) => [OPEN_ARRAY] + ElementsText(es, true)
    case Object(ms) => [OPEN_OBJECT] + MembersText(ms, true)
  }

  /** The rest of an array, with the comma before its first element unless that is the first one of all. */
  function ElementsText(es: seq<Value>, first: bool): (t: bytes)
    ensures |t| > 0
    decreases es
  {
    if es == [] then [CLOSE_ARRAY]
    else
      var rest := Text(es[0]) + ElementsText(es[1..], false);
      if first then rest else [COMMA] + rest
  }

  function MembersText(ms: seq<Member>, first: bool): (t: bytes)
    ensures |t| > 0
    decreases ms
  {
    if ms == [] then [CLOSE_OBJECT]
    else
      var rest := StringText(ms[0].name) + ([COLON] + (Text(ms[0].value) + MembersText(ms[1..], false)));
      if first then rest else [COMMA] + rest
  }

  /** A value that the model prints: it holds no other numbers than unsigned integers of 64 bits. */
  ghost predicate Printable(v: Value)
    decreases v
  {
    match v
    case Null => true
    case Bool(_) => true
    case Uint(n) => n <= UINT_MAX
    case Number(_) => false
    case Str(_) => true
    case Array(es) => forall k :: 0 <= k < |es| ==> Printable(es[k])
    case Object(ms) => forall k :: 0 <= k < |ms| ==> Printable(ms[k].value)
  }

  /** No word or number goes on here. */
  ghost predicate Ends(s: bytes, p: nat) {
    !IdentChar(At(s, p))
  }

  // ---------------------------------------------------------------- numbers and words

  lemma {:induction false} DigitsRead(n: nat)
    ensures Decimal(Digits(n)) == n
  {
    var d := Digits(n);
    if n >= 10 {
      DigitsRead(n / 10);
      assert d[..|d| - 1] == Digits(n / 10);
    } else {
      assert d == [0x30 + n] && d[..0] == [];
    }
  }

  /** No digits with the same value are fewer, and no others are as few. */
  lemma {:induction false} DigitsShortest(d: bytes)
    requires SomeDigits(d)
    ensures |Digits(Decimal(d))| <= |d| && (|d| == |Digits(Decimal(d))| ==> d == Digits(Decimal(d)))
    decreases |d|
  {
    hide *;
    LastDigit(d);
    SplitLast(d);
    var last := |d| - 1;
    OneMoreDigit(Decimal(d[..last]), d[last] - 0x30);
    if last > 0 {
      DigitsShortest(d[..last]);
    }
  }

  lemma LastDigit(d: bytes)
    requires SomeDigits(d)
    ensures var last := |d| - 1;
      && d != [] && 0x30 <= d[last] <= 0x39 && (forall i :: 0 <= i < |d| ==> Digit(d[i]))
      && (if last > 0 then SomeDigits(d[..last]) else d[..last] == [] && Decimal(d[..last]) == 0)
      && Decimal(d) == 10 * Decimal(d[..last]) + (d[last] - 0x30)
  {
    hide Decimal;
    var last := |d| - 1;
    assert forall i :: 0 <= i < |d| ==> Digit(d[i]);
    DecimalOf(d);
    if last == 0 {
      assert d[..last] == [];
      DecimalOf([]);
    }
  }

  lemma SplitLast(d: bytes)
    requires d != []
    ensures d == d[..|d| - 1] + [d[|d| - 1]]
  {
  }

  lemma DecimalOf(d: bytes)
    requires forall i :: 0 <= i < |d| ==> Digit(d[i])
    ensures Decimal(d) == if d == [] then 0 else 10 * Decimal(d[..|d| - 1]) + (d[|d| - 1] - 0x30)
  {
  }

  lemma OneMoreDigit(m: nat, x: nat)
    requires x < 10
    ensures Digits(10 * m + x) == (if m == 0 then [] else Digits(m)) + [0x30 + x]
  {
  }

  /** The digits of a number start with no zero, unless it is zero. */
  lemma {:induction false} NoLeadingZero(n: nat)
    ensures if n == 0 then Digits(n) == [0x30] else Digits(n)[0] != 0x30
  {
    if n >= 10 {
      NoLeadingZero(n / 10);
    }
  }

  function PowerOfTen(k: nat): nat {
    if k == 0 then 1 else 10 * PowerOfTen(k - 1)
  }

  lemma {:induction false} DigitsFit(n: nat, k: nat)
    requires k > 0 && n < PowerOfTen(k)
    ensures |Digits(n)| <= k
  {
    if n >= 10 {
      assert k > 1;
      DigitsFit(n / 10, k - 1);
    }
  }

  /** Twenty digits do for an unsigned integer of 64 bits. */
  lemma TwentyDigits(n: nat)
    requires n <= UINT_MAX
    ensures |Digits(n)| <= 20
  {
    assert PowerOfTen(10) == 1_00000_00000;
    assert PowerOfTen(20) == 1_00000_00000_00000_00000;
    DigitsFit(n, 20);
  }

  lemma DigitsKnown()
    ensures Digits(0) == [0x30] && Digits(1907) == [0x31, 0x39, 0x30, 0x37] && Decimal([0x31, 0x39, 0x30, 0x37]) == 1907
  {
    assert Digits(1) == [0x31];
    assert Digits(19) == Digits(1) + [0x39];
    assert Digits(190) == Digits(19) + [0x30];
    assert Digits(1907) == Digits(190) + [0x37];
    DigitsRead(1907);
  }

  // ---------------------------------------------------------------- the text as a tree

  /**
   * What RFC 8259 asks of a text beyond what the parser does: control characters are escaped in its strings, and its
   * numbers start with no zero but zero itself. Here they are unsigned integers of twenty digits at most, too, and
   * there are no spaces.
   */
  ghost predicate Strict(t: Syntax)
    decreases t
  {
    match t
    case Word(_) => true
    case Num(n) => IsUint(n) && 0 < |n.whole| <= 20 && (n.whole[0] == 0x30 ==> |n.whole| == 1)
    case Quoted(xs) => StrictChars(xs)
    case Items(space, es) => space == [] && StrictItems(es)
    case Fields(space, fs) => space == [] && StrictFields(fs)
  }

  ghost predicate StrictChars(xs: seq<Char>) {
    forall k :: 0 <= k < |xs| ==> !xs[k].Short? && (xs[k].Plain? ==> xs[k].c >= 0x20)
  }

  ghost predicate StrictItems(es: seq<Item>)
    decreases es
  {
    forall k :: 0 <= k < |es| ==> es[k].before == es[k].after == [] && Strict(es[k].value)
  }

  ghost predicate StrictFields(fs: seq<Field>)
    decreases fs
  {
    forall k :: 0 <= k < |fs| ==>
      fs[k].before == fs[k].space == fs[k].inner == fs[k].after == [] && StrictChars(fs[k].name) && Strict(fs[k].value)
  }

  // ---------------------------------------------------------------- strings

  function CharFor(c: byte): Char {
    if c <= 0x1F || c == QUOTE || c == BACKSLASH then Hex([0x30, 0x30, HexDigit(c / 16), HexDigit(c % 16)], c) else Plain(c)
  }

  lemma CharIsStrict(c: byte)
    ensures CharOk(CharFor(c)) && CharSpelling(CharFor(c)) == CharText(c) && CharFor(c).c == c
    ensures !CharFor(c).Short? && (CharFor(c).Plain? ==> c >= 0x20)
  {
    assert HexFor(0x30, 0);
    if c < 0x80 {
      assert HexFor(HexDigit(c / 16), c / 16) && HexFor(HexDigit(c % 16), c % 16);
    }
  }

  lemma CharsTextOf(x: bytes, i: nat)
    requires i <= |x|
    ensures CharsText(x, i) == if i == |x| then [QUOTE] else CharText(x[i]) + CharsText(x, i + 1)
  {
    hide CharText;
  }

  lemma {:induction false} CharsAreStrict(x: bytes, i: nat) returns (xs: seq<Char>)
    requires i <= |x|
    ensures CharsOk(xs) && StrictChars(xs) && StringOf(xs) == x[i..] && Spelling(xs) == CharsText(x, i)
    decreases |x| - i
  {
    hide *;
    CharsTextOf(x, i);
    if i == |x| {
      xs := [];
      assert x[i..] == [];
      NoChars();
    } else {
      CharIsStrict(x[i]);
      var rest := CharsAreStrict(x, i + 1);
      xs := [CharFor(x[i])] + rest;
      CharThenRest(CharFor(x[i]), rest);
      assert x[i..] == [x[i]] + x[i + 1..];
    }
  }

  lemma NoChars()
    ensures CharsOk([]) && StrictChars([]) && StringOf([]) == [] && Spelling([]) == [QUOTE]
  {
  }

  lemma CharThenRest(x: Char, rest: seq<Char>)
    requires CharOk(x) && !x.Short? && (x.Plain? ==> x.c >= 0x20) && CharsOk(rest) && StrictChars(rest)
    ensures CharsOk([x] + rest) && StrictChars([x] + rest) && StringOf([x] + rest) == [x.c] + StringOf(rest)
    ensures Spelling([x] + rest) == CharSpelling(x) + Spelling(rest)
  {
    hide CharOk, CharSpelling, Spelling;
    SpellingOf([x] + rest);
    assert ([x] + rest)[1..] == rest;
  }

  lemma StringParsed(s: bytes, p: nat, x: bytes, i: nat)
    requires i <= |x| && Here(s, p, CharsText(x, i))
    ensures ParseString(s, p, x[..i]) == Ok(x, p + |CharsText(x, i)|)
  {
    hide CharsOk, StrictChars, Here, CharsText, ParseString, Spelling, StringOf;
    var xs := CharsAreStrict(x, i);
    SpelledString(s, p, xs, x[..i]);
    assert x[..i] + x[i..] == x;
  }

  // ---------------------------------------------------------------- values

  lemma UintIsStrict(n: nat) returns (t: Syntax)
    requires n <= UINT_MAX
    ensures SyntaxOk(t) && Strict(t) && Meaning(t) == Uint(n) && Spelled(t) == Text(Uint(n))
  {
    hide Digits, Decimal;
    DigitsRead(n);
    NoLeadingZero(n);
    TwentyDigits(n);
    assert forall i :: 0 <= i < |Digits(n)| ==> Digit(Digits(n)[i]);
    t := Num(Numeral(false, Digits(n), None, None));
    assert [] + (Digits(n) + ([] + [])) == Digits(n);
  }

  lemma StringIsStrict(x: bytes) returns (t: Syntax)
    ensures SyntaxOk(t) && Strict(t) && Meaning(t) == Str(x) && Spelled(t) == Text(Str(x))
  {
    hide CharsOk, StrictChars, CharsText, Spelling, StringOf;
    var xs := CharsAreStrict(x, 0);
    assert x[0..] == x;
    t := Quoted(xs);
  }

  lemma ArrayIsStrict(ts: seq<Item>, es: seq<Value>) returns (t: Syntax)
    requires ItemsOk(ts) && StrictItems(ts) && ItemValues(ts) == es && (es != [] ==> ItemsSpelled(ts) == ElementsText(es, true))
    ensures SyntaxOk(t) && Strict(t) && Meaning(t) == Array(es) && Spelled(t) == Text(Array(es))
  {
    t := Items([], ts);
    NoneBlank();
    hide ItemsSpelled, StrictItems, Blank;
    assert ts == [] <==> es == [];
    assert es == [] ==> Spelled(t) == [0x5B] + ([] + [0x5D]);
    assert Meaning(t) == Array(ItemValues(ts));
  }

  lemma ObjectIsStrict(ts: seq<Field>, ms: seq<Member>) returns (t: Syntax)
    requires FieldsOk(ts) && StrictFields(ts) && FieldMembers(ts) == ms && (ms != [] ==> FieldsSpelled(ts) == MembersText(ms, true))
    ensures SyntaxOk(t) && Strict(t) && Meaning(t) == Object(ms) && Spelled(t) == Text(Object(ms))
  {
    t := Fields([], ts);
    NoneBlank();
    hide FieldsSpelled, StrictFields, Blank, CharsOk;
    assert ts == [] <==> ms == [];
    assert ms == [] ==> Spelled(t) == [0x7B] + ([] + [0x7D]);
    assert Meaning(t) == Object(FieldMembers(ts));
  }

  /** The text that is printed for a value is a strict text that stands for it. */
  lemma {:induction false} TextIsStrict(v: Value) returns (t: Syntax)
    requires Printable(v)
    ensures SyntaxOk(t) && Strict(t) && Meaning(t) == v && Spelled(t) == Text(v)
    decreases v, 1
  {
    hide SyntaxOk, Strict, Meaning, Spelled, Text;
    match v
    case Null => t := WordIsStrict(v);
    case Bool(_) => t := WordIsStrict(v);
    case Uint(n) => t := UintIsStrict(n);
    case Str(x) => t := StringIsStrict(x);
    case Array(es) =>
      var ts := ElementsAreStrict(es);
      t := ArrayIsStrict(ts, es);
    case Object(ms) =>
      var ts := MembersAreStrict(ms);
      t := ObjectIsStrict(ts, ms);
  }

  lemma WordIsStrict(v: Value) returns (t: Syntax)
    requires IsWord(v)
    ensures SyntaxOk(t) && Strict(t) && Meaning(t) == v && Spelled(t) == Text(v)
  {
    t := Word(v);
  }

  lemma {:induction false} ElementsAreStrict(es: seq<Value>) returns (ts: seq<Item>)
    requires forall k :: 0 <= k < |es| ==> Printable(es[k])
    ensures ItemsOk(ts) && StrictItems(ts) && ItemValues(ts) == es && (es != [] ==> ItemsSpelled(ts) == ElementsText(es, true))
    decreases es, 0
  {
    hide *;
    if es == [] {
      ts := [];
      NoItems();
      NoneStrict();
    } else {
      var t := TextIsStrict(es[0]);
      var rest := ElementsAreStrict(es[1..]);
      var e := Item([], t, []);
      ts := [e] + rest;
      NoneBlank();
      ItemsCons(e, rest);
      ValuesCons(e, rest);
      StrictItemsCons(t, rest);
      ElementsTextOf(es);
      ElementsTextOf(es[1..]);
      assert [es[0]] + es[1..] == es;
      NothingBefore(Text(es[0]) + ElementsText(es[1..], false));
      NothingBefore(ElementsText(es[1..], false));
    }
  }

  lemma NoneStrict()
    ensures StrictItems([]) && StrictFields([])
  {
  }

  lemma StrictItemsCons(t: Syntax, rest: seq<Item>)
    requires Strict(t) && StrictItems(rest)
    ensures StrictItems([Item([], t, [])] + rest)
  {
    hide Strict;
  }

  lemma ElementsTextOf(es: seq<Value>)
    ensures es != [] ==> ElementsText(es, true) == Text(es[0]) + ElementsText(es[1..], false)
    ensures ElementsText(es, false) == if es == [] then [0x5D] else [0x2C] + ElementsText(es, true)
  {
    hide Text;
  }

  lemma {:induction false} MembersAreStrict(ms: seq<Member>) returns (ts: seq<Field>)
    requires forall k :: 0 <= k < |ms| ==> Printable(ms[k].value)
    ensures FieldsOk(ts) && StrictFields(ts) && FieldMembers(ts) == ms && (ms != [] ==> FieldsSpelled(ts) == MembersText(ms, true))
    decreases ms, 0
  {
    hide *;
    if ms == [] {
      ts := [];
      NoFields();
      NoneStrict();
    } else {
      var m := ms[0];
      var xs := CharsAreStrict(m.name, 0);
      var t := TextIsStrict(m.value);
      var rest := MembersAreStrict(ms[1..]);
      var f := Field([], xs, [], [], t, []);
      ts := [f] + rest;
      NoneBlank();
      FieldsCons(f, rest);
      MembersCons(f, rest);
      StrictFieldsCons(xs, t, rest);
      MembersTextOf(ms);
      MembersTextOf(ms[1..]);
      assert [m] + ms[1..] == ms && m.name[0..] == m.name;
      MemberText(CharsText(m.name, 0), Text(m.value), MembersText(ms[1..], false));
    }
  }

  /** A member's text in parts. */
  lemma MemberText(name: bytes, value: bytes, rest: bytes)
    ensures [] + ([0x22] + (name + ([] + ([0x3A] + ([] + (value + ([] + rest))))))) == ([0x22] + name) + ([0x3A] + (value + rest))
  {
    NothingBefore(rest);
    NothingBefore(value + rest);
    NothingBefore([0x3A] + (value + rest));
  }

  lemma StrictFieldsCons(xs: seq<Char>, t: Syntax, rest: seq<Field>)
    requires StrictChars(xs) && Strict(t) && StrictFields(rest)
    ensures StrictFields([Field([], xs, [], [], t, [])] + rest)
  {
    hide Strict, StrictChars;
  }

  lemma MembersTextOf(ms: seq<Member>)
    ensures ms != [] ==>
      MembersText(ms, true) == ([0x22] + CharsText(ms[0].name, 0)) + ([0x3A] + (Text(ms[0].value) + MembersText(ms[1..], false)))
    ensures MembersText(ms, false) == if ms == [] then [0x7D] else [0x2C] + MembersText(ms, true)
  {
    hide Text, CharsText;
  }

  // ---------------------------------------------------------------- what parsing a text gives

  /** No word or number goes on after a character that is in no identifier. */
  lemma NothingGoesOn(t: Syntax, c: byte)
    requires !IdentChar(c)
    ensures EndsAt(t, c)
  {
  }

  /**
   * The text of a value is parsed as that value, wherever it stands and whatever follows it, as long as no number
   * or word goes on there.
   */
  lemma TextParsed(s: bytes, p: nat, v: Value)
    requires Printable(v) && Here(s, p, Text(v)) && Ends(s, p + |Text(v)|)
    ensures ParseValue(s, p) == Ok(v, p + |Text(v)|)
  {
    hide Printable, Here, SyntaxOk, Strict, Meaning, Spelled, Text, ParseValue, EndsAt;
    var t := TextIsStrict(v);
    NothingGoesOn(t, At(s, p + |Text(v)|));
    SyntaxParsed(s, p, t);
  }

  /** Parsing the text of a value gives the value, and consumes all of the text. */
  lemma TextRoundTrip(v: Value)
    requires Printable(v)
    ensures ParseValue(Text(v), 0) == Ok(v, |Text(v)|)
  {
    hide Text, Printable, ParseValue;
    assert Text(v)[0..|Text(v)|] == Text(v);
    TextParsed(Text(v), 0, v);
  }
}
