/**
 * JSON texts as the library reads them, as trees of what is written: the spaces, how each character of a string is
 * spelled, the parts of a number. No parser is needed to say what a tree stands for.
 */
module JsonGrammar {
  import opened Bytes
  import opened JsonValue
  import opened JsonParse

  // ---------------------------------------------------------------- places

  lemma CharHere(s: bytes, r: nat)
    requires r < |s|
    ensures Here(s, r, [At(s, r)]) && (At(s, r) == QUOTE ==> Here(s, r, [0x22])) && (At(s, r) == BACKSLASH ==> Here(s, r, [0x5C]))
    ensures (At(s, r) == COMMA ==> Here(s, r, [0x2C])) && (At(s, r) == COLON ==> Here(s, r, [0x3A]))
    ensures (At(s, r) == CLOSE_ARRAY ==> Here(s, r, [0x5D])) && (At(s, r) == CLOSE_OBJECT ==> Here(s, r, [0x7D]))
  {
    assert s[r..r + 1] == [s[r]];
  }

  lemma HereJoin(s: bytes, p: nat, a: bytes, q: nat, b: bytes)
    requires Here(s, p, a) && q == p + |a| && Here(s, q, b)
    ensures Here(s, p, a + b)
  {
    HereBoth(s, p, a, b);
  }

  lemma HereIs(s: bytes, p: nat, w: bytes)
    requires Here(s, p, w)
    ensures p + |w| <= |s| && s[p..p + |w|] == w
  {
  }

  // ---------------------------------------------------------------- spaces

  predicate Blank(b: bytes) {
    forall i :: 0 <= i < |b| ==> b[i] in [0x20, 0x09, 0x0A, 0x0B, 0x0C, 0x0D]
  }

  lemma {:induction false} BlankSkipped(s: bytes, p: nat, b: bytes)
    requires Blank(b) && Here(s, p, b) && !Space(At(s, p + |b|))
    ensures SkipSpace(s, p) == p + |b|
    decreases |b|
  {
    if b != [] {
      HereAt(s, p, b, 0);
      assert b == [b[0]] + b[1..];
      HereParts(s, p, [b[0]], b[1..]);
      BlankSkipped(s, p + 1, b[1..]);
    }
  }

  lemma {:induction false} SkippedIsBlank(s: bytes, p: nat)
    requires p <= |s|
    ensures Blank(s[p..SkipSpace(s, p)]) && !Space(At(s, SkipSpace(s, p)))
    decreases |s| - p
  {
    var q := SkipSpace(s, p);
    if Space(At(s, p)) {
      SkippedIsBlank(s, p + 1);
      assert s[p..q] == [s[p]] + s[p + 1..q];
    } else {
      assert s[p..q] == [];
    }
  }

  // ---------------------------------------------------------------- strings

  /** A character `c` as itself, as a letter after a backslash, or as four hexadecimal digits after a backslash and a `u`. */
  datatype Char = Plain(c: byte) | Short(letter: byte, c: byte) | Hex(digits: bytes, c: byte)

  predicate ShortFor(letter: byte, c: byte) {
    (letter, c) in [(0x22, 0x22), (0x5C, 0x5C), (0x2F, 0x2F), (0x62, 0x08), (0x66, 0x0C), (0x6E, 0x0A), (0x72, 0x0D), (0x74, 0x09)]
  }

  const LOWER: bytes := [0x30, 0x31, 0x32, 0x33, 0x34, 0x35, 0x36, 0x37, 0x38, 0x39, 0x61, 0x62, 0x63, 0x64, 0x65, 0x66]
  const UPPER: bytes := [0x30, 0x31, 0x32, 0x33, 0x34, 0x35, 0x36, 0x37, 0x38, 0x39, 0x41, 0x42, 0x43, 0x44, 0x45, 0x46]

  predicate HexFor(digit: byte, n: nat) {
    n < 16 && (digit == LOWER[n] || digit == UPPER[n])
  }

  predicate CharOk(x: Char) {
    match x
    case Plain(c) => c != 0 && c != 0x22 && c != 0x5C
    case Short(letter, c) => ShortFor(letter, c)
    case Hex(d, c) => |d| == 4 && d[0] == d[1] == 0x30 && c < 0x80 && HexFor(d[2], c / 16) && HexFor(d[3], c % 16)
  }

  function CharSpelling(x: Char): (t: bytes)
    ensures |t| > 0
  {
    match x
    case Plain(c) => [c]
    case Short(letter, _) => [0x5C, letter]
    case Hex(d, _) => [0x5C, 0x75] + d
  }

  predicate CharsOk(xs: seq<Char>) {
    forall i :: 0 <= i < |xs| ==> CharOk(xs[i])
  }

  /** The spelling of a string, from after its first quote to its last one. */
  function Spelling(xs: seq<Char>): (t: bytes)
    ensures |t| > 0
  {
    if xs == [] then [0x22] else CharSpelling(xs[0]) + Spelling(xs[1..])
  }

  function StringOf(xs: seq<Char>): (x: bytes)
    ensures |x| == |xs| && forall i :: 0 <= i < |xs| ==> x[i] == xs[i].c
  {
    seq(|xs|, i requires 0 <= i < |xs| => xs[i].c)
  }

  lemma ShortEscaped(letter: byte, c: byte)
    ensures ShortFor(letter, c) <==> Escaped(letter) == Some(c)
    ensures ShortFor(letter, c) ==> letter != 0x75
  {
  }

  lemma HexIs(digit: byte, n: nat)
    requires n < 16
    ensures HexFor(digit, n) <==> HexValue(digit) == n
  {
  }

  function HexAt(s: bytes, p: nat): int {
    HexValue(At(s, p))
  }

  /** Four hexadecimal digits read. */
  lemma FourHex(s: bytes, p: nat)
    requires p <= |s|
    ensures ParseHex(s, p, 4, 0) ==
      if HexAt(s, p) >= 0 && HexAt(s, p + 1) >= 0 && HexAt(s, p + 2) >= 0 && HexAt(s, p + 3) >= 0
      then Ok(0x1000 * HexAt(s, p) + 0x100 * HexAt(s, p + 1) + 0x10 * HexAt(s, p + 2) + HexAt(s, p + 3), p + 4)
      else Err(EILSEQ)
  {
    HexInside(s, p);
    HexInside(s, p + 1);
    HexInside(s, p + 2);
    HexInside(s, p + 3);
    hide HexValue, At;
    var a, b, c, d := HexAt(s, p), HexAt(s, p + 1), HexAt(s, p + 2), HexAt(s, p + 3);
    if a >= 0 {
      assert ParseHex(s, p, 4, 0) == ParseHex(s, p + 1, 3, a);
      if b >= 0 {
        assert ParseHex(s, p + 1, 3, a) == ParseHex(s, p + 2, 2, 16 * a + b);
        if c >= 0 {
          assert ParseHex(s, p + 2, 2, 16 * a + b) == ParseHex(s, p + 3, 1, 16 * (16 * a + b) + c);
          if d >= 0 {
            assert ParseHex(s, p + 3, 1, 16 * (16 * a + b) + c) == ParseHex(s, p + 4, 0, 16 * (16 * (16 * a + b) + c) + d);
          }
        }
      }
    }
  }

  lemma HexInside(s: bytes, p: nat)
    ensures HexAt(s, p) >= 0 ==> p < |s|
  {
  }

  /** An escape is read from after its backslash on. */
  lemma SpelledEscape(s: bytes, p: nat, x: Char)
    requires CharOk(x) && !x.Plain? && Here(s, p, CharSpelling(x)[1..])
    ensures p < |s| && ParseEscape(s, p) == Ok(x.c, p + |CharSpelling(x)| - 1)
  {
    var t := CharSpelling(x)[1..];
    HereAt(s, p, t, 0);
    if x.Short? {
      ShortEscaped(x.letter, x.c);
      hide ShortFor, Escaped;
    } else {
      HereAt(s, p, t, 1);
      HereAt(s, p, t, 2);
      HereAt(s, p, t, 3);
      HereAt(s, p, t, 4);
      hide Here, At;
      HexSpelled(s, p, x);
    }
  }

  lemma HexSpelled(s: bytes, p: nat, x: Char)
    requires CharOk(x) && x.Hex? && p + 5 <= |s| && At(s, p) == 0x75
    requires At(s, p + 1) == x.digits[0] && At(s, p + 2) == x.digits[1] && At(s, p + 3) == x.digits[2] && At(s, p + 4) == x.digits[3]
    ensures ParseEscape(s, p) == Ok(x.c, p + 5)
  {
    assert HexFor(0x30, 0) && Escaped(0x75).None?;
    hide HexFor, HexValue, ParseHex, Escaped, At;
    FourHex(s, p + 1);
    HexIs(0x30, 0);
    HexIs(x.digits[2], x.c / 16);
    HexIs(x.digits[3], x.c % 16);
  }

  lemma SpelledChar(s: bytes, p: nat, x: Char, read: bytes)
    requires CharOk(x) && Here(s, p, CharSpelling(x))
    ensures p + |CharSpelling(x)| <= |s| && ParseString(s, p, read) == ParseString(s, p + |CharSpelling(x)|, read + [x.c])
  {
    HereAt(s, p, CharSpelling(x), 0);
    if !x.Plain? {
      assert CharSpelling(x) == [0x5C] + CharSpelling(x)[1..];
      HereParts(s, p, [0x5C], CharSpelling(x)[1..]);
      SpelledEscape(s, p + 1, x);
      hide ParseEscape, CharOk;
    }
  }

  lemma SpellingOf(xs: seq<Char>)
    ensures Spelling(xs) == if xs == [] then [0x22] else CharSpelling(xs[0]) + Spelling(xs[1..])
  {
  }

  /**
   * However each character of a string is spelled, reading the spelling gives the string, and all of the spelling is
   * consumed.
   */
  lemma {:induction false} SpelledString(s: bytes, p: nat, xs: seq<Char>, read: bytes)
    requires CharsOk(xs) && Here(s, p, Spelling(xs))
    ensures ParseString(s, p, read) == Ok(read + StringOf(xs), p + |Spelling(xs)|)
    decreases |xs|
  {
    hide Here, CharSpelling, ParseString, At, CharOk, Spelling;
    SpellingOf(xs);
    if xs == [] {
      HereAt(s, p, Spelling(xs), 0);
      StringEnds(s, p, read);
      assert read + StringOf(xs) == read;
    } else {
      HereParts(s, p, CharSpelling(xs[0]), Spelling(xs[1..]));
      SpelledChar(s, p, xs[0], read);
      SpelledString(s, p + |CharSpelling(xs[0])|, xs[1..], read + [xs[0].c]);
      assert read + [xs[0].c] + StringOf(xs[1..]) == read + StringOf(xs);
    }
  }

  lemma StringEnds(s: bytes, p: nat, read: bytes)
    requires p < |s| && At(s, p) == QUOTE
    ensures ParseString(s, p, read) == Ok(read, p + 1)
  {
    hide At;
  }

  /** An escape that is read is spelled in one of these ways. */
  lemma EscapeSpelled(s: bytes, p: nat) returns (x: Char)
    requires p <= |s| && ParseEscape(s, p).Ok?
    ensures CharOk(x) && !x.Plain? && Here(s, p, CharSpelling(x)[1..]) && ParseEscape(s, p) == Ok(x.c, p + |CharSpelling(x)| - 1)
  {
    var letter := At(s, p);
    if Escaped(letter).Some? {
      x := Short(letter, Escaped(letter).value);
      ShortEscaped(letter, x.c);
      assert s[p..p + 1] == CharSpelling(x)[1..];
    } else {
      FourHex(s, p + 1);
      var c := ParseEscape(s, p).value;
      x := Hex(s[p + 1..p + 5], c);
      assert s[p..p + 5] == CharSpelling(x)[1..];
      HexDigits(s, p + 1, c);
    }
  }

  lemma HexDigits(s: bytes, p: nat, c: byte)
    requires p + 4 <= |s| && c < 0x80 && HexAt(s, p) >= 0 && HexAt(s, p + 1) >= 0 && HexAt(s, p + 2) >= 0 && HexAt(s, p + 3) >= 0
    requires c == 0x1000 * HexAt(s, p) + 0x100 * HexAt(s, p + 1) + 0x10 * HexAt(s, p + 2) + HexAt(s, p + 3)
    ensures CharOk(Hex(s[p..p + 4], c))
  {
    HexIs(s[p], 0);
    HexIs(s[p + 1], 0);
    assert HexFor(s[p], 0) && HexFor(s[p + 1], 0);
    HexIs(s[p + 2], c / 16);
    HexIs(s[p + 3], c % 16);
    hide HexValue;
  }

  lemma CharSpelled(s: bytes, p: nat, read: bytes) returns (x: Char)
    requires p <= |s| && ParseString(s, p, read).Ok? && At(s, p) != QUOTE
    ensures CharOk(x) && Here(s, p, CharSpelling(x))
    ensures ParseString(s, p, read) == ParseString(s, p + |CharSpelling(x)|, read + [x.c])
  {
    hide ParseEscape, CharOk, CharSpelling;
    x := CharReadOn(s, p, read);
  }

  /** And a string that is read is spelled in these ways. */
  lemma {:induction false} StringSpelled(s: bytes, p: nat, read: bytes) returns (xs: seq<Char>)
    requires p <= |s| && ParseString(s, p, read).Ok?
    ensures CharsOk(xs) && Here(s, p, Spelling(xs))
    ensures ParseString(s, p, read) == Ok(read + StringOf(xs), p + |Spelling(xs)|)
    decreases |s| - p
  {
    hide CharOk, ParseString, CharSpelling, Spelling, StringOf;
    if At(s, p) == QUOTE {
      xs := [];
      SpellingOf(xs);
      StringEnds(s, p, read);
      assert s[p..p + 1] == [0x22] && read + StringOf(xs) == read;
    } else {
      var x := CharSpelled(s, p, read);
      var rest := StringSpelled(s, p + |CharSpelling(x)|, read + [x.c]);
      hide At;
      xs := [x] + rest;
      assert xs[1..] == rest;
      SpellingOf(xs);
      HereBoth(s, p, CharSpelling(x), Spelling(rest));
      hide Here;
      assert read + [x.c] + StringOf(rest) == read + StringOf(xs);
    }
  }

  /** An escape from after its backslash on, and a string from after its first quote on. */
  ghost predicate EscapeAt(s: bytes, p: nat, c: byte, end: nat) {
    exists x :: CharOk(x) && !x.Plain? && Here(s, p, CharSpelling(x)[1..]) && c == x.c && end == p + |CharSpelling(x)| - 1
  }

  ghost predicate StringAt(s: bytes, p: nat, x: bytes, end: nat) {
    exists xs :: CharsOk(xs) && Here(s, p, Spelling(xs)) && x == StringOf(xs) && end == p + |Spelling(xs)|
  }

  /** The escapes that are read are those. */
  lemma EscapeIff(s: bytes, p: nat, c: byte, end: nat)
    requires p <= |s|
    ensures ParseEscape(s, p) == Ok(c, end) <==> EscapeAt(s, p, c, end)
  {
    hide CharOk, CharSpelling, ParseEscape, Here;
    if ParseEscape(s, p) == Ok(c, end) {
      var x := EscapeSpelled(s, p);
    }
    if EscapeAt(s, p, c, end) {
      var x :| CharOk(x) && !x.Plain? && Here(s, p, CharSpelling(x)[1..]) && c == x.c && end == p + |CharSpelling(x)| - 1;
      SpelledEscape(s, p, x);
    }
  }

  /** The strings that are read are those, whatever spelling is chosen for each character. */
  lemma StringIff(s: bytes, p: nat, x: bytes, end: nat)
    requires p <= |s|
    ensures ParseString(s, p, []) == Ok(x, end) <==> StringAt(s, p, x, end)
  {
    hide CharsOk, Spelling, ParseString, Here, StringOf;
    if ParseString(s, p, []) == Ok(x, end) {
      var xs := StringSpelled(s, p, []);
      NothingBefore(StringOf(xs));
    }
    if StringAt(s, p, x, end) {
      var xs :| CharsOk(xs) && Here(s, p, Spelling(xs)) && x == StringOf(xs) && end == p + |Spelling(xs)|;
      SpelledString(s, p, xs, []);
      NothingBefore(StringOf(xs));
    }
  }

  lemma NothingBefore(x: bytes)
    ensures [] + x == x
  {
  }

  /** Four hexadecimal digits that stand for a character of more than one byte. */
  ghost predicate WideAt(s: bytes, p: nat) {
    exists a, b, c, d :: DigitsAt(s, p, a, b, c, d) && 0x1000 * a + 0x100 * b + 0x10 * c + d >= 0x80
  }

  ghost predicate DigitsAt(s: bytes, p: nat, a: nat, b: nat, c: nat, d: nat) {
    At(s, p) == 0x75 && HexFor(At(s, p + 1), a) && HexFor(At(s, p + 2), b) && HexFor(At(s, p + 3), c) && HexFor(At(s, p + 4), d)
  }

  ghost predicate NoEscapeAt(s: bytes, p: nat) {
    forall c: byte, end: nat :: !EscapeAt(s, p, c, end)
  }

  /** What is wrong with an escape: it stands for a character of more than one byte, or else it is none. */
  lemma EscapeRefused(s: bytes, p: nat)
    requires p <= |s|
    ensures ParseEscape(s, p) == Err(Wide) <==> WideAt(s, p)
    ensures ParseEscape(s, p) == Err(EILSEQ) <==> !WideAt(s, p) && NoEscapeAt(s, p)
    ensures ParseEscape(s, p).Err? ==> ParseEscape(s, p) == Err(Wide) || ParseEscape(s, p) == Err(EILSEQ)
  {
    if WideAt(s, p) {
      WideRead(s, p);
    }
    WideOnly(s, p);
    hide ParseEscape, WideAt, EscapeAt;
    forall c: byte, end: nat
      ensures EscapeAt(s, p, c, end) <==> ParseEscape(s, p) == Ok(c, end)
    {
      EscapeIff(s, p, c, end);
    }
    if ParseEscape(s, p).Ok? {
      assert EscapeAt(s, p, ParseEscape(s, p).value, ParseEscape(s, p).next);
    }
  }

  lemma WideRead(s: bytes, p: nat)
    requires p <= |s| && WideAt(s, p)
    ensures ParseEscape(s, p) == Err(Wide)
  {
    var a, b, c, d :| DigitsAt(s, p, a, b, c, d) && 0x1000 * a + 0x100 * b + 0x10 * c + d >= 0x80;
    HexIs(At(s, p + 1), a);
    HexIs(At(s, p + 2), b);
    HexIs(At(s, p + 3), c);
    HexIs(At(s, p + 4), d);
    FourHex(s, p + 1);
    hide HexFor, HexValue, ParseHex;
  }

  lemma WideOnly(s: bytes, p: nat)
    requires p <= |s|
    ensures ParseEscape(s, p) == Err(Wide) ==> WideAt(s, p)
    ensures ParseEscape(s, p).Err? ==> ParseEscape(s, p) == Err(Wide) || ParseEscape(s, p) == Err(EILSEQ)
  {
    if At(s, p) == 0x75 {
      FourHex(s, p + 1);
      if ParseEscape(s, p) == Err(Wide) {
        HexIs(At(s, p + 1), HexAt(s, p + 1));
        HexIs(At(s, p + 2), HexAt(s, p + 2));
        HexIs(At(s, p + 3), HexAt(s, p + 3));
        HexIs(At(s, p + 4), HexAt(s, p + 4));
        hide HexFor, HexValue;
        assert DigitsAt(s, p, HexAt(s, p + 1), HexAt(s, p + 2), HexAt(s, p + 3), HexAt(s, p + 4));
      }
    }
  }

  /** The spelling of some characters of a string, without the last quote. */
  function Body(xs: seq<Char>): bytes {
    if xs == [] then [] else CharSpelling(xs[0]) + Body(xs[1..])
  }

  /** After characters that are spelled comes what stops the string: no more text, or a backslash with no escape. */
  ghost predicate Unfinished(s: bytes, p: nat, xs: seq<Char>, errno: Errno) {
    && CharsOk(xs) && Here(s, p, Body(xs))
    && StopsWith(s, p + |Body(xs)|, errno)
  }

  ghost predicate StopsWith(s: bytes, q: nat, errno: Errno) {
    match errno
    case EINVAL => At(s, q) == 0
    case EILSEQ => At(s, q) == 0x5C && !WideAt(s, q + 1) && NoEscapeAt(s, q + 1)
    case Wide => At(s, q) == 0x5C && WideAt(s, q + 1)
    case ENODATA => false
  }

  lemma Stopped(s: bytes, q: nat, read: bytes, errno: Errno)
    requires q <= |s| && StopsWith(s, q, errno)
    ensures ParseString(s, q, read) == Err(errno)
  {
    if At(s, q) == 0x5C {
      EscapeRefused(s, q + 1);
    }
    hide ParseEscape, WideAt, NoEscapeAt;
  }

  lemma {:induction false} BodyRead(s: bytes, p: nat, xs: seq<Char>, read: bytes)
    requires CharsOk(xs) && Here(s, p, Body(xs))
    ensures p + |Body(xs)| <= |s| && ParseString(s, p, read) == ParseString(s, p + |Body(xs)|, read + StringOf(xs))
    decreases |xs|
  {
    hide Here, CharSpelling, ParseString, At, CharOk, Body;
    BodyOf(xs);
    if xs == [] {
      HereIs(s, p, []);
      assert read + StringOf(xs) == read;
    } else {
      HereParts(s, p, CharSpelling(xs[0]), Body(xs[1..]));
      SpelledChar(s, p, xs[0], read);
      BodyRead(s, p + |CharSpelling(xs[0])|, xs[1..], read + [xs[0].c]);
      assert read + [xs[0].c] + StringOf(xs[1..]) == read + StringOf(xs);
    }
  }

  lemma BodyOf(xs: seq<Char>)
    ensures Body(xs) == if xs == [] then [] else CharSpelling(xs[0]) + Body(xs[1..])
  {
  }

  lemma {:induction false} WhereStopped(s: bytes, p: nat, read: bytes, errno: Errno) returns (xs: seq<Char>)
    requires p <= |s| && ParseString(s, p, read) == Err(errno)
    ensures Unfinished(s, p, xs, errno)
    decreases |s| - p
  {
    hide CharOk, CharSpelling, ParseEscape, Body, WideAt, NoEscapeAt;
    xs := [];
    BodyOf(xs);
    assert s[p..p] == [];
    if At(s, p) == BACKSLASH && ParseEscape(s, p + 1).Err? {
      EscapeRefused(s, p + 1);
    } else if At(s, p) != 0 {
      var x := CharReadOn(s, p, read);
      hide *;
      var rest := WhereStopped(s, p + |CharSpelling(x)|, read + [x.c], errno);
      xs := UnfinishedCons(s, p, x, rest, errno);
    }
  }

  lemma UnfinishedCons(s: bytes, p: nat, x: Char, rest: seq<Char>, errno: Errno) returns (xs: seq<Char>)
    requires CharOk(x) && Here(s, p, CharSpelling(x)) && Unfinished(s, p + |CharSpelling(x)|, rest, errno)
    ensures Unfinished(s, p, xs, errno)
  {
    hide CharOk, CharSpelling, Body, StopsWith, Here;
    xs := [x] + rest;
    assert xs[1..] == rest;
    BodyOf(xs);
    HereBoth(s, p, CharSpelling(x), Body(rest));
  }

  /** A character is read where a string neither ends nor stops. */
  lemma CharReadOn(s: bytes, p: nat, read: bytes) returns (x: Char)
    requires p <= |s| && At(s, p) != QUOTE && At(s, p) != 0 && (At(s, p) == BACKSLASH ==> ParseEscape(s, p + 1).Ok?)
    ensures CharOk(x) && Here(s, p, CharSpelling(x)) && p + |CharSpelling(x)| <= |s|
    ensures ParseString(s, p, read) == ParseString(s, p + |CharSpelling(x)|, read + [x.c])
  {
    if At(s, p) == BACKSLASH {
      hide ParseEscape, CharOk, CharSpelling, Here;
      x := EscapeSpelled(s, p + 1);
      CharHere(s, p);
      AfterBackslash(x);
      HereJoin(s, p, [0x5C], p + 1, CharSpelling(x)[1..]);
      HereIs(s, p, CharSpelling(x));
    } else {
      x := Plain(At(s, p));
      CharHere(s, p);
      hide Here;
    }
  }

  lemma AfterBackslash(x: Char)
    requires !x.Plain?
    ensures CharSpelling(x) == [0x5C] + CharSpelling(x)[1..]
  {
  }

  /** What is reported when no string is read. */
  lemma StringRefusedIff(s: bytes, p: nat, errno: Errno)
    requires p <= |s|
    ensures ParseString(s, p, []) == Err(errno) <==> exists xs :: Unfinished(s, p, xs, errno)
  {
    hide ParseString, StopsWith, Here, Body, CharsOk;
    if ParseString(s, p, []) == Err(errno) {
      var xs := WhereStopped(s, p, [], errno);
    }
    if xs :| Unfinished(s, p, xs, errno) {
      BodyRead(s, p, xs, []);
      Stopped(s, p + |Body(xs)|, [] + StringOf(xs), errno);
    }
  }

  // ---------------------------------------------------------------- numbers

  /** An optional minus, digits, an optional fraction and an optional exponent. */
  datatype Numeral = Numeral(minus: bool, whole: bytes, fraction: Option<bytes>, exponent: Option<Exponent>)

  datatype Exponent = Exponent(letter: byte, sign: bytes, digits: bytes)

  predicate SomeDigits(d: bytes) {
    d != [] && forall i :: 0 <= i < |d| ==> 0x30 <= d[i] <= 0x39
  }

  predicate NumeralOk(n: Numeral) {
    && SomeDigits(n.whole) && (n.fraction.Some? ==> SomeDigits(n.fraction.value))
    && (n.exponent.Some? ==> ExponentOk(n.exponent.value))
  }

  predicate ExponentOk(e: Exponent) {
    ExponentLetter(e.letter) && SignOk(e.sign) && SomeDigits(e.digits)
  }

  predicate ExponentLetter(c: byte) {
    c == 0x45 || c == 0x65
  }

  predicate SignOk(sign: bytes) {
    sign == [] || (|sign| == 1 && (sign[0] == 0x2B || sign[0] == 0x2D))
  }

  function FractionSpelling(f: Option<bytes>): bytes {
    if f.Some? then [0x2E] + f.value else []
  }

  function ExponentSpelling(e: Option<Exponent>): bytes {
    if e.Some? then [e.value.letter] + (e.value.sign + e.value.digits) else []
  }

  function NumeralSpelling(n: Numeral): bytes {
    (if n.minus then [0x2D] else []) + (n.whole + (FractionSpelling(n.fraction) + ExponentSpelling(n.exponent)))
  }

  predicate IsUint(n: Numeral) {
    !n.minus && n.fraction.None? && n.exponent.None?
  }

  function NumeralValue(n: Numeral): Value
    requires NumeralOk(n)
  {
    if IsUint(n) then Uint(if Decimal(n.whole) < 0x1_0000_0000_0000_0000 then Decimal(n.whole) else 0xFFFF_FFFF_FFFF_FFFF)
    else Number(NumeralSpelling(n))
  }

  /** What may not follow a numeral, because it would go on. */
  predicate NumeralEnds(n: Numeral, c: byte) {
    && !(0x30 <= c <= 0x39) && (n.exponent.None? ==> !ExponentLetter(c)) && (n.exponent.None? && n.fraction.None? ==> c != 0x2E)
  }

  lemma {:induction false} DigitsHere(s: bytes, p: nat, d: bytes)
    requires Here(s, p, d) && (forall i :: 0 <= i < |d| ==> 0x30 <= d[i] <= 0x39) && !Digit(At(s, p + |d|))
    ensures SkipDigits(s, p) == p + |d|
    decreases |d|
  {
    if d != [] {
      HereAt(s, p, d, 0);
      assert d == [d[0]] + d[1..];
      HereParts(s, p, [d[0]], d[1..]);
      DigitsHere(s, p + 1, d[1..]);
    }
  }

  lemma FractionHere(s: bytes, p: nat, f: Option<bytes>)
    requires Here(s, p, FractionSpelling(f)) && (f.Some? ==> SomeDigits(f.value))
    requires !Digit(At(s, p + |FractionSpelling(f)|)) && (f.None? ==> At(s, p) != DOT)
    ensures SkipFraction(s, p) == Some(p + |FractionSpelling(f)|)
  {
    if f.Some? {
      HereParts(s, p, [0x2E], f.value);
      HereAt(s, p, FractionSpelling(f), 0);
      HereAt(s, p + 1, f.value, 0);
      DigitsHere(s, p + 1, f.value);
    }
  }

  lemma ExponentHere(s: bytes, p: nat, e: Option<Exponent>)
    requires Here(s, p, ExponentSpelling(e))
    requires e.Some? ==> ExponentOk(e.value)
    requires !Digit(At(s, p + |ExponentSpelling(e)|)) && (e.None? ==> !ExponentLetter(At(s, p)))
    ensures SkipExponent(s, p) == Some(p + |ExponentSpelling(e)|)
  {
    if e.Some? {
      hide Here, SkipDigits;
      var x := e.value;
      HereAt(s, p, ExponentSpelling(e), 0);
      HereParts(s, p, [x.letter], x.sign + x.digits);
      HereParts(s, p + 1, x.sign, x.digits);
      var q := p + 1 + |x.sign|;
      HereAt(s, q, x.digits, 0);
      if x.sign != [] {
        HereAt(s, p + 1, x.sign, 0);
      }
      DigitsHere(s, q, x.digits);
    }
  }

  /** What comes after the digits of a numeral, and after its fraction. */
  lemma PartStarts(s: bytes, p: nat, n: Numeral)
    requires NumeralOk(n) && Here(s, p, FractionSpelling(n.fraction)) && Here(s, p + |FractionSpelling(n.fraction)|, ExponentSpelling(n.exponent))
    requires NumeralEnds(n, At(s, p + |FractionSpelling(n.fraction)| + |ExponentSpelling(n.exponent)|))
    ensures !Digit(At(s, p)) && (n.fraction.None? ==> At(s, p) != DOT)
    ensures var q := p + |FractionSpelling(n.fraction)|; !Digit(At(s, q)) && (n.exponent.None? ==> !ExponentLetter(At(s, q)))
  {
    hide Here, At;
    var f, e := FractionSpelling(n.fraction), ExponentSpelling(n.exponent);
    if f != [] {
      HereAt(s, p, f, 0);
    }
    if e != [] {
      HereAt(s, p + |f|, e, 0);
    }
  }

  /** Where the parts of a numeral end. */
  function WholeStart(n: Numeral, p: nat): nat {
    if n.minus then p + 1 else p
  }

  function WholeEnd(n: Numeral, p: nat): nat {
    WholeStart(n, p) + |n.whole|
  }

  function FractionEnd(n: Numeral, p: nat): nat {
    WholeEnd(n, p) + |FractionSpelling(n.fraction)|
  }

  lemma NumeralEnd(n: Numeral, p: nat)
    ensures p + |NumeralSpelling(n)| == FractionEnd(n, p) + |ExponentSpelling(n.exponent)|
    ensures IsUint(n) ==> NumeralSpelling(n) == n.whole
    ensures FractionEnd(n, p) == WholeEnd(n, p) <==> n.fraction.None?
    ensures |ExponentSpelling(n.exponent)| == 0 <==> n.exponent.None?
  {
  }

  lemma NumeralParts(s: bytes, p: nat, n: Numeral)
    requires NumeralOk(n) && Here(s, p, NumeralSpelling(n))
    ensures WholeStart(n, p) < |s| && Digit(At(s, WholeStart(n, p))) && (n.minus ==> At(s, p) == MINUS)
    ensures Here(s, WholeStart(n, p), n.whole) && Here(s, WholeEnd(n, p), FractionSpelling(n.fraction))
    ensures Here(s, FractionEnd(n, p), ExponentSpelling(n.exponent))
  {
    hide Here, FractionSpelling, ExponentSpelling, At;
    var minus, f, e := if n.minus then [0x2D] else [], FractionSpelling(n.fraction), ExponentSpelling(n.exponent);
    HereParts(s, p, minus, n.whole + (f + e));
    HereParts(s, p + |minus|, n.whole, f + e);
    HereParts(s, p + |minus| + |n.whole|, f, e);
    HereAt(s, p + |minus|, n.whole, 0);
    if n.minus {
      HereAt(s, p, minus, 0);
    }
  }

  /** A numeral is read as its value, when it does not go on. */
  lemma NumeralParsed(s: bytes, p: nat, n: Numeral)
    requires NumeralOk(n) && Here(s, p, NumeralSpelling(n)) && NumeralEnds(n, At(s, p + |NumeralSpelling(n)|))
    ensures p < |s| && (At(s, p) == MINUS || Digit(At(s, p)))
    ensures ParseNumber(s, p) == Ok(NumeralValue(n), p + |NumeralSpelling(n)|)
  {
    hide Here, SkipFraction, SkipExponent, SkipDigits, Decimal, FractionSpelling, ExponentSpelling, NumeralSpelling, At;
    NumeralEnd(n, p);
    NumeralParts(s, p, n);
    PartStarts(s, WholeEnd(n, p), n);
    ExponentHere(s, FractionEnd(n, p), n.exponent);
    FractionHere(s, WholeEnd(n, p), n.fraction);
    DigitsHere(s, WholeStart(n, p), n.whole);
    HereIs(s, p, NumeralSpelling(n));
    hide NumeralEnds, NumeralOk, SomeDigits;
    ReadAs(s, p, n, WholeStart(n, p), WholeEnd(n, p), FractionEnd(n, p), p + |NumeralSpelling(n)|);
  }

  /** A number that ends where the parts of a numeral end is that numeral. */
  lemma ReadAs(s: bytes, p: nat, n: Numeral, q: nat, whole: nat, fraction: nat, end: nat)
    requires p <= q < |s| && q == (if n.minus then p + 1 else p) && Digit(At(s, q)) && (n.minus ==> At(s, p) == MINUS)
    requires SkipDigits(s, q) == whole && SkipFraction(s, whole) == Some(fraction) && SkipExponent(s, fraction) == Some(end)
    requires p <= end && NumeralOk(n) && s[p..end] == NumeralSpelling(n)
    requires IsUint(n) <==> q == p && end == whole
    requires IsUint(n) ==> NumeralSpelling(n) == n.whole
    ensures ParseNumber(s, p) == Ok(NumeralValue(n), end)
  {
    hide SkipFraction, SkipExponent, SkipDigits, Decimal, NumeralSpelling, At, ParseNumber, Digit, IsUint, SomeDigits;
    NotMinus(s, p);
    NumberIs(s, p, q, whole, fraction, end);
  }

  lemma NotMinus(s: bytes, p: nat)
    ensures Digit(At(s, p)) ==> At(s, p) != MINUS
  {
  }

  lemma NumberIs(s: bytes, p: nat, q: nat, whole: nat, fraction: nat, end: nat)
    requires p <= q < |s| && q == (if At(s, p) == MINUS then p + 1 else p) && Digit(At(s, q)) && SkipDigits(s, q) == whole
    requires SkipFraction(s, whole) == Some(fraction) && SkipExponent(s, fraction) == Some(end)
    ensures q == p && end == whole ==> (forall i :: p <= i < end ==> Digit(s[i])) && ParseNumber(s, p) == Ok(Uint(StrToUl(s[p..end])), end)
    ensures !(q == p && end == whole) ==> ParseNumber(s, p) == Ok(Number(s[p..end]), end)
  {
    DigitsSkipped(s, q);
    hide SkipFraction, SkipExponent, SkipDigits, At, Digit, StrToUl;
  }

  lemma {:induction false} SkippedAreDigits(s: bytes, p: nat)
    requires p <= |s|
    ensures var q := SkipDigits(s, p);
      (forall i :: p <= i < q ==> 0x30 <= s[i] <= 0x39) && !(0x30 <= At(s, q) <= 0x39) && (Digit(At(s, p)) ==> q > p)
    decreases |s| - p
  {
    if Digit(At(s, p)) {
      SkippedAreDigits(s, p + 1);
    }
  }

  lemma DigitsSpelled(s: bytes, p: nat)
    requires p <= |s| && Digit(At(s, p))
    ensures SomeDigits(s[p..SkipDigits(s, p)]) && !(0x30 <= At(s, SkipDigits(s, p)) <= 0x39)
  {
    SkippedAreDigits(s, p);
    hide SkipDigits;
  }

  lemma FractionSpelled(s: bytes, p: nat) returns (f: Option<bytes>, end: nat)
    requires p <= |s| && SkipFraction(s, p).Some? && !(0x30 <= At(s, p) <= 0x39)
    ensures (f.Some? ==> SomeDigits(f.value)) && Here(s, p, FractionSpelling(f))
    ensures SkipFraction(s, p) == Some(end) && end == p + |FractionSpelling(f)|
    ensures (f.None? ==> end == p && At(s, p) != 0x2E) && !(0x30 <= At(s, end) <= 0x39)
  {
    if At(s, p) == DOT {
      DigitsSpelled(s, p + 1);
      end := SkipDigits(s, p + 1);
      hide SkipDigits;
      f := Some(s[p + 1..end]);
      assert s[p..end] == [0x2E] + s[p + 1..end];
    } else {
      f, end := None, p;
      assert s[p..p] == [];
    }
  }

  lemma ExponentCut(s: bytes, p: nat) returns (q: nat)
    requires p <= |s| && SkipExponent(s, p).Some? && ExponentLetter(At(s, p))
    ensures p + 1 <= q < |s| && SignOk(s[p + 1..q]) && Digit(At(s, q)) && SkipExponent(s, p) == Some(SkipDigits(s, q))
    ensures ExponentLetter(s[p])
  {
    q := if At(s, p + 1) == MINUS || At(s, p + 1) == PLUS then p + 2 else p + 1;
    hide SkipDigits;
  }

  lemma ExponentJoined(s: bytes, p: nat, q: nat, end: nat) returns (e: Option<Exponent>)
    requires p + 1 <= q <= end <= |s| && SignOk(s[p + 1..q]) && ExponentLetter(s[p]) && SomeDigits(s[q..end])
    ensures e.Some? && ExponentOk(e.value) && Here(s, p, ExponentSpelling(e)) && end == p + |ExponentSpelling(e)|
  {
    hide SignOk, ExponentLetter, SomeDigits;
    e := Some(Exponent(s[p], s[p + 1..q], s[q..end]));
    assert s[p..end] == [s[p]] + (s[p + 1..q] + s[q..end]);
  }

  lemma ExponentSpelled(s: bytes, p: nat) returns (e: Option<Exponent>, end: nat)
    requires p <= |s| && SkipExponent(s, p).Some? && !(0x30 <= At(s, p) <= 0x39)
    ensures (e.Some? ==> ExponentOk(e.value)) && Here(s, p, ExponentSpelling(e))
    ensures SkipExponent(s, p) == Some(end) && end == p + |ExponentSpelling(e)|
    ensures (e.None? ==> end == p && !ExponentLetter(At(s, p))) && !(0x30 <= At(s, end) <= 0x39)
  {
    if ExponentLetter(At(s, p)) {
      hide *;
      var q := ExponentCut(s, p);
      DigitsSpelled(s, q);
      end := SkipDigits(s, q);
      e := ExponentJoined(s, p, q, end);
    } else {
      e, end := None, p;
      assert s[p..p] == [];
    }
  }

  function StartOf(s: bytes, p: nat): nat {
    if At(s, p) == MINUS then p + 1 else p
  }

  lemma NumberSkips(s: bytes, p: nat)
    requires p <= |s| && ParseNumber(s, p).Ok?
    ensures var q := StartOf(s, p);
      && q < |s| && Digit(At(s, q)) && SkipFraction(s, SkipDigits(s, q)).Some?
      && SkipExponent(s, SkipFraction(s, SkipDigits(s, q)).value).Some?
  {
    hide SkipFraction, SkipExponent, SkipDigits;
  }

  /** A number that is read is a numeral that does not go on. */
  lemma NumberSpelled(s: bytes, p: nat) returns (n: Numeral)
    requires p <= |s| && ParseNumber(s, p).Ok?
    ensures NumeralOk(n) && Here(s, p, NumeralSpelling(n)) && NumeralEnds(n, At(s, p + |NumeralSpelling(n)|))
    ensures ParseNumber(s, p) == Ok(NumeralValue(n), p + |NumeralSpelling(n)|)
  {
    NumberSkips(s, p);
    MinusHere(s, p);
    hide *;
    var q := StartOf(s, p);
    DigitsSpelled(s, q);
    var whole := SkipDigits(s, q);
    var f, fraction := FractionSpelled(s, whole);
    var e, end := ExponentSpelled(s, fraction);
    n := NumberJoined(s, p, q, whole, f, fraction, e, end);
  }

  lemma NumberJoined(s: bytes, p: nat, q: nat, whole: nat, f: Option<bytes>, fraction: nat, e: Option<Exponent>, end: nat) returns (n: Numeral)
    requires p <= q <= p + 1 && q <= whole <= |s| && s[p..q] == (if q > p then [0x2D] else []) && SomeDigits(s[q..whole])
    requires (f.Some? ==> SomeDigits(f.value)) && Here(s, whole, FractionSpelling(f)) && fraction == whole + |FractionSpelling(f)|
    requires (e.Some? ==> ExponentOk(e.value)) && Here(s, fraction, ExponentSpelling(e)) && end == fraction + |ExponentSpelling(e)|
    requires !(0x30 <= At(s, end) <= 0x39)
    requires (f.None? ==> fraction == whole && At(s, whole) != 0x2E) && (e.None? ==> end == fraction && !ExponentLetter(At(s, fraction)))
    ensures NumeralOk(n) && Here(s, p, NumeralSpelling(n)) && NumeralEnds(n, At(s, p + |NumeralSpelling(n)|))
    ensures ParseNumber(s, p) == Ok(NumeralValue(n), p + |NumeralSpelling(n)|)
  {
    hide *;
    n := Numeral(q > p, s[q..whole], f, e);
    PartsJoined(s, p, q, whole, f, e);
    NumeralIs(n);
    EndsThere(n, At(s, whole), At(s, fraction), At(s, end));
    NumeralTo(s, p, q, whole, n, end);
  }

  lemma NumeralTo(s: bytes, p: nat, q: nat, whole: nat, n: Numeral, end: nat)
    requires p <= q <= whole && |n.whole| == whole - q && q == (if n.minus then p + 1 else p)
    requires end == whole + |FractionSpelling(n.fraction)| + |ExponentSpelling(n.exponent)|
    requires NumeralOk(n) && Here(s, p, NumeralSpelling(n)) && NumeralEnds(n, At(s, end))
    ensures end == p + |NumeralSpelling(n)| && NumeralEnds(n, At(s, p + |NumeralSpelling(n)|))
    ensures ParseNumber(s, p) == Ok(NumeralValue(n), p + |NumeralSpelling(n)|)
  {
    hide *;
    NumeralLength(n, p, q, whole);
    NumeralParsed(s, p, n);
  }

  lemma NumeralIs(n: Numeral)
    requires SomeDigits(n.whole) && (n.fraction.Some? ==> SomeDigits(n.fraction.value))
    requires n.exponent.Some? ==> ExponentOk(n.exponent.value)
    ensures NumeralOk(n)
  {
  }

  lemma NumeralLength(n: Numeral, p: nat, q: nat, whole: nat)
    requires p <= q <= whole && |n.whole| == whole - q && q == (if n.minus then p + 1 else p)
    ensures p + |NumeralSpelling(n)| == whole + |FractionSpelling(n.fraction)| + |ExponentSpelling(n.exponent)|
  {
    hide FractionSpelling, ExponentSpelling;
  }

  /** With these characters after the digits, after the fraction and at the end, a numeral does not go on. */
  lemma EndsThere(n: Numeral, whole: byte, fraction: byte, end: byte)
    requires !(0x30 <= end <= 0x39) && (n.exponent.None? ==> end == fraction && !ExponentLetter(fraction))
    requires n.fraction.None? ==> fraction == whole && whole != 0x2E
    ensures NumeralEnds(n, end)
  {
  }

  lemma MinusHere(s: bytes, p: nat)
    requires p <= |s|
    ensures p <= StartOf(s, p) <= p + 1 && StartOf(s, p) <= |s| && s[p..StartOf(s, p)] == if StartOf(s, p) > p then [0x2D] else []
  {
  }

  lemma PartsJoined(s: bytes, p: nat, q: nat, whole: nat, f: Option<bytes>, e: Option<Exponent>)
    requires p <= q <= whole <= |s| && s[p..q] == (if q > p then [0x2D] else [])
    requires Here(s, whole, FractionSpelling(f)) && Here(s, whole + |FractionSpelling(f)|, ExponentSpelling(e))
    ensures Here(s, p, NumeralSpelling(Numeral(q > p, s[q..whole], f, e)))
  {
    hide FractionSpelling, ExponentSpelling;
    HereBoth(s, whole, FractionSpelling(f), ExponentSpelling(e));
    HereBoth(s, q, s[q..whole], FractionSpelling(f) + ExponentSpelling(e));
    HereBoth(s, p, s[p..q], s[q..whole] + (FractionSpelling(f) + ExponentSpelling(e)));
  }

  // ---------------------------------------------------------------- words

  predicate IsWord(v: Value) {
    v.Null? || v.Bool?
  }

  function WordSpelling(v: Value): bytes
    requires IsWord(v)
  {
    if v.Null? then [0x6E, 0x75, 0x6C, 0x6C]
    else if v.b then [0x74, 0x72, 0x75, 0x65]
    else [0x66, 0x61, 0x6C, 0x73, 0x65]
  }

  /** Letters, digits, underscores and dots go on with a word. */
  predicate WordEnds(c: byte) {
    !(0x41 <= c <= 0x5A || 0x61 <= c <= 0x7A || 0x30 <= c <= 0x39 || c == 0x5F || c == 0x2E)
  }

  lemma {:induction false} IdentHere(s: bytes, p: nat, w: bytes)
    requires Here(s, p, w) && (forall i :: 0 <= i < |w| ==> IdentChar(w[i])) && !IdentChar(At(s, p + |w|))
    ensures SkipIdent(s, p) == p + |w|
    decreases |w|
  {
    hide IdentChar;
    if w != [] {
      HereAt(s, p, w, 0);
      assert w == [w[0]] + w[1..];
      HereParts(s, p, [w[0]], w[1..]);
      IdentHere(s, p + 1, w[1..]);
    }
  }

  lemma WordParsed(s: bytes, p: nat, v: Value)
    requires IsWord(v) && Here(s, p, WordSpelling(v)) && WordEnds(At(s, p + |WordSpelling(v)|))
    ensures p < |s| && Alpha(At(s, p)) && ParseWord(s, p) == Ok(v, p + |WordSpelling(v)|)
  {
    var w := WordSpelling(v);
    HereAt(s, p, w, 0);
    assert forall i :: 0 <= i < |w| ==> IdentChar(w[i]);
    assert !IdentChar(At(s, p + |w|));
    IdentHere(s, p, w);
    HereIs(s, p, w);
    hide SkipIdent, Here, At;
  }

  lemma {:induction false} IdentSkipped(s: bytes, p: nat)
    requires p <= |s|
    ensures !IdentChar(At(s, SkipIdent(s, p)))
    decreases |s| - p
  {
    if IdentChar(At(s, p)) {
      IdentSkipped(s, p + 1);
    }
  }

  lemma WordSpelled(s: bytes, p: nat)
    requires p <= |s| && ParseWord(s, p).Ok?
    ensures IsWord(ParseWord(s, p).value)
    ensures var w := WordSpelling(ParseWord(s, p).value);
      Here(s, p, w) && WordEnds(At(s, p + |w|)) && ParseWord(s, p).next == p + |w|
  {
    IdentSkipped(s, p);
    hide SkipIdent, At;
  }

  // ---------------------------------------------------------------- values

  /** A value as it is written; spaces stand inside empty brackets, and around elements, names, colons and values. */
  datatype Syntax =
    | Word(word: Value)
    | Num(numeral: Numeral)
    | Quoted(chars: seq<Char>)
    | Items(space: bytes, items: seq<Item>)
    | Fields(space: bytes, fields: seq<Field>)

  datatype Item = Item(before: bytes, value: Syntax, after: bytes)

  datatype Field = Field(before: bytes, name: seq<Char>, space: bytes, inner: bytes, value: Syntax, after: bytes)

  function Spelled(t: Syntax): bytes
    requires SyntaxOk(t)
    decreases t
  {
    match t
    case Word(v) => WordSpelling(v)
    case Num(n) => NumeralSpelling(n)
    case Quoted(xs) => [0x22] + Spelling(xs)
    case Items(space, es) => [0x5B] + if es == [] then space + [0x5D] else ItemsSpelled(es)
    case Fields(space, fs) => [0x7B] + if fs == [] then space + [0x7D] else FieldsSpelled(fs)
  }

  function ItemsSpelled(es: seq<Item>): bytes
    requires es != [] && ItemsOk(es)
    decreases es
  {
    es[0].before + (Spelled(es[0].value) + (es[0].after + if |es| == 1 then [0x5D] else [0x2C] + ItemsSpelled(es[1..])))
  }

  function FieldsSpelled(fs: seq<Field>): bytes
    requires fs != [] && FieldsOk(fs)
    decreases fs
  {
    var f := fs[0];
    f.before + ([0x22] + (Spelling(f.name) + (f.space + ([0x3A] + (f.inner + (Spelled(f.value) +
      (f.after + if |fs| == 1 then [0x7D] else [0x2C] + FieldsSpelled(fs[1..]))))))))
  }

  /** A number or a word in a collection is followed by a space, a comma or a bracket, so that it ends there. */
  predicate SyntaxOk(t: Syntax)
    decreases t
  {
    match t
    case Word(v) => IsWord(v)
    case Num(n) => NumeralOk(n)
    case Quoted(xs) => CharsOk(xs)
    case Items(space, es) => Blank(space) && ItemsOk(es)
    case Fields(space, fs) => Blank(space) && FieldsOk(fs)
  }

  predicate ItemsOk(es: seq<Item>)
    decreases es
  {
    forall i :: 0 <= i < |es| ==> Blank(es[i].before) && SyntaxOk(es[i].value) && Blank(es[i].after)
  }

  predicate FieldsOk(fs: seq<Field>)
    decreases fs
  {
    forall i :: 0 <= i < |fs| ==>
      Blank(fs[i].before) && CharsOk(fs[i].name) && Blank(fs[i].space) && Blank(fs[i].inner) && SyntaxOk(fs[i].value) && Blank(fs[i].after)
  }

  /** What a text stands for. */
  function Meaning(t: Syntax): Value
    requires SyntaxOk(t)
    decreases t
  {
    match t
    case Word(v) => v
    case Num(n) => NumeralValue(n)
    case Quoted(xs) => Str(StringOf(xs))
    case Items(_, es) => Array(ItemValues(es))
    case Fields(_, fs) => Object(FieldMembers(fs))
  }

  function ItemValues(es: seq<Item>): (vs: seq<Value>)
    requires ItemsOk(es)
    ensures |vs| == |es| && forall i :: 0 <= i < |es| ==> vs[i] == Meaning(es[i].value)
    decreases es
  {
    seq(|es|, i requires 0 <= i < |es| => Meaning(es[i].value))
  }

  function FieldMembers(fs: seq<Field>): (ms: seq<Member>)
    requires FieldsOk(fs)
    ensures |ms| == |fs| && forall i :: 0 <= i < |fs| ==> ms[i] == Member(StringOf(fs[i].name), Meaning(fs[i].value))
    decreases fs
  {
    seq(|fs|, i requires 0 <= i < |fs| => Member(StringOf(fs[i].name), Meaning(fs[i].value)))
  }

  lemma ValuesCons(e: Item, rest: seq<Item>)
    requires SyntaxOk(e.value) && ItemsOk(rest) && ItemsOk([e] + rest)
    ensures ItemValues([e] + rest) == [Meaning(e.value)] + ItemValues(rest) && |ItemValues(rest)| == |rest|
  {
    hide SyntaxOk, Meaning, ItemsOk;
  }

  lemma MembersCons(f: Field, rest: seq<Field>)
    requires SyntaxOk(f.value) && FieldsOk(rest) && FieldsOk([f] + rest)
    ensures FieldMembers([f] + rest) == [Member(StringOf(f.name), Meaning(f.value))] + FieldMembers(rest) && |FieldMembers(rest)| == |rest|
  {
    hide SyntaxOk, Meaning, FieldsOk, StringOf;
  }

  /** A number or a word does not go on with this character. */
  predicate EndsAt(t: Syntax, c: byte) {
    match t
    case Word(_) => WordEnds(c)
    case Num(n) => NumeralEnds(n, c)
    case _ => true
  }

  // ---------------------------------------------------------------- what is written is read

  /** A value starts with no space, and with no closing bracket. */
  lemma FirstChar(t: Syntax)
    requires SyntaxOk(t)
    ensures Spelled(t) != [] && !Space(Spelled(t)[0]) && Spelled(t)[0] != CLOSE_ARRAY
  {
    hide ItemsSpelled, FieldsSpelled, Spelling, FractionSpelling, ExponentSpelling;
    if t.Num? {
      assert SomeDigits(t.numeral.whole);
    }
  }

  /** Spaces in front of a value are skipped. */
  lemma SpacesSkipped(s: bytes, p: nat, b: bytes, t: Syntax)
    requires Blank(b) && SyntaxOk(t) && Here(s, p, b) && Here(s, p + |b|, Spelled(t))
    ensures SkipSpace(s, p) == p + |b| && SkipSpace(s, p + |b|) == p + |b|
    ensures ParseValue(s, p) == ParseValue(s, p + |b|) && At(s, p + |b|) != CLOSE_ARRAY
  {
    hide Spelled, Here, SyntaxOk, Blank, SkipSpace, Space, ParseValue, At;
    FirstChar(t);
    HereAt(s, p + |b|, Spelled(t), 0);
    BlankSkipped(s, p, b);
    NoSpace(s, p + |b|);
    SameFrom(s, p, p + |b|);
  }

  lemma NoSpace(s: bytes, p: nat)
    requires p <= |s| && !Space(At(s, p))
    ensures SkipSpace(s, p) == p
  {
  }

  lemma SameFrom(s: bytes, p: nat, q: nat)
    requires p <= q <= |s| && SkipSpace(s, p) == q && SkipSpace(s, q) == q
    ensures ParseValue(s, p) == ParseValue(s, q)
  {
    hide SkipSpace, At, ParseQuoted, ParseObject, ParseArray, ParseNumber, ParseWord;
  }

  /** What the first character of a value says. */
  lemma Dispatched(s: bytes, p: nat)
    requires p <= |s|
    ensures At(s, p) == MINUS || Digit(At(s, p)) ==> ParseValue(s, p) == ParseNumber(s, p)
    ensures Alpha(At(s, p)) ==> ParseValue(s, p) == ParseWord(s, p)
    ensures At(s, p) == QUOTE ==> p < |s| && ParseValue(s, p) == ParseQuoted(s, p + 1)
    ensures At(s, p) == OPEN_ARRAY ==> p < |s| && ParseValue(s, p) == ParseArray(s, p + 1)
    ensures At(s, p) == OPEN_OBJECT ==> p < |s| && ParseValue(s, p) == ParseObject(s, p + 1)
  {
    hide ParseNumber, ParseWord, ParseQuoted, ParseArray, ParseObject;
    if !Space(At(s, p)) {
      NoSpace(s, p);
    }
  }

  /** What comes after an element or a member: nothing but the closing bracket, or a comma and the rest. */
  function ItemTail(es: seq<Item>): bytes
    requires es != [] && ItemsOk(es)
  {
    if |es| == 1 then [0x5D] else [0x2C] + ItemsSpelled(es[1..])
  }

  function FieldTail(fs: seq<Field>): bytes
    requires fs != [] && FieldsOk(fs)
  {
    if |fs| == 1 then [0x7D] else [0x2C] + FieldsSpelled(fs[1..])
  }

  lemma ItemsSpelledOf(es: seq<Item>)
    requires es != [] && ItemsOk(es)
    ensures ItemsSpelled(es) == es[0].before + (Spelled(es[0].value) + (es[0].after + ItemTail(es)))
    ensures |ItemTail(es)| > 0 && ItemTail(es)[0] == if |es| == 1 then 0x5D else 0x2C
  {
    hide Spelled;
  }

  /** After spaces comes a character at which any value ends. */
  lemma AfterValue(s: bytes, q: nat, after: bytes, tail: bytes, t: Syntax)
    requires Blank(after) && Here(s, q, after + tail) && tail != [] && tail[0] in [0x2C, 0x5D, 0x7D]
    ensures Here(s, q + |after|, tail) && SkipSpace(s, q) == q + |after| && At(s, q + |after|) == tail[0] && EndsAt(t, At(s, q))
  {
    HereParts(s, q, after, tail);
    HereAt(s, q + |after|, tail, 0);
    HereAt(s, q, after + tail, 0);
    assert after != [] ==> after[0] in [0x20, 0x09, 0x0A, 0x0B, 0x0C, 0x0D];
    assert !Space(At(s, q + |after|));
    hide Here;
    BlankSkipped(s, q, after);
  }

  /** A text of a value is parsed as what it stands for, wherever it stands, if it does not go on. */
  lemma {:induction false} SyntaxParsed(s: bytes, p: nat, t: Syntax)
    requires SyntaxOk(t) && Here(s, p, Spelled(t)) && EndsAt(t, At(s, p + |Spelled(t)|))
    ensures ParseValue(s, p) == Ok(Meaning(t), p + |Spelled(t)|)
    decreases t, 2
  {
    hide Here, Spelling, NumeralSpelling, WordSpelling, ItemsSpelled, FieldsSpelled, ParseValue, At, StringOf, NumeralValue;
    match t
    case Word(v) =>
      WordParsed(s, p, v);
      Dispatched(s, p);
    case Num(n) =>
      NumeralParsed(s, p, n);
      Dispatched(s, p);
    case Quoted(xs) =>
      HereAt(s, p, [0x22] + Spelling(xs), 0);
      HereParts(s, p, [0x22], Spelling(xs));
      SpelledString(s, p + 1, xs, []);
      assert [] + StringOf(xs) == StringOf(xs);
      Dispatched(s, p);
    case Items(_, _) => ItemsRead(s, p, t);
    case Fields(_, _) => FieldsRead(s, p, t);
  }

  lemma {:induction false} ItemsRead(s: bytes, p: nat, t: Syntax)
    requires t.Items? && SyntaxOk(t) && Here(s, p, Spelled(t))
    ensures ParseValue(s, p) == Ok(Meaning(t), p + |Spelled(t)|)
    decreases t, 1
  {
    hide Here, ItemsSpelled, ParseValue, At, ParseElements, Blank;
    var es := t.items;
    var rest := if es == [] then t.space + [0x5D] else ItemsSpelled(es);
    HereAt(s, p, [0x5B] + rest, 0);
    HereParts(s, p, [0x5B], rest);
    Dispatched(s, p);
    if es == [] {
      AfterValue(s, p + 1, t.space, [0x5D], t);
      assert Meaning(t) == Array([]);
    } else {
      ItemsParsed(s, p + 1, es, []);
      assert [] + ItemValues(es) == ItemValues(es);
      assert Meaning(t) == Array(ItemValues(es));
      ItemStarts(s, p + 1, es);
    }
  }

  lemma ItemStarts(s: bytes, p: nat, es: seq<Item>)
    requires es != [] && ItemsOk(es) && Here(s, p, ItemsSpelled(es))
    ensures SkipSpace(s, p) <= |s| && At(s, SkipSpace(s, p)) != CLOSE_ARRAY
    ensures forall done :: ParseElements(s, SkipSpace(s, p), done) == ParseElements(s, p, done)
  {
    hide Here, ItemsSpelled, Spelled, At, SkipSpace, ItemTail;
    var e := es[0];
    ItemsSpelledOf(es);
    HereParts(s, p, e.before, Spelled(e.value) + (e.after + ItemTail(es)));
    HereParts(s, p + |e.before|, Spelled(e.value), e.after + ItemTail(es));
    SpacesSkipped(s, p, e.before, e.value);
    hide ParseValue;
  }

  /** One element of an array read, with the spaces around it. */
  lemma {:induction false} ItemParsed(s: bytes, p: nat, es: seq<Item>)
    requires es != [] && ItemsOk(es) && Here(s, p, ItemsSpelled(es))
    ensures var q := p + |es[0].before| + |Spelled(es[0].value)|;
      && ParseValue(s, p) == Ok(Meaning(es[0].value), q) && SkipSpace(s, q) == q + |es[0].after|
      && Here(s, q + |es[0].after|, ItemTail(es)) && At(s, q + |es[0].after|) == if |es| == 1 then 0x5D else 0x2C
    decreases es, 0
  {
    hide Here, ItemsSpelled, Spelled, At, SkipSpace, ItemTail, ParseValue, Blank, EndsAt;
    var e := es[0];
    ItemsSpelledOf(es);
    HereParts(s, p, e.before, Spelled(e.value) + (e.after + ItemTail(es)));
    var v := p + |e.before|;
    HereParts(s, v, Spelled(e.value), e.after + ItemTail(es));
    SpacesSkipped(s, p, e.before, e.value);
    AfterValue(s, v + |Spelled(e.value)|, e.after, ItemTail(es), e.value);
    SyntaxParsed(s, v, e.value);
  }

  lemma ElementRead(s: bytes, p: nat, done: seq<Value>, v: Value, q: nat, r: nat)
    requires p <= |s| && ParseValue(s, p) == Ok(v, q) && SkipSpace(s, q) == r
    ensures At(s, r) == COMMA ==> r < |s| && ParseElements(s, p, done) == ParseElements(s, r + 1, done + [v])
    ensures At(s, r) == CLOSE_ARRAY ==> ParseElements(s, p, done) == Ok(Array(done + [v]), r + 1)
  {
    hide ParseValue, SkipSpace;
  }

  lemma {:induction false} ItemsParsed(s: bytes, p: nat, es: seq<Item>, done: seq<Value>)
    requires es != [] && ItemsOk(es) && Here(s, p, ItemsSpelled(es))
    ensures ParseElements(s, p, done) == Ok(Array(done + ItemValues(es)), p + |ItemsSpelled(es)|)
    decreases es, 1
  {
    hide Here, ItemsSpelled, Spelled, At, SkipSpace, ParseValue, Meaning, ParseElements, Blank;
    var v, q := Meaning(es[0].value), p + |es[0].before| + |Spelled(es[0].value)|;
    ItemsSpelledOf(es);
    ItemParsed(s, p, es);
    var r := q + |es[0].after|;
    ElementRead(s, p, done, v, q, r);
    if |es| > 1 {
      HereParts(s, r, [0x2C], ItemsSpelled(es[1..]));
      ItemsParsed(s, r + 1, es[1..], done + [v]);
      assert done + [v] + ItemValues(es[1..]) == done + ItemValues(es);
    } else {
      assert done + [v] == done + ItemValues(es);
    }
  }

  lemma FieldsSpelledOf(fs: seq<Field>)
    requires fs != [] && FieldsOk(fs)
    ensures FieldsSpelled(fs) == fs[0].before + ([0x22] + (Spelling(fs[0].name) + (fs[0].space + ([0x3A] + (fs[0].inner +
      (Spelled(fs[0].value) + (fs[0].after + FieldTail(fs))))))))
    ensures |FieldTail(fs)| > 0 && FieldTail(fs)[0] == if |fs| == 1 then 0x7D else 0x2C
  {
    hide Spelled, Spelling;
  }

  /** Where the parts of the first member stand. */
  function NameAt(fs: seq<Field>, p: nat): nat
    requires fs != []
  {
    p + |fs[0].before|
  }

  function ColonAt(fs: seq<Field>, p: nat): nat
    requires fs != []
  {
    NameAt(fs, p) + 1 + |Spelling(fs[0].name)| + |fs[0].space|
  }

  function ValueEnd(fs: seq<Field>, p: nat): nat
    requires fs != [] && FieldsOk(fs)
  {
    ColonAt(fs, p) + 1 + |fs[0].inner| + |Spelled(fs[0].value)|
  }

  lemma FieldLength(fs: seq<Field>, p: nat)
    requires fs != [] && FieldsOk(fs)
    ensures p + |FieldsSpelled(fs)| == ValueEnd(fs, p) + |fs[0].after| + |FieldTail(fs)|
  {
    hide Spelled, Spelling, FieldsSpelled, FieldTail;
    FieldsSpelledOf(fs);
  }

  lemma FieldParts(s: bytes, p: nat, fs: seq<Field>)
    requires fs != [] && FieldsOk(fs) && Here(s, p, FieldsSpelled(fs))
    ensures Here(s, p, fs[0].before) && Here(s, NameAt(fs, p), [0x22]) && Here(s, NameAt(fs, p) + 1, Spelling(fs[0].name))
    ensures Here(s, NameAt(fs, p) + 1 + |Spelling(fs[0].name)|, fs[0].space) && Here(s, ColonAt(fs, p), [0x3A])
    ensures Here(s, ColonAt(fs, p) + 1, fs[0].inner) && Here(s, ColonAt(fs, p) + 1 + |fs[0].inner|, Spelled(fs[0].value))
    ensures Here(s, ValueEnd(fs, p), fs[0].after + FieldTail(fs))
  {
    hide Here, FieldsSpelled, Spelled, Spelling, FieldTail, Blank, CharsOk, SyntaxOk;
    var f := fs[0];
    FieldsSpelledOf(fs);
    var h := f.after + FieldTail(fs);
    var g := Spelled(f.value) + h;
    var e := f.inner + g;
    var d := [0x3A] + e;
    var c := f.space + d;
    var b := Spelling(f.name) + c;
    HereParts(s, p, f.before, [0x22] + b);
    HereParts(s, NameAt(fs, p), [0x22], b);
    HereParts(s, NameAt(fs, p) + 1, Spelling(f.name), c);
    HereParts(s, NameAt(fs, p) + 1 + |Spelling(f.name)|, f.space, d);
    HereParts(s, ColonAt(fs, p), [0x3A], e);
    HereParts(s, ColonAt(fs, p) + 1, f.inner, g);
    HereParts(s, ColonAt(fs, p) + 1 + |f.inner|, Spelled(f.value), h);
  }

  lemma MemberRead(s: bytes, p: nat, name: bytes, q: nat, colon: nat, v: Value, end: nat)
    requires p <= |s| && ParseString(s, p, []) == Ok(name, q) && SkipSpace(s, q) == colon && At(s, colon) == COLON && colon < |s|
    requires ParseValue(s, colon + 1) == Ok(v, end)
    ensures ParseMember(s, p) == Ok(Member(name, v), end)
  {
    hide ParseString, ParseValue, SkipSpace, At;
  }

  /** One member of an object read, with the spaces around its parts. */
  lemma {:induction false} FieldParsed(s: bytes, p: nat, fs: seq<Field>)
    requires fs != [] && FieldsOk(fs) && Here(s, p, FieldsSpelled(fs))
    ensures NameAt(fs, p) < |s| && SkipSpace(s, p) == NameAt(fs, p) && At(s, NameAt(fs, p)) == QUOTE
    ensures ParseMember(s, NameAt(fs, p) + 1) == Ok(Member(StringOf(fs[0].name), Meaning(fs[0].value)), ValueEnd(fs, p))
    ensures var r := ValueEnd(fs, p) + |fs[0].after|;
      SkipSpace(s, ValueEnd(fs, p)) == r && Here(s, r, FieldTail(fs)) && At(s, r) == if |fs| == 1 then 0x7D else 0x2C
    decreases fs, 0
  {
    hide Here, FieldsSpelled, Spelled, Spelling, At, SkipSpace, FieldTail, ParseValue, ParseMember, Blank, EndsAt, ParseString, NumeralSpelling;
    var f, n, c := fs[0], NameAt(fs, p), ColonAt(fs, p);
    FieldParts(s, p, fs);
    FieldsSpelledOf(fs);
    HereAt(s, n, [0x22], 0);
    BlankSkipped(s, p, f.before);
    SpelledString(s, n + 1, f.name, []);
    assert [] + StringOf(f.name) == StringOf(f.name);
    HereAt(s, c, [0x3A], 0);
    BlankSkipped(s, n + 1 + |Spelling(f.name)|, f.space);
    SpacesSkipped(s, c + 1, f.inner, f.value);
    AfterValue(s, ValueEnd(fs, p), f.after, FieldTail(fs), f.value);
    SyntaxParsed(s, c + 1 + |f.inner|, f.value);
    MemberRead(s, n + 1, StringOf(f.name), n + 1 + |Spelling(f.name)|, c, Meaning(f.value), ValueEnd(fs, p));
  }

  lemma MembersRead(s: bytes, p: nat, done: seq<Member>, m: Member, q: nat, r: nat)
    requires p < |s| && At(s, p) == QUOTE && ParseMember(s, p + 1) == Ok(m, q) && SkipSpace(s, q) == r
    ensures At(s, r) == COMMA ==> r < |s| && ParseMembers(s, p, done) == ParseMembers(s, SkipSpace(s, r + 1), done + [m])
    ensures At(s, r) == CLOSE_OBJECT ==> ParseMembers(s, p, done) == Ok(Object(done + [m]), r + 1)
  {
    hide ParseMember, SkipSpace;
  }

  lemma {:induction false} FieldsParsed(s: bytes, p: nat, fs: seq<Field>, done: seq<Member>)
    requires fs != [] && FieldsOk(fs) && Here(s, p, FieldsSpelled(fs))
    ensures p <= |s| && ParseMembers(s, SkipSpace(s, p), done) == Ok(Object(done + FieldMembers(fs)), p + |FieldsSpelled(fs)|)
    decreases fs, 1
  {
    hide *;
    FirstOk(fs);
    FieldLength(fs, p);
    FieldParsed(s, p, fs);
    var m, q := Member(StringOf(fs[0].name), Meaning(fs[0].value)), ValueEnd(fs, p);
    var r := q + |fs[0].after|;
    FirstMember(fs, done);
    CharIs(s, r, fs);
    MembersRead(s, NameAt(fs, p), done, m, q, r);
    if |fs| > 1 {
      HereParts(s, r, [0x2C], FieldsSpelled(fs[1..]));
      FieldsParsed(s, r + 1, fs[1..], done + [m]);
    }
  }

  lemma FirstOk(fs: seq<Field>)
    requires fs != [] && FieldsOk(fs)
    ensures FieldsOk(fs[1..]) && SyntaxOk(fs[0].value)
    ensures FieldTail(fs) == if |fs| == 1 then [0x7D] else [0x2C] + FieldsSpelled(fs[1..])
  {
    hide SyntaxOk, Blank, CharsOk, FieldsSpelled;
  }

  lemma Regrouped<T>(a: seq<T>, x: T, b: seq<T>)
    ensures a + ([x] + b) == a + [x] + b && (|b| == 0 ==> a + ([x] + b) == a + [x])
  {
  }

  lemma FirstMember(fs: seq<Field>, done: seq<Member>)
    requires fs != [] && FieldsOk(fs) && SyntaxOk(fs[0].value) && FieldsOk(fs[1..])
    ensures var m := Member(StringOf(fs[0].name), Meaning(fs[0].value));
      done + FieldMembers(fs) == if |fs| == 1 then done + [m] else done + [m] + FieldMembers(fs[1..])
  {
    hide *;
    assert [fs[0]] + fs[1..] == fs;
    MembersCons(fs[0], fs[1..]);
    Regrouped(done, Member(StringOf(fs[0].name), Meaning(fs[0].value)), FieldMembers(fs[1..]));
  }

  lemma CharIs(s: bytes, r: nat, fs: seq<Field>)
    ensures At(s, r) == (if |fs| == 1 then 0x7D else 0x2C) ==> At(s, r) == if |fs| == 1 then CLOSE_OBJECT else COMMA
  {
    hide At;
  }

  lemma {:induction false} FieldsRead(s: bytes, p: nat, t: Syntax)
    requires t.Fields? && SyntaxOk(t) && Here(s, p, Spelled(t))
    ensures ParseValue(s, p) == Ok(Meaning(t), p + |Spelled(t)|)
    decreases t, 1
  {
    hide Here, FieldsSpelled, ParseValue, At, ParseMembers, Blank, SkipSpace;
    var fs := t.fields;
    var rest := if fs == [] then t.space + [0x7D] else FieldsSpelled(fs);
    HereAt(s, p, [0x7B] + rest, 0);
    HereParts(s, p, [0x7B], rest);
    Dispatched(s, p);
    if fs == [] {
      AfterValue(s, p + 1, t.space, [0x7D], t);
      assert Meaning(t) == Object([]);
    } else {
      FieldsParsed(s, p + 1, fs, []);
      FieldParsed(s, p + 1, fs);
      assert [] + FieldMembers(fs) == FieldMembers(fs);
      assert Meaning(t) == Object(FieldMembers(fs));
    }
  }

  // ---------------------------------------------------------------- what is read is written so

  lemma SkippedHere(s: bytes, p: nat)
    requires p <= |s|
    ensures Blank(s[p..SkipSpace(s, p)]) && Here(s, p, s[p..SkipSpace(s, p)]) && !Space(At(s, SkipSpace(s, p)))
  {
    SkippedIsBlank(s, p);
    hide SkipSpace, Blank;
  }

  /** A value that is read is written as some text, after spaces, that does not go on. */
  lemma {:induction false} ValueSpelled(s: bytes, p: nat) returns (b: bytes, t: Syntax)
    requires p <= |s| && ParseValue(s, p).Ok?
    ensures Blank(b) && SyntaxOk(t) && Here(s, p, b) && Here(s, p + |b|, Spelled(t)) && EndsAt(t, At(s, p + |b| + |Spelled(t)|))
    ensures ParseValue(s, p) == Ok(Meaning(t), p + |b| + |Spelled(t)|)
    decreases |s| - p, 0
  {
    hide *;
    var q := SkipSpace(s, p);
    SkippedHere(s, p);
    b := s[p..q];
    ReadFrom(s, p);
    var c := At(s, q);
    if c == QUOTE {
      t := QuotedSpelled(s, q);
    } else if c == OPEN_OBJECT {
      t := ObjectSpelled(s, q);
    } else if c == OPEN_ARRAY {
      t := ArraySpelled(s, q);
    } else if c == MINUS || Digit(c) {
      t := NumSpelled(s, q);
    } else {
      t := WordedSpelled(s, q);
    }
  }

  /** A value is read from after the spaces, as its first character says. */
  lemma ReadFrom(s: bytes, p: nat)
    requires p <= |s| && ParseValue(s, p).Ok?
    ensures var q := SkipSpace(s, p);
      && q < |s| && ParseValue(s, p) == ParseValue(s, q)
      && (At(s, q) == QUOTE || At(s, q) == OPEN_OBJECT || At(s, q) == OPEN_ARRAY || At(s, q) == MINUS || Digit(At(s, q)) || Alpha(At(s, q)))
  {
    SkippedHere(s, p);
    NoSpace(s, SkipSpace(s, p));
    SameFrom(s, p, SkipSpace(s, p));
    hide ParseQuoted, ParseObject, ParseArray, ParseNumber, ParseWord, Blank, Here;
  }

  lemma QuotedRead(s: bytes, q: nat)
    requires q < |s| && At(s, q) == QUOTE && ParseValue(s, q).Ok?
    ensures Here(s, q, [0x22]) && ParseString(s, q + 1, []).Ok?
    ensures ParseValue(s, q) == Ok(Str(ParseString(s, q + 1, []).value), ParseString(s, q + 1, []).next)
  {
    Dispatched(s, q);
    hide ParseValue, ParseString;
    assert s[q..q + 1] == [0x22];
  }

  lemma QuotedTree(xs: seq<Char>)
    requires CharsOk(xs)
    ensures SyntaxOk(Quoted(xs)) && Spelled(Quoted(xs)) == [0x22] + Spelling(xs) && Meaning(Quoted(xs)) == Str([] + StringOf(xs))
    ensures forall c :: EndsAt(Quoted(xs), c)
  {
    hide CharsOk, Spelling, StringOf;
    assert [] + StringOf(xs) == StringOf(xs);
  }

  lemma QuotedSpelled(s: bytes, q: nat) returns (t: Syntax)
    requires q < |s| && At(s, q) == QUOTE && ParseValue(s, q).Ok?
    ensures SyntaxOk(t) && Here(s, q, Spelled(t)) && EndsAt(t, At(s, q + |Spelled(t)|)) && ParseValue(s, q) == Ok(Meaning(t), q + |Spelled(t)|)
  {
    hide *;
    QuotedRead(s, q);
    var xs := StringSpelled(s, q + 1, []);
    QuotedTree(xs);
    t := Quoted(xs);
    HereJoin(s, q, [0x22], q + 1, Spelling(xs));
  }

  lemma NumSpelled(s: bytes, q: nat) returns (t: Syntax)
    requires q < |s| && (At(s, q) == MINUS || Digit(At(s, q))) && ParseValue(s, q).Ok?
    ensures SyntaxOk(t) && Here(s, q, Spelled(t)) && EndsAt(t, At(s, q + |Spelled(t)|)) && ParseValue(s, q) == Ok(Meaning(t), q + |Spelled(t)|)
  {
    hide *;
    Dispatched(s, q);
    var n := NumberSpelled(s, q);
    NumTree(n);
    t := Num(n);
  }

  lemma NumTree(n: Numeral)
    requires NumeralOk(n)
    ensures SyntaxOk(Num(n)) && Spelled(Num(n)) == NumeralSpelling(n) && Meaning(Num(n)) == NumeralValue(n)
    ensures forall c :: EndsAt(Num(n), c) == NumeralEnds(n, c)
  {
    hide NumeralOk, NumeralSpelling, NumeralValue, NumeralEnds;
  }

  lemma WordedSpelled(s: bytes, q: nat) returns (t: Syntax)
    requires q < |s| && Alpha(At(s, q)) && ParseValue(s, q).Ok?
    ensures SyntaxOk(t) && Here(s, q, Spelled(t)) && EndsAt(t, At(s, q + |Spelled(t)|)) && ParseValue(s, q) == Ok(Meaning(t), q + |Spelled(t)|)
  {
    hide *;
    Dispatched(s, q);
    WordSpelled(s, q);
    WordTree(ParseWord(s, q).value);
    t := Word(ParseWord(s, q).value);
  }

  lemma WordTree(v: Value)
    requires IsWord(v)
    ensures SyntaxOk(Word(v)) && Spelled(Word(v)) == WordSpelling(v) && Meaning(Word(v)) == v
    ensures forall c :: EndsAt(Word(v), c) == WordEnds(c)
  {
    hide WordSpelling, WordEnds;
  }

  lemma NoneBlank()
    ensures Blank([])
  {
  }

  /** The elements of an array are read alike with or without the spaces in front. */
  lemma ElementsFrom(s: bytes, p: nat, done: seq<Value>)
    requires p <= |s|
    ensures ParseElements(s, SkipSpace(s, p), done) == ParseElements(s, p, done)
  {
    SkippedHere(s, p);
    NoSpace(s, SkipSpace(s, p));
    SameFrom(s, p, SkipSpace(s, p));
    hide ParseValue, SkipSpace, Blank, Here;
  }

  lemma ArrayRead(s: bytes, q: nat)
    requires q < |s| && At(s, q) == OPEN_ARRAY && ParseValue(s, q).Ok?
    ensures Here(s, q, [0x5B])
    ensures var first := SkipSpace(s, q + 1);
      if At(s, first) == CLOSE_ARRAY then Here(s, first, [0x5D]) && ParseValue(s, q) == Ok(Array([]), first + 1)
      else ParseElements(s, q + 1, []) == ParseValue(s, q)
  {
    Dispatched(s, q);
    ElementsFrom(s, q + 1, []);
    hide ParseValue, ParseElements, SkipSpace;
    assert s[q..q + 1] == [0x5B];
    var first := SkipSpace(s, q + 1);
    if first < |s| {
      CharHere(s, first);
    }
  }

  lemma EmptyArray(space: bytes)
    requires Blank(space)
    ensures SyntaxOk(Items(space, [])) && Spelled(Items(space, [])) == [0x5B] + (space + [0x5D]) && Meaning(Items(space, [])) == Array([])
    ensures forall c :: EndsAt(Items(space, []), c)
  {
    hide Blank;
  }

  lemma {:induction false} ArraySpelled(s: bytes, q: nat) returns (t: Syntax)
    requires q < |s| && At(s, q) == OPEN_ARRAY && ParseValue(s, q).Ok?
    ensures SyntaxOk(t) && Here(s, q, Spelled(t)) && EndsAt(t, At(s, q + |Spelled(t)|)) && ParseValue(s, q) == Ok(Meaning(t), q + |Spelled(t)|)
    decreases |s| - q - 1, 2
  {
    hide *;
    ArrayRead(s, q);
    SkippedHere(s, q + 1);
    var first := SkipSpace(s, q + 1);
    if At(s, first) == CLOSE_ARRAY {
      var space := s[q + 1..first];
      EmptyArray(space);
      t := Items(space, []);
      HereJoin(s, q + 1, space, first, [0x5D]);
      HereJoin(s, q, [0x5B], q + 1, space + [0x5D]);
    } else {
      var es := ElementsSpelled(s, q + 1, []);
      ArrayOf(es);
      t := Items([], es);
      HereJoin(s, q, [0x5B], q + 1, ItemsSpelled(es));
    }
  }

  lemma ArrayOf(es: seq<Item>)
    requires ItemsOk(es) && es != []
    ensures SyntaxOk(Items([], es)) && Meaning(Items([], es)) == Array([] + ItemValues(es)) && Spelled(Items([], es)) == [0x5B] + ItemsSpelled(es)
    ensures forall c :: EndsAt(Items([], es), c)
  {
    hide ItemsSpelled, ItemsOk, ItemValues, Blank;
    assert [] + ItemValues(es) == ItemValues(es);
    NoneBlank();
  }

  lemma ElementsReadOn(s: bytes, p: nat, done: seq<Value>)
    requires p <= |s| && ParseElements(s, p, done).Ok?
    ensures ParseValue(s, p).Ok?
    ensures var r := SkipSpace(s, ParseValue(s, p).next);
      && r < |s| && (At(s, r) == CLOSE_ARRAY || At(s, r) == COMMA)
      && (At(s, r) == COMMA ==> ParseElements(s, r + 1, done + [ParseValue(s, p).value]).Ok?)
  {
    hide ParseValue, SkipSpace;
  }

  /** The rest of an array that is read. */
  lemma {:induction false} ElementsSpelled(s: bytes, p: nat, done: seq<Value>) returns (es: seq<Item>)
    requires p <= |s| && ParseElements(s, p, done).Ok?
    ensures es != [] && ItemsOk(es) && Here(s, p, ItemsSpelled(es))
    ensures ParseElements(s, p, done) == Ok(Array(done + ItemValues(es)), p + |ItemsSpelled(es)|)
    decreases |s| - p, 1
  {
    hide *;
    ElementsReadOn(s, p, done);
    var b, t := ValueSpelled(s, p);
    var q := ParseValue(s, p).next;
    var r := SkipSpace(s, q);
    if At(s, r) == COMMA {
      var rest := ElementsSpelled(s, r + 1, done + [Meaning(t)]);
      es := ElementAnd(s, p, done, b, t, q, rest);
    } else {
      NoItems();
      es := ElementAnd(s, p, done, b, t, q, []);
    }
  }

  /** An element that is read, and the elements after it. */
  lemma ElementAnd(s: bytes, p: nat, done: seq<Value>, b: bytes, t: Syntax, q: nat, rest: seq<Item>) returns (es: seq<Item>)
    requires p <= |s| && Blank(b) && SyntaxOk(t) && Here(s, p, b) && Here(s, p + |b|, Spelled(t)) && q == p + |b| + |Spelled(t)|
    requires ParseValue(s, p) == Ok(Meaning(t), q) && SkipSpace(s, q) < |s| && ItemsOk(rest)
    requires var r := SkipSpace(s, q);
      if rest == [] then At(s, r) == CLOSE_ARRAY
      else
        && At(s, r) == COMMA && Here(s, r + 1, ItemsSpelled(rest))
        && ParseElements(s, r + 1, done + [Meaning(t)]) == Ok(Array(done + [Meaning(t)] + ItemValues(rest)), r + 1 + |ItemsSpelled(rest)|)
    ensures es != [] && ItemsOk(es) && Here(s, p, ItemsSpelled(es))
    ensures ParseElements(s, p, done) == Ok(Array(done + ItemValues(es)), p + |ItemsSpelled(es)|)
  {
    hide *;
    var r := SkipSpace(s, q);
    SkippedHere(s, q);
    CharHere(s, r);
    ElementRead(s, p, done, Meaning(t), q, r);
    var e := Item(b, t, s[q..r]);
    ItemsJoined(s, p, e, rest, q, r);
    ValuesJoined(e, rest, done);
    es := [e] + rest;
  }

  lemma NoItems()
    ensures ItemsOk([]) && ItemValues([]) == []
  {
  }

  lemma ValuesJoined(e: Item, rest: seq<Item>, done: seq<Value>)
    requires SyntaxOk(e.value) && ItemsOk(rest) && Blank(e.before) && Blank(e.after)
    ensures ItemsOk([e] + rest) && done + ItemValues([e] + rest) == done + [Meaning(e.value)] + ItemValues(rest)
    ensures rest == [] ==> done + ItemValues([e] + rest) == done + [Meaning(e.value)]
  {
    hide Blank, SyntaxOk, Meaning;
    var es := [e] + rest;
    forall i | 0 <= i < |es|
      ensures Blank(es[i].before) && SyntaxOk(es[i].value) && Blank(es[i].after)
    {
      assert i > 0 ==> es[i] == rest[i - 1];
    }
  }

  lemma ItemsJoined(s: bytes, p: nat, e: Item, rest: seq<Item>, q: nat, r: nat)
    requires SyntaxOk(e.value) && ItemsOk(rest) && Blank(e.before) && Blank(e.after)
    requires Here(s, p, e.before) && Here(s, p + |e.before|, Spelled(e.value)) && q == p + |e.before| + |Spelled(e.value)|
    requires Here(s, q, e.after) && r == q + |e.after| && Here(s, r, if rest == [] then [0x5D] else [0x2C])
    requires rest != [] ==> Here(s, r + 1, ItemsSpelled(rest))
    ensures ItemsOk([e] + rest) && Here(s, p, ItemsSpelled([e] + rest))
    ensures p + |ItemsSpelled([e] + rest)| == r + if rest == [] then 1 else 1 + |ItemsSpelled(rest)|
  {
    hide *;
    ItemsCons(e, rest);
    var tail := if rest == [] then [0x5D] else [0x2C] + ItemsSpelled(rest);
    if rest != [] {
      HereJoin(s, r, [0x2C], r + 1, ItemsSpelled(rest));
    }
    ItemJoined(s, p, e.before, Spelled(e.value), q, e.after, r, tail);
  }

  lemma ItemsCons(e: Item, rest: seq<Item>)
    requires SyntaxOk(e.value) && ItemsOk(rest) && Blank(e.before) && Blank(e.after)
    ensures ItemsOk([e] + rest)
    ensures ItemsSpelled([e] + rest) ==
      e.before + (Spelled(e.value) + (e.after + if rest == [] then [0x5D] else [0x2C] + ItemsSpelled(rest)))
  {
    hide SyntaxOk, Blank, Spelled;
    ValuesJoined(e, rest, []);
    assert ([e] + rest)[1..] == rest;
    hide ItemsOk;
  }

  lemma ItemJoined(s: bytes, p: nat, before: bytes, value: bytes, q: nat, after: bytes, r: nat, tail: bytes)
    requires Here(s, p, before) && Here(s, p + |before|, value) && q == p + |before| + |value|
    requires Here(s, q, after) && r == q + |after| && Here(s, r, tail)
    ensures Here(s, p, before + (value + (after + tail)))
    ensures p + |before + (value + (after + tail))| == r + |tail|
  {
    hide *;
    HereJoin(s, q, after, r, tail);
    HereJoin(s, p + |before|, value, q, after + tail);
    HereJoin(s, p, before, p + |before|, value + (after + tail));
  }

  lemma ObjectRead(s: bytes, q: nat)
    requires q < |s| && At(s, q) == OPEN_OBJECT && ParseValue(s, q).Ok?
    ensures Here(s, q, [0x7B])
    ensures var first := SkipSpace(s, q + 1);
      if At(s, first) == CLOSE_OBJECT then Here(s, first, [0x7D]) && ParseValue(s, q) == Ok(Object([]), first + 1)
      else ParseMembers(s, first, []) == ParseValue(s, q)
  {
    Dispatched(s, q);
    hide ParseValue, ParseMembers, SkipSpace;
    assert s[q..q + 1] == [0x7B];
    var first := SkipSpace(s, q + 1);
    if first < |s| {
      CharHere(s, first);
    }
  }

  lemma EmptyObject(space: bytes)
    requires Blank(space)
    ensures SyntaxOk(Fields(space, [])) && Spelled(Fields(space, [])) == [0x7B] + (space + [0x7D]) && Meaning(Fields(space, [])) == Object([])
    ensures forall c :: EndsAt(Fields(space, []), c)
  {
    hide Blank;
  }

  lemma {:induction false} ObjectSpelled(s: bytes, q: nat) returns (t: Syntax)
    requires q < |s| && At(s, q) == OPEN_OBJECT && ParseValue(s, q).Ok?
    ensures SyntaxOk(t) && Here(s, q, Spelled(t)) && EndsAt(t, At(s, q + |Spelled(t)|)) && ParseValue(s, q) == Ok(Meaning(t), q + |Spelled(t)|)
    decreases |s| - q - 1, 2
  {
    hide *;
    ObjectRead(s, q);
    SkippedHere(s, q + 1);
    var first := SkipSpace(s, q + 1);
    if At(s, first) == CLOSE_OBJECT {
      var space := s[q + 1..first];
      EmptyObject(space);
      t := Fields(space, []);
      HereJoin(s, q + 1, space, first, [0x7D]);
      HereJoin(s, q, [0x7B], q + 1, space + [0x7D]);
    } else {
      var fs := MembersSpelled(s, q + 1, []);
      ObjectOf(fs);
      t := Fields([], fs);
      HereJoin(s, q, [0x7B], q + 1, FieldsSpelled(fs));
    }
  }

  lemma ObjectOf(fs: seq<Field>)
    requires FieldsOk(fs) && fs != []
    ensures SyntaxOk(Fields([], fs)) && Meaning(Fields([], fs)) == Object([] + FieldMembers(fs))
    ensures Spelled(Fields([], fs)) == [0x7B] + FieldsSpelled(fs)
    ensures forall c :: EndsAt(Fields([], fs), c)
  {
    hide FieldsSpelled, FieldsOk, FieldMembers, Blank;
    assert [] + FieldMembers(fs) == FieldMembers(fs);
    NoneBlank();
  }

  lemma MembersReadOn(s: bytes, n: nat, done: seq<Member>)
    requires n <= |s| && ParseMembers(s, n, done).Ok?
    ensures n < |s| && At(s, n) == QUOTE && ParseMember(s, n + 1).Ok?
    ensures var r := SkipSpace(s, ParseMember(s, n + 1).next);
      && r < |s| && (At(s, r) == CLOSE_OBJECT || At(s, r) == COMMA)
      && (At(s, r) == COMMA ==> ParseMembers(s, SkipSpace(s, r + 1), done + [ParseMember(s, n + 1).value]).Ok?)
  {
    hide ParseMember, SkipSpace;
  }

  lemma MemberReadOn(s: bytes, p: nat)
    requires p <= |s| && ParseMember(s, p).Ok?
    ensures ParseString(s, p, []).Ok?
    ensures var colon := SkipSpace(s, ParseString(s, p, []).next);
      && colon < |s| && At(s, colon) == COLON && ParseValue(s, colon + 1).Ok?
      && ParseMember(s, p) == Ok(Member(ParseString(s, p, []).value, ParseValue(s, colon + 1).value), ParseValue(s, colon + 1).next)
  {
    hide ParseString, ParseValue, SkipSpace;
  }

  /** The rest of an object that is read, with the spaces in front of its first name. */
  lemma {:induction false} MembersSpelled(s: bytes, p: nat, done: seq<Member>) returns (fs: seq<Field>)
    requires p <= |s| && ParseMembers(s, SkipSpace(s, p), done).Ok?
    ensures fs != [] && FieldsOk(fs) && Here(s, p, FieldsSpelled(fs))
    ensures ParseMembers(s, SkipSpace(s, p), done) == Ok(Object(done + FieldMembers(fs)), p + |FieldsSpelled(fs)|)
    decreases |s| - p, 1
  {
    hide *;
    var n := SkipSpace(s, p);
    MembersReadOn(s, n, done);
    SkippedHere(s, p);
    var f, colon, end := MemberSpelled(s, n, s[p..n]);
    FieldIs(s, n, f, colon, end);
    var r := SkipSpace(s, end);
    if At(s, r) == COMMA {
      var rest := MembersSpelled(s, r + 1, done + [Member(StringOf(f.name), Meaning(f.value))]);
      fs := FieldAnd(s, p, n, done, f, colon, end, rest);
    } else {
      NoFields();
      fs := FieldAnd(s, p, n, done, f, colon, end, []);
    }
  }

  /** A member that is read, and the members after it. */
  lemma FieldAnd(s: bytes, p: nat, n: nat, done: seq<Member>, f: Field, colon: nat, end: nat, rest: seq<Field>) returns (fs: seq<Field>)
    requires p <= n < |s| && end <= |s| && n == SkipSpace(s, p) && At(s, n) == QUOTE && f.before == s[p..n] && FieldHere(s, n, f, colon, end)
    requires ParseMember(s, n + 1) == Ok(Member(StringOf(f.name), Meaning(f.value)), end)
    requires SkipSpace(s, end) < |s| && FieldsOk(rest)
    requires var r, m := SkipSpace(s, end), Member(StringOf(f.name), Meaning(f.value));
      if rest == [] then At(s, r) == CLOSE_OBJECT
      else
        && At(s, r) == COMMA && Here(s, r + 1, FieldsSpelled(rest))
        && ParseMembers(s, SkipSpace(s, r + 1), done + [m]) == Ok(Object(done + [m] + FieldMembers(rest)), r + 1 + |FieldsSpelled(rest)|)
    ensures fs != [] && FieldsOk(fs) && Here(s, p, FieldsSpelled(fs))
    ensures ParseMembers(s, n, done) == Ok(Object(done + FieldMembers(fs)), p + |FieldsSpelled(fs)|)
  {
    hide *;
    FieldIs(s, n, f, colon, end);
    var r, m := SkipSpace(s, end), Member(StringOf(f.name), Meaning(f.value));
    SkippedHere(s, p);
    SkippedHere(s, end);
    CharHere(s, n);
    CharHere(s, r);
    MembersRead(s, n, done, m, end, r);
    var g := f.(after := s[end..r]);
    AfterIsElsewhere(s, n, f, s[end..r], colon, end);
    FieldsJoined(s, p, n, g, rest, colon, end, r);
    MembersJoined(g, rest, done);
    fs := [g] + rest;
  }

  lemma AfterIsElsewhere(s: bytes, n: nat, f: Field, after: bytes, colon: nat, end: nat)
    requires FieldHere(s, n, f, colon, end)
    ensures FieldHere(s, n, f.(after := after), colon, end)
  {
    hide Here, CharsOk, Blank, SyntaxOk, Spelling, Spelled;
  }

  lemma NoFields()
    ensures FieldsOk([]) && FieldMembers([]) == []
  {
  }

  /** The parts of a field, at `n` its quote and at `colon` its colon. */
  ghost predicate FieldHere(s: bytes, n: nat, f: Field, colon: nat, end: nat) {
    && CharsOk(f.name) && Blank(f.space) && Blank(f.inner) && SyntaxOk(f.value)
    && Here(s, n + 1, Spelling(f.name)) && Here(s, n + 1 + |Spelling(f.name)|, f.space)
    && colon == n + 1 + |Spelling(f.name)| + |f.space| && Here(s, colon, [0x3A])
    && Here(s, colon + 1, f.inner) && Here(s, colon + 1 + |f.inner|, Spelled(f.value))
    && end == colon + 1 + |f.inner| + |Spelled(f.value)|
  }

  /** One member that is read, from its quote on. */
  lemma {:induction false} MemberSpelled(s: bytes, n: nat, before: bytes) returns (f: Field, colon: nat, end: nat)
    requires n < |s| && ParseMember(s, n + 1).Ok? && Blank(before)
    ensures f.before == before && f.after == [] && FieldHere(s, n, f, colon, end) && end <= |s|
    ensures ParseMember(s, n + 1) == Ok(Member(StringOf(f.name), Meaning(f.value)), end)
    decreases |s| - n - 1, 1
  {
    hide *;
    MemberReadOn(s, n + 1);
    var xs := StringSpelled(s, n + 1, []);
    var q := ParseString(s, n + 1, []).next;
    colon := SkipSpace(s, q);
    var b, t := ValueSpelled(s, colon + 1);
    end := ParseValue(s, colon + 1).next;
    f := MemberFrom(s, n, before, xs, q, colon, b, t, end);
    NothingBefore(StringOf(xs));
  }

  lemma MemberFrom(s: bytes, n: nat, before: bytes, xs: seq<Char>, q: nat, colon: nat, b: bytes, t: Syntax, end: nat) returns (f: Field)
    requires CharsOk(xs) && Here(s, n + 1, Spelling(xs)) && q == n + 1 + |Spelling(xs)| && q <= |s|
    requires colon == SkipSpace(s, q) && colon < |s| && At(s, colon) == COLON && Blank(b) && SyntaxOk(t)
    requires Here(s, colon + 1, b) && Here(s, colon + 1 + |b|, Spelled(t)) && end == colon + 1 + |b| + |Spelled(t)|
    ensures f.before == before && f.after == [] && f.name == xs && f.value == t && FieldHere(s, n, f, colon, end)
  {
    hide *;
    SkippedHere(s, q);
    CharHere(s, colon);
    f := Field(before, xs, s[q..colon], b, t, []);
    FieldIsHere(s, n, f, q, colon, end);
  }

  lemma FieldIsHere(s: bytes, n: nat, f: Field, q: nat, colon: nat, end: nat)
    requires CharsOk(f.name) && Blank(f.space) && Blank(f.inner) && SyntaxOk(f.value)
    requires Here(s, n + 1, Spelling(f.name)) && q == n + 1 + |Spelling(f.name)| && Here(s, q, f.space)
    requires colon == q + |f.space| && Here(s, colon, [0x3A])
    requires Here(s, colon + 1, f.inner) && Here(s, colon + 1 + |f.inner|, Spelled(f.value))
    requires end == colon + 1 + |f.inner| + |Spelled(f.value)|
    ensures FieldHere(s, n, f, colon, end)
  {
    hide Here, CharsOk, Blank, SyntaxOk, Spelling, Spelled;
  }

  lemma MembersJoined(f: Field, rest: seq<Field>, done: seq<Member>)
    requires SyntaxOk(f.value) && FieldsOk(rest) && Blank(f.before) && CharsOk(f.name) && Blank(f.space) && Blank(f.inner) && Blank(f.after)
    ensures FieldsOk([f] + rest)
    ensures done + FieldMembers([f] + rest) == done + [Member(StringOf(f.name), Meaning(f.value))] + FieldMembers(rest)
    ensures rest == [] ==> done + FieldMembers([f] + rest) == done + [Member(StringOf(f.name), Meaning(f.value))]
  {
    hide Blank, SyntaxOk, Meaning, CharsOk, StringOf;
    var fs := [f] + rest;
    forall i | 0 <= i < |fs|
      ensures Blank(fs[i].before) && CharsOk(fs[i].name) && Blank(fs[i].space) && Blank(fs[i].inner) && SyntaxOk(fs[i].value) && Blank(fs[i].after)
    {
      assert i > 0 ==> fs[i] == rest[i - 1];
    }
  }

  lemma FieldsJoined(s: bytes, p: nat, n: nat, f: Field, rest: seq<Field>, colon: nat, end: nat, r: nat)
    requires FieldHere(s, n, f, colon, end) && Blank(f.before) && Blank(f.after) && FieldsOk(rest)
    requires Here(s, p, f.before) && n == p + |f.before| && Here(s, n, [0x22])
    requires Here(s, end, f.after) && r == end + |f.after| && Here(s, r, if rest == [] then [0x7D] else [0x2C])
    requires rest != [] ==> Here(s, r + 1, FieldsSpelled(rest))
    ensures FieldsOk([f] + rest) && Here(s, p, FieldsSpelled([f] + rest))
    ensures p + |FieldsSpelled([f] + rest)| == r + if rest == [] then 1 else 1 + |FieldsSpelled(rest)|
  {
    hide *;
    FieldIs(s, n, f, colon, end);
    FieldsCons(f, rest);
    var tail := if rest == [] then [0x7D] else [0x2C] + FieldsSpelled(rest);
    if rest != [] {
      HereJoin(s, r, [0x2C], r + 1, FieldsSpelled(rest));
    }
    HereJoin(s, end, f.after, r, tail);
    FieldJoined(s, p, n, f.before, Spelling(f.name), f.space, colon, f.inner, Spelled(f.value), end, f.after + tail);
  }

  lemma FieldsCons(f: Field, rest: seq<Field>)
    requires SyntaxOk(f.value) && FieldsOk(rest) && Blank(f.before) && CharsOk(f.name) && Blank(f.space) && Blank(f.inner) && Blank(f.after)
    ensures FieldsOk([f] + rest)
    ensures FieldsSpelled([f] + rest) == f.before + ([0x22] + (Spelling(f.name) + (f.space + ([0x3A] + (f.inner + (Spelled(f.value) +
      (f.after + if rest == [] then [0x7D] else [0x2C] + FieldsSpelled(rest))))))))
  {
    hide SyntaxOk, Blank, Spelled, Spelling, CharsOk;
    MembersJoined(f, rest, []);
    assert ([f] + rest)[1..] == rest;
    hide FieldsOk;
  }

  lemma FieldIs(s: bytes, n: nat, f: Field, colon: nat, end: nat)
    requires FieldHere(s, n, f, colon, end)
    ensures CharsOk(f.name) && Blank(f.space) && Blank(f.inner) && SyntaxOk(f.value)
    ensures Here(s, n + 1, Spelling(f.name)) && Here(s, n + 1 + |Spelling(f.name)|, f.space)
    ensures colon == n + 1 + |Spelling(f.name)| + |f.space| && Here(s, colon, [0x3A])
    ensures Here(s, colon + 1, f.inner) && Here(s, colon + 1 + |f.inner|, Spelled(f.value))
    ensures end == colon + 1 + |f.inner| + |Spelled(f.value)|
  {
    hide Here, CharsOk, Blank, SyntaxOk, Spelling, Spelled;
  }

  lemma FieldJoined(s: bytes, p: nat, n: nat, before: bytes, name: bytes, space: bytes, colon: nat, inner: bytes, value: bytes, end: nat, h: bytes)
    requires Here(s, p, before) && n == p + |before| && Here(s, n, [0x22]) && Here(s, n + 1, name) && Here(s, n + 1 + |name|, space)
    requires colon == n + 1 + |name| + |space| && Here(s, colon, [0x3A]) && Here(s, colon + 1, inner)
    requires Here(s, colon + 1 + |inner|, value) && end == colon + 1 + |inner| + |value| && Here(s, end, h)
    ensures Here(s, p, before + ([0x22] + (name + (space + ([0x3A] + (inner + (value + h)))))))
    ensures p + |before + ([0x22] + (name + (space + ([0x3A] + (inner + (value + h))))))| == end + |h|
  {
    hide *;
    HereJoin(s, colon + 1 + |inner|, value, end, h);
    var g := value + h;
    HereJoin(s, colon + 1, inner, colon + 1 + |inner|, g);
    var e := inner + g;
    HereJoin(s, colon, [0x3A], colon + 1, e);
    var d := [0x3A] + e;
    HereJoin(s, n + 1 + |name|, space, colon, d);
    var c := space + d;
    HereJoin(s, n + 1, name, n + 1 + |name|, c);
    HereJoin(s, n, [0x22], n + 1, name + c);
    HereJoin(s, p, before, n, [0x22] + (name + c));
  }
  // ---------------------------------------------------------------- what a text stands for

  /** A text that does not go on, and a value that such a text after spaces stands for. */
  ghost predicate TextAt(s: bytes, p: nat, t: Syntax, end: nat) {
    SyntaxOk(t) && Here(s, p, Spelled(t)) && end == p + |Spelled(t)| && EndsAt(t, At(s, end))
  }

  ghost predicate WrittenAs(s: bytes, p: nat, b: bytes, t: Syntax, v: Value, end: nat) {
    Blank(b) && Here(s, p, b) && TextAt(s, p + |b|, t, end) && Meaning(t) == v
  }

  ghost predicate ValueAt(s: bytes, p: nat, v: Value, end: nat) {
    exists b, t :: WrittenAs(s, p, b, t, v, end)
  }

  /** The values that are read are those that a text stands for, however it is spelled and spaced. */
  lemma ValueIff(s: bytes, p: nat, v: Value, end: nat)
    requires p <= |s|
    ensures ParseValue(s, p) == Ok(v, end) <==> ValueAt(s, p, v, end)
  {
    hide Here, Blank, SyntaxOk, Spelled, Meaning, ParseValue, EndsAt;
    if ParseValue(s, p) == Ok(v, end) {
      var b, t := ValueSpelled(s, p);
      assert WrittenAs(s, p, b, t, v, end);
    }
    if ValueAt(s, p, v, end) {
      var b, t :| WrittenAs(s, p, b, t, v, end);
      SpacesSkipped(s, p, b, t);
      SyntaxParsed(s, p + |b|, t);
    }
  }

  /** A character that is no space, quote, minus, bracket, underscore, digit or letter. */
  predicate StartsNothing(c: byte) {
    c !in [0x00, 0x20, 0x22, 0x2D, 0x5B, 0x5F, 0x7B] && !(9 <= c <= 13 || 0x30 <= c <= 0x39 || 0x41 <= c <= 0x5A || 0x61 <= c <= 0x7A)
  }

  /** After spaces comes nothing at all, or a character that no value starts with. */
  lemma NoValue(s: bytes, p: nat, b: bytes)
    requires Blank(b) && Here(s, p, b)
    ensures var c := At(s, p + |b|);
      && (c == 0 ==> ParseValue(s, p) == Err(ENODATA))
      && (StartsNothing(c) ==> ParseValue(s, p) == Err(EINVAL))
  {
    hide Blank, Here, ParseNumber, ParseWord, ParseQuoted, ParseArray, ParseObject;
    HereIs(s, p, b);
    if !Space(At(s, p + |b|)) {
      BlankSkipped(s, p, b);
    }
  }

  lemma ValuesRead(s: bytes, p: nat)
    requires p <= |s|
    ensures forall v: Value, end: nat :: ValueAt(s, p, v, end) <==> ParseValue(s, p) == Ok(v, end)
  {
    hide ParseValue, ValueAt;
    forall v: Value, end: nat
      ensures ValueAt(s, p, v, end) <==> ParseValue(s, p) == Ok(v, end)
    {
      ValueIff(s, p, v, end);
    }
  }

  lemma StringsRead(s: bytes, p: nat)
    requires p <= |s|
    ensures forall x: bytes, end: nat :: StringAt(s, p, x, end) <==> ParseString(s, p, []) == Ok(x, end)
  {
    hide ParseString, StringAt;
    forall x: bytes, end: nat
      ensures StringAt(s, p, x, end) <==> ParseString(s, p, []) == Ok(x, end)
    {
      StringIff(s, p, x, end);
    }
  }

  lemma EscapesRead(s: bytes, p: nat)
    requires p <= |s|
    ensures forall c: byte, end: nat :: EscapeAt(s, p, c, end) <==> ParseEscape(s, p) == Ok(c, end)
  {
    hide ParseEscape, EscapeAt;
    forall c: byte, end: nat
      ensures EscapeAt(s, p, c, end) <==> ParseEscape(s, p) == Ok(c, end)
    {
      EscapeIff(s, p, c, end);
    }
  }
}
