/**
 * What the parser accepts: a text is read from a position on, and ends at its first NUL or where its bytes end.
 * The result is a value and the position after it, or the error that is reported.
 */
module JsonParse {
  import opened Bytes
  import opened JsonValue

  /** `Wide` stands for an escape of a character that takes more than one byte, which the models below exclude. */
  datatype Errno = ENODATA | EINVAL | EILSEQ | Wide

  datatype Parsed<+T> = Ok(value: T, next: nat) | Err(errno: Errno)

  const QUOTE: byte := 0x22
  const PLUS: byte := 0x2B
  const COMMA: byte := 0x2C
  const MINUS: byte := 0x2D
  const DOT: byte := 0x2E
  const SLASH: byte := 0x2F
  const COLON: byte := 0x3A
  const OPEN_ARRAY: byte := 0x5B
  const BACKSLASH: byte := 0x5C
  const CLOSE_ARRAY: byte := 0x5D
  const UNDERSCORE: byte := 0x5F
  const OPEN_OBJECT: byte := 0x7B
  const CLOSE_OBJECT: byte := 0x7D

  const FALSE: bytes := [0x66, 0x61, 0x6C, 0x73, 0x65]
  const NULL: bytes := [0x6E, 0x75, 0x6C, 0x6C]
  const TRUE: bytes := [0x74, 0x72, 0x75, 0x65]

  const UINT_MAX: nat := 0xFFFF_FFFF_FFFF_FFFF

  predicate Space(c: byte) {
    c == 0x20 || 9 <= c <= 13
  }

  predicate Digit(c: byte) {
    0x30 <= c <= 0x39
  }

  predicate Alpha(c: byte) {
    0x41 <= c <= 0x5A || 0x61 <= c <= 0x7A || c == UNDERSCORE
  }

  /** The characters of identifiers. */
  predicate IdentChar(c: byte) {
    Alpha(c) || Digit(c) || c == DOT
  }

  /** The character at a position, NUL at the end. */
  function At(s: bytes, p: nat): byte {
    if p < |s| then s[p] else 0
  }

  function SkipSpace(s: bytes, p: nat): (q: nat)
    requires p <= |s|
    ensures p <= q <= |s|
    decreases |s| - p
  {
    if Space(At(s, p)) then SkipSpace(s, p + 1) else p
  }

  function SkipDigits(s: bytes, p: nat): (q: nat)
    requires p <= |s|
    ensures p <= q <= |s|
    decreases |s| - p
  {
    if Digit(At(s, p)) then SkipDigits(s, p + 1) else p
  }

  function SkipIdent(s: bytes, p: nat): (q: nat)
    requires p <= |s|
    ensures p <= q <= |s|
    decreases |s| - p
  {
    if IdentChar(At(s, p)) then SkipIdent(s, p + 1) else p
  }

  // ---------------------------------------------------------------- strings

  /** The value of a hexadecimal digit, or -1. */
  function HexValue(c: byte): (h: int)
    ensures -1 <= h < 16
  {
    if Digit(c) then c - 0x30
    else if 0x61 <= c <= 0x66 then c - 0x61 + 10
    else if 0x41 <= c <= 0x46 then c - 0x41 + 10
    else -1
  }

  /** The next `n` hexadecimal digits, after digits with the value `u`. */
  function ParseHex(s: bytes, p: nat, n: nat, u: nat): (r: Parsed<nat>)
    requires p <= |s|
    ensures r.Ok? ==> r.next == p + n <= |s|
    decreases n
  {
    if n == 0 then Ok(u, p)
    else if HexValue(At(s, p)) < 0 then Err(EILSEQ)
    else ParseHex(s, p + 1, n - 1, 16 * u + HexValue(At(s, p)))
  }

  /** The characters that stand for themselves after a backslash, and those that stand for a control character. */
  function Escaped(c: byte): Option<byte> {
    if c == QUOTE || c == BACKSLASH || c == SLASH then Some(c)
    else if c == 0x62 then Some(0x08)
    else if c == 0x66 then Some(0x0C)
    else if c == 0x6E then Some(0x0A)
    else if c == 0x72 then Some(0x0D)
    else if c == 0x74 then Some(0x09)
    else None
  }

  /** An escape, from the character after the backslash on. */
  function ParseEscape(s: bytes, p: nat): (r: Parsed<byte>)
    requires p <= |s|
    ensures r.Ok? ==> p < r.next <= |s|
  {
    var c := At(s, p);
    if Escaped(c).Some? then Ok(Escaped(c).value, p + 1)
    else if c != 0x75 then Err(EILSEQ)
    else
      match ParseHex(s, p + 1, 4, 0)
      case Err(e) => Err(e)
      case Ok(u, q) => if u < 0x80 then Ok(u, q) else Err(Wide)
  }

  /** The rest of a string, after the characters `read`. */
  function ParseString(s: bytes, p: nat, read: bytes): (r: Parsed<bytes>)
    requires p <= |s|
    ensures r.Ok? ==> p < r.next <= |s|
    decreases |s| - p
  {
    var c := At(s, p);
    if c == QUOTE then Ok(read, p + 1)
    else if c == 0 then Err(EINVAL)
    else if c != BACKSLASH then ParseString(s, p + 1, read + [c])
    else
      match ParseEscape(s, p + 1)
      case Err(e) => Err(e)
      case Ok(d, q) => ParseString(s, q, read + [d])
  }

  // ---------------------------------------------------------------- numbers and words

  function Decimal(digits: bytes): nat
    requires forall i :: 0 <= i < |digits| ==> Digit(digits[i])
  {
    if digits == [] then 0
    else
      var last := digits[|digits| - 1];
      assert Digit(last);
      10 * Decimal(digits[..|digits| - 1]) + (last - 0x30)
  }

  /** Decimal digits as an unsigned integer of 64 bits: the largest one when they do not fit (strtoul). */
  function StrToUl(digits: bytes): nat
    requires forall i :: 0 <= i < |digits| ==> Digit(digits[i])
  {
    if Decimal(digits) <= UINT_MAX then Decimal(digits) else UINT_MAX
  }

  lemma {:induction false} DigitsSkipped(s: bytes, p: nat)
    requires p <= |s|
    ensures forall i :: p <= i < SkipDigits(s, p) ==> Digit(s[i])
    ensures !Digit(At(s, SkipDigits(s, p)))
    decreases |s| - p
  {
    if Digit(At(s, p)) {
      DigitsSkipped(s, p + 1);
    }
  }

  /** The end of an optional fraction. */
  function SkipFraction(s: bytes, p: nat): (r: Option<nat>)
    requires p <= |s|
    ensures r.Some? ==> p <= r.value <= |s|
  {
    if At(s, p) != DOT then Some(p)
    else if Digit(At(s, p + 1)) then Some(SkipDigits(s, p + 1))
    else None
  }

  /** The end of an optional exponent. */
  function SkipExponent(s: bytes, p: nat): (r: Option<nat>)
    requires p <= |s|
    ensures r.Some? ==> p <= r.value <= |s|
  {
    if At(s, p) != 0x45 && At(s, p) != 0x65 then Some(p)
    else
      var q := if At(s, p + 1) == MINUS || At(s, p + 1) == PLUS then p + 2 else p + 1;
      if Digit(At(s, q)) then Some(SkipDigits(s, q)) else None
  }

  function ParseNumber(s: bytes, p: nat): (r: Parsed<Value>)
    requires p <= |s|
    ensures r.Ok? ==> p < r.next <= |s|
  {
    var q := if At(s, p) == MINUS then p + 1 else p;
    if !Digit(At(s, q)) then Err(EINVAL)
    else
      var whole := SkipDigits(s, q);
      match SkipFraction(s, whole)
      case None => Err(EINVAL)
      case Some(fraction) =>
        match SkipExponent(s, fraction)
        case None => Err(EINVAL)
        case Some(end) =>
          if q == p && end == whole then
            DigitsSkipped(s, p);
            Ok(Uint(StrToUl(s[p..end])), end)
          else Ok(Number(s[p..end]), end)
  }

  /** One of the three words of JSON. */
  function ParseWord(s: bytes, p: nat): (r: Parsed<Value>)
    requires p <= |s|
    ensures r.Ok? ==> p < r.next <= |s|
  {
    var end := SkipIdent(s, p);
    var w := s[p..end];
    if w == FALSE then Ok(Bool(false), end)
    else if w == NULL then Ok(Null, end)
    else if w == TRUE then Ok(Bool(true), end)
    else Err(EINVAL)
  }

  // ---------------------------------------------------------------- values

  function ParseValue(s: bytes, p: nat): (r: Parsed<Value>)
    requires p <= |s|
    ensures r.Ok? ==> p < r.next <= |s|
    decreases |s| - p, 0
  {
    var q := SkipSpace(s, p);
    var c := At(s, q);
    if c == 0 then Err(ENODATA)
    else if c == QUOTE then ParseQuoted(s, q + 1)
    else if c == OPEN_OBJECT then ParseObject(s, q + 1)
    else if c == OPEN_ARRAY then ParseArray(s, q + 1)
    else if c == MINUS || Digit(c) then ParseNumber(s, q)
    else if Alpha(c) then ParseWord(s, q)
    else Err(EINVAL)
  }

  /** A string, from after its first quote on. */
  function ParseQuoted(s: bytes, p: nat): (r: Parsed<Value>)
    requires p <= |s|
    ensures r.Ok? ==> p < r.next <= |s|
  {
    match ParseString(s, p, [])
    case Err(e) => Err(e)
    case Ok(t, end) => Ok(Str(t), end)
  }

  /** An object or an array, from after its opening bracket on. */
  function ParseObject(s: bytes, p: nat): (r: Parsed<Value>)
    requires p <= |s|
    ensures r.Ok? ==> p < r.next <= |s|
    decreases |s| - p, 2
  {
    var first := SkipSpace(s, p);
    if At(s, first) == CLOSE_OBJECT then Ok(Object([]), first + 1) else ParseMembers(s, first, [])
  }

  function ParseArray(s: bytes, p: nat): (r: Parsed<Value>)
    requires p <= |s|
    ensures r.Ok? ==> p < r.next <= |s|
    decreases |s| - p, 2
  {
    var first := SkipSpace(s, p);
    if At(s, first) == CLOSE_ARRAY then Ok(Array([]), first + 1) else ParseElements(s, first, [])
  }

  /** The rest of an array, from an element on, after the elements `es`. */
  function ParseElements(s: bytes, p: nat, es: seq<Value>): (r: Parsed<Value>)
    requires p <= |s|
    ensures r.Ok? ==> p < r.next <= |s|
    decreases |s| - p, 1
  {
    match ParseValue(s, p)
    case Err(e) => Err(e)
    case Ok(v, q) =>
      var r := SkipSpace(s, q);
      if At(s, r) == COMMA then ParseElements(s, r + 1, es + [v])
      else if At(s, r) == CLOSE_ARRAY then Ok(Array(es + [v]), r + 1)
      else Err(EINVAL)
  }

  /** The rest of an object, from the quote of a member's name on, after the members `ms`. */
  function ParseMembers(s: bytes, p: nat, ms: seq<Member>): (r: Parsed<Value>)
    requires p <= |s|
    ensures r.Ok? ==> p < r.next <= |s|
    decreases |s| - p, 1
  {
    if At(s, p) != QUOTE then Err(EINVAL)
    else
      match ParseMember(s, p + 1)
      case Err(e) => Err(e)
      case Ok(m, q) =>
        var r := SkipSpace(s, q);
        if At(s, r) == COMMA then ParseMembers(s, SkipSpace(s, r + 1), ms + [m])
        else if At(s, r) == CLOSE_OBJECT then Ok(Object(ms + [m]), r + 1)
        else Err(EINVAL)
  }

  /** A member, from after the quote of its name on. */
  function ParseMember(s: bytes, p: nat): (r: Parsed<Member>)
    requires p <= |s|
    ensures r.Ok? ==> p < r.next <= |s|
    decreases |s| - p, 1
  {
    match ParseString(s, p, [])
    case Err(e) => Err(e)
    case Ok(name, q) =>
      var r := SkipSpace(s, q);
      if At(s, r) != COLON then Err(EINVAL)
      else
        match ParseValue(s, r + 1)
        case Err(e) => Err(e)
        case Ok(v, end) => Ok(Member(name, v), end)
  }

  // ---------------------------------------------------------------- a text inside a text

  ghost predicate Here(s: bytes, p: nat, w: bytes) {
    p + |w| <= |s| && s[p..p + |w|] == w
  }

  lemma HereParts(s: bytes, p: nat, a: bytes, b: bytes)
    requires Here(s, p, a + b)
    ensures Here(s, p, a) && Here(s, p + |a|, b)
  {
    var w := s[p..p + |a + b|];
    assert w[..|a|] == a && w[|a|..] == b;
    SubSlice(s, p, p + |a + b|, 0, |a|);
    SubSlice(s, p, p + |a + b|, |a|, |a + b|);
  }

  lemma HereBoth(s: bytes, p: nat, a: bytes, b: bytes)
    requires Here(s, p, a) && Here(s, p + |a|, b)
    ensures Here(s, p, a + b)
  {
    assert s[p..p + |a + b|] == s[p..p + |a|] + s[p + |a|..p + |a| + |b|];
  }

  lemma HereAt(s: bytes, p: nat, w: bytes, k: nat)
    requires Here(s, p, w) && k < |w|
    ensures At(s, p + k) == w[k] && p + k < |s|
  {
    assert s[p..p + |w|][k] == s[p + k];
  }
}
