/** The character source of the parser and its scanners, against the functions that say what is parsed. */
module JitsonSource {
  import opened Bytes
  import opened JsonValue
  import opened JsonParse

  /** A NUL-terminated text. The NUL may be got, but nothing after it. */
  class Source {
    const json: bytes
    var next: nat

    constructor (json: bytes)
      ensures this.json == json && next == 0
    {
      this.json := json;
      next := 0;
    }

    method GetChar() returns (c: byte)
      requires next <= |json|
      modifies this
      ensures c == At(json, old(next)) && next == old(next) + 1
    {
      c := if next < |json| then json[next] else 0;
      next := next + 1;
    }

    method PushChar(c: byte)
      requires next > 0 && At(json, next - 1) == c
      modifies this
      ensures next == old(next) - 1
    {
      next := next - 1;
    }

    function Peek(): byte
      reads this
    {
      if next < |json| then json[next] else 0
    }

    method GetNonspace() returns (c: byte)
      requires next <= |json|
      modifies this
      ensures next == SkipSpace(json, old(next)) + 1 && c == At(json, next - 1)
    {
      while Space(Peek())
        invariant next <= |json| && SkipSpace(json, next) == SkipSpace(json, old(next))
        decreases |json| - next
      {
        next := next + 1;
      }
      c := GetChar();
    }

    /** The length of an identifier that starts here. */
    method GetIdentifier() returns (len: nat)
      requires next <= |json|
      modifies this
      ensures next == SkipIdent(json, old(next)) && len == next - old(next)
    {
      var identifier := next;
      while IdentChar(Peek())
        invariant identifier <= next <= |json| && SkipIdent(json, next) == SkipIdent(json, old(next))
        decreases |json| - next
      {
        next := next + 1;
      }
      len := next - identifier;
    }

    method SkipAllDigits()
      requires next <= |json|
      modifies this
      ensures next == SkipDigits(json, old(next))
    {
      while Digit(Peek())
        invariant next <= |json| && SkipDigits(json, next) == SkipDigits(json, old(next))
        decreases |json| - next
      {
        next := next + 1;
      }
    }

    /** The length of a number that starts here, and whether it is an unsigned integer. */
    method GetNumber() returns (ok: bool, len: nat, isUint: bool)
      requires next <= |json|
      modifies this
      ensures NumberGot(json, old(next), ok, len, isUint, next)
    {
      hide SkipDigits, NumberGot, SkipFraction, SkipExponent, ParseNumber;
      var number := next;
      isUint := true;
      if Peek() == MINUS {
        isUint := false;
        next := next + 1;
      }
      ghost var start := next;
      if !Digit(Peek()) {
        NoNumber(json, number);
        return false, 0, isUint;
      }
      FirstDigit(json, start);
      next := next + 1;
      SkipAllDigits();
      ghost var whole := next;
      ok, isUint := GetFraction(isUint);
      ghost var fraction := next;
      if ok {
        ok, isUint := GetExponent(isUint);
      }
      NumberIs(json, number, start, whole, fraction, ok, next, isUint);
      if !ok {
        return false, 0, isUint;
      }
      len := next - number;
    }

    method GetFraction(wasUint: bool) returns (ok: bool, isUint: bool)
      requires next <= |json|
      modifies this
      ensures ok == SkipFraction(json, old(next)).Some?
      ensures ok ==> next == SkipFraction(json, old(next)).value && isUint == (wasUint && next == old(next))
    {
      ok, isUint := true, wasUint;
      if Peek() == DOT {
        isUint := false;
        next := next + 1;
        if !Digit(Peek()) {
          return false, isUint;
        }
        SkipAllDigits();
      }
    }

    method GetExponent(wasUint: bool) returns (ok: bool, isUint: bool)
      requires next <= |json|
      modifies this
      ensures ok == SkipExponent(json, old(next)).Some?
      ensures ok ==> next == SkipExponent(json, old(next)).value && isUint == (wasUint && next == old(next))
    {
      ok, isUint := true, wasUint;
      if Peek() == 0x45 || Peek() == 0x65 {
        isUint := false;
        next := next + 1;
        if Peek() == MINUS || Peek() == PLUS {
          next := next + 1;
        }
        if !Digit(Peek()) {
          return false, isUint;
        }
        SkipAllDigits();
      }
    }
  }

  /** What the number scanner reports. */
  ghost predicate NumberGot(s: bytes, p: nat, ok: bool, len: nat, isUint: bool, next: nat) {
    p <= |s| && match ParseNumber(s, p)
                case Err(e) => !ok && e == EINVAL
                case Ok(v, end) => ok && next == end == p + len && isUint == v.Uint? && v == NumberOf(s[p..end], isUint)
  }

  function NumberOf(text: bytes, isUint: bool): Value {
    if !isUint then Number(text)
    else if forall i :: 0 <= i < |text| ==> Digit(text[i]) then Uint(StrToUl(text))
    else Null
  }

  lemma FirstDigit(s: bytes, p: nat)
    requires p <= |s| && Digit(At(s, p))
    ensures p < |s| && SkipDigits(s, p) == SkipDigits(s, p + 1)
  {
  }

  lemma NoNumber(s: bytes, p: nat)
    requires p <= |s| && !Digit(At(s, if At(s, p) == MINUS then p + 1 else p))
    ensures forall len, isUint, next :: NumberGot(s, p, false, len, isUint, next)
  {
  }

  lemma NumberIs(s: bytes, p: nat, start: nat, whole: nat, fraction: nat, ok: bool, end: nat, isUint: bool)
    requires p <= start <= |s| && start == (if At(s, p) == MINUS then p + 1 else p) && Digit(At(s, start))
    requires whole == SkipDigits(s, start)
    requires ok ==> SkipFraction(s, whole) == Some(fraction) && SkipExponent(s, fraction) == Some(end)
    requires ok ==> isUint == (start == p && fraction == whole && end == fraction)
    requires !ok ==> SkipFraction(s, whole).None? || (SkipFraction(s, whole) == Some(fraction) && SkipExponent(s, fraction).None?)
    ensures ok ==> end >= p && NumberGot(s, p, true, end - p, isUint, end)
    ensures !ok ==> NumberGot(s, p, false, 0, isUint, end)
  {
    hide SkipFraction, SkipExponent, SkipDigits, StrToUl;
    if ok && isUint {
      DigitsSkipped(s, p);
    }
  }
}
