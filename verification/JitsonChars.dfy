/** Strings in tokens: a string that is still being read, and putting a character into it. */
module JitsonChars {
  import opened Bytes
  import opened JitsonTokens

  /** The character bytes of a token with one byte replaced. */
  function PutIn(t: Token, first: bool, o: nat, c: byte): (r: Token)
    requires HoldsChars(t, first) && o < (if first then STRING_SIZE else TOKEN_SIZE)
    ensures HoldsChars(r, first) && (first ==> r == t.(data := Chars(t.data.chars[o := c])))
  {
    if first then t.(data := Chars(t.data.chars[o := c])) else More(t.text[o := c])
  }

  /** The string at token `i` with character `p` replaced. */
  function PutChar(t: seq<Token>, i: nat, p: nat, c: byte): seq<Token>
    requires Room(t, i, StringSize(p))
  {
    var j := i + (p + STRING_SIZE) / TOKEN_SIZE;
    t[j := PutIn(t[j], j == i, if j == i then p else (p + STRING_SIZE) % TOKEN_SIZE, c)]
  }

  /** The only difference between two token arrays is in the characters from token `i` on. */
  ghost predicate OnlyChars(t: seq<Token>, u: seq<Token>, i: nat) {
    && |u| == |t|
    && i < |t|
    && Same(t, u, 0, i)
    && t[i].Head?
    && u[i].Head?
    && u[i] == t[i].(data := u[i].data)
  }

  lemma PutCharIs(t: seq<Token>, i: nat, n: nat, p: nat, c: byte)
    requires Room(t, i, n) && StringSize(p) <= n
    ensures Room(t, i, StringSize(p)) && OnlyChars(t, PutChar(t, i, p, c), i) && Room(PutChar(t, i, p, c), i, n)
    ensures CharAt(PutChar(t, i, p, c), i, p) == c
  {
  }

  lemma PutCharKeeps(t: seq<Token>, i: nat, n: nat, p: nat, c: byte, q: nat)
    requires Room(t, i, n) && StringSize(p) <= n && StringSize(q) <= n && q != p
    ensures Room(t, i, StringSize(p)) && CharAt(PutChar(t, i, p, c), i, q) == CharAt(t, i, q)
  {
    SamePlace(p, q);
  }

  lemma SamePlace(p: nat, q: nat)
    requires p != q
    ensures (p + STRING_SIZE) / TOKEN_SIZE != (q + STRING_SIZE) / TOKEN_SIZE || (p + STRING_SIZE) % TOKEN_SIZE != (q + STRING_SIZE) % TOKEN_SIZE
  {
  }

  // ---------------------------------------------------------------- a string that is being read

  /** On top of the tokens `t` lies a string token with room for the characters `x` and a NUL, and `x` in it. */
  ghost predicate Reading(t: seq<Token>, u: seq<Token>, key: bool, x: bytes) {
    var i := |t|;
    && |u| == i + StringSize(|x|)
    && Same(t, u, 0, i)
    && u[i].Head?
    && u[i] == Head(KString, key, false, false, |x|, u[i].data)
    && Room(u, i, StringSize(|x|))
    && forall p: nat :: p < |x| ==> CharAt(u, i, p) == x[p]
  }

  /** A string token on top of the tokens `t`. */
  ghost predicate StringOnTop(t: seq<Token>, u: seq<Token>, key: bool, x: bytes) {
    var i := |t|;
    && |u| == i + StringSize(|x|)
    && Same(t, u, 0, i)
    && u[i].Head?
    && u[i] == Head(KString, key, false, false, |x|, u[i].data)
    && CharsAt(u, i, x)
  }

  lemma ReadingStarts(t: seq<Token>, chars: bytes, key: bool)
    requires |chars| == STRING_SIZE
    ensures Reading(t, t + [Head(KString, key, false, false, 0, Chars(chars))], key, [])
  {
  }

  /** The NUL at the end. */
  lemma ReadingEnds(t: seq<Token>, u: seq<Token>, key: bool, x: bytes)
    requires Reading(t, u, key, x)
    ensures Room(u, |t|, StringSize(|x|)) && StringOnTop(t, PutChar(u, |t|, |x|, 0), key, x)
  {
    var i := |t|;
    PutCharIs(u, i, StringSize(|x|), |x|, 0);
    hide CharAt, PutChar, Room;
    var w := PutChar(u, i, |x|, 0);
    forall p: nat | p < |x|
      ensures CharAt(w, i, p) == x[p]
    {
      SizeGrows(p, |x|);
      PutCharKeeps(u, i, StringSize(|x|), |x|, 0, p);
    }
  }

  lemma SizeGrows(p: nat, q: nat)
    requires p <= q
    ensures StringSize(p) <= StringSize(q)
  {
  }

  /** A character put at the end, the length counted up, and a token more when the room is used up. */
  ghost predicate Appended(u: seq<Token>, w: seq<Token>, i: nat, len: nat) {
    && i < |u|
    && u[i].Head?
    && |u| <= |w|
    && Same(u[i := u[i].(len := len)], w, 0, |u|)
    && forall j :: |u| <= j < |w| ==> HoldsChars(w[j], false)
  }

  lemma ReadingGoesOn(t: seq<Token>, u: seq<Token>, w: seq<Token>, key: bool, x: bytes, c: byte)
    requires Reading(t, u, key, x)
    requires Room(u, |t|, StringSize(|x|)) && Appended(PutChar(u, |t|, |x|, c), w, |t|, |x| + 1)
    requires |w| == |t| + StringSize(|x| + 1)
    ensures Reading(t, w, key, x + [c])
  {
    var i, n := |t|, StringSize(|x|);
    var v := PutChar(u, i, |x|, c);
    var v1 := v[i := v[i].(len := |x| + 1)];
    PutCharIs(u, i, n, |x|, c);
    hide PutChar, StringSize, CharAt;
    forall p: nat | p <= |x|
      ensures CharAt(w, i, p) == (x + [c])[p]
    {
      SizeGrows(p, |x|);
      LenCharAt(v, w, i, n, p, |x| + 1);
      if p < |x| {
        PutCharKeeps(u, i, n, |x|, c, p);
      }
    }
    RoomGrows(v, w, i, n, |x| + 1);
  }

  lemma LenCharAt(v: seq<Token>, w: seq<Token>, i: nat, n: nat, p: nat, len: nat)
    requires Room(v, i, n) && StringSize(p) <= n && |v| == i + n && Appended(v, w, i, len)
    ensures CharAt(w, i, p) == CharAt(v, i, p)
  {
  }

  lemma RoomGrows(v: seq<Token>, w: seq<Token>, i: nat, n: nat, len: nat)
    requires Room(v, i, n) && |v| == i + n && Appended(v, w, i, len)
    ensures Room(w, i, |w| - i)
  {
  }

  // ---------------------------------------------------------------- a string that is being copied

  /** On top of the tokens `t` lies a string token of which the first `n` characters are in place. */
  ghost predicate Copying(t: seq<Token>, u: seq<Token>, key: bool, x: bytes, n: nat) {
    var i := |t|;
    && n <= |x|
    && n % TOKEN_SIZE == STRING_SIZE
    && |u| == i + (n + STRING_SIZE) / TOKEN_SIZE
    && Same(t, u, 0, i)
    && u[i].Head?
    && u[i] == Head(KString, key, false, false, |x|, u[i].data)
    && Room(u, i, |u| - i)
    && forall p: nat :: p < n ==> CharAt(u, i, p) == x[p]
  }

  /** A short string with its NUL in its first token. */
  lemma ShortCopied(t: seq<Token>, u: seq<Token>, key: bool, x: bytes)
    requires |x| < STRING_SIZE && |u| == |t| + 1 && Same(t, u, 0, |t|)
    requires u[|t|].Head? && u[|t|] == Head(KString, key, false, false, |x|, u[|t|].data)
    requires HoldsChars(u[|t|], true) && u[|t|].data.chars[..|x| + 1] == x + [0]
    ensures StringOnTop(t, u, key, x)
  {
    var i, c := |t|, u[|t|].data.chars;
    forall p: nat | p <= |x|
      ensures CharAt(u, i, p) == (x + [0])[p]
    {
      assert c[..|x| + 1][p] == c[p];
    }
  }

  lemma CopyStarts(t: seq<Token>, u: seq<Token>, key: bool, x: bytes)
    requires |x| >= STRING_SIZE && |u| == |t| + 1 && Same(t, u, 0, |t|)
    requires u[|t|] == Head(KString, key, false, false, |x|, Chars(x[..STRING_SIZE]))
    ensures Copying(t, u, key, x, STRING_SIZE)
  {
    forall p: nat | p < STRING_SIZE
      ensures CharAt(u, |t|, p) == x[p]
    {
      assert x[..STRING_SIZE][p] == x[p];
    }
  }

  /** One token more with the next characters. */
  lemma CopyGoesOn(t: seq<Token>, u: seq<Token>, w: seq<Token>, key: bool, x: bytes, n: nat)
    requires Copying(t, u, key, x, n) && n + TOKEN_SIZE <= |x|
    requires w == u + [More(x[n..n + TOKEN_SIZE])]
    ensures Copying(t, w, key, x, n + TOKEN_SIZE)
  {
    var i := |t|;
    forall p: nat | p < n + TOKEN_SIZE
      ensures CharAt(w, i, p) == x[p]
    {
      CopiedAt(t, u, w, key, x, n, x[n..n + TOKEN_SIZE], p);
    }
    hide CharAt;
    assert (n + TOKEN_SIZE + STRING_SIZE) / TOKEN_SIZE == (n + STRING_SIZE) / TOKEN_SIZE + 1;
    assert forall j :: i <= j < |w| ==> HoldsChars(w[j], j == i);
  }

  lemma CopiedAt(t: seq<Token>, u: seq<Token>, w: seq<Token>, key: bool, x: bytes, n: nat, more: bytes, p: nat)
    requires Copying(t, u, key, x, n) && |more| == TOKEN_SIZE && w == u + [More(more)] && p < n + TOKEN_SIZE
    ensures CharAt(w, |t|, p) == if p < n then x[p] else more[p - n]
  {
    var i, q := |t|, (p + STRING_SIZE) / TOKEN_SIZE;
    if p < n {
      assert i + q < |u|;
      assert CharAt(w, i, p) == CharAt(u, i, p);
    } else {
      assert i + q == |u| && (p + STRING_SIZE) % TOKEN_SIZE == p - n;
    }
  }

  /** The last token, with the NUL after the last characters. */
  lemma CopyEnds(t: seq<Token>, u: seq<Token>, w: seq<Token>, key: bool, x: bytes, n: nat, more: bytes)
    requires Copying(t, u, key, x, n) && |x| < n + TOKEN_SIZE && |more| == TOKEN_SIZE
    requires w == u + [More(more)] && more[..|x| - n + 1] == x[n..] + [0]
    ensures StringOnTop(t, w, key, x)
  {
    var i := |t|;
    forall p: nat | p <= |x|
      ensures CharAt(w, i, p) == (x + [0])[p]
    {
      CopiedAt(t, u, w, key, x, n, more, p);
      if p >= n {
        assert more[..|x| - n + 1][p - n] == more[p - n];
      }
    }
    hide CharAt;
    assert StringSize(|x|) == (n + STRING_SIZE) / TOKEN_SIZE + 1;
    assert forall j :: i <= j < |w| ==> HoldsChars(w[j], j == i);
    assert forall p: nat :: p < |x| ==> (x + [0])[p] == x[p];
  }
}
