/** Sizes and lengths read from tokens, and what linking the members of an object does to its tokens. */
module JitsonIndex {
  import opened Bytes
  import opened JsonValue
  import opened JsonOrder
  import opened JitsonTokens

  // ---------------------------------------------------------------- sizes

  /** The length of a NUL-terminated string, from character `p` on (strlen). */
  function StrLen(t: seq<Token>, i: nat, p: nat): nat
    decreases TOKEN_SIZE * |t| - p
  {
    if CharAt(t, i, p) == 0 then p else StrLen(t, i, p + 1)
  }

  /** The length of a string: names are measured, because their length fields may be links. */
  function StringLen(t: seq<Token>, i: nat): nat
    requires i < |t| && t[i].Head?
  {
    if t[i].key then StrLen(t, i, 0) else t[i].len
  }

  /** The characters of a string. */
  function CharsOf(t: seq<Token>, i: nat, n: nat): (s: bytes)
    ensures |s| == n && forall p :: 0 <= p < n ==> s[p] == CharAt(t, i, p)
  {
    seq(n, p requires p >= 0 => CharAt(t, i, p))
  }

  /** The size in tokens of the value or name at token `i`. */
  function SizeAt(t: seq<Token>, i: nat): nat
    requires i < |t| && t[i].Head?
  {
    match t[i].kind
    case KString => StringSize(StringLen(t, i))
    case KArray => CollectionSize(t[i])
    case KObject => CollectionSize(t[i])
    case _ => 1
  }

  /** A collection's size, or what its index holds after the last offset. */
  function CollectionSize(h: Token): nat
    requires h.Head?
  {
    match h.data
    case Index(index) => if h.len < |index| then index[h.len] else 0
    case Integer(n) => n
    case _ => 0
  }

  /** The size that is computed for a value is the number of tokens it takes, whether it has been indexed or not. */
  lemma SizeAtIs(hash: bytes -> nat, t: seq<Token>, i: nat, v: Value)
    requires IsAt(hash, t, i, v)
    ensures SizeAt(t, i) == SizeOf(v)
  {
    hide ElementsAt, MembersAt, CharsAt, SizeTo, MembersTo, Linked, Unlinked;
  }

  lemma {:induction false} StrLenIs(t: seq<Token>, i: nat, s: bytes, p: nat)
    requires CharsAt(t, i, s) && 0 !in s && p <= |s|
    ensures StrLen(t, i, p) == |s|
    decreases |s| - p
  {
    hide CharAt, Room;
    if p < |s| {
      assert s[p] in s;
      StrLenIs(t, i, s, p + 1);
    }
  }

  lemma CharsOfIs(t: seq<Token>, i: nat, s: bytes)
    requires CharsAt(t, i, s)
    ensures CharsOf(t, i, |s|) == s
  {
    hide CharAt, Room;
  }

  /** The size, length and characters of a name without NUL, whatever is in its length field. */
  lemma NameIs(t: seq<Token>, i: nat, name: bytes)
    requires NameAt(t, i, name) && 0 !in name
    ensures StringLen(t, i) == |name| && SizeAt(t, i) == StringSize(|name|) && CharsOf(t, i, |name|) == name
  {
    hide StringSize, CharsAt, CharsOf;
    StrLenIs(t, i, name, 0);
    CharsOfIs(t, i, name);
  }

  // ---------------------------------------------------------------- buckets

  lemma {:induction false} LastInIs(hash: bytes -> nat, ms: seq<Member>, b: nat, n: nat)
    requires n <= |ms|
    ensures LastIn(hash, ms, b, n) >= 0 ==> Bucket(hash, ms, ms[LastIn(hash, ms, b, n)].name) == b
    ensures forall j :: LastIn(hash, ms, b, n) < j < n ==> Bucket(hash, ms, ms[j].name) != b
    decreases n
  {
    hide Bucket;
    if n > 0 {
      LastInIs(hash, ms, b, n - 1);
    }
  }

  /** The buckets after the first `n` members have been linked. */
  ghost predicate BucketsAt(hash: bytes -> nat, index: seq<nat>, ms: seq<Member>, n: nat)
    requires n <= |ms|
  {
    && |index| == |ms| + 1
    && index[|ms|] == 1 + MembersTo(ms, |ms|)
    && forall b :: 0 <= b < |ms| ==> index[b] == Offset(ms, LastIn(hash, ms, b, n))
  }

  lemma BucketStep(hash: bytes -> nat, index: seq<nat>, ms: seq<Member>, k: nat)
    requires k < |ms| && BucketsAt(hash, index, ms, k)
    ensures |index| == |ms| + 1
    ensures var b := Bucket(hash, ms, ms[k].name);
      index[b] == LinkOf(hash, ms, k) && BucketsAt(hash, index[b := 1 + MembersTo(ms, k)], ms, k + 1)
  {
    hide Bucket, MembersTo, LastIn;
    forall c | 0 <= c < |ms|
      ensures LastIn(hash, ms, c, k + 1) == if Bucket(hash, ms, ms[k].name) == c then k else LastIn(hash, ms, c, k)
    {
      LastInStep(hash, ms, c, k);
    }
  }

  lemma LastInStep(hash: bytes -> nat, ms: seq<Member>, b: nat, k: nat)
    requires k < |ms|
    ensures LastIn(hash, ms, b, k + 1) == if Bucket(hash, ms, ms[k].name) == b then k else LastIn(hash, ms, b, k)
  {
    hide Bucket;
  }

  // ---------------------------------------------------------------- linking

  /** The members of the object at `i`, of which the first `n` have been linked; the tokens elsewhere are as in `t`. */
  ghost predicate Linking(hash: bytes -> nat, t: seq<Token>, u: seq<Token>, i: nat, ms: seq<Member>, n: nat)
    requires n <= |ms|
  {
    && |u| == |t|
    && i + 1 + MembersTo(ms, |ms|) <= |t|
    && Same(t, u, 0, i + 1)
    && Same(t, u, i + 1 + MembersTo(ms, |ms|), |t|)
    && MembersAt(hash, u, i + 1, ms)
    && Linked(hash, u, i, ms, n)
    && Unlinked(u, i, ms, n)
  }

  lemma LinkingStarts(hash: bytes -> nat, t: seq<Token>, i: nat, ms: seq<Member>)
    requires IsAt(hash, t, i, Object(ms)) && !t[i].indexed
    ensures Linking(hash, t, t, i, ms, 0)
  {
    hide MembersAt, MembersTo;
  }

  lemma LinkingHas(hash: bytes -> nat, t: seq<Token>, u: seq<Token>, i: nat, ms: seq<Member>, n: nat, k: nat)
    requires k < |ms| && n <= |ms| && Linking(hash, t, u, i, ms, n)
    ensures MemberAt(hash, u, i + 1 + MembersTo(ms, k), ms[k])
    ensures k >= n ==> LenAt(u, i + 1 + MembersTo(ms, k)) == |ms[k].name|
  {
    hide Linked, MemberAt, LenAt, MembersTo;
  }

  /** A name's length field replaced by a link. */
  function Link(u: seq<Token>, j: nat, link: nat): seq<Token>
    requires j < |u| && u[j].Head?
  {
    u[j := u[j].(len := link)]
  }

  lemma LinkStep(hash: bytes -> nat, t: seq<Token>, u: seq<Token>, i: nat, ms: seq<Member>, k: nat)
    requires k < |ms| && Linking(hash, t, u, i, ms, k)
    ensures var j := i + 1 + MembersTo(ms, k);
      j < |u| && u[j].Head? && u[j].len == |ms[k].name| && Linking(hash, t, Link(u, j, LinkOf(hash, ms, k)), i, ms, k + 1)
  {
    hide StringSize, SizeOf, MembersTo, LinkOf, MemberAt;
    MembersToGrows(ms, k, |ms|);
    var j, link := i + 1 + MembersTo(ms, k), LinkOf(hash, ms, k);
    MemberLinked(hash, u, j, ms[k], link);
    var w := Link(u, j, link);
    forall l | 0 <= l < |ms|
      ensures MemberAt(hash, w, i + 1 + MembersTo(ms, l), ms[l])
      ensures l != k ==> LenAt(w, i + 1 + MembersTo(ms, l)) == LenAt(u, i + 1 + MembersTo(ms, l))
    {
      if l != k {
        OtherMember(hash, u, i, ms, k, l, link);
      }
    }
  }

  lemma MemberLinked(hash: bytes -> nat, u: seq<Token>, j: nat, m: Member, link: nat)
    requires MemberAt(hash, u, j, m)
    ensures j + StringSize(|m.name|) + SizeOf(m.value) <= |u| && u[j].Head?
    ensures MemberAt(hash, Link(u, j, link), j, m) && LenAt(Link(u, j, link), j) == link
  {
    hide StringSize, SizeOf, CharsAt, CharAt, IsAt;
    MemberFits(hash, u, j, m);
    var w := Link(u, j, link);
    CharsSame(u, w, j, m.name);
    IsAtSame(hash, u, w, j + StringSize(|m.name|), m.value);
  }

  lemma MemberFits(hash: bytes -> nat, u: seq<Token>, j: nat, m: Member)
    requires MemberAt(hash, u, j, m)
    ensures j + StringSize(|m.name|) + SizeOf(m.value) <= |u|
  {
    hide StringSize, SizeOf, CharsAt;
  }

  lemma OtherMember(hash: bytes -> nat, u: seq<Token>, i: nat, ms: seq<Member>, k: nat, l: nat, link: nat)
    requires k < |ms| && l < |ms| && l != k && MemberAt(hash, u, i + 1 + MembersTo(ms, l), ms[l])
    requires i + 1 + MembersTo(ms, k) < |u| && u[i + 1 + MembersTo(ms, k)].Head?
    ensures var w, a := Link(u, i + 1 + MembersTo(ms, k), link), i + 1 + MembersTo(ms, l);
      MemberAt(hash, w, a, ms[l]) && LenAt(w, a) == LenAt(u, a)
  {
    hide StringSize, SizeOf, MembersTo, MemberAt;
    var a := i + 1 + MembersTo(ms, l);
    var w := Link(u, i + 1 + MembersTo(ms, k), link);
    if l < k {
      MembersToGrows(ms, l, k);
    } else {
      MembersToGrows(ms, k, l);
    }
    MemberFits(hash, u, a, ms[l]);
    MemberSame(hash, u, w, a, ms[l]);
  }

  /** The object with its index in place of its size. */
  function Indexed(u: seq<Token>, i: nat, index: seq<nat>): seq<Token>
    requires i < |u| && u[i].Head?
  {
    u[i := u[i].(indexed := true, data := Index(index))]
  }

  /** What changed is only inside tokens `i` to `j`. */
  ghost predicate Within(t: seq<Token>, u: seq<Token>, i: nat, j: nat) {
    |u| == |t| && i <= j <= |t| && Same(t, u, 0, i) && Same(t, u, j, |t|)
  }

  lemma LinkingEnds(hash: bytes -> nat, t: seq<Token>, u: seq<Token>, i: nat, ms: seq<Member>, index: seq<nat>)
    requires IsAt(hash, t, i, Object(ms)) && Linking(hash, t, u, i, ms, |ms|) && BucketsAt(hash, index, ms, |ms|)
    ensures i < |u| && u[i].Head? && IsAt(hash, Indexed(u, i, index), i, Object(ms))
    ensures Within(t, Indexed(u, i, index), i, i + SizeOf(Object(ms)))
  {
    hide MembersAt, MembersTo, LinkOf, StringSize;
    assert u[i] == t[i];
    var w := Indexed(u, i, index);
    MembersSame(hash, u, w, i + 1, ms);
    forall k | 0 <= k < |ms|
      ensures LenAt(w, i + 1 + MembersTo(ms, k)) == LenAt(u, i + 1 + MembersTo(ms, k))
    {
    }
  }
}
