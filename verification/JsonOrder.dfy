/**
 * The order in which the members of an object are printed: bucket by bucket, each bucket from its last member to its
 * first. What this does to a value, and what a lookup finds in the value that the print is parsed as.
 */
module JsonOrder {
  import opened Bytes
  import opened Seqs
  import opened JsonValue
  import opened JsonParse
  import opened JsonPrint

  /** The bucket of a member: the hash of a name is a function of its bytes, and there are as many buckets as members. */
  function Bucket(hash: bytes -> nat, ms: seq<Member>, name: bytes): (b: nat)
    requires ms != []
    ensures b < |ms|
  {
    hash(name) % |ms|
  }

  /** The positions of the members still to print: those of bucket `b` below position `n`, and those of later buckets. */
  function Order(hash: bytes -> nat, ms: seq<Member>, b: nat, n: nat): (o: seq<nat>)
    requires n <= |ms|
    ensures forall j :: 0 <= j < |o| ==> o[j] < |ms|
    decreases |ms| - b, n
  {
    if b >= |ms| then []
    else if n == 0 then Order(hash, ms, b + 1, |ms|)
    else if Bucket(hash, ms, ms[n - 1].name) == b then [n - 1] + Order(hash, ms, b, n - 1)
    else Order(hash, ms, b, n - 1)
  }

  /** A value with the members of all its objects in the order in which they are printed. */
  function Reordered(hash: bytes -> nat, v: Value): (r: Value)
    decreases v
  {
    match v
    case Array(es) => Array(seq(|es|, k requires 0 <= k < |es| => Reordered(hash, es[k])))
    case Object(ms) => Object(Pick(hash, ms, Order(hash, ms, 0, |ms|)))
    case _ => v
  }

  /** The members at some positions. */
  function Pick(hash: bytes -> nat, ms: seq<Member>, o: seq<nat>): (r: seq<Member>)
    requires forall j :: 0 <= j < |o| ==> o[j] < |ms|
    decreases ms, |o|
  {
    if o == [] then []
    else [Member(ms[o[0]].name, Reordered(hash, ms[o[0]].value))] + Pick(hash, ms, o[1..])
  }

  lemma {:induction false} PickAt(hash: bytes -> nat, ms: seq<Member>, o: seq<nat>, j: nat)
    requires forall i :: 0 <= i < |o| ==> o[i] < |ms|
    ensures |Pick(hash, ms, o)| == |o|
    ensures j < |o| ==> Pick(hash, ms, o)[j] == Member(ms[o[j]].name, Reordered(hash, ms[o[j]].value))
    decreases |o|
  {
    hide Reordered;
    if o != [] {
      PickAt(hash, ms, o[1..], if j > 0 then j - 1 else 0);
    }
  }

  // ---------------------------------------------------------------- the order

  /** Position `k` is printed before position `l`. */
  ghost predicate PrintedBefore(hash: bytes -> nat, ms: seq<Member>, k: nat, l: nat)
    requires k < |ms| && l < |ms|
  {
    var bk, bl := Bucket(hash, ms, ms[k].name), Bucket(hash, ms, ms[l].name);
    bk < bl || (bk == bl && k > l)
  }

  /** Position `k` is still to be printed. */
  ghost predicate Pending(hash: bytes -> nat, ms: seq<Member>, b: nat, n: nat, k: nat) {
    k < |ms| && var c := Bucket(hash, ms, ms[k].name); c > b || (c == b && k < n)
  }

  lemma {:induction false} OrderHolds(hash: bytes -> nat, ms: seq<Member>, b: nat, n: nat, k: nat)
    requires n <= |ms|
    ensures k in Order(hash, ms, b, n) <==> Pending(hash, ms, b, n, k)
    decreases |ms| - b, n
  {
    hide Bucket;
    if b < |ms| {
      if n == 0 {
        OrderHolds(hash, ms, b + 1, |ms|, k);
      } else {
        OrderHolds(hash, ms, b, n - 1, k);
      }
    }
  }

  lemma {:induction false} OrderSorted(hash: bytes -> nat, ms: seq<Member>, b: nat, n: nat, i: nat, j: nat)
    requires n <= |ms| && i < j < |Order(hash, ms, b, n)|
    ensures PrintedBefore(hash, ms, Order(hash, ms, b, n)[i], Order(hash, ms, b, n)[j])
    decreases |ms| - b, n
  {
    hide Bucket;
    var o := Order(hash, ms, b, n);
    if n == 0 {
      OrderSorted(hash, ms, b + 1, |ms|, i, j);
    } else if Bucket(hash, ms, ms[n - 1].name) != b {
      OrderSorted(hash, ms, b, n - 1, i, j);
    } else if i > 0 {
      OrderSorted(hash, ms, b, n - 1, i - 1, j - 1);
    } else {
      OrderHolds(hash, ms, b, n - 1, o[j]);
      assert o[j] in Order(hash, ms, b, n - 1);
    }
  }

  /** An order of the numbers below `n`. */
  ghost predicate Permutation(o: seq<nat>, n: nat) {
    && |o| == n
    && Distinct(o)
    && forall k: nat :: k in o <==> k < n
  }

  lemma FirstIn(o: seq<nat>)
    ensures o == [] || o[0] in o
  {
  }

  lemma {:induction false} DistinctLength(o: seq<nat>, n: nat)
    requires Distinct(o) && forall k: nat :: k in o <==> k < n
    ensures |o| == n
    decreases n
  {
    if n == 0 {
      FirstIn(o);
    } else {
      assert n - 1 in o;
      var j :| 0 <= j < |o| && o[j] == n - 1;
      RemoveAt(o, j);
      var r := Remove(o, j);
      forall k: nat
        ensures k in r <==> k < n - 1
      {
        assert k in r ==> k in o;
        assert k < n - 1 ==> k in o;
      }
      hide Remove;
      DistinctLength(r, n - 1);
    }
  }

  /** Every member is printed exactly once. */
  lemma OrderIsPermutation(hash: bytes -> nat, ms: seq<Member>)
    ensures Permutation(Order(hash, ms, 0, |ms|), |ms|)
  {
    var o := Order(hash, ms, 0, |ms|);
    forall k: nat
      ensures k in o <==> k < |ms|
    {
      OrderHolds(hash, ms, 0, |ms|, k);
    }
    forall i, j | 0 <= i < j < |o|
      ensures o[i] != o[j]
    {
      OrderSorted(hash, ms, 0, |ms|, i, j);
    }
    hide Order;
    DistinctLength(o, |ms|);
  }

  // ---------------------------------------------------------------- what it preserves

  /** The same value but for the order of the members of its objects. */
  ghost predicate SameUpToOrder(v: Value, w: Value)
    decreases v
  {
    match v
    case Array(es) => w.Array? && |w.elems| == |es| && forall k :: 0 <= k < |es| ==> SameUpToOrder(es[k], w.elems[k])
    case Object(ms) => w.Object? && |w.members| == |ms| && exists o :: SameMembers(ms, w.members, o)
    case _ => v == w
  }

  /** Member `k` of the one is member `o[k]` of the other. */
  ghost predicate SameMembers(ms: seq<Member>, ws: seq<Member>, o: seq<nat>)
    requires |ws| == |ms|
    decreases ms
  {
    && Permutation(o, |ms|)
    && (forall k :: 0 <= k < |ms| ==> o[k] in o)
    && forall k :: 0 <= k < |ms| ==> ws[k].name == ms[o[k]].name && SameUpToOrder(ms[o[k]].value, ws[k].value)
  }

  lemma {:induction false} ReorderedIsSame(hash: bytes -> nat, v: Value)
    ensures SameUpToOrder(v, Reordered(hash, v))
    decreases v
  {
    match v
    case Array(es) =>
      forall k | 0 <= k < |es|
        ensures SameUpToOrder(es[k], Reordered(hash, es[k]))
      {
        ReorderedIsSame(hash, es[k]);
      }
    case Object(ms) =>
      hide Order, Reordered;
      var o := Order(hash, ms, 0, |ms|);
      OrderIsPermutation(hash, ms);
      PickAt(hash, ms, o, 0);
      forall k | 0 <= k < |ms|
        ensures o[k] in o
        ensures Pick(hash, ms, o)[k].name == ms[o[k]].name && SameUpToOrder(ms[o[k]].value, Pick(hash, ms, o)[k].value)
      {
        PickAt(hash, ms, o, k);
        ReorderedIsSame(hash, ms[o[k]].value);
      }
      hide Pick;
      assert SameMembers(ms, Pick(hash, ms, o), o);
      assert Reordered(hash, v) == Object(Pick(hash, ms, o));
    case _ =>
  }

  lemma {:induction false} ReorderedPrintable(hash: bytes -> nat, v: Value)
    requires Printable(v)
    ensures Printable(Reordered(hash, v))
    decreases v
  {
    match v
    case Array(es) =>
      forall k | 0 <= k < |es|
        ensures Printable(Reordered(hash, es[k]))
      {
        ReorderedPrintable(hash, es[k]);
      }
    case Object(ms) =>
      hide Order, Reordered;
      var o := Order(hash, ms, 0, |ms|);
      PickAt(hash, ms, o, 0);
      forall k | 0 <= k < |o|
        ensures Printable(Pick(hash, ms, o)[k].value)
      {
        PickAt(hash, ms, o, k);
        ReorderedPrintable(hash, ms[o[k]].value);
      }
      hide Pick;
      assert Reordered(hash, v) == Object(Pick(hash, ms, o));
    case _ =>
  }

  /**
   * What is printed for a value is parsed as the same value but for the order of members, and all of the text is
   * consumed.
   */
  lemma PrintRoundTrip(hash: bytes -> nat, v: Value)
    requires Printable(v)
    ensures var t := Text(Reordered(hash, v));
      ParseValue(t, 0) == Ok(Reordered(hash, v), |t|) && SameUpToOrder(v, Reordered(hash, v))
  {
    hide Text, Reordered, SameUpToOrder, ParseValue, Printable;
    ReorderedPrintable(hash, v);
    ReorderedIsSame(hash, v);
    TextRoundTrip(Reordered(hash, v));
  }

  // ---------------------------------------------------------------- lookups

  /** The members of an object as they are printed. */
  function Printed(hash: bytes -> nat, ms: seq<Member>): seq<Member> {
    Pick(hash, ms, Order(hash, ms, 0, |ms|))
  }

  /**
   * A name looked up after printing and parsing is found just when it was there, but it is the first of the members
   * with the name that is found, where before it was the last.
   */
  lemma PrintedLookup(hash: bytes -> nat, ms: seq<Member>, name: bytes)
    ensures LastNamed(Printed(hash, ms), name) >= 0 <==> FirstNamed(ms, name) < |ms|
    ensures FirstNamed(ms, name) < |ms| ==>
      Printed(hash, ms)[LastNamed(Printed(hash, ms), name)].value == Reordered(hash, ms[FirstNamed(ms, name)].value)
  {
    hide Order, Reordered, Pick, Bucket;
    var o, rs, f := Order(hash, ms, 0, |ms|), Printed(hash, ms), FirstNamed(ms, name);
    var l := LastNamed(rs, name);
    PickAt(hash, ms, o, 0);
    if l >= 0 {
      PickAt(hash, ms, o, l);
      assert ms[o[l]].name == name;
    }
    if f < |ms| {
      OrderHolds(hash, ms, 0, |ms|, f);
      assert f in o;
      var j :| 0 <= j < |o| && o[j] == f;
      PickAt(hash, ms, o, j);
      if l > j {
        OrderSorted(hash, ms, 0, |ms|, j, l);
        assert false;
      }
    }
  }

  /** With distinct names every lookup finds the same member after printing and parsing as before. */
  lemma DistinctLookup(hash: bytes -> nat, ms: seq<Member>, name: bytes)
    requires DistinctNames(ms)
    ensures LastNamed(Printed(hash, ms), name) >= 0 <==> LastNamed(ms, name) >= 0
    ensures LastNamed(ms, name) >= 0 ==>
      Printed(hash, ms)[LastNamed(Printed(hash, ms), name)].value == Reordered(hash, ms[LastNamed(ms, name)].value)
  {
    hide Reordered, Printed;
    PrintedLookup(hash, ms, name);
    var f, l := FirstNamed(ms, name), LastNamed(ms, name);
    if l >= 0 {
      assert f == l;
    }
  }

  /**
   * A lookup gives the same value after printing and parsing as before just when the first and the last member with the
   * name are printed with equal values.
   */
  lemma LookupKeptIff(hash: bytes -> nat, ms: seq<Member>, name: bytes)
    requires FirstNamed(ms, name) < |ms|
    ensures LastNamed(ms, name) >= 0 && LastNamed(Printed(hash, ms), name) >= 0
    ensures var first, last := ms[FirstNamed(ms, name)].value, ms[LastNamed(ms, name)].value;
      var rs := Printed(hash, ms);
      rs[LastNamed(rs, name)].value == Reordered(hash, last) <==> Reordered(hash, first) == Reordered(hash, last)
  {
    hide Reordered, Printed;
    PrintedLookup(hash, ms, name);
    assert ms[FirstNamed(ms, name)].name == name;
  }

  /** For example, with a name that occurs twice with different numbers another member is found. */
  lemma RepeatedNameFlips(hash: bytes -> nat, name: bytes, x: nat, y: nat)
    requires x != y
    ensures var ms := [Member(name, Uint(x)), Member(name, Uint(y))];
      var rs := Printed(hash, ms);
      LastNamed(rs, name) >= 0 && rs[LastNamed(rs, name)].value == Uint(x) && ms[LastNamed(ms, name)].value == Uint(y)
  {
    var ms := [Member(name, Uint(x)), Member(name, Uint(y))];
    PrintedLookup(hash, ms, name);
    hide Printed;
    assert FirstNamed(ms, name) == 0 && LastNamed(ms, name) == 1;
    assert Reordered(hash, Uint(x)) == Uint(x);
  }
}
