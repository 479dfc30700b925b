/** Walking the counters of one list of an sxe-cdb instance in the order of their counts. */
module CdbWalk {
  import opened Bytes
  import opened Seqs
  import opened CdbHkv
  import opened CdbStore
  import opened CdbIndex
  import opened CdbCounts
  import opened CdbInstance

  // ---------------------------------------------------------------- the order of a walk

  function Reversed(s: seq<nat>): (r: seq<nat>)
    ensures |r| == |s| && forall i :: 0 <= i < |s| ==> r[i] == s[|s| - 1 - i]
  {
    seq(|s|, i requires 0 <= i < |s| => s[|s| - 1 - i])
  }

  /** The nodes of a list in the direction of a walk: 0 is low to high, anything else high to low. */
  function Directed(s: seq<nat>, direction: nat): seq<nat> {
    if direction != 0 then Reversed(s) else s
  }

  /** The keys of the nodes, node after node. */
  ghost function Order(chains: map<nat, seq<nat>>, nodes: seq<nat>): (r: seq<nat>)
    requires forall i :: 0 <= i < |nodes| ==> nodes[i] in chains
  {
    if nodes == [] then [] else chains[nodes[0]] + Order(chains, nodes[1..])
  }

  ghost predicate Walkable(s: Shape, l: nat, direction: nat) {
    l < |s.lists| && forall i :: 0 <= i < |s.lists[l]| ==> Directed(s.lists[l], direction)[i] in s.chains
  }

  /** The walk position (cnt, hkv) is the key number `j` of the node number `i` on the way. */
  ghost predicate PosAt(s: Shape, l: nat, direction: nat, i: nat, j: nat, cnt: nat, hkv: nat) {
    && Walkable(s, l, direction) && i < |s.lists[l]| && cnt == Directed(s.lists[l], direction)[i]
    && j < |s.chains[cnt]| && hkv == s.chains[cnt][j]
  }

  /** The position after number (i, j): the next key of the node, or else the first key of the next node. */
  ghost predicate NextPos(s: Shape, l: nat, direction: nat, i: nat, j: nat, cnt: nat, hkv: nat) {
    && Walkable(s, l, direction) && i < |s.lists[l]|
    && var d := Directed(s.lists[l], direction);
       if j + 1 < |s.chains[d[i]]| then PosAt(s, l, direction, i, j + 1, cnt, hkv)
       else if i + 1 < |d| then PosAt(s, l, direction, i + 1, 0, cnt, hkv)
       else cnt == 0 && hkv == 0
  }

  // ---------------------------------------------------------------- what the links say about it

  lemma ListNodes(c: Counts, s: Shape, l: nat, direction: nat)
    requires Ok(c, s, 0) && l < LISTS_MAX
    ensures l < |s.lists| && l < |c.lo| && l < |c.hi| && Walkable(s, l, direction)
    ensures (if direction != 0 then c.hi[l] else c.lo[l]) == At(Directed(s.lists[l], direction), 0)
    ensures ListOk(c.nodes, s.lists[l], c.lo[l], c.hi[l])
  {
    hide FreeOk;
    ChainKeys(c, s);
    hide ChainsOk;
    var ls := s.lists[l];
    assert ListOk(c.nodes, ls, c.lo[l], c.hi[l]);
    hide Linked, ListOk;
    forall i | 0 <= i < |ls|
      ensures Directed(ls, direction)[i] in s.chains
    {
      assert s.lists[l][if direction != 0 then |ls| - 1 - i else i] in s.listOf;
    }
    hide Located;
    FirstNode(c.nodes, ls, c.lo[l], c.hi[l], direction);
  }

  lemma FirstNode(nodes: seq<Count>, ls: seq<nat>, lo: nat, hi: nat, direction: nat)
    requires ListOk(nodes, ls, lo, hi)
    ensures (if direction != 0 then hi else lo) == At(Directed(ls, direction), 0)
  {
    hide NodesLinked, Ascending;
  }

  /** Following `next`, or `last`, steps through the nodes in the direction of the walk. */
  lemma NextNode(nodes: seq<Count>, ls: seq<nat>, lo: nat, hi: nat, direction: nat, i: nat)
    requires ListOk(nodes, ls, lo, hi) && i < |ls|
    ensures var d := Directed(ls, direction);
      && 1 <= d[i] < |nodes| && (if direction != 0 then nodes[d[i]].last else nodes[d[i]].next) == At(d, i + 1)
      && (i + 1 < |d| ==> 1 <= d[i + 1] < |nodes|)
  {
    hide Ascending;
    NextInList(nodes, ls, if direction != 0 then |ls| - 1 - i else i, lo, hi);
  }

  lemma NodeChain(c: Counts, s: Shape, n: nat)
    requires ChainsOk(c, s, 0) && n in s.chains
    ensures n < |c.nodes| && |s.chains[n]| > 0 && c.nodes[n].hkv1 == s.chains[n][0] && Threaded(c.links, n, s.chains[n])
  {
    hide Threaded;
  }

  /** The key at a position of the walk is a counter that uses the position's node. */
  lemma KeyAtPos(c: Counts, s: Shape, l: nat, direction: nat, i: nat, j: nat, cnt: nat, hkv: nat)
    requires Ok(c, s, 0) && PosAt(s, l, direction, i, j, cnt, hkv)
    ensures hkv in c.links && hkv != 0 && c.links[hkv].node == cnt < |c.nodes| && CountOf(c, hkv) == c.nodes[cnt].count
    ensures c.links[hkv].next == At(s.chains[cnt], j + 1)
    ensures c.links[hkv].next != 0 <==> j + 1 < |s.chains[cnt]|
    ensures c.links[hkv].next != 0 ==> c.links[hkv].next in c.links && c.links[c.links[hkv].next].node == cnt
  {
    hide ListsOk, FreeOk;
    NodeChain(c, s, cnt);
    hide ChainsOk, Walkable;
    var ch := s.chains[cnt];
    LinkAt(c.links, cnt, ch, j);
    if j + 1 < |ch| {
      LinkAt(c.links, cnt, ch, j + 1);
    }
  }

  /** The first key of the node number `i` on the way is where the walk comes to it. */
  ghost predicate EntersAt(c: Counts, s: Shape, l: nat, direction: nat, i: nat) {
    && Walkable(s, l, direction) && i < |s.lists[l]|
    && var n := Directed(s.lists[l], direction)[i];
       n < |c.nodes| && PosAt(s, l, direction, i, 0, n, c.nodes[n].hkv1)
  }

  lemma FirstKeyAt(c: Counts, s: Shape, l: nat, direction: nat, i: nat)
    requires Ok(c, s, 0) && Walkable(s, l, direction) && i < |s.lists[l]|
    ensures EntersAt(c, s, l, direction, i)
  {
    hide ListsOk, FreeOk;
    NodeChain(c, s, Directed(s.lists[l], direction)[i]);
    hide ChainsOk, Threaded;
  }

  /** Where the links lead from the position (cnt, hkv): along the chain, or else along the list. */
  ghost predicate LeadsOn(c: Counts, s: Shape, l: nat, direction: nat, i: nat, j: nat, cnt: nat, hkv: nat) {
    && hkv in c.links && cnt < |c.nodes|
    && var after := c.links[hkv].next;
       var next := if direction != 0 then c.nodes[cnt].last else c.nodes[cnt].next;
       if after != 0 then NextPos(s, l, direction, i, j, cnt, after)
       else next < |c.nodes| && NextPos(s, l, direction, i, j, next, if next == 0 then 0 else c.nodes[next].hkv1)
  }

  lemma StepFrom(c: Counts, s: Shape, l: nat, direction: nat, i: nat, j: nat, cnt: nat, hkv: nat)
    requires Ok(c, s, 0) && l < LISTS_MAX && PosAt(s, l, direction, i, j, cnt, hkv)
    ensures LeadsOn(c, s, l, direction, i, j, cnt, hkv)
  {
    hide Ok, Walkable, ListOk, Threaded;
    KeyAtPos(c, s, l, direction, i, j, cnt, hkv);
    if c.links[hkv].next == 0 {
      ListNodes(c, s, l, direction);
      NextNode(c.nodes, s.lists[l], c.lo[l], c.hi[l], direction, i);
      if i + 1 < |s.lists[l]| {
        FirstKeyAt(c, s, l, direction, i + 1);
      }
    }
  }

  // ---------------------------------------------------------------- the walk visits each counter of the list once

  ghost predicate AllIn(chains: map<nat, seq<nat>>, nodes: seq<nat>) {
    forall i :: 0 <= i < |nodes| ==> nodes[i] in chains
  }

  lemma {:induction false} OrderHas(chains: map<nat, seq<nat>>, nodes: seq<nat>, p: nat)
    requires AllIn(chains, nodes)
    ensures p in Order(chains, nodes) <==> exists i :: 0 <= i < |nodes| && p in chains[nodes[i]]
  {
    if nodes != [] {
      OrderHas(chains, nodes[1..], p);
      if i :| 0 <= i < |nodes| && p in chains[nodes[i]] {
        assert i == 0 || nodes[1..][i - 1] == nodes[i];
      }
    }
  }

  /** Nodes with chains of their own. */
  ghost predicate Apart(chains: map<nat, seq<nat>>, nodes: seq<nat>) {
    && AllIn(chains, nodes)
    && (forall i :: 0 <= i < |nodes| ==> Distinct(chains[nodes[i]]))
    && (forall i, j, p :: 0 <= i < j < |nodes| && p in chains[nodes[i]] ==> p !in chains[nodes[j]])
  }

  lemma {:induction false} OrderDistinct(chains: map<nat, seq<nat>>, nodes: seq<nat>)
    requires Apart(chains, nodes)
    ensures Distinct(Order(chains, nodes))
  {
    if nodes != [] {
      var rest := nodes[1..];
      assert forall i :: 0 <= i < |rest| ==> rest[i] == nodes[i + 1];
      OrderDistinct(chains, rest);
      var a, b := chains[nodes[0]], Order(chains, rest);
      forall p | p in a
        ensures p !in b
      {
        OrderHas(chains, rest, p);
      }
      DistinctConcat(a, b);
    }
  }

  lemma DistinctConcat(a: seq<nat>, b: seq<nat>)
    requires Distinct(a) && Distinct(b) && forall p :: p in a ==> p !in b
    ensures Distinct(a + b)
  {
    var r := a + b;
    forall i, j | 0 <= i < j < |r|
      ensures r[i] != r[j]
    {
      if i < |a| <= j {
        assert a[i] in a && b[j - |a|] in b;
      }
    }
  }

  /** Counts that go up with the index, or down. */
  ghost predicate Sorted(c: Counts, keys: seq<nat>, direction: nat) {
    forall i, j :: 0 <= i < j < |keys| ==>
      if direction != 0 then CountOf(c, keys[i]) >= CountOf(c, keys[j]) else CountOf(c, keys[i]) <= CountOf(c, keys[j])
  }

  /** All keys of the chain have the count of the node. */
  ghost predicate AllCount(c: Counts, ch: seq<nat>, n: nat) {
    n < |c.nodes| && forall p :: p in ch ==> CountOf(c, p) == c.nodes[n].count
  }

  /** Nodes whose keys all have the node's count, with counts in the direction of the walk. */
  ghost predicate Graded(c: Counts, chains: map<nat, seq<nat>>, nodes: seq<nat>, direction: nat) {
    && AllIn(chains, nodes)
    && (forall i :: 0 <= i < |nodes| ==> AllCount(c, chains[nodes[i]], nodes[i]))
    && (forall i, j :: 0 <= i < j < |nodes| ==>
          if direction != 0 then c.nodes[nodes[i]].count > c.nodes[nodes[j]].count
          else c.nodes[nodes[i]].count < c.nodes[nodes[j]].count)
  }

  lemma GradedRest(c: Counts, chains: map<nat, seq<nat>>, nodes: seq<nat>, direction: nat)
    requires Graded(c, chains, nodes, direction) && nodes != []
    ensures Graded(c, chains, nodes[1..], direction)
  {
    var rest := nodes[1..];
    assert forall i :: 0 <= i < |rest| ==> rest[i] == nodes[i + 1];
    hide AllCount;
  }

  lemma {:induction false} OrderSorted(c: Counts, chains: map<nat, seq<nat>>, nodes: seq<nat>, direction: nat)
    requires Graded(c, chains, nodes, direction)
    ensures Sorted(c, Order(chains, nodes), direction)
  {
    hide CountOf;
    if nodes != [] {
      var rest := nodes[1..];
      GradedRest(c, chains, nodes, direction);
      OrderSorted(c, chains, rest, direction);
      var a, b := chains[nodes[0]], Order(chains, rest);
      forall p, q | p in a && q in b
        ensures if direction != 0 then CountOf(c, p) >= CountOf(c, q) else CountOf(c, p) <= CountOf(c, q)
      {
        OrderHas(chains, rest, q);
      }
      SortedConcat(c, a, b, nodes[0], direction);
    }
  }

  lemma SortedConcat(c: Counts, a: seq<nat>, b: seq<nat>, n: nat, direction: nat)
    requires AllCount(c, a, n)
    requires Sorted(c, b, direction)
    requires forall p, q :: p in a && q in b ==>
      if direction != 0 then CountOf(c, p) >= CountOf(c, q) else CountOf(c, p) <= CountOf(c, q)
    ensures Sorted(c, a + b, direction)
  {
    hide CountOf;
    var r := a + b;
    forall i, j | 0 <= i < j < |r|
      ensures if direction != 0 then CountOf(c, r[i]) >= CountOf(c, r[j]) else CountOf(c, r[i]) <= CountOf(c, r[j])
    {
      if j < |a| {
        assert r[i] == a[i] && r[j] == a[j] && a[i] in a && a[j] in a;
      } else if i < |a| {
        assert r[i] == a[i] && r[j] == b[j - |a|] && a[i] in a && b[j - |a|] in b;
      } else {
        assert r[i] == b[i - |a|] && r[j] == b[j - |a|];
      }
    }
  }

  /** The keys of a list in the order of a walk. */
  ghost function WalkOrder(s: Shape, l: nat, direction: nat): seq<nat>
    requires Walkable(s, l, direction)
  {
    Order(s.chains, Directed(s.lists[l], direction))
  }

  /** The chain of a node: each of its keys once, each using that node and so having its count. */
  ghost predicate OwnChain(c: Counts, ch: seq<nat>, n: nat) {
    Distinct(ch) && AllCount(c, ch, n) && forall p :: p in ch ==> p in c.links && c.links[p].node == n
  }

  lemma ChainIsOwn(c: Counts, s: Shape, n: nat)
    requires ChainsOk(c, s, 0) && n in s.chains
    ensures OwnChain(c, s.chains[n], n)
  {
    NodeChain(c, s, n);
    hide ChainsOk;
  }

  /** The nodes on the way, with their chains and in the order of their counts. */
  ghost predicate OnTheWay(c: Counts, s: Shape, d: seq<nat>, direction: nat) {
    && AllIn(s.chains, d)
    && (forall i :: 0 <= i < |d| ==> d[i] < |c.nodes| && OwnChain(c, s.chains[d[i]], d[i]))
    && (forall i, j :: 0 <= i < j < |d| ==>
          if direction != 0 then c.nodes[d[i]].count > c.nodes[d[j]].count else c.nodes[d[i]].count < c.nodes[d[j]].count)
  }

  lemma NodesGraded(nodes: seq<Count>, ls: seq<nat>, direction: nat)
    requires Ascending(nodes, ls)
    ensures forall i :: 0 <= i < |ls| ==> Directed(ls, direction)[i] < |nodes|
    ensures forall i, j :: 0 <= i < j < |ls| ==>
      if direction != 0 then nodes[Directed(ls, direction)[i]].count > nodes[Directed(ls, direction)[j]].count
      else nodes[Directed(ls, direction)[i]].count < nodes[Directed(ls, direction)[j]].count
  {
  }

  lemma ListOnTheWay(c: Counts, s: Shape, l: nat, direction: nat)
    requires Ok(c, s, 0) && l < LISTS_MAX
    ensures Walkable(s, l, direction) && OnTheWay(c, s, Directed(s.lists[l], direction), direction)
  {
    hide ListsOk, FreeOk, NodesLinked, OwnChain, Ascending;
    ListNodes(c, s, l, direction);
    NodesGraded(c.nodes, s.lists[l], direction);
    var d := Directed(s.lists[l], direction);
    hide Directed;
    forall i | 0 <= i < |d|
      ensures OwnChain(c, s.chains[d[i]], d[i])
    {
      ChainIsOwn(c, s, d[i]);
    }
  }

  lemma WayApart(c: Counts, s: Shape, d: seq<nat>, direction: nat)
    requires OnTheWay(c, s, d, direction)
    ensures Apart(s.chains, d)
  {
    hide Distinct, AllCount;
    forall i, j, p | 0 <= i < j < |d| && p in s.chains[d[i]]
      ensures p !in s.chains[d[j]]
    {
      assert OwnChain(c, s.chains[d[i]], d[i]) && OwnChain(c, s.chains[d[j]], d[j]);
    }
  }

  lemma WayGraded(c: Counts, s: Shape, d: seq<nat>, direction: nat)
    requires OnTheWay(c, s, d, direction)
    ensures Graded(c, s.chains, d, direction)
  {
    hide Distinct, AllCount;
  }

  /** A walk meets the keys in the direction of their counts, each once. */
  lemma WalkIsSorted(c: Counts, s: Shape, l: nat, direction: nat)
    requires Ok(c, s, 0) && l < LISTS_MAX
    ensures Walkable(s, l, direction)
    ensures Distinct(WalkOrder(s, l, direction)) && Sorted(c, WalkOrder(s, l, direction), direction)
  {
    ListOnTheWay(c, s, l, direction);
    hide Ok, OnTheWay, Apart, Graded, Distinct, Sorted, Order, Directed;
    var d := Directed(s.lists[l], direction);
    WayApart(c, s, d, direction);
    WayGraded(c, s, d, direction);
    OrderDistinct(s.chains, d);
    OrderSorted(c, s.chains, d, direction);
  }

  lemma OnListOnce(s: Shape, l: nat, direction: nat, n: nat)
    requires Located(s.lists, s.listOf) && l < |s.lists|
    ensures n in Directed(s.lists[l], direction) <==> n in s.listOf && s.listOf[n] == l
  {
    if n in s.listOf && s.listOf[n] == l {
      var i := NodeIndex(s.lists, s.listOf, n);
      assert Directed(s.lists[l], direction)[if direction != 0 then |s.lists[l]| - 1 - i else i] == n;
    }
  }

  /** A walk meets exactly the keys of its list. */
  lemma WalkIsComplete(c: Counts, s: Shape, l: nat, direction: nat, p: nat)
    requires Ok(c, s, 0) && l < LISTS_MAX
    ensures Walkable(s, l, direction)
    ensures p in WalkOrder(s, l, direction) <==> ListOf(c, s, p) == Some(l)
  {
    ListOnTheWay(c, s, l, direction);
    var d := Directed(s.lists[l], direction);
    OrderHas(s.chains, d, p);
    if p in c.links {
      hide Linked, FreeOk, ChainsOk, Order;
      OnListOnce(s, l, direction, c.links[p].node);
      hide Ok;
      OnChainOfNode(c, s, p);
    }
    hide Ok, Distinct, AllCount, Directed;
  }

  lemma OnChainOfNode(c: Counts, s: Shape, p: nat)
    requires ChainsOk(c, s, 0) && 0 !in c.links && p in c.links
    ensures c.links[p].node in s.chains && p in s.chains[c.links[p].node]
  {
    hide Threaded;
  }

  // ---------------------------------------------------------------- the walk itself

  /** The check of a walk position, which may come from a caller. */
  predicate WalkPosIsBad(kv: bytes, used: nat, size: nat, cnt: nat, hkv: nat)
    requires used <= |kv|
  {
    && cnt != 0 && hkv != 0
    && (cnt > size || hkv + 1 > used || hkv + StoredHeaderLen(kv[hkv]) > used
        || var u := Unpack(kv, hkv);
           var v := hkv + u.headerLen + u.keyLen;
           v + u.valLen > used || (u.valLen == LINK_BYTES && Nat4(kv, v) != cnt))
  }

  /** What the check reads of a record with room for a link. */
  lemma LinkRecordRead(kv: bytes, used: nat, recs: map<nat, Rec>, p: nat)
    requires StoreOk(kv, used, recs) && p in recs && |recs[p].val| == LINK_BYTES
    ensures 0 < p < used <= |kv| && p + StoredHeaderLen(kv[p]) <= used
    ensures var u := Unpack(kv, p);
      var v := p + u.headerLen + u.keyLen;
      v + LINK_BYTES <= used && u.valLen == LINK_BYTES && Nat4(kv, v) == Nat4(recs[p].val, 0)
  {
    hide StoreOk, Unpack, Nat4, ValPos, Size, RecAt;
    NotAtZero(kv, used, recs, p);
    RecAtPos(kv, used, recs, p);
    ReadLinkAt(kv, used, recs, p, 0);
    UsedInMemory(kv, used, recs);
    HeaderInside(kv, p);
  }

  lemma NotAtZero(kv: bytes, used: nat, recs: map<nat, Rec>, p: nat)
    requires StoreOk(kv, used, recs) && p in recs
    ensures p != 0
  {
    hide RecAt, Size;
  }

  /** What the check reads of any record: its place, its lengths, and the start of its value. */
  lemma RecordRead(kv: bytes, used: nat, recs: map<nat, Rec>, p: nat)
    requires StoreOk(kv, used, recs) && p in recs
    ensures 0 < p < used <= |kv| && p + StoredHeaderLen(kv[p]) <= used
    ensures var u := Unpack(kv, p);
      p + u.headerLen + u.keyLen + u.valLen <= used && u.valLen == |recs[p].val|
  {
    hide StoreOk, Unpack, HeaderLen, RecAt;
    NotAtZero(kv, used, recs, p);
    RecAtPos(kv, used, recs, p);
    UsedInMemory(kv, used, recs);
    HeaderInside(kv, p);
    RecordInside(kv, used, recs, p);
  }

  lemma RecordInside(kv: bytes, used: nat, recs: map<nat, Rec>, p: nat)
    requires StoreOk(kv, used, recs) && p in recs
    ensures p + Size(recs[p]) <= used
  {
    hide RecAt, Size;
  }

  /**
   * A position of a stored record is refused if and only if the node is out of range, one too far being let through,
   * or the value has the size of a counter's and names another node.
   */
  lemma RefusedIff(kv: bytes, used: nat, recs: map<nat, Rec>, size: nat, cnt: nat, p: nat)
    requires StoreOk(kv, used, recs) && p in recs && cnt != 0
    ensures used <= |kv|
    ensures WalkPosIsBad(kv, used, size, cnt, p) <==>
      cnt > size || (|recs[p].val| == LINK_BYTES && Nat4(recs[p].val, 0) != cnt)
  {
    hide StoreOk, Unpack, Nat4;
    RecordRead(kv, used, recs, p);
    if |recs[p].val| == LINK_BYTES {
      LinkRecordRead(kv, used, recs, p);
    }
  }

  /** A record of one byte key and no value. */
  function SmallRecord(): (r: Rec)
    ensures Packable(r) && Size(r) == 2
  {
    Rec([0x41], [])
  }

  /** So a record that is no counter can be accepted, with any node in range, and even with the first one out of range. */
  lemma NonCounterAccepted(size: nat, cnt: nat)
    requires 0 < cnt <= size
    ensures var kv, recs := Store(Zeros(PAGE), 1, SmallRecord()), map[1 := SmallRecord()];
      StoreOk(kv, 3, recs) && recs[1].val == [] && !WalkPosIsBad(kv, 3, size, cnt, 1) && !WalkPosIsBad(kv, 3, size, size, 1)
  {
    hide Store, Packable, Size, RecAt, WalkPosIsBad;
    var r := SmallRecord();
    AppendOk(Zeros(PAGE), 1, map[], r);
    var kv, recs := Store(Zeros(PAGE), 1, r), map[1 := r];
    assert map[][1 := r] == recs;
    RefusedIff(kv, 3, recs, size, cnt, 1);
    RefusedIff(kv, 3, recs, size, size, 1);
  }

  /** For a counter, the check fails just when the counter does not use the node. */
  lemma CounterPos(kv: bytes, used: nat, recs: map<nat, Rec>, links: map<nat, Link>, size: nat, cnt: nat, p: nat)
    requires StoreOk(kv, used, recs) && LinksOk(recs, links) && p in links && links[p].node < size && cnt != 0
    ensures p in recs && used <= |kv|
    ensures WalkPosIsBad(kv, used, size, cnt, p) <==> links[p].node != cnt
  {
    hide StoreOk, Unpack, Nat4;
    LinkRecordRead(kv, used, recs, p);
    assert DecodeLink(recs[p].val) == links[p];
  }

  lemma HeaderInside(kv: bytes, p: nat)
    requires p < |kv| && p + StoredHeaderLen(kv[p]) <= |kv|
    ensures Unpack(kv, p).headerLen == StoredHeaderLen(kv[p]) > 0
  {
  }

  ghost predicate Refused(cdb: Instance, cnt: nat, hkv: nat)
    reads cdb
  {
    cdb.kvdataUsed <= |cdb.kvdata| && WalkPosIsBad(cdb.kvdata, cdb.kvdataUsed, |cdb.counts|, cnt, hkv)
  }

  /** A position of a counter, or of a node in use, or one that the check refuses. */
  ghost predicate WalkPosition(cdb: Instance, cnt: nat, hkv: nat)
    reads cdb
  {
    hkv in cdb.links || (hkv == 0 && cnt in cdb.shape.listOf) || Refused(cdb, cnt, hkv)
  }

  /** Node `cnt` is number `i` on the way. */
  ghost predicate NodeOnWay(s: Shape, l: nat, direction: nat, i: nat, cnt: nat) {
    l < LISTS_MAX && Walkable(s, l, direction) && i < |s.lists[l]| && Directed(s.lists[l], direction)[i] == cnt
  }

  lemma NodePos(c: Counts, s: Shape, direction: nat, n: nat) returns (l: nat, i: nat)
    requires Ok(c, s, 0) && n in s.listOf
    ensures NodeOnWay(s, l, direction, i, n)
  {
    hide Ok, ListOk, Walkable;
    l, i := ListPlace(c, s, n);
    ListNodes(c, s, l, direction);
    i := if direction != 0 then |s.lists[l]| - 1 - i else i;
  }

  lemma ListPlace(c: Counts, s: Shape, n: nat) returns (l: nat, i: nat)
    requires Ok(c, s, 0) && n in s.listOf
    ensures l < LISTS_MAX && l < |s.lists| && i < |s.lists[l]| && s.lists[l][i] == n
  {
    hide FreeOk, ChainsOk, ListOk;
    l := s.listOf[n];
    i := NodeIndex(s.lists, s.listOf, n);
  }

  /** Leaving a node leads to the first key of the next node on the way. */
  lemma NodeLeadsOn(c: Counts, s: Shape, l: nat, direction: nat, i: nat, cnt: nat)
    requires Ok(c, s, 0) && NodeOnWay(s, l, direction, i, cnt)
    ensures LeavesTo(c, s, l, direction, i, cnt)
  {
    hide ListsOk, FreeOk;
    NodeChain(c, s, cnt);
    hide ChainsOk, Threaded, Walkable;
    var j := |s.chains[cnt]| - 1;
    assert PosAt(s, l, direction, i, j, cnt, s.chains[cnt][j]);
    KeyAtPos(c, s, l, direction, i, j, cnt, s.chains[cnt][j]);
    StepFrom(c, s, l, direction, i, j, cnt, s.chains[cnt][j]);
    hide Ok;
  }

  ghost predicate LeavesTo(c: Counts, s: Shape, l: nat, direction: nat, i: nat, cnt: nat) {
    && cnt < |c.nodes| && cnt in s.chains && |s.chains[cnt]| > 0
    && var next := if direction != 0 then c.nodes[cnt].last else c.nodes[cnt].next;
       next < |c.nodes| && NextPos(s, l, direction, i, |s.chains[cnt]| - 1, next, if next == 0 then 0 else c.nodes[next].hkv1)
  }

  /** Goes on to the next node. */
  method NextCount(cdb: Instance, direction: nat, cnt: nat) returns (cnt': nat, hkv': nat)
    requires cdb.Valid() && cnt in cdb.shape.listOf
    ensures cnt in cdb.shape.chains && |cdb.shape.chains[cnt]| > 0
    ensures forall l, i :: NodeOnWay(cdb.shape, l, direction, i, cnt) ==>
      NextPos(cdb.shape, l, direction, i, |cdb.shape.chains[cnt]| - 1, cnt', hkv')
  {
    hide cdb.TableOk, cdb.PagesOk, Ok, NodeOnWay, NextPos;
    ghost var l0, i0 := NodePos(cdb.C(), cdb.shape, direction, cnt);
    NodeLeadsOn(cdb.C(), cdb.shape, l0, direction, i0, cnt);
    cnt' := if direction != 0 then cdb.counts[cnt].last else cdb.counts[cnt].next;
    hkv' := if cnt' == 0 then 0 else cdb.counts[cnt'].hkv1;
    forall l, i | NodeOnWay(cdb.shape, l, direction, i, cnt)
      ensures NextPos(cdb.shape, l, direction, i, |cdb.shape.chains[cnt]| - 1, cnt', hkv')
    {
      NodeLeadsOn(cdb.C(), cdb.shape, l, direction, i, cnt);
    }
  }

  /** A counter stands somewhere on the way of its list. */
  lemma KeyPos(c: Counts, s: Shape, direction: nat, p: nat) returns (l: nat, i: nat, j: nat)
    requires Ok(c, s, 0) && p in c.links
    ensures NodeOnWay(s, l, direction, i, c.links[p].node) && PosAt(s, l, direction, i, j, c.links[p].node, p)
    ensures c.links[p].node in s.listOf && 0 < c.links[p].node < |c.nodes|
  {
    hide ListsOk, FreeOk;
    OnChainOfNode(c, s, p);
    ChainKeys(c, s);
    var n := c.links[p].node;
    NodeChain(c, s, n);
    hide ChainsOk;
    j :| 0 <= j < |s.chains[n]| && s.chains[n][j] == p;
    l, i := NodePos(c, s, direction, n);
    ListOnTheWay(c, s, l, direction);
    ListNodes(c, s, l, direction);
    NextNode(c.nodes, s.lists[l], c.lo[l], c.hi[l], direction, i);
    hide Ok, OnTheWay, ListOk, Threaded, Distinct;
  }

  /** What the check says about the position of a counter, and about the next key of its node. */
  lemma CounterChecks(cdb: Instance, cnt: nat, p: nat)
    requires cdb.Valid() && p in cdb.links && cnt != 0
    ensures cdb.kvdataUsed <= |cdb.kvdata|
    ensures Refused(cdb, cnt, p) <==> cdb.links[p].node != cnt
    ensures cdb.links[p].node == cnt ==> !Refused(cdb, cnt, cdb.links[p].next)
  {
    hide Ok, IndexOk, StoreOk, LinksOk, WalkPosIsBad;
    ghost var l, i, j := KeyPos(cdb.C(), cdb.shape, 0, p);
    CounterPos(cdb.kvdata, cdb.kvdataUsed, cdb.recs, cdb.links, |cdb.counts|, cnt, p);
    KeyAtPos(cdb.C(), cdb.shape, l, 0, i, j, cdb.links[p].node, p);
    var q := cdb.links[p].next;
    if q != 0 {
      CounterPos(cdb.kvdata, cdb.kvdataUsed, cdb.recs, cdb.links, |cdb.counts|, cnt, q);
    } else {
      ZeroNotBad(cdb.kvdata, cdb.kvdataUsed, |cdb.counts|, cnt);
    }
  }

  lemma ZeroNotBad(kv: bytes, used: nat, size: nat, cnt: nat)
    requires used <= |kv|
    ensures !WalkPosIsBad(kv, used, size, cnt, 0)
  {
  }

  /** One step of a walk from the position (cnt, hkv) gives the key there, its count, and the next position. */
  ghost predicate Yields(c: Counts, s: Shape, direction: nat, cnt: nat, hkv: nat, p: nat, count: nat, cnt': nat, hkv': nat) {
    && p == hkv && p in c.links && count == CountOf(c, p)
    && (forall l: nat, i: nat, j: nat :: l < LISTS_MAX && PosAt(s, l, direction, i, j, cnt, hkv) ==> NextPos(s, l, direction, i, j, cnt', hkv'))
  }

  /** A step from a position with no key gives nothing, and goes to the next node. */
  ghost predicate Skips(s: Shape, direction: nat, cnt: nat, p: nat, cnt': nat, hkv': nat) {
    && p == 0 && cnt in s.chains && |s.chains[cnt]| > 0
    && (forall l, i :: NodeOnWay(s, l, direction, i, cnt) ==> NextPos(s, l, direction, i, |s.chains[cnt]| - 1, cnt', hkv'))
  }

  method WalkFrom(cdb: Instance, direction: nat, cnt0: nat, hkv0: nat) returns (p: nat, count: nat, cnt: nat, hkv: nat)
    requires cdb.Valid() && cnt0 != 0 && WalkPosition(cdb, cnt0, hkv0)
    ensures Refused(cdb, cnt0, hkv0) ==> p == 0 && cnt == 0 && hkv == 0
    ensures hkv0 == 0 ==> Skips(cdb.shape, direction, cnt0, p, cnt, hkv)
    ensures hkv0 != 0 && !Refused(cdb, cnt0, hkv0) ==> Yields(cdb.C(), cdb.shape, direction, cnt0, hkv0, p, count, cnt, hkv)
  {
    hide Ok, Yields, PosAt, NextPos, NodeOnWay, StoreOk, IndexOk, LinksOk;
    UsedInMemory(cdb.kvdata, cdb.kvdataUsed, cdb.recs);
    hide cdb.TableOk, cdb.PagesOk;
    if hkv0 == 0 {
      NoKeyAtZero(cdb);
      ZeroNotBad(cdb.kvdata, cdb.kvdataUsed, |cdb.counts|, cnt0);
      hide WalkPosIsBad;
      cnt, hkv := NextCount(cdb, direction, cnt0);
      return 0, 0, cnt, hkv;
    }
    if WalkPosIsBad(cdb.kvdata, cdb.kvdataUsed, |cdb.counts|, cnt0, hkv0) {
      return 0, 0, 0, 0;
    }
    hide WalkPosIsBad;
    p, count, cnt, hkv := WalkKey(cdb, direction, cnt0, hkv0);
  }

  lemma NoKeyAtZero(cdb: Instance)
    requires cdb.Valid()
    ensures 0 !in cdb.links
  {
    hide cdb.TableOk, cdb.PagesOk, ListsOk, ChainsOk, FreeOk;
  }

  /** A step from a position that passed the check. */
  method WalkKey(cdb: Instance, direction: nat, cnt0: nat, hkv0: nat) returns (p: nat, count: nat, cnt: nat, hkv: nat)
    requires cdb.Valid() && cnt0 != 0 && hkv0 in cdb.links && !Refused(cdb, cnt0, hkv0)
    ensures Yields(cdb.C(), cdb.shape, direction, cnt0, hkv0, p, count, cnt, hkv)
  {
    hide Ok, PosAt, NextPos, NodeOnWay, cdb.TableOk, cdb.PagesOk, WalkPosIsBad;
    CounterChecks(cdb, cnt0, hkv0);
    ghost var l0, i0, j0 := KeyPos(cdb.C(), cdb.shape, direction, hkv0);
    KeyAtPos(cdb.C(), cdb.shape, l0, direction, i0, j0, cnt0, hkv0);
    var next := cdb.GetLink(hkv0).next;
    if WalkPosIsBad(cdb.kvdata, cdb.kvdataUsed, |cdb.counts|, cnt0, next) {
      assert false;
    }
    hide Refused;
    p, count, cnt, hkv := hkv0, cdb.counts[cnt0].count, cnt0, next;
    if hkv == 0 {
      cnt, hkv := NextCount(cdb, direction, cnt0);
    }
    hide CountOf;
    forall l: nat, i: nat, j: nat | l < LISTS_MAX && PosAt(cdb.shape, l, direction, i, j, cnt0, hkv0)
      ensures NextPos(cdb.shape, l, direction, i, j, cnt, hkv)
    {
      StepMeans(cdb.C(), cdb.shape, l, direction, i, j, cnt0, hkv0);
    }
  }

  lemma StepMeans(c: Counts, s: Shape, l: nat, direction: nat, i: nat, j: nat, cnt: nat, hkv: nat)
    requires Ok(c, s, 0) && l < LISTS_MAX && PosAt(s, l, direction, i, j, cnt, hkv)
    ensures hkv in c.links && NodeOnWay(s, l, direction, i, cnt)
    ensures c.links[hkv].next != 0 ==> NextPos(s, l, direction, i, j, cnt, c.links[hkv].next)
    ensures c.links[hkv].next == 0 ==> cnt in s.chains && j == |s.chains[cnt]| - 1
  {
    hide Ok, NextPos, Threaded;
    KeyAtPos(c, s, l, direction, i, j, cnt, hkv);
    StepFrom(c, s, l, direction, i, j, cnt, hkv);
  }

  /** The step from the start of a list gives the first key. */
  ghost predicate YieldsFirst(c: Counts, s: Shape, direction: nat, l: nat, p: nat, count: nat, cnt: nat, hkv: nat) {
    && Walkable(s, l, direction) && |s.lists[l]| > 0
    && var n := Directed(s.lists[l], direction)[0];
       |s.chains[n]| > 0 && Yields(c, s, direction, n, s.chains[n][0], p, count, cnt, hkv)
  }

  ghost predicate EmptyList(s: Shape, l: nat) {
    l >= |s.lists| || s.lists[l] == []
  }

  /** One step of a walk; `cnt0` of 0 starts at one end of the list, a result `cnt` of 0 is the end of the walk. */
  method Walk(cdb: Instance, direction: nat, cnt0: nat, hkv0: nat, list: nat)
    returns (p: nat, count: nat, cnt: nat, hkv: nat)
    requires cdb.Valid() && (cnt0 != 0 ==> WalkPosition(cdb, cnt0, hkv0))
    ensures cnt0 == 0 && EmptyList(cdb.shape, list) ==> p == 0 && cnt == 0 && hkv == 0
    ensures cnt0 == 0 && !EmptyList(cdb.shape, list) ==> YieldsFirst(cdb.C(), cdb.shape, direction, list, p, count, cnt, hkv)
    ensures cnt0 != 0 && Refused(cdb, cnt0, hkv0) ==> p == 0 && cnt == 0 && hkv == 0
    ensures cnt0 != 0 && hkv0 == 0 ==> Skips(cdb.shape, direction, cnt0, p, cnt, hkv)
    ensures cnt0 != 0 && hkv0 != 0 && !Refused(cdb, cnt0, hkv0) ==>
      Yields(cdb.C(), cdb.shape, direction, cnt0, hkv0, p, count, cnt, hkv)
  {
    hide cdb.TableOk, cdb.PagesOk, Ok, Yields, Skips, Refused;
    cnt, hkv := cnt0, hkv0;
    if cnt == 0 {
      ListsAre(cdb);
      if list >= LISTS_MAX {
        return 0, 0, 0, 0;
      }
      StartOf(cdb, direction, list);
      cnt := if direction != 0 then cdb.countsHi[list] else cdb.countsLo[list];
      hkv := if cnt == 0 then 0 else cdb.counts[cnt].hkv1;
      if cnt == 0 {
        return 0, 0, 0, 0;
      }
    }
    p, count, cnt, hkv := WalkFrom(cdb, direction, cnt, hkv);
  }

  lemma ListsAre(cdb: Instance)
    requires cdb.Valid()
    ensures |cdb.shape.lists| == |cdb.countsLo| == |cdb.countsHi| == LISTS_MAX
  {
    hide cdb.TableOk, cdb.PagesOk, ChainsOk, FreeOk, Located, ListOk;
  }

  /** A walk starts at a counter of the list, unless the list is empty. */
  lemma StartOf(cdb: Instance, direction: nat, l: nat)
    requires cdb.Valid() && l < LISTS_MAX && l < |cdb.countsLo| && l < |cdb.countsHi|
    ensures var n := if direction != 0 then cdb.countsHi[l] else cdb.countsLo[l];
      if EmptyList(cdb.shape, l) then n == 0
      else NodeOnWay(cdb.shape, l, direction, 0, n) && 0 < n < |cdb.counts| && n in cdb.shape.chains
           && |cdb.shape.chains[n]| > 0 && var p := cdb.counts[n].hkv1;
              p == cdb.shape.chains[n][0] && p != 0 && WalkPosition(cdb, n, p) && !Refused(cdb, n, p)
  {
    hide cdb.TableOk, cdb.PagesOk, Ok, ListOk, PosAt, Refused;
    var c, s := cdb.C(), cdb.shape;
    ListNodes(c, s, l, direction);
    if !EmptyList(s, l) {
      NextNode(c.nodes, s.lists[l], c.lo[l], c.hi[l], direction, 0);
      FirstKeyAt(c, s, l, direction, 0);
      var n := Directed(s.lists[l], direction)[0];
      KeyAtPos(c, s, l, direction, 0, 0, n, cdb.counts[n].hkv1);
      CounterChecks(cdb, n, cdb.counts[n].hkv1);
      StartChain(c, s, l, direction);
    }
  }

  lemma StartChain(c: Counts, s: Shape, l: nat, direction: nat)
    requires EntersAt(c, s, l, direction, 0)
    ensures var n := Directed(s.lists[l], direction)[0];
      n in s.chains && n < |c.nodes| && |s.chains[n]| > 0 && s.chains[n][0] == c.nodes[n].hkv1
  {
  }

  // ---------------------------------------------------------------- a whole walk

  /** What is still to come from key `j` of node `i` on. */
  ghost function Rest(chains: map<nat, seq<nat>>, d: seq<nat>, i: nat, j: nat): seq<nat>
    requires AllIn(chains, d) && i < |d| && j <= |chains[d[i]]|
  {
    chains[d[i]][j..] + Order(chains, d[i + 1..])
  }

  lemma RestStep(chains: map<nat, seq<nat>>, d: seq<nat>, i: nat, j: nat)
    requires AllIn(chains, d) && i < |d| && j < |chains[d[i]]|
    ensures Rest(chains, d, i, j) == [chains[d[i]][j]] +
      if j + 1 < |chains[d[i]]| then Rest(chains, d, i, j + 1)
      else if i + 1 < |d| then Rest(chains, d, i + 1, 0) else []
  {
    var ch := chains[d[i]];
    assert ch[j..] == [ch[j]] + ch[j + 1..];
    if j + 1 == |ch| {
      if i + 1 < |d| {
        assert d[i + 1..][0] == d[i + 1] && d[i + 1..][1..] == d[i + 2..];
        assert chains[d[i + 1]][0..] == chains[d[i + 1]];
      } else {
        assert d[i + 1..] == [];
      }
    }
  }

  lemma RestIsOrder(chains: map<nat, seq<nat>>, d: seq<nat>)
    requires AllIn(chains, d) && |d| > 0
    ensures Rest(chains, d, 0, 0) == Order(chains, d)
  {
    assert chains[d[0]][0..] == chains[d[0]];
  }

  /** The keys walked so far, and those to come. */
  ghost predicate Underway(s: Shape, l: nat, direction: nat, i: nat, j: nat, cnt: nat, hkv: nat, keys: seq<nat>) {
    && Walkable(s, l, direction)
    && if cnt == 0 then keys == WalkOrder(s, l, direction)
       else PosAt(s, l, direction, i, j, cnt, hkv) &&
            keys + Rest(s.chains, Directed(s.lists[l], direction), i, j) == WalkOrder(s, l, direction)
  }

  lemma StillUnderway(c: Counts, s: Shape, l: nat, direction: nat, i: nat, j: nat, cnt: nat, hkv: nat, keys: seq<nat>,
                      p: nat, count: nat, cnt': nat, hkv': nat) returns (i': nat, j': nat)
    requires Underway(s, l, direction, i, j, cnt, hkv, keys) && cnt != 0 && l < LISTS_MAX
    requires Yields(c, s, direction, cnt, hkv, p, count, cnt', hkv') && !(exists k :: k in s.chains && k == 0)
    ensures Underway(s, l, direction, i', j', cnt', hkv', keys + [p])
    ensures |keys| < |WalkOrder(s, l, direction)|
  {
    var d := Directed(s.lists[l], direction);
    RestStep(s.chains, d, i, j);
    hide Rest, Order, Directed, CountOf;
    assert NextPos(s, l, direction, i, j, cnt', hkv');
    i', j' := if j + 1 < |s.chains[d[i]]| then i else i + 1, if j + 1 < |s.chains[d[i]]| then j + 1 else 0;
    var rest := if cnt' == 0 then [] else Rest(s.chains, d, i', j');
    assert keys + ([p] + rest) == (keys + [p]) + rest;
    assert cnt' == 0 ==> keys + [p] + [] == keys + [p];
  }

  lemma FirstUnderway(s: Shape, l: nat, direction: nat, n: nat)
    requires NodeOnWay(s, l, direction, 0, n) && n in s.chains && |s.chains[n]| > 0 && n != 0
    ensures Underway(s, l, direction, 0, 0, n, s.chains[n][0], [])
  {
    var d := Directed(s.lists[l], direction);
    RestIsOrder(s.chains, d);
    hide Order, Rest, Directed;
    assert [] + Rest(s.chains, d, 0, 0) == WalkOrder(s, l, direction);
  }

  lemma EmptyUnderway(s: Shape, l: nat, direction: nat)
    requires EmptyList(s, l) && l < |s.lists|
    ensures Underway(s, l, direction, 0, 0, 0, 0, [])
  {
  }

  /** A position on the way is one that a step takes. */
  lemma ReadyAt(cdb: Instance, l: nat, direction: nat, i: nat, j: nat, cnt: nat, hkv: nat)
    requires cdb.Valid() && cnt != 0 && PosAt(cdb.shape, l, direction, i, j, cnt, hkv)
    ensures hkv in cdb.links && hkv != 0 && WalkPosition(cdb, cnt, hkv) && !Refused(cdb, cnt, hkv)
  {
    hide cdb.TableOk, cdb.PagesOk, Ok, Refused, CountOf;
    KeyAtPos(cdb.C(), cdb.shape, l, direction, i, j, cnt, hkv);
    CounterChecks(cdb, cnt, hkv);
  }

  lemma NoNodeAtZero(cdb: Instance)
    requires cdb.Valid()
    ensures 0 !in cdb.shape.chains
  {
    hide cdb.TableOk, cdb.PagesOk, Ok;
    if 0 in cdb.shape.chains {
      NodeAboveZero(cdb.C(), cdb.shape, 0);
    }
  }

  lemma NodeAboveZero(c: Counts, s: Shape, n: nat)
    requires Ok(c, s, 0) && n in s.chains
    ensures n != 0
  {
    hide ListsOk, FreeOk, Threaded;
    ChainKeys(c, s);
    var l, i := NodePos(c, s, 0, n);
    hide ChainsOk;
    ListNodes(c, s, l, 0);
    NextNode(c.nodes, s.lists[l], c.lo[l], c.hi[l], 0, i);
  }

  /** The key of the record at `p`, read out of the memory. */
  function KeyBytes(kv: bytes, p: nat): bytes
    requires p < |kv| && p + StoredHeaderLen(kv[p]) <= |kv|
    requires var u := Unpack(kv, p); p + u.headerLen + u.keyLen <= |kv|
  {
    var u := Unpack(kv, p);
    kv[p + u.headerLen..p + u.headerLen + u.keyLen]
  }

  lemma ReadKey(kv: bytes, used: nat, recs: map<nat, Rec>, p: nat)
    requires StoreOk(kv, used, recs) && p in recs
    ensures p < |kv| && p + StoredHeaderLen(kv[p]) <= |kv|
    ensures var u := Unpack(kv, p); p + u.headerLen + u.keyLen <= |kv|
    ensures KeyBytes(kv, p) == recs[p].key
  {
    assert RecAt(kv, p, recs[p]);
    hide StoreOk, RecAt, HeaderLen, Unpack;
    UnpackStored(kv, p, recs[p]);
  }

  datatype Seen = Seen(key: bytes, count: nat)

  /** The keys at these positions, with their counts. */
  ghost predicate Tells(cdb: Instance, keys: seq<nat>, seen: seq<Seen>)
    reads cdb
  {
    && |seen| == |keys|
    && forall k :: 0 <= k < |keys| ==>
         keys[k] in cdb.links && keys[k] in cdb.recs && seen[k] == Seen(cdb.recs[keys[k]].key, CountOf(cdb.C(), keys[k]))
  }

  lemma TellsMore(cdb: Instance, keys: seq<nat>, seen: seq<Seen>, p: nat)
    requires Tells(cdb, keys, seen) && p in cdb.links && p in cdb.recs
    ensures Tells(cdb, keys + [p], seen + [Seen(cdb.recs[p].key, CountOf(cdb.C(), p))])
  {
    hide CountOf;
  }

  /** The key that a step gave, with the count that it gave. */
  method Note(cdb: Instance, p: nat, count: nat) returns (e: Seen)
    requires cdb.Valid() && p in cdb.links && count == CountOf(cdb.C(), p)
    ensures p in cdb.recs && e == Seen(cdb.recs[p].key, CountOf(cdb.C(), p))
  {
    hide Ok, CountOf, StoreOk, IndexOk, cdb.PagesOk;
    cdb.CountersAreRecs();
    hide LinksOk;
    ReadKey(cdb.kvdata, cdb.kvdataUsed, cdb.recs, p);
    e := Seen(KeyBytes(cdb.kvdata, p), count);
  }

  /** Walks a whole list, from its start until a step reports the end. */
  method WalkPositions(cdb: Instance, direction: nat, list: nat) returns (seen: seq<Seen>)
    requires cdb.Valid() && list < LISTS_MAX
    ensures Walkable(cdb.shape, list, direction) && Tells(cdb, WalkOrder(cdb.shape, list, direction), seen)
  {
    hide cdb.Valid, CountOf, Walkable, PosAt, Order, Rest, Directed, Refused, WalkPosition, Tells, Underway, NextPos;
    ghost var c, s := cdb.C(), cdb.shape;
    ListsAre(cdb);
    NoNodeAtZero(cdb);
    StartOf(cdb, direction, list);
    var p, count, cnt, hkv := Walk(cdb, direction, 0, 0, list);
    ghost var keys: seq<nat> := [];
    seen := [];
    TellsNothing(cdb);
    if p == 0 {
      EmptyUnderway(s, list, direction);
      UnderwayAtEnd(s, list, direction, 0, 0, 0, []);
      return;
    }
    ghost var n := FirstStep(c, s, direction, list, p, count, cnt, hkv);
    FirstUnderway(s, list, direction, n);
    ghost var i, j := StillUnderway(c, s, list, direction, 0, 0, n, s.chains[n][0], keys, p, count, cnt, hkv);
    hide Yields, YieldsFirst, NodeOnWay;
    var e := Note(cdb, p, count);
    TellsMore(cdb, keys, seen, p);
    keys, seen := keys + [p], seen + [e];
    while cnt != 0
      invariant Underway(s, list, direction, i, j, cnt, hkv, keys) && Tells(cdb, keys, seen)
      invariant Walkable(s, list, direction)
      decreases |WalkOrder(s, list, direction)| - |keys|
    {
      UnderwayAt(s, list, direction, i, j, cnt, hkv, keys);
      ReadyAt(cdb, list, direction, i, j, cnt, hkv);
      ghost var cnt0, hkv0 := cnt, hkv;
      p, count, cnt, hkv := Walk(cdb, direction, cnt, hkv, list);
      i, j := StillUnderway(c, s, list, direction, i, j, cnt0, hkv0, keys, p, count, cnt, hkv);
      YieldsCount(c, s, direction, cnt0, hkv0, p, count, cnt, hkv);
      e := Note(cdb, p, count);
      TellsMore(cdb, keys, seen, p);
      keys, seen := keys + [p], seen + [e];
    }
    UnderwayAtEnd(s, list, direction, i, j, hkv, keys);
  }

  lemma TellsNothing(cdb: Instance)
    ensures Tells(cdb, [], [])
  {
  }

  lemma FirstStep(c: Counts, s: Shape, direction: nat, l: nat, p: nat, count: nat, cnt: nat, hkv: nat) returns (n: nat)
    requires YieldsFirst(c, s, direction, l, p, count, cnt, hkv)
    ensures |s.lists[l]| > 0 && n == Directed(s.lists[l], direction)[0] && Walkable(s, l, direction)
    ensures n in s.chains && |s.chains[n]| > 0 && Yields(c, s, direction, n, s.chains[n][0], p, count, cnt, hkv)
    ensures p in c.links && count == CountOf(c, p)
  {
    n := Directed(s.lists[l], direction)[0];
    hide CountOf, PosAt, NextPos;
  }

  lemma YieldsCount(c: Counts, s: Shape, direction: nat, cnt: nat, hkv: nat, p: nat, count: nat, cnt': nat, hkv': nat)
    requires Yields(c, s, direction, cnt, hkv, p, count, cnt', hkv')
    ensures p in c.links && count == CountOf(c, p)
  {
    hide CountOf, PosAt, NextPos;
  }

  lemma UnderwayAt(s: Shape, l: nat, direction: nat, i: nat, j: nat, cnt: nat, hkv: nat, keys: seq<nat>)
    requires Underway(s, l, direction, i, j, cnt, hkv, keys) && cnt != 0
    ensures PosAt(s, l, direction, i, j, cnt, hkv)
  {
  }

  lemma UnderwayAtEnd(s: Shape, l: nat, direction: nat, i: nat, j: nat, hkv: nat, keys: seq<nat>)
    requires Underway(s, l, direction, i, j, 0, hkv, keys)
    ensures Walkable(s, l, direction) && keys == WalkOrder(s, l, direction)
  {
  }

  ghost predicate SeesAll(cdb: Instance, list: nat, seen: seq<Seen>)
    reads cdb
  {
    forall key :: cdb.TallyList(key) == Some(list) <==> exists k :: 0 <= k < |seen| && seen[k].key == key
  }

  ghost predicate SeesCounts(cdb: Instance, seen: seq<Seen>)
    reads cdb
  {
    forall k :: 0 <= k < |seen| ==> seen[k].count == cdb.Tally(seen[k].key)
  }

  predicate GoesBefore(direction: nat, a: Seen, b: Seen) {
    a.key != b.key && if direction != 0 then a.count >= b.count else a.count <= b.count
  }

  ghost predicate SeesInOrder(direction: nat, seen: seq<Seen>) {
    forall i, j :: 0 <= i < j < |seen| ==> GoesBefore(direction, seen[i], seen[j])
  }

  lemma TalliesSeen(cdb: Instance, keys: seq<nat>, seen: seq<Seen>, k: nat)
    requires cdb.Valid() && Tells(cdb, keys, seen) && k < |keys|
    ensures k < |seen| && keys[k] == PosOf(cdb.recs, seen[k].key) && seen[k].count == cdb.Tally(seen[k].key) == CountOf(cdb.C(), keys[k])
    ensures cdb.TallyList(seen[k].key) == ListOf(cdb.C(), cdb.shape, keys[k])
  {
    cdb.TableFacts();
    hide cdb.Valid, CountOf, ListOf;
    PosOfIs(cdb.recs, keys[k]);
    hide KeysDistinct, PosOf;
  }

  lemma KeySeen(cdb: Instance, direction: nat, list: nat, keys: seq<nat>, seen: seq<Seen>, key: bytes)
    requires cdb.Valid() && list < LISTS_MAX && Walkable(cdb.shape, list, direction)
    requires keys == WalkOrder(cdb.shape, list, direction) && Tells(cdb, keys, seen)
    ensures cdb.TallyList(key) == Some(list) <==> exists k :: 0 <= k < |seen| && seen[k].key == key
  {
    hide Ok, CountOf, ListOf, StoreOk, IndexOk, Walkable, Order;
    if cdb.TallyList(key) == Some(list) {
      var p := PosOf(cdb.recs, key);
      WalkIsComplete(cdb.C(), cdb.shape, list, direction, p);
      var k :| 0 <= k < |keys| && keys[k] == p;
      InTable(cdb, p);
      PosHasKey(cdb.recs, key);
      assert seen[k].key == key;
    }
    if k :| 0 <= k < |seen| && seen[k].key == key {
      TalliesSeen(cdb, keys, seen, k);
      WalkIsComplete(cdb.C(), cdb.shape, list, direction, keys[k]);
    }
  }

  lemma InTable(cdb: Instance, p: nat)
    requires cdb.Valid() && p in cdb.links
    ensures p in cdb.recs && p != 0
  {
    cdb.TableFacts();
    hide cdb.Valid, KeysDistinct;
  }

  lemma PosHasKey(recs: map<nat, Rec>, key: bytes)
    requires PosOf(recs, key) in recs && PosOf(recs, key) != 0
    ensures recs[PosOf(recs, key)].key == key
  {
  }

  lemma SeenInOrder(cdb: Instance, direction: nat, list: nat, keys: seq<nat>, seen: seq<Seen>, i: nat, j: nat)
    requires cdb.Valid() && list < LISTS_MAX && Walkable(cdb.shape, list, direction)
    requires keys == WalkOrder(cdb.shape, list, direction) && Tells(cdb, keys, seen) && i < j < |seen|
    ensures GoesBefore(direction, seen[i], seen[j])
  {
    hide Ok, CountOf, ListOf, cdb.TableOk, Walkable, Order, cdb.PagesOk, PosOf;
    WalkIsSorted(cdb.C(), cdb.shape, list, direction);
    TalliesSeen(cdb, keys, seen, i);
    TalliesSeen(cdb, keys, seen, j);
    assert keys[i] != keys[j];
  }

  lemma AllSeen(cdb: Instance, direction: nat, list: nat, keys: seq<nat>, seen: seq<Seen>)
    requires cdb.Valid() && list < LISTS_MAX && Walkable(cdb.shape, list, direction)
    requires keys == WalkOrder(cdb.shape, list, direction) && Tells(cdb, keys, seen)
    ensures SeesAll(cdb, list, seen)
  {
    hide cdb.Valid, Walkable, WalkOrder, Tells, cdb.TallyList;
    forall key
      ensures cdb.TallyList(key) == Some(list) <==> exists k :: 0 <= k < |seen| && seen[k].key == key
    {
      KeySeen(cdb, direction, list, keys, seen, key);
    }
  }

  lemma AllInOrder(cdb: Instance, direction: nat, list: nat, keys: seq<nat>, seen: seq<Seen>)
    requires cdb.Valid() && list < LISTS_MAX && Walkable(cdb.shape, list, direction)
    requires keys == WalkOrder(cdb.shape, list, direction) && Tells(cdb, keys, seen)
    ensures SeesCounts(cdb, seen) && SeesInOrder(direction, seen)
  {
    hide cdb.Valid, Walkable, WalkOrder, CountOf, cdb.Tally, cdb.TallyList, GoesBefore;
    assert |seen| == |keys|;
    hide Tells;
    forall k | 0 <= k < |seen|
      ensures seen[k].count == cdb.Tally(seen[k].key)
    {
      TalliesSeen(cdb, keys, seen, k);
    }
    forall i, j | 0 <= i < j < |seen|
      ensures GoesBefore(direction, seen[i], seen[j])
    {
      SeenInOrder(cdb, direction, list, keys, seen, i, j);
    }
  }

  /** Walks a whole list: it reports each counter of the list once, with its count, and the counts go up or down. */
  method WalkAll(cdb: Instance, direction: nat, list: nat) returns (seen: seq<Seen>)
    requires cdb.Valid() && list < LISTS_MAX
    ensures SeesAll(cdb, list, seen) && SeesCounts(cdb, seen) && SeesInOrder(direction, seen)
  {
    hide cdb.Valid, Walkable, WalkOrder, Tells, SeesAll, SeesCounts, SeesInOrder;
    seen := WalkPositions(cdb, direction, list);
    ghost var keys := WalkOrder(cdb.shape, list, direction);
    AllSeen(cdb, direction, list, keys, seen);
    AllInOrder(cdb, direction, list, keys, seen);
  }
}
