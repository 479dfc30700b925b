/**
 * The instant sort structure of sxe-cdb, on values: count nodes in ascending doubly linked lists (0 is
 * no node), each owning a doubly linked chain of key positions (0 is no key), with free nodes linked
 * through `next`. Each step of the increment is a function on the links, and a lemma shows what it keeps.
 */
module CdbCounts {
  import opened Bytes
  import opened Seqs

  datatype Count = Count(count: nat, next: nat, last: nat, hkv1: nat)
  datatype Link = Link(node: nat, next: nat, last: nat)

  const LISTS_MAX: nat := 256

  /** The links as stored. */
  datatype Counts = Counts(nodes: seq<Count>, lo: seq<nat>, hi: seq<nat>,
                           nextFree: nat, free: nat, used: nat, links: map<nat, Link>)

  /** What the links mean: each list's nodes in order, each node's list and keys, and the free nodes. */
  datatype Shape = Shape(lists: seq<seq<nat>>, listOf: map<nat, nat>, chains: map<nat, seq<nat>>, freeList: seq<nat>)

  function At(s: seq<nat>, i: int): nat {
    if 0 <= i < |s| then s[i] else 0
  }

  /** `s` is a doubly linked run of nodes. */
  ghost predicate NodesLinked(nodes: seq<Count>, s: seq<nat>) {
    && (forall i :: 0 <= i < |s| ==> 1 <= s[i] < |nodes|)
    && (forall i {:trigger nodes[s[i]]} :: 0 <= i < |s| ==>
          nodes[s[i]].next == At(s, i + 1) && nodes[s[i]].last == At(s, i - 1))
  }

  ghost predicate Ascending(nodes: seq<Count>, s: seq<nat>) {
    && (forall i :: 0 <= i < |s| ==> s[i] < |nodes|)
    && (forall i {:trigger nodes[s[i]]} :: 0 <= i < |s| ==> nodes[s[i]].count >= 1)
    && (forall i, j {:trigger nodes[s[i]], nodes[s[j]]} :: 0 <= i < j < |s| ==>
          nodes[s[i]].count < nodes[s[j]].count)
  }

  ghost predicate ListOk(nodes: seq<Count>, s: seq<nat>, lo: nat, hi: nat) {
    NodesLinked(nodes, s) && Ascending(nodes, s) && lo == At(s, 0) && hi == At(s, |s| - 1)
  }

  ghost predicate Linked(nodes: seq<Count>, lo: seq<nat>, hi: seq<nat>, lists: seq<seq<nat>>) {
    && |lo| == |hi| == |lists| == LISTS_MAX
    && (forall l {:trigger lists[l]} :: 0 <= l < LISTS_MAX ==> ListOk(nodes, lists[l], lo[l], hi[l]))
  }

  /** `listOf` says which list each node is on: it is on that one and no other. */
  ghost predicate Located(lists: seq<seq<nat>>, listOf: map<nat, nat>) {
    && (forall l, i {:trigger lists[l][i]} :: 0 <= l < |lists| && 0 <= i < |lists[l]| ==>
          lists[l][i] in listOf && listOf[lists[l][i]] == l)
    && (forall n :: n in listOf ==> listOf[n] < |lists| && n in lists[listOf[n]])
  }

  ghost predicate ListsOk(c: Counts, s: Shape) {
    Linked(c.nodes, c.lo, c.hi, s.lists) && Located(s.lists, s.listOf)
  }

  /** `ch` is the doubly linked chain of the keys of node `n`. */
  ghost predicate Threaded(links: map<nat, Link>, n: nat, ch: seq<nat>) {
    && (forall i :: 0 <= i < |ch| ==> ch[i] != 0 && ch[i] in links)
    && (forall i {:trigger links[ch[i]]} :: 0 <= i < |ch| ==>
          links[ch[i]] == Link(n, At(ch, i + 1), At(ch, i - 1)))
    && Distinct(ch)
  }

  /** Every node has a nonempty chain, and every key but `hole` is on the chain of its node. */
  ghost predicate ChainsOk(c: Counts, s: Shape, hole: nat) {
    && s.chains.Keys == s.listOf.Keys
    && (forall n :: n in s.chains ==>
          n < |c.nodes| && |s.chains[n]| > 0 && s.chains[n][0] == c.nodes[n].hkv1 &&
          Threaded(c.links, n, s.chains[n]) && hole !in s.chains[n])
    && (forall p {:trigger c.links[p].node} :: p in c.links && p != hole ==>
          c.links[p].node in s.chains && p in s.chains[c.links[p].node])
  }

  /** The first `free` links from `nextFree` are distinct unused nodes, and every node is used or free. */
  ghost predicate FreeOk(c: Counts, s: Shape) {
    && c.free == |s.freeList| && c.used == |s.listOf|
    && (c.free > 0 ==> c.nextFree == s.freeList[0])
    && (forall i :: 0 <= i < |s.freeList| ==> 1 <= s.freeList[i] < |c.nodes| && s.freeList[i] !in s.listOf)
    && (forall i {:trigger c.nodes[s.freeList[i]]} :: 0 <= i < |s.freeList| - 1 ==> c.nodes[s.freeList[i]].next == s.freeList[i + 1])
    && Distinct(s.freeList)
    && (if |c.nodes| == 0 then c.free == c.used == 0 else c.free + c.used + 1 == |c.nodes|)
  }

  ghost predicate Ok(c: Counts, s: Shape, hole: nat) {
    0 !in c.links && ListsOk(c, s) && ChainsOk(c, s, hole) && FreeOk(c, s)
  }

  /** The count a key has reached: the count of the node it uses; 0 for a key that has none. */
  function CountOf(c: Counts, p: nat): nat {
    if p in c.links && c.links[p].node < |c.nodes| then c.nodes[c.links[p].node].count else 0
  }

  /** The list a key is on. */
  function ListOf(c: Counts, s: Shape, p: nat): Option<nat> {
    if p in c.links && c.links[p].node in s.listOf then Some(s.listOf[c.links[p].node]) else None
  }

  /** All keys except `p` keep their count and their list. */
  ghost predicate OthersKept(c: Counts, s: Shape, c': Counts, s': Shape, p: nat) {
    && c'.links.Keys - {p} == c.links.Keys - {p}
    && (forall q :: q in c.links && q != p ==> CountOf(c', q) == CountOf(c, q) && ListOf(c', s', q) == ListOf(c, s, q))
  }

  // ---------------------------------------------------------------- one lone key: bump its node

  function Bump(c: Counts, n: nat): Counts
    requires n < |c.nodes|
  {
    c.(nodes := c.nodes[n := c.nodes[n].(count := c.nodes[n].count + 1)])
  }

  lemma AscendingDistinct(nodes: seq<Count>, s: seq<nat>)
    requires Ascending(nodes, s)
    ensures Distinct(s)
  {
    forall i, j | 0 <= i < j < |s|
      ensures s[i] != s[j]
    {
      assert nodes[s[i]].count < nodes[s[j]].count;
    }
  }

  lemma BumpAscending(nodes: seq<Count>, ls: seq<nat>, i: nat)
    requires Ascending(nodes, ls) && i < |ls|
    requires i + 1 < |ls| ==> nodes[ls[i + 1]].count > nodes[ls[i]].count + 1
    ensures Ascending(nodes[ls[i] := nodes[ls[i]].(count := nodes[ls[i]].count + 1)], ls)
  {
    AscendingDistinct(nodes, ls);
    var nodes' := nodes[ls[i] := nodes[ls[i]].(count := nodes[ls[i]].count + 1)];
    forall a, b | 0 <= a < b < |ls|
      ensures nodes'[ls[a]].count < nodes'[ls[b]].count
    {
      assert nodes[ls[a]].count < nodes[ls[b]].count;
      if a == i && b != i + 1 {
        assert nodes[ls[i + 1]].count < nodes[ls[b]].count;
      }
    }
  }

  lemma BumpList(nodes: seq<Count>, ls: seq<nat>, i: nat, lo: nat, hi: nat)
    requires ListOk(nodes, ls, lo, hi) && i < |ls|
    requires i + 1 < |ls| ==> nodes[ls[i + 1]].count > nodes[ls[i]].count + 1
    ensures ListOk(nodes[ls[i] := nodes[ls[i]].(count := nodes[ls[i]].count + 1)], ls, lo, hi)
  {
    BumpAscending(nodes, ls, i);
  }

  /** The same node as far as its list is concerned. */
  predicate SameNode(a: Count, b: Count) {
    a.count == b.count && a.next == b.next && a.last == b.last
  }

  lemma OtherList(nodes: seq<Count>, nodes': seq<Count>, ls: seq<nat>, lo: nat, hi: nat)
    requires ListOk(nodes, ls, lo, hi) && |nodes| <= |nodes'|
    requires forall i :: 0 <= i < |ls| ==> ls[i] < |nodes| && SameNode(nodes'[ls[i]], nodes[ls[i]])
    ensures ListOk(nodes', ls, lo, hi)
  {
  }

  /** Changing only nodes that are not on any list but `l` keeps the other lists. */
  lemma OtherLists(nodes: seq<Count>, nodes': seq<Count>, lo: seq<nat>, hi: seq<nat>,
                   lists: seq<seq<nat>>, listOf: map<nat, nat>, l: nat)
    requires Linked(nodes, lo, hi, lists) && Located(lists, listOf) && |nodes| <= |nodes'|
    requires forall n :: n in listOf && n < |nodes| && listOf[n] != l ==> SameNode(nodes'[n], nodes[n])
    ensures forall m :: 0 <= m < LISTS_MAX && m != l ==> ListOk(nodes', lists[m], lo[m], hi[m])
  {
    forall m | 0 <= m < LISTS_MAX && m != l
      ensures ListOk(nodes', lists[m], lo[m], hi[m])
    {
      assert ListOk(nodes, lists[m], lo[m], hi[m]);
      forall i | 0 <= i < |lists[m]|
        ensures lists[m][i] < |nodes| && SameNode(nodes'[lists[m][i]], nodes[lists[m][i]])
      {
        assert lists[m][i] in listOf;
      }
      hide Located, Linked, ListOk;
      OtherList(nodes, nodes', lists[m], lo[m], hi[m]);
    }
  }

  lemma OneListChanged(nodes': seq<Count>, lo: seq<nat>, hi: seq<nat>, lo': seq<nat>, hi': seq<nat>,
                       lists: seq<seq<nat>>, l: nat, ls': seq<nat>)
    requires |lo| == |hi| == |lo'| == |hi'| == |lists| == LISTS_MAX && l < LISTS_MAX
    requires forall m :: 0 <= m < LISTS_MAX && m != l ==> ListOk(nodes', lists[m], lo[m], hi[m])
    requires forall m :: 0 <= m < LISTS_MAX && m != l ==> lo'[m] == lo[m] && hi'[m] == hi[m]
    requires ListOk(nodes', ls', lo'[l], hi'[l])
    ensures Linked(nodes', lo', hi', lists[l := ls'])
  {
    hide ListOk;
  }

  ghost predicate RoomToBump(nodes: seq<Count>, n: nat) {
    && n < |nodes|
    && (nodes[n].next != 0 ==> nodes[n].next < |nodes| && nodes[nodes[n].next].count > nodes[n].count + 1)
  }

  lemma NodeIndex(lists: seq<seq<nat>>, listOf: map<nat, nat>, n: nat) returns (i: nat)
    requires Located(lists, listOf) && n in listOf
    ensures listOf[n] < |lists| && i < |lists[listOf[n]]| && lists[listOf[n]][i] == n
  {
    i :| 0 <= i < |lists[listOf[n]]| && lists[listOf[n]][i] == n;
  }

  lemma NextInList(nodes: seq<Count>, ls: seq<nat>, i: nat, lo: nat, hi: nat)
    requires ListOk(nodes, ls, lo, hi) && i < |ls|
    ensures ls[i] < |nodes| && nodes[ls[i]].next == At(ls, i + 1) && nodes[ls[i]].last == At(ls, i - 1)
    ensures i + 1 < |ls| ==> 1 <= ls[i + 1] < |nodes|
  {
  }

  lemma BumpListOf(c: Counts, s: Shape, n: nat)
    requires ListsOk(c, s) && n in s.listOf && RoomToBump(c.nodes, n)
    ensures var l := s.listOf[n];
      |c.lo| == |c.hi| == |s.lists| == LISTS_MAX && l < LISTS_MAX &&
      ListOk(Bump(c, n).nodes, s.lists[l], c.lo[l], c.hi[l])
  {
    hide ListOk;
    var l := s.listOf[n];
    var i := NodeIndex(s.lists, s.listOf, n);
    hide Located;
    NextInList(c.nodes, s.lists[l], i, c.lo[l], c.hi[l]);
    BumpList(c.nodes, s.lists[l], i, c.lo[l], c.hi[l]);
  }

  lemma BumpLinked(c: Counts, s: Shape, n: nat)
    requires ListsOk(c, s) && n in s.listOf && RoomToBump(c.nodes, n)
    ensures ListsOk(Bump(c, n), s)
  {
    BumpListOf(c, s, n);
    hide Located, ListOk;
    OtherLists(c.nodes, Bump(c, n).nodes, c.lo, c.hi, s.lists, s.listOf, s.listOf[n]);
  }

  lemma LoneChain(c: Counts, s: Shape, p: nat)
    requires ChainsOk(c, s, 0) && p in c.links && c.links[p].node < |c.nodes| && 0 !in c.links
    requires c.nodes[c.links[p].node].hkv1 == p && c.links[p].next == 0
    ensures c.links[p].node in s.chains && c.links[p].node in s.listOf && s.chains[c.links[p].node] == [p]
  {
    var ch := s.chains[c.links[p].node];
    assert ch[0] == p;
  }

  lemma BumpChains(c: Counts, s: Shape, n: nat)
    requires ChainsOk(c, s, 0) && n in s.listOf
    ensures ChainsOk(Bump(c, n), s, 0)
  {
  }

  lemma BumpFree(c: Counts, s: Shape, n: nat)
    requires FreeOk(c, s) && n in s.listOf && n < |c.nodes|
    ensures FreeOk(Bump(c, n), s)
  {
  }

  lemma BumpEffect(c: Counts, s: Shape, p: nat)
    requires ChainsOk(c, s, 0) && p in c.links && 0 !in c.links
    requires c.links[p].node in s.chains && s.chains[c.links[p].node] == [p]
    ensures var c' := Bump(c, c.links[p].node);
      OthersKept(c, s, c', s, p) && CountOf(c', p) == CountOf(c, p) + 1 && ListOf(c', s, p) == ListOf(c, s, p)
  {
    hide Threaded;
    var n := c.links[p].node;
    forall q | q in c.links && q != p
      ensures c.links[q].node != n
    {
      assert q in s.chains[c.links[q].node];
    }
    hide ChainsOk;
  }

  lemma BumpOk(c: Counts, s: Shape, p: nat)
    requires Ok(c, s, 0) && p in c.links && RoomToBump(c.nodes, c.links[p].node)
    requires c.nodes[c.links[p].node].hkv1 == p && c.links[p].next == 0
    ensures var c' := Bump(c, c.links[p].node);
      && Ok(c', s, 0) && OthersKept(c, s, c', s, p)
      && CountOf(c', p) == CountOf(c, p) + 1 && ListOf(c', s, p) == ListOf(c, s, p)
  {
    hide ListsOk, FreeOk, ChainsOk, OthersKept, CountOf, ListOf;
    var n := c.links[p].node;
    LoneChain(c, s, p);
    BumpEffect(c, s, p);
    BumpLinked(c, s, n);
    BumpChains(c, s, n);
    BumpFree(c, s, n);
  }

  // ---------------------------------------------------------------- frames

  /** Node changes that leave every count and list link alone keep the lists. */
  lemma ListsFrame(c: Counts, s: Shape, c': Counts, s': Shape)
    requires ListsOk(c, s) && |c'.nodes| == |c.nodes| && c'.lo == c.lo && c'.hi == c.hi
    requires forall n :: 0 <= n < |c.nodes| ==> SameNode(c'.nodes[n], c.nodes[n])
    requires s'.lists == s.lists && s'.listOf == s.listOf
    ensures ListsOk(c', s')
  {
    hide Located, ListOk;
    OtherLists(c.nodes, c'.nodes, c.lo, c.hi, s.lists, s.listOf, LISTS_MAX);
  }

  lemma FreeFrame(c: Counts, s: Shape, c': Counts, s': Shape)
    requires FreeOk(c, s) && |c'.nodes| == |c.nodes|
    requires c'.nextFree == c.nextFree && c'.free == c.free && c'.used == c.used
    requires forall n :: 0 <= n < |c.nodes| && n !in s.listOf ==> c'.nodes[n].next == c.nodes[n].next
    requires s'.freeList == s.freeList && s'.listOf == s.listOf
    ensures FreeOk(c', s')
  {
    hide Distinct;
    forall i | 0 <= i < |s.freeList| - 1
      ensures c'.nodes[s.freeList[i]].next == s.freeList[i + 1]
    {
      assert c.nodes[s.freeList[i]].next == s.freeList[i + 1];
    }
  }

  /** A chain whose keys' links are untouched stays threaded. */
  lemma ThreadedFrame(links: map<nat, Link>, links': map<nat, Link>, n: nat, ch: seq<nat>)
    requires Threaded(links, n, ch)
    requires forall p :: p in ch ==> p in links' && links'[p] == links[p]
    ensures Threaded(links', n, ch)
  {
  }

  // ---------------------------------------------------------------- take a key off its chain

  /** The links of the keys around `p` joined past it. */
  function JoinPast(links: map<nat, Link>, k: Link): (r: map<nat, Link>)
    requires k.next != 0 ==> k.next in links
    requires k.last != 0 ==> k.last in links
    ensures r.Keys == links.Keys
    ensures forall q :: q in links ==> r[q] == Link(links[q].node,
      if k.last != 0 && q == k.last then k.next else links[q].next,
      if k.next != 0 && q == k.next then k.last else links[q].last)
  {
    var links1 := if k.next != 0 then links[k.next := links[k.next].(last := k.last)] else links;
    if k.last != 0 then links1[k.last := links1[k.last].(next := k.next)] else links1
  }

  predicate HasNeighbours(c: Counts, p: nat) {
    && p in c.links && c.links[p].node < |c.nodes|
    && (c.links[p].next != 0 ==> c.links[p].next in c.links)
    && (c.links[p].last != 0 ==> c.links[p].last in c.links)
  }

  function Unchain(c: Counts, p: nat): Counts
    requires HasNeighbours(c, p)
  {
    var k := c.links[p];
    c.(links := JoinPast(c.links, k),
       nodes := if c.nodes[k.node].hkv1 == p then c.nodes[k.node := c.nodes[k.node].(hkv1 := k.next)] else c.nodes)
  }

  lemma LinkAt(links: map<nat, Link>, n: nat, ch: seq<nat>, i: nat)
    requires Threaded(links, n, ch) && i < |ch|
    ensures ch[i] in links && links[ch[i]] == Link(n, At(ch, i + 1), At(ch, i - 1))
    ensures At(ch, i + 1) != 0 ==> i + 1 < |ch| && At(ch, i + 1) in links
    ensures At(ch, i - 1) != 0 ==> 0 < i && At(ch, i - 1) in links
    ensures i + 1 < |ch| ==> ch[i + 1] != 0
    ensures i > 0 ==> ch[i - 1] != 0
  {
  }

  lemma Apart(links: map<nat, Link>, n: nat, ch: seq<nat>, i: nat, j: nat)
    requires Threaded(links, n, ch) && i < |ch| && j < |ch|
    ensures ch[i] == ch[j] ==> i == j
  {
  }

  lemma JoinPastAt(links: map<nat, Link>, k: Link, q: nat)
    requires k.next != 0 ==> k.next in links
    requires k.last != 0 ==> k.last in links
    requires q in links
    ensures JoinPast(links, k)[q] == Link(links[q].node,
      if k.last != 0 && q == k.last then k.next else links[q].next,
      if k.next != 0 && q == k.next then k.last else links[q].last)
  {
    hide JoinPast;
  }

  lemma UnchainAt(links: map<nat, Link>, n: nat, ch: seq<nat>, j: nat, o: nat)
    requires Threaded(links, n, ch) && j < |ch| && o < |ch| && o != j
    requires ch[j] in links && ch[o] in links
    requires links[ch[j]].next != 0 ==> links[ch[j]].next in links
    requires links[ch[j]].last != 0 ==> links[ch[j]].last in links
    ensures JoinPast(links, links[ch[j]])[ch[o]] ==
      Link(n, At(ch, if o + 1 == j then o + 2 else o + 1), At(ch, if o == j + 1 then o - 2 else o - 1))
  {
    hide Threaded, JoinPast;
    LinkAt(links, n, ch, j);
    LinkAt(links, n, ch, o);
    if j > 0 {
      Apart(links, n, ch, o, j - 1);
    }
    if j + 1 < |ch| {
      Apart(links, n, ch, o, j + 1);
    }
    JoinPastAt(links, links[ch[j]], ch[o]);
  }

  /** The neighbours of an element after the removal of another one. */
  lemma AroundRemoved(ch: seq<nat>, j: nat, i: nat)
    requires j < |ch| && i + 1 < |ch|
    ensures var r, o := Remove(ch, j), Before(j, i);
      && |r| == |ch| - 1 && r[i] == ch[o]
      && At(r, i + 1) == At(ch, if o + 1 == j then o + 2 else o + 1)
      && At(r, i - 1) == At(ch, if o == j + 1 then o - 2 else o - 1)
  {
    RemoveAt(ch, j);
    hide Remove;
    var r := Remove(ch, j);
    assert i + 1 < |r| ==> r[i + 1] == ch[Before(j, i + 1)];
    assert i > 0 ==> r[i - 1] == ch[Before(j, i - 1)];
  }

  lemma OnLinks(links: map<nat, Link>, n: nat, ch: seq<nat>, i: nat)
    requires Threaded(links, n, ch) && i < |ch|
    ensures ch[i] != 0 && ch[i] in links
  {
  }

  lemma UnchainedLink(links: map<nat, Link>, n: nat, ch: seq<nat>, j: nat, i: nat)
    requires Threaded(links, n, ch) && j < |ch| && i + 1 < |ch|
    requires ch[j] in links
    requires links[ch[j]].next != 0 ==> links[ch[j]].next in links
    requires links[ch[j]].last != 0 ==> links[ch[j]].last in links
    ensures var r := Remove(ch, j);
      && |r| == |ch| - 1 && r[i] != 0 && r[i] in links
      && JoinPast(links, links[ch[j]])[r[i]] == Link(n, At(r, i + 1), At(r, i - 1))
  {
    hide Threaded, JoinPast, Remove, At;
    AroundRemoved(ch, j, i);
    var o := Before(j, i);
    assert o != j;
    LinkAt(links, n, ch, o);
    UnchainAt(links, n, ch, j, o);
    OnLinks(links, n, ch, o);
  }

  lemma UnchainThreaded(links: map<nat, Link>, n: nat, ch: seq<nat>, j: nat)
    requires Threaded(links, n, ch) && j < |ch|
    ensures ch[j] in links
    ensures links[ch[j]].next != 0 ==> links[ch[j]].next in links
    ensures links[ch[j]].last != 0 ==> links[ch[j]].last in links
    ensures Threaded(JoinPast(links, links[ch[j]]), n, Remove(ch, j))
  {
    LinkAt(links, n, ch, j);
    RemoveAt(ch, j);
    hide JoinPast, Remove;
    var r := Remove(ch, j);
    forall i | 0 <= i < |r|
      ensures r[i] != 0 && r[i] in links && JoinPast(links, links[ch[j]])[r[i]] == Link(n, At(r, i + 1), At(r, i - 1))
    {
      UnchainedLink(links, n, ch, j, i);
    }
  }

  lemma ChainIndex(c: Counts, s: Shape, p: nat) returns (j: nat)
    requires ChainsOk(c, s, 0) && p in c.links && 0 !in c.links
    ensures HasNeighbours(c, p)
    ensures var n := c.links[p].node;
      n in s.chains && n in s.listOf && n < |c.nodes| && j < |s.chains[n]| && s.chains[n][j] == p
  {
    var n := c.links[p].node;
    assert n in s.chains && p in s.chains[n];
    assert Threaded(c.links, n, s.chains[n]);
    j :| 0 <= j < |s.chains[n]| && s.chains[n][j] == p;
    LinkAt(c.links, n, s.chains[n], j);
  }

  lemma NeighboursShareNode(c: Counts, s: Shape, p: nat)
    requires ChainsOk(c, s, 0) && p in c.links && 0 !in c.links
    ensures HasNeighbours(c, p)
    ensures c.links[p].next != 0 ==> c.links[c.links[p].next].node == c.links[p].node
    ensures c.links[p].last != 0 ==> c.links[c.links[p].last].node == c.links[p].node
  {
    var k := c.links[p];
    var j := ChainIndex(c, s, p);
    var ch := s.chains[k.node];
    assert Threaded(c.links, k.node, ch);
    hide ChainsOk;
    LinkAt(c.links, k.node, ch, j);
    assert k.next != 0 ==> c.links[ch[j + 1]].node == k.node;
    assert k.last != 0 ==> c.links[ch[j - 1]].node == k.node;
  }

  /** The links of keys on other chains than that of `n` are untouched when `p` leaves node `n`. */
  lemma JoinPastElsewhere(c: Counts, s: Shape, p: nat, m: nat)
    requires ChainsOk(c, s, 0) && HasNeighbours(c, p) && 0 !in c.links && c.links[p].node in s.chains
    requires m in s.chains && m != c.links[p].node
    ensures Threaded(JoinPast(c.links, c.links[p]), m, s.chains[m]) && p !in s.chains[m]
  {
    hide Threaded;
    var k, ch := c.links[p], s.chains[m];
    NeighboursShareNode(c, s, p);
    assert Threaded(c.links, m, ch);
    hide ChainsOk;
    forall q | q in ch
      ensures q in c.links && q != p && JoinPast(c.links, k)[q] == c.links[q]
    {
      OnChain(c.links, m, ch, q);
    }
    ThreadedFrame(c.links, JoinPast(c.links, k), m, ch);
  }

  lemma OnChain(links: map<nat, Link>, n: nat, ch: seq<nat>, q: nat)
    requires Threaded(links, n, ch) && q in ch
    ensures q in links && links[q].node == n
  {
    var i :| 0 <= i < |ch| && ch[i] == q;
    LinkAt(links, n, ch, i);
  }

  /** The new first key of the node that `p` leaves. */
  lemma UnchainFirst(c: Counts, s: Shape, p: nat, j: nat)
    requires ChainsOk(c, s, 0) && HasNeighbours(c, p) && c.links[p].node in s.chains
    requires var ch := s.chains[c.links[p].node]; j < |ch| && ch[j] == p && |ch| > 1
    ensures var n := c.links[p].node;
      Unchain(c, p).nodes[n].hkv1 == Remove(s.chains[n], j)[0]
  {
    var n := c.links[p].node;
    var ch := s.chains[n];
    assert Threaded(c.links, n, ch);
    hide ChainsOk;
    LinkAt(c.links, n, ch, j);
    assert j != 0 ==> ch[0] != ch[j];
  }

  lemma UnchainOthers(c: Counts, s: Shape, p: nat, j: nat, q: nat)
    requires ChainsOk(c, s, 0) && HasNeighbours(c, p) && c.links[p].node in s.chains
    requires j < |s.chains[c.links[p].node]| && s.chains[c.links[p].node][j] == p
    requires q in c.links && q != p && q != 0
    ensures JoinPast(c.links, c.links[p])[q].node == c.links[q].node && c.links[q].node in s.chains
    ensures var n := c.links[p].node;
      q in s.chains[n := Remove(s.chains[n], j)][c.links[q].node]
  {
    hide Threaded;
    var n := c.links[p].node;
    assert q in s.chains[c.links[q].node];
    hide ChainsOk;
    RemoveAt(s.chains[n], j);
  }

  lemma UnchainChains(c: Counts, s: Shape, p: nat, j: nat)
    requires ChainsOk(c, s, 0) && HasNeighbours(c, p) && 0 !in c.links && c.links[p].node in s.chains
    requires var ch := s.chains[c.links[p].node]; j < |ch| && ch[j] == p && |ch| > 1
    ensures var n := c.links[p].node;
      ChainsOk(Unchain(c, p), s.(chains := s.chains[n := Remove(s.chains[n], j)]), p)
  {
    hide Threaded, JoinPast;
    var n := c.links[p].node;
    var ch := s.chains[n];
    var c' := Unchain(c, p);
    var s' := s.(chains := s.chains[n := Remove(ch, j)]);
    assert Threaded(c.links, n, ch);
    UnchainThreaded(c.links, n, ch, j);
    UnchainFirst(c, s, p, j);
    assert Threaded(c'.links, n, s'.chains[n]) && p !in s'.chains[n] by {
      LeavesChain(c.links, n, ch, j);
    }
    forall m | m in s'.chains && m != n
      ensures Threaded(c'.links, m, s'.chains[m]) && p !in s'.chains[m]
    {
      JoinPastElsewhere(c, s, p, m);
    }
    forall q | q in c'.links && q != p
      ensures c'.links[q].node in s'.chains && q in s'.chains[c'.links[q].node]
    {
      UnchainOthers(c, s, p, j, q);
    }
  }

  lemma LeavesChain(links: map<nat, Link>, n: nat, ch: seq<nat>, j: nat)
    requires Threaded(links, n, ch) && j < |ch|
    ensures ch[j] !in Remove(ch, j)
  {
    RemoveAt(ch, j);
  }

  lemma UnchainOk(c: Counts, s: Shape, p: nat, j: nat)
    requires Ok(c, s, 0) && HasNeighbours(c, p) && c.links[p].node in s.chains
    requires var ch := s.chains[c.links[p].node]; j < |ch| && ch[j] == p && |ch| > 1
    ensures var n := c.links[p].node;
      var c', s' := Unchain(c, p), s.(chains := s.chains[n := Remove(s.chains[n], j)]);
      Ok(c', s', p) && OthersKept(c, s, c', s', p) && c'.links.Keys == c.links.Keys
  {
    hide ChainsOk, ListsOk, FreeOk;
    var n := c.links[p].node;
    var c', s' := Unchain(c, p), s.(chains := s.chains[n := Remove(s.chains[n], j)]);
    UnchainChains(c, s, p, j);
    ListsFrame(c, s, c', s');
    FreeFrame(c, s, c', s');
  }

  // ---------------------------------------------------------------- put a key first on a node's chain

  function PushKey(c: Counts, n: nat, p: nat): Counts
    requires n < |c.nodes| && c.nodes[n].hkv1 in c.links
  {
    var head := c.nodes[n].hkv1;
    c.(links := c.links[p := Link(n, head, 0)][head := c.links[head].(last := p)],
       nodes := c.nodes[n := c.nodes[n].(hkv1 := p)])
  }

  lemma NewKeyIsHole(c: Counts, s: Shape, p: nat)
    requires ChainsOk(c, s, 0) && p !in c.links && 0 !in c.links
    ensures ChainsOk(c, s, p)
  {
  }

  lemma PushThreaded(links: map<nat, Link>, n: nat, ch: seq<nat>, p: nat)
    requires Threaded(links, n, ch) && |ch| > 0 && p != 0 && p !in ch
    ensures ch[0] in links
    ensures Threaded(links[p := Link(n, ch[0], 0)][ch[0] := links[ch[0]].(last := p)], n, [p] + ch)
  {
    var links' := links[p := Link(n, ch[0], 0)][ch[0] := links[ch[0]].(last := p)];
    var r := [p] + ch;
    LinkAt(links, n, ch, 0);
    forall i | 0 <= i < |r|
      ensures r[i] in links' && r[i] != 0 && links'[r[i]] == Link(n, At(r, i + 1), At(r, i - 1))
    {
      if i > 0 {
        LinkAt(links, n, ch, i - 1);
        assert r[i] == ch[i - 1];
        assert i > 1 ==> ch[0] != ch[i - 1];
      }
    }
    assert Distinct(r) by {
      assert forall i :: 1 <= i < |r| ==> r[i] == ch[i - 1];
    }
  }

  lemma PushElsewhere(c: Counts, s: Shape, n: nat, p: nat, m: nat)
    requires ChainsOk(c, s, p) && n in s.chains && n < |c.nodes| && c.nodes[n].hkv1 in c.links
    requires m in s.chains && m != n
    ensures Threaded(PushKey(c, n, p).links, m, s.chains[m])
  {
    var ch := s.chains[m];
    assert Threaded(c.links, m, ch) && Threaded(c.links, n, s.chains[n]);
    LinkAt(c.links, n, s.chains[n], 0);
    hide ChainsOk;
    forall q | q in ch
      ensures q in c.links && PushKey(c, n, p).links[q] == c.links[q]
    {
      OnChain(c.links, m, ch, q);
    }
    ThreadedFrame(c.links, PushKey(c, n, p).links, m, ch);
  }

  lemma PushChains(c: Counts, s: Shape, n: nat, p: nat)
    requires ChainsOk(c, s, p) && n in s.chains && p != 0
    ensures n < |c.nodes| && c.nodes[n].hkv1 in c.links
    ensures ChainsOk(PushKey(c, n, p), s.(chains := s.chains[n := [p] + s.chains[n]]), 0)
  {
    hide Threaded;
    var ch := s.chains[n];
    assert Threaded(c.links, n, ch);
    PushThreaded(c.links, n, ch, p);
    var c', s' := PushKey(c, n, p), s.(chains := s.chains[n := [p] + ch]);
    forall m | m in s'.chains
      ensures Threaded(c'.links, m, s'.chains[m]) && 0 !in s'.chains[m]
    {
      if m != n {
        PushElsewhere(c, s, n, p, m);
      }
      NoZero(c'.links, m, s'.chains[m]);
    }
    forall q | q in c'.links && q != 0
      ensures c'.links[q].node in s'.chains && q in s'.chains[c'.links[q].node]
    {
      if q != p {
        assert c'.links[q].node == c.links[q].node;
      }
    }
  }

  lemma NoZero(links: map<nat, Link>, n: nat, ch: seq<nat>)
    requires Threaded(links, n, ch)
    ensures 0 !in ch
  {
  }

  lemma PushKeyEffect(c: Counts, s: Shape, n: nat, p: nat)
    requires n < |c.nodes| && n in s.listOf && c.nodes[n].hkv1 in c.links && c.nodes[n].hkv1 != p
    ensures var c', s' := PushKey(c, n, p), s.(chains := s.chains[n := [p] + (if n in s.chains then s.chains[n] else [])]);
      && OthersKept(c, s, c', s', p) && c'.links.Keys == c.links.Keys + {p}
      && CountOf(c', p) == c.nodes[n].count && ListOf(c', s', p) == Some(s.listOf[n])
  {
  }

  lemma PushKeyOk(c: Counts, s: Shape, n: nat, p: nat)
    requires Ok(c, s, p) && n in s.listOf && p != 0
    ensures n < |c.nodes| && c.nodes[n].hkv1 in c.links && n in s.chains
    ensures var c', s' := PushKey(c, n, p), s.(chains := s.chains[n := [p] + s.chains[n]]);
      && Ok(c', s', 0) && OthersKept(c, s, c', s', p) && c'.links.Keys == c.links.Keys + {p}
      && CountOf(c', p) == c.nodes[n].count && ListOf(c', s', p) == Some(s.listOf[n])
  {
    hide ListsOk, FreeOk, Threaded, CountOf, ListOf, OthersKept;
    assert n in s.chains && s.chains[n][0] == c.nodes[n].hkv1 && p !in s.chains[n];
    PushChains(c, s, n, p);
    hide ChainsOk;
    var c', s' := PushKey(c, n, p), s.(chains := s.chains[n := [p] + s.chains[n]]);
    PushKeyEffect(c, s, n, p);
    ListsFrame(c, s, c', s');
    FreeFrame(c, s, c', s');
  }

  lemma ChainHead(c: Counts, s: Shape, n: nat, p: nat)
    requires Ok(c, s, p) && n in s.listOf
    ensures n < |c.nodes| && c.nodes[n].hkv1 in c.links && c.nodes[n].hkv1 != p
  {
    hide ListsOk, FreeOk;
    assert Threaded(c.links, n, s.chains[n]);
    LinkAt(c.links, n, s.chains[n], 0);
  }

  // ---------------------------------------------------------------- a new node in a list

  /** Node `m` linked in between `prev` and `nxt`. */
  function LinkIn(nodes: seq<Count>, prev: nat, nxt: nat, m: nat, count: nat, p: nat): (r: seq<Count>)
    requires prev < |nodes| && nxt < |nodes| && m < |nodes| && prev != m && nxt != m && (prev == nxt ==> prev == 0)
    ensures |r| == |nodes|
    ensures r[m] == Count(count, nxt, prev, p)
    ensures forall x :: 0 <= x < |nodes| && x != m ==> r[x] == Count(nodes[x].count,
      if prev != 0 && x == prev then m else nodes[x].next,
      if nxt != 0 && x == nxt then m else nodes[x].last, nodes[x].hkv1)
  {
    var n1 := nodes[m := Count(count, nxt, prev, p)];
    var n2 := if prev != 0 then n1[prev := n1[prev].(next := m)] else n1;
    if nxt != 0 then n2[nxt := n2[nxt].(last := m)] else n2
  }

  lemma InsertNeighbours(nodes: seq<Count>, ls: seq<nat>, k: nat, m: nat)
    requires NodesLinked(nodes, ls) && Distinct(ls) && k <= |ls| && 1 <= m < |nodes| && m !in ls
    ensures At(ls, k - 1) < |nodes| && At(ls, k) < |nodes| && At(ls, k - 1) != m && At(ls, k) != m
    ensures At(ls, k - 1) == At(ls, k) ==> At(ls, k) == 0
  {
    assert k < |ls| ==> ls[k] != 0;
    assert k > 0 ==> ls[k - 1] != 0;
  }

  lemma InsertLinked(nodes: seq<Count>, ls: seq<nat>, k: nat, m: nat, count: nat, p: nat)
    requires NodesLinked(nodes, ls) && Distinct(ls) && k <= |ls| && 1 <= m < |nodes| && m !in ls
    ensures At(ls, k - 1) < |nodes| && At(ls, k) < |nodes| && At(ls, k - 1) != m && At(ls, k) != m
    ensures At(ls, k - 1) == At(ls, k) ==> At(ls, k) == 0
    ensures NodesLinked(LinkIn(nodes, At(ls, k - 1), At(ls, k), m, count, p), Insert(ls, k, m))
  {
    var r := Insert(ls, k, m);
    InsertNeighbours(nodes, ls, k, m);
    var nodes' := LinkIn(nodes, At(ls, k - 1), At(ls, k), m, count, p);
    assert |r| == |ls| + 1;
    hide LinkIn, Insert, At, Distinct;
    forall i | 0 <= i < |r|
      ensures 1 <= r[i] < |nodes'| && nodes'[r[i]].next == At(r, i + 1) && nodes'[r[i]].last == At(r, i - 1)
    {
      InsertLinkedAt(nodes, ls, k, m, count, p, i);
    }
  }

  lemma LinkInAt(nodes: seq<Count>, ls: seq<nat>, k: nat, m: nat, count: nat, p: nat, o: nat)
    requires NodesLinked(nodes, ls) && Distinct(ls) && k <= |ls| && m < |nodes| && m !in ls && o < |ls|
    requires At(ls, k - 1) < |nodes| && At(ls, k) < |nodes| && At(ls, k - 1) != m && At(ls, k) != m
    requires At(ls, k - 1) == At(ls, k) ==> At(ls, k) == 0
    ensures var x := LinkIn(nodes, At(ls, k - 1), At(ls, k), m, count, p)[ls[o]];
      && x.next == (if o + 1 == k then m else At(ls, o + 1))
      && x.last == (if o == k then m else At(ls, o - 1))
  {
    assert nodes[ls[o]].next == At(ls, o + 1) && nodes[ls[o]].last == At(ls, o - 1);
    assert k > 0 && o < k - 1 ==> ls[o] != ls[k - 1];
    assert k > 0 && o > k - 1 ==> ls[k - 1] != ls[o];
    assert k < |ls| && o < k ==> ls[o] != ls[k];
    assert k < |ls| && o > k ==> ls[k] != ls[o];
    assert k > 0 ==> ls[k - 1] != 0;
    assert k < |ls| ==> ls[k] != 0;
  }

  lemma InsertLinkedAt(nodes: seq<Count>, ls: seq<nat>, k: nat, m: nat, count: nat, p: nat, i: nat)
    requires NodesLinked(nodes, ls) && Distinct(ls) && k <= |ls| && 1 <= m < |nodes| && m !in ls && i <= |ls|
    requires At(ls, k - 1) < |nodes| && At(ls, k) < |nodes| && At(ls, k - 1) != m && At(ls, k) != m
    requires At(ls, k - 1) == At(ls, k) ==> At(ls, k) == 0
    ensures var r := Insert(ls, k, m);
      var nodes' := LinkIn(nodes, At(ls, k - 1), At(ls, k), m, count, p);
      |r| == |ls| + 1 && 1 <= r[i] < |nodes'| && nodes'[r[i]].next == At(r, i + 1) && nodes'[r[i]].last == At(r, i - 1)
  {
    InsertAt(ls, k, m);
    if i == k {
      hide Insert, NodesLinked;
    } else {
      hide Insert, LinkIn;
      LinkInAt(nodes, ls, k, m, count, p, if i < k then i else i - 1);
    }
  }

  lemma CountBefore(nodes: seq<Count>, ls: seq<nat>, i: nat, j: nat)
    requires Ascending(nodes, ls) && i <= j < |ls|
    ensures ls[i] < |nodes| && ls[j] < |nodes| && 1 <= nodes[ls[i]].count <= nodes[ls[j]].count
    ensures i < j ==> nodes[ls[i]].count < nodes[ls[j]].count
  {
  }

  /** Any two elements of a list in which an element was inserted between a smaller and a larger one. */
  lemma InsertedPair(nodes: seq<Count>, ls: seq<nat>, k: nat, m: nat, a: nat, b: nat)
    requires Ascending(nodes, ls) && k <= |ls| && m < |nodes| && nodes[m].count >= 1 && a <= b <= |ls|
    requires k > 0 ==> ls[k - 1] < |nodes| && nodes[ls[k - 1]].count < nodes[m].count
    requires k < |ls| ==> ls[k] < |nodes| && nodes[m].count < nodes[ls[k]].count
    ensures var r := Insert(ls, k, m);
      && |r| == |ls| + 1 && r[a] < |nodes| && r[b] < |nodes| && nodes[r[a]].count >= 1
      && (a < b ==> nodes[r[a]].count < nodes[r[b]].count)
  {
    InsertAt(ls, k, m);
    hide Ascending, Insert;
    if a != k {
      var x := if a < k then a else a - 1;
      if b != k {
        CountBefore(nodes, ls, x, if b < k then b else b - 1);
      } else {
        CountBefore(nodes, ls, x, k - 1);
      }
    } else if b != k {
      CountBefore(nodes, ls, k, b - 1);
    }
  }

  lemma InsertAscending(nodes: seq<Count>, nodes': seq<Count>, ls: seq<nat>, k: nat, m: nat)
    requires Ascending(nodes, ls) && k <= |ls| && m < |nodes'| && |nodes'| == |nodes|
    requires forall i :: 0 <= i < |ls| ==> nodes'[ls[i]].count == nodes[ls[i]].count
    requires nodes'[m].count >= 1
    requires k > 0 ==> nodes[ls[k - 1]].count < nodes'[m].count
    requires k < |ls| ==> nodes'[m].count < nodes[ls[k]].count
    ensures Ascending(nodes', Insert(ls, k, m))
  {
    assert Ascending(nodes', ls);
    hide Insert;
    var r := Insert(ls, k, m);
    InsertAt(ls, k, m);
    forall a: nat, b: nat | a <= b < |r|
      ensures r[a] < |nodes'| && r[b] < |nodes'| && nodes'[r[a]].count >= 1
      ensures a < b ==> nodes'[r[a]].count < nodes'[r[b]].count
    {
      hide Ascending;
      InsertedPair(nodes', ls, k, m, a, b);
    }
  }

  lemma LocatedInsert(lists: seq<seq<nat>>, listOf: map<nat, nat>, l: nat, k: nat, m: nat)
    requires Located(lists, listOf) && l < |lists| && k <= |lists[l]| && m !in listOf
    ensures Located(lists[l := Insert(lists[l], k, m)], listOf[m := l])
  {
    var lists' := lists[l := Insert(lists[l], k, m)];
    InsertAt(lists[l], k, m);
    hide Insert;
    forall a, i | 0 <= a < |lists'| && 0 <= i < |lists'[a]|
      ensures lists'[a][i] in listOf[m := l] && listOf[m := l][lists'[a][i]] == a
    {
      if a == l && i != k {
        assert lists[l][if i < k then i else i - 1] in listOf;
      } else if a != l {
        assert lists[a][i] in listOf;
      }
    }
    forall n | n in listOf
      ensures n in lists'[listOf[n]]
    {
      assert n in lists[listOf[n]];
    }
  }

  /** Where a new node of a given count belongs: at index `k` of list `l`. */
  ghost predicate Fits(c: Counts, s: Shape, l: nat, k: nat, count: nat) {
    && l < |s.lists| && k <= |s.lists[l]| && count >= 1
    && (forall i :: 0 <= i < |s.lists[l]| ==> s.lists[l][i] < |c.nodes|)
    && (k > 0 ==> c.nodes[s.lists[l][k - 1]].count < count)
    && (k < |s.lists[l]| ==> count < c.nodes[s.lists[l][k]].count)
  }

  function AddNode(c: Counts, l: nat, prev: nat, nxt: nat, count: nat, p: nat): Counts
    requires l < |c.lo| && l < |c.hi| && c.free > 0 && c.nextFree < |c.nodes|
    requires prev < |c.nodes| && nxt < |c.nodes| && prev != c.nextFree && nxt != c.nextFree && (prev == nxt ==> prev == 0)
  {
    var m := c.nextFree;
    Counts(LinkIn(c.nodes, prev, nxt, m, count, p),
           if prev == 0 then c.lo[l := m] else c.lo,
           if nxt == 0 then c.hi[l := m] else c.hi,
           c.nodes[m].next, c.free - 1, c.used + 1,
           c.links[p := Link(m, 0, 0)])
  }

  ghost function AddNodeShape(c: Counts, s: Shape, l: nat, k: nat, p: nat): Shape
    requires l < |s.lists| && k <= |s.lists[l]| && |s.freeList| > 0
  {
    var m := c.nextFree;
    Shape(s.lists[l := Insert(s.lists[l], k, m)], s.listOf[m := l], s.chains[m := [p]], s.freeList[1..])
  }

  lemma AddNodeReady(c: Counts, s: Shape, l: nat, k: nat, count: nat)
    requires ListsOk(c, s) && FreeOk(c, s) && c.free > 0 && Fits(c, s, l, k, count)
    ensures var ls, m := s.lists[l], c.nextFree;
      && l < |c.lo| && l < |c.hi| && 1 <= m < |c.nodes| && m !in ls && m !in s.listOf
      && At(ls, k - 1) < |c.nodes| && At(ls, k) < |c.nodes| && At(ls, k - 1) != m && At(ls, k) != m
      && (At(ls, k - 1) == At(ls, k) ==> At(ls, k) == 0)
      && (k > 0 <==> At(ls, k - 1) != 0) && (k < |ls| <==> At(ls, k) != 0)
      && (k > 0 ==> ls[k - 1] in s.listOf && s.listOf[ls[k - 1]] == l)
      && (k < |ls| ==> ls[k] in s.listOf && s.listOf[ls[k]] == l)
      && ListOk(c.nodes, ls, c.lo[l], c.hi[l])
  {
    var ls, m := s.lists[l], c.nextFree;
    assert m == s.freeList[0] && m !in s.listOf;
    assert ListOk(c.nodes, ls, c.lo[l], c.hi[l]);
    AscendingDistinct(c.nodes, ls);
    assert forall i :: 0 <= i < |ls| ==> s.lists[l][i] in s.listOf;
    hide FreeOk, Ascending;
  }

  lemma AddNodeList(c: Counts, s: Shape, l: nat, k: nat, count: nat, p: nat)
    requires ListsOk(c, s) && FreeOk(c, s) && c.free > 0 && Fits(c, s, l, k, count)
    ensures l < |c.lo| && l < |c.hi| && c.nextFree < |c.nodes|
    ensures var ls, m := s.lists[l], c.nextFree;
      && At(ls, k - 1) < |c.nodes| && At(ls, k) < |c.nodes| && At(ls, k - 1) != m && At(ls, k) != m
      && (At(ls, k - 1) == At(ls, k) ==> At(ls, k) == 0)
      && var c' := AddNode(c, l, At(ls, k - 1), At(ls, k), count, p);
         ListOk(c'.nodes, Insert(ls, k, m), c'.lo[l], c'.hi[l])
  {
    hide ListsOk, FreeOk, ListOk, LinkIn;
    AddNodeReady(c, s, l, k, count);
    AddNodeListOk(c, s.lists[l], l, k, count, p);
  }

  lemma AddNodeListOk(c: Counts, ls: seq<nat>, l: nat, k: nat, count: nat, p: nat)
    requires l < |c.lo| && l < |c.hi| && ListOk(c.nodes, ls, c.lo[l], c.hi[l]) && k <= |ls| && count >= 1 && c.free > 0
    requires 1 <= c.nextFree < |c.nodes| && c.nextFree !in ls
    requires k > 0 ==> ls[k - 1] < |c.nodes| && c.nodes[ls[k - 1]].count < count
    requires k < |ls| ==> ls[k] < |c.nodes| && count < c.nodes[ls[k]].count
    requires At(ls, k - 1) < |c.nodes| && At(ls, k) < |c.nodes| && At(ls, k - 1) != c.nextFree && At(ls, k) != c.nextFree
    requires At(ls, k - 1) == At(ls, k) ==> At(ls, k) == 0
    requires (k > 0 <==> At(ls, k - 1) != 0) && (k < |ls| <==> At(ls, k) != 0)
    ensures var c' := AddNode(c, l, At(ls, k - 1), At(ls, k), count, p);
      ListOk(c'.nodes, Insert(ls, k, c.nextFree), c'.lo[l], c'.hi[l])
  {
    var m := c.nextFree;
    hide NodesLinked, Ascending;
    AscendingDistinct(c.nodes, ls);
    InsertLinked(c.nodes, ls, k, m, count, p);
    hide Distinct;
    var nodes' := LinkIn(c.nodes, At(ls, k - 1), At(ls, k), m, count, p);
    forall i | 0 <= i < |ls|
      ensures ls[i] < |c.nodes| && nodes'[ls[i]].count == c.nodes[ls[i]].count
    {
      InRange(c.nodes, ls, i);
    }
    InsertAscending(c.nodes, nodes', ls, k, m);
    InsertAt(ls, k, m);
    hide Insert, LinkIn;
  }

  lemma InRange(nodes: seq<Count>, ls: seq<nat>, i: nat)
    requires Ascending(nodes, ls) && i < |ls|
    ensures ls[i] < |nodes|
  {
  }

  lemma AddNodeLists(c: Counts, s: Shape, l: nat, k: nat, count: nat, p: nat)
    requires ListsOk(c, s) && FreeOk(c, s) && c.free > 0 && Fits(c, s, l, k, count)
    requires AddNodeAllowed(c, s, l, k)
    ensures ListsOk(AddNode(c, l, At(s.lists[l], k - 1), At(s.lists[l], k), count, p), AddNodeShape(c, s, l, k, p))
  {
    hide FreeOk, ListOk, Located;
    var ls, m := s.lists[l], c.nextFree;
    var prev, nxt := At(ls, k - 1), At(ls, k);
    var c' := AddNode(c, l, prev, nxt, count, p);
    AddNodeList(c, s, l, k, count, p);
    AddNodeReady(c, s, l, k, count);
    LocatedInsert(s.lists, s.listOf, l, k, m);
    OtherLists(c.nodes, c'.nodes, c.lo, c.hi, s.lists, s.listOf, l);
    hide Insert, At, LinkIn, Fits;
  }

  /** The neighbours of the new node are nodes of the list, distinct from it. */
  ghost predicate AddNodeAllowed(c: Counts, s: Shape, l: nat, k: nat) {
    && l < |c.lo| && l < |c.hi| && c.free > 0 && c.nextFree < |c.nodes|
    && l < |s.lists| && k <= |s.lists[l]| && |s.freeList| > 0
    && var ls, m := s.lists[l], c.nextFree;
       && At(ls, k - 1) < |c.nodes| && At(ls, k) < |c.nodes| && At(ls, k - 1) != m && At(ls, k) != m
       && (At(ls, k - 1) == At(ls, k) ==> At(ls, k) == 0)
  }

  lemma AddNodeOtherChain(c: Counts, s: Shape, p: nat, m: nat, n: nat)
    requires ChainsOk(c, s, p) && n in s.chains
    ensures Threaded(c.links[p := Link(m, 0, 0)], n, s.chains[n]) && p !in s.chains[n]
  {
    hide Threaded;
    assert Threaded(c.links, n, s.chains[n]) && p !in s.chains[n];
    hide ChainsOk;
    forall q | q in s.chains[n]
      ensures q in c.links && q != p
    {
      OnChain(c.links, n, s.chains[n], q);
    }
    ThreadedFrame(c.links, c.links[p := Link(m, 0, 0)], n, s.chains[n]);
  }

  lemma AddNodeChain(c: Counts, s: Shape, l: nat, k: nat, count: nat, p: nat, n: nat)
    requires ChainsOk(c, s, p) && p != 0 && AddNodeAllowed(c, s, l, k) && c.nextFree !in s.listOf
    requires n in AddNodeShape(c, s, l, k, p).chains
    ensures var c', ch := AddNode(c, l, At(s.lists[l], k - 1), At(s.lists[l], k), count, p), AddNodeShape(c, s, l, k, p).chains[n];
      n < |c'.nodes| && |ch| > 0 && ch[0] == c'.nodes[n].hkv1 && Threaded(c'.links, n, ch) && 0 !in ch
  {
    hide Threaded, At, Insert;
    var c', s' := AddNode(c, l, At(s.lists[l], k - 1), At(s.lists[l], k), count, p), AddNodeShape(c, s, l, k, p);
    var m := c.nextFree;
    if n != m {
      AddNodeOtherChain(c, s, p, m, n);
      assert c'.nodes[n].hkv1 == c.nodes[n].hkv1;
    } else {
      Singleton(c'.links, m, p);
    }
    NoZero(c'.links, n, s'.chains[n]);
  }

  lemma AddNodeLink(c: Counts, s: Shape, l: nat, k: nat, count: nat, p: nat, q: nat)
    requires ChainsOk(c, s, p) && p != 0 && AddNodeAllowed(c, s, l, k) && c.nextFree !in s.listOf
    requires q == p || q in c.links
    ensures var c', s' := AddNode(c, l, At(s.lists[l], k - 1), At(s.lists[l], k), count, p), AddNodeShape(c, s, l, k, p);
      (q in c'.links <==> q == p || q in c.links) && c'.links[q].node in s'.chains && q in s'.chains[c'.links[q].node]
  {
    hide Threaded, At, Insert;
    if q != p {
      assert c.links[q].node in s.chains && q in s.chains[c.links[q].node];
    }
  }

  lemma AddNodeKeys(c: Counts, s: Shape, l: nat, k: nat, count: nat, p: nat)
    requires AddNodeAllowed(c, s, l, k) && s.chains.Keys == s.listOf.Keys
    ensures AddNode(c, l, At(s.lists[l], k - 1), At(s.lists[l], k), count, p).links.Keys == c.links.Keys + {p}
    ensures var s' := AddNodeShape(c, s, l, k, p); s'.chains.Keys == s'.listOf.Keys
  {
  }

  lemma AddNodeChains(c: Counts, s: Shape, l: nat, k: nat, count: nat, p: nat)
    requires ChainsOk(c, s, p) && p != 0 && AddNodeAllowed(c, s, l, k) && c.nextFree !in s.listOf
    ensures ChainsOk(AddNode(c, l, At(s.lists[l], k - 1), At(s.lists[l], k), count, p), AddNodeShape(c, s, l, k, p), 0)
  {
    AddNodeKeys(c, s, l, k, count, p);
    hide Threaded, At, Insert, AddNode, AddNodeShape, AddNodeAllowed;
    var c' := AddNode(c, l, At(s.lists[l], k - 1), At(s.lists[l], k), count, p);
    var s' := AddNodeShape(c, s, l, k, p);
    forall n | n in s'.chains
      ensures n < |c'.nodes| && |s'.chains[n]| > 0 && s'.chains[n][0] == c'.nodes[n].hkv1
      ensures Threaded(c'.links, n, s'.chains[n]) && 0 !in s'.chains[n]
    {
      AddNodeChain(c, s, l, k, count, p, n);
    }
    forall q | q in c'.links && q != 0
      ensures c'.links[q].node in s'.chains && q in s'.chains[c'.links[q].node]
    {
      assert q == p || q in c.links;
      AddNodeLink(c, s, l, k, count, p, q);
    }
  }

  lemma Singleton(links: map<nat, Link>, n: nat, p: nat)
    requires p != 0 && p in links && links[p] == Link(n, 0, 0)
    ensures Threaded(links, n, [p])
  {
  }

  lemma AddNodeSpares(c: Counts, s: Shape, l: nat, k: nat, count: nat, p: nat, n: nat)
    requires ListsOk(c, s) && FreeOk(c, s) && Fits(c, s, l, k, count) && AddNodeAllowed(c, s, l, k)
    requires n < |c.nodes| && n !in s.listOf && n != c.nextFree
    ensures AddNode(c, l, At(s.lists[l], k - 1), At(s.lists[l], k), count, p).nodes[n] == c.nodes[n]
  {
    hide ListsOk, FreeOk, ListOk;
    AddNodeReady(c, s, l, k, count);
  }

  lemma AddNodeAllSpares(c: Counts, s: Shape, l: nat, k: nat, count: nat, p: nat)
    requires ListsOk(c, s) && FreeOk(c, s) && Fits(c, s, l, k, count) && AddNodeAllowed(c, s, l, k)
    ensures var nodes' := AddNode(c, l, At(s.lists[l], k - 1), At(s.lists[l], k), count, p).nodes;
      |nodes'| == |c.nodes| &&
      forall i :: 1 <= i < |s.freeList| ==>
        s.freeList[i] < |c.nodes| && nodes'[s.freeList[i]].next == c.nodes[s.freeList[i]].next
  {
    hide ListsOk, Fits, At;
    forall i | 1 <= i < |s.freeList|
      ensures AddNode(c, l, At(s.lists[l], k - 1), At(s.lists[l], k), count, p).nodes[s.freeList[i]].next
           == c.nodes[s.freeList[i]].next
    {
      assert s.freeList[0] != s.freeList[i];
      AddNodeSpares(c, s, l, k, count, p, s.freeList[i]);
    }
  }

  lemma TakeFirst(nodes: seq<Count>, nodes': seq<Count>, fl: seq<nat>)
    requires |fl| > 0 && Distinct(fl) && |nodes'| == |nodes|
    requires forall i :: 0 <= i < |fl| ==> fl[i] < |nodes|
    requires forall i {:trigger nodes[fl[i]]} :: 0 <= i < |fl| - 1 ==> nodes[fl[i]].next == fl[i + 1]
    requires forall i :: 1 <= i < |fl| ==> nodes'[fl[i]].next == nodes[fl[i]].next
    ensures forall i {:trigger nodes'[fl[1..][i]]} :: 0 <= i < |fl| - 2 ==> nodes'[fl[1..][i]].next == fl[1..][i + 1]
    ensures |fl| > 1 ==> nodes[fl[0]].next == fl[1]
    ensures Distinct(fl[1..])
    ensures forall i :: 0 <= i < |fl| - 1 ==> fl[1..][i] == fl[i + 1] && fl[i + 1] != fl[0]
  {
    forall i | 0 <= i < |fl| - 2
      ensures nodes'[fl[1..][i]].next == fl[1..][i + 1]
    {
      assert nodes[fl[i + 1]].next == fl[i + 2];
    }
    assert |fl| > 1 ==> nodes[fl[0]].next == fl[1];
  }

  lemma AddNodeFree(c: Counts, s: Shape, l: nat, k: nat, count: nat, p: nat)
    requires ListsOk(c, s) && FreeOk(c, s) && Fits(c, s, l, k, count) && AddNodeAllowed(c, s, l, k)
    ensures FreeOk(AddNode(c, l, At(s.lists[l], k - 1), At(s.lists[l], k), count, p), AddNodeShape(c, s, l, k, p))
  {
    hide ListsOk, Insert, At, LinkIn, Fits, Distinct;
    AddNodeAllSpares(c, s, l, k, count, p);
    TakeFirst(c.nodes, AddNode(c, l, At(s.lists[l], k - 1), At(s.lists[l], k), count, p).nodes, s.freeList);
    CardAdd(s.listOf, s.freeList[0], l);
  }

  lemma CardAdd(m: map<nat, nat>, k: nat, v: nat)
    requires k !in m
    ensures |m[k := v]| == |m| + 1
  {
    assert m[k := v].Keys == m.Keys + {k};
  }

  lemma AddNodeEffect(c: Counts, s: Shape, l: nat, k: nat, count: nat, p: nat)
    requires AddNodeAllowed(c, s, l, k) && c.nextFree !in s.listOf
    requires forall q :: q in c.links && q != p ==> c.links[q].node in s.listOf
    ensures var c', s' := AddNode(c, l, At(s.lists[l], k - 1), At(s.lists[l], k), count, p), AddNodeShape(c, s, l, k, p);
      && OthersKept(c, s, c', s', p) && c'.links.Keys == c.links.Keys + {p}
      && CountOf(c', p) == count && ListOf(c', s', p) == Some(l)
  {
    hide At, Insert;
    var c', s' := AddNode(c, l, At(s.lists[l], k - 1), At(s.lists[l], k), count, p), AddNodeShape(c, s, l, k, p);
    forall q | q in c.links && q != p
      ensures CountOf(c', q) == CountOf(c, q) && ListOf(c', s', q) == ListOf(c, s, q)
    {
      assert c.links[q].node != c.nextFree;
    }
  }

  lemma KeysHaveNodes(c: Counts, s: Shape, p: nat)
    requires ChainsOk(c, s, p)
    ensures forall q :: q in c.links && q != p ==> c.links[q].node in s.listOf
  {
    hide Threaded;
    forall q | q in c.links && q != p
      ensures c.links[q].node in s.listOf
    {
      assert c.links[q].node in s.chains;
    }
  }

  lemma AddNodeIsAllowed(c: Counts, s: Shape, l: nat, k: nat, count: nat)
    requires ListsOk(c, s) && FreeOk(c, s) && c.free > 0 && Fits(c, s, l, k, count)
    ensures AddNodeAllowed(c, s, l, k) && c.nextFree !in s.listOf
  {
    hide ListsOk, ListOk;
    AddNodeReady(c, s, l, k, count);
  }

  lemma AddNodeOk(c: Counts, s: Shape, l: nat, k: nat, count: nat, p: nat)
    requires Ok(c, s, p) && c.free > 0 && Fits(c, s, l, k, count) && p != 0
    ensures AddNodeAllowed(c, s, l, k)
    ensures var c', s' := AddNode(c, l, At(s.lists[l], k - 1), At(s.lists[l], k), count, p), AddNodeShape(c, s, l, k, p);
      && Ok(c', s', 0) && OthersKept(c, s, c', s', p) && c'.links.Keys == c.links.Keys + {p}
      && CountOf(c', p) == count && ListOf(c', s', p) == Some(l)
  {
    hide ListsOk, FreeOk, ChainsOk, OthersKept, CountOf, ListOf, Fits, AddNode, AddNodeShape, At, AddNodeAllowed;
    AddNodeIsAllowed(c, s, l, k, count);
    AddNodeLists(c, s, l, k, count, p);
    AddNodeChains(c, s, l, k, count, p);
    AddNodeFree(c, s, l, k, count, p);
    KeysHaveNodes(c, s, p);
    AddNodeEffect(c, s, l, k, count, p);
  }

  // ---------------------------------------------------------------- a node that lost its last key

  /** Node `n` unlinked from between `prev` and `nxt`, its `next` now pointing at the free nodes. */
  function LinkPast(nodes: seq<Count>, n: nat, prev: nat, nxt: nat, nextFree: nat): (r: seq<Count>)
    requires n < |nodes| && prev < |nodes| && nxt < |nodes| && n != prev && n != nxt && prev != nxt
    ensures |r| == |nodes|
    ensures r[n].next == nextFree
    ensures forall x :: 0 <= x < |nodes| && x != n ==> r[x] == Count(nodes[x].count,
      if prev != 0 && x == prev then nxt else nodes[x].next,
      if x == nxt then prev else nodes[x].last, nodes[x].hkv1)
  {
    var n1 := nodes[n := nodes[n].(hkv1 := 0, next := nextFree)];
    var n2 := n1[nxt := n1[nxt].(last := prev)];
    if prev != 0 then n2[prev := n2[prev].(next := nxt)] else n2
  }

  ghost predicate DropAllowed(c: Counts, s: Shape, l: nat, i: nat) {
    && l < |c.lo| && l < |s.lists| && i + 1 < |s.lists[l]|
    && var ls := s.lists[l];
       && ls[i] < |c.nodes| && At(ls, i - 1) < |c.nodes| && ls[i + 1] < |c.nodes|
       && At(ls, i - 1) != ls[i] && ls[i] != ls[i + 1] && At(ls, i - 1) != ls[i + 1]
       && ls[i] != 0 && ls[i + 1] != 0
  }

  function DropNode(c: Counts, l: nat, n: nat, prev: nat, nxt: nat): Counts
    requires l < |c.lo| && n < |c.nodes| && prev < |c.nodes| && nxt < |c.nodes|
    requires n != prev && n != nxt && prev != nxt
  {
    c.(nodes := LinkPast(c.nodes, n, prev, nxt, c.nextFree), nextFree := n, free := c.free + 1,
       used := if c.used > 0 then c.used - 1 else 0,
       lo := if prev == 0 then c.lo[l := if c.lo[l] == n then nxt else c.lo[l]] else c.lo)
  }

  ghost function DropShape(s: Shape, l: nat, i: nat): Shape
    requires l < |s.lists| && i < |s.lists[l]|
  {
    var n := s.lists[l][i];
    Shape(s.lists[l := Remove(s.lists[l], i)], s.listOf - {n}, s.chains - {n}, [n] + s.freeList)
  }

  lemma DropIsAllowed(c: Counts, s: Shape, l: nat, i: nat)
    requires ListsOk(c, s) && l < LISTS_MAX && i + 1 < |s.lists[l]|
    ensures DropAllowed(c, s, l, i) && ListOk(c.nodes, s.lists[l], c.lo[l], c.hi[l]) && Distinct(s.lists[l])
  {
    hide Located;
    assert ListOk(c.nodes, s.lists[l], c.lo[l], c.hi[l]);
    AscendingDistinct(c.nodes, s.lists[l]);
    hide Ascending;
  }

  lemma LinkPastAt(nodes: seq<Count>, ls: seq<nat>, i: nat, nextFree: nat, o: nat)
    requires NodesLinked(nodes, ls) && Distinct(ls) && i + 1 < |ls| && o < |ls| && o != i
    ensures At(ls, i - 1) < |nodes| && At(ls, i - 1) != ls[i] && ls[i] != ls[i + 1] && At(ls, i - 1) != ls[i + 1]
    ensures var x := LinkPast(nodes, ls[i], At(ls, i - 1), ls[i + 1], nextFree)[ls[o]];
      && x.next == At(ls, if o + 1 == i then o + 2 else o + 1)
      && x.last == At(ls, if o == i + 1 then o - 2 else o - 1)
      && x.count == nodes[ls[o]].count
  {
    assert nodes[ls[o]].next == At(ls, o + 1) && nodes[ls[o]].last == At(ls, o - 1);
    assert o < i ==> ls[o] != ls[i];
    assert o > i ==> ls[i] != ls[o];
    assert i > 0 && o < i - 1 ==> ls[o] != ls[i - 1];
    assert i > 0 && o > i - 1 ==> ls[i - 1] != ls[o];
    assert o < i + 1 ==> ls[o] != ls[i + 1];
    assert o > i + 1 ==> ls[i + 1] != ls[o];
    assert i > 0 ==> ls[i - 1] != 0;
  }

  lemma DropLinkedAt(nodes: seq<Count>, ls: seq<nat>, i: nat, nextFree: nat, a: nat)
    requires NodesLinked(nodes, ls) && Distinct(ls) && i + 1 < |ls| && a + 1 < |ls|
    requires At(ls, i - 1) < |nodes| && At(ls, i - 1) != ls[i] && ls[i] != ls[i + 1] && At(ls, i - 1) != ls[i + 1]
    ensures var r := Remove(ls, i);
      var nodes' := LinkPast(nodes, ls[i], At(ls, i - 1), ls[i + 1], nextFree);
      && |r| == |ls| - 1 && 1 <= r[a] < |nodes|
      && nodes'[r[a]].next == At(r, a + 1) && nodes'[r[a]].last == At(r, a - 1)
  {
    RemoveAt(ls, i);
    LinkPastAt(nodes, ls, i, nextFree, Before(i, a));
    assert 1 <= ls[Before(i, a)] < |nodes|;
    hide Remove, Distinct, LinkPast, NodesLinked;
  }

  lemma DropLinked(nodes: seq<Count>, ls: seq<nat>, i: nat, nextFree: nat)
    requires NodesLinked(nodes, ls) && Distinct(ls) && i + 1 < |ls|
    ensures At(ls, i - 1) < |nodes| && At(ls, i - 1) != ls[i] && ls[i] != ls[i + 1] && At(ls, i - 1) != ls[i + 1]
    ensures NodesLinked(LinkPast(nodes, ls[i], At(ls, i - 1), ls[i + 1], nextFree), Remove(ls, i))
  {
    LinkPastAt(nodes, ls, i, nextFree, i + 1);
    var r := Remove(ls, i);
    var nodes' := LinkPast(nodes, ls[i], At(ls, i - 1), ls[i + 1], nextFree);
    assert |r| == |ls| - 1;
    hide LinkPast, Remove, Distinct, At;
    forall a | 0 <= a < |r|
      ensures 1 <= r[a] < |nodes'| && nodes'[r[a]].next == At(r, a + 1) && nodes'[r[a]].last == At(r, a - 1)
    {
      DropLinkedAt(nodes, ls, i, nextFree, a);
    }
  }

  lemma DropAscending(nodes: seq<Count>, nodes': seq<Count>, ls: seq<nat>, i: nat)
    requires Ascending(nodes, ls) && i < |ls| && |nodes'| == |nodes|
    requires forall o :: 0 <= o < |ls| && o != i ==> nodes'[ls[o]].count == nodes[ls[o]].count
    ensures Ascending(nodes', Remove(ls, i))
  {
    RemoveAt(ls, i);
    var r := Remove(ls, i);
    hide Remove;
    forall a, b | 0 <= a < b < |r|
      ensures r[a] < |nodes'| && r[b] < |nodes'| && nodes'[r[a]].count < nodes'[r[b]].count
    {
      assert nodes[ls[Before(i, a)]].count < nodes[ls[Before(i, b)]].count;
    }
    forall a | 0 <= a < |r|
      ensures r[a] < |nodes'| && nodes'[r[a]].count >= 1
    {
      assert nodes[ls[Before(i, a)]].count >= 1;
    }
  }

  lemma DropList(c: Counts, s: Shape, l: nat, i: nat)
    requires ListsOk(c, s) && l < LISTS_MAX && DropAllowed(c, s, l, i)
    ensures var ls := s.lists[l];
      var c' := DropNode(c, l, ls[i], At(ls, i - 1), ls[i + 1]);
      ListOk(c'.nodes, Remove(ls, i), c'.lo[l], c.hi[l])
  {
    hide ListsOk, NodesLinked, Ascending;
    var ls := s.lists[l];
    DropIsAllowed(c, s, l, i);
    DropLinked(c.nodes, ls, i, c.nextFree);
    var nodes' := LinkPast(c.nodes, ls[i], At(ls, i - 1), ls[i + 1], c.nextFree);
    forall o | 0 <= o < |ls| && o != i
      ensures ls[o] < |c.nodes| && nodes'[ls[o]].count == c.nodes[ls[o]].count
    {
      InRange(c.nodes, ls, o);
      LinkPastAt(c.nodes, ls, i, c.nextFree, o);
    }
    InRange(c.nodes, ls, i);
    DropAscending(c.nodes, nodes', ls, i);
    RemoveAt(ls, i);
    hide Remove, LinkPast, Distinct;
  }

  lemma LocatedRemove(lists: seq<seq<nat>>, listOf: map<nat, nat>, l: nat, i: nat)
    requires Located(lists, listOf) && l < |lists| && i < |lists[l]| && Distinct(lists[l])
    ensures Located(lists[l := Remove(lists[l], i)], listOf - {lists[l][i]})
  {
    var n, r := lists[l][i], Remove(lists[l], i);
    var lists', listOf' := lists[l := r], listOf - {n};
    RemoveAt(lists[l], i);
    hide Remove, Distinct;
    forall a, b | 0 <= a < |lists'| && 0 <= b < |lists'[a]|
      ensures lists'[a][b] in listOf' && listOf'[lists'[a][b]] == a
    {
      if a == l {
        assert lists[l][Before(i, b)] in listOf;
        assert r[b] in r;
      } else {
        assert lists[a][b] in listOf && lists[l][i] in listOf;
      }
    }
    forall x | x in listOf'
      ensures x in lists'[listOf'[x]]
    {
      assert x in lists[listOf[x]];
    }
  }

  lemma DropSame(c: Counts, s: Shape, l: nat, i: nat, n: nat)
    requires Located(s.lists, s.listOf) && l < LISTS_MAX && DropAllowed(c, s, l, i)
    requires n in s.listOf && s.listOf[n] != l && n < |c.nodes|
    ensures var ls := s.lists[l];
      SameNode(DropNode(c, l, ls[i], At(ls, i - 1), ls[i + 1]).nodes[n], c.nodes[n])
  {
    DropNeighbours(c, s, l, i);
    hide Located;
  }

  lemma DropOtherLists(c: Counts, s: Shape, l: nat, i: nat)
    requires ListsOk(c, s) && l < LISTS_MAX && DropAllowed(c, s, l, i)
    ensures var ls := s.lists[l];
      var nodes' := DropNode(c, l, ls[i], At(ls, i - 1), ls[i + 1]).nodes;
      forall m :: 0 <= m < LISTS_MAX && m != l ==> ListOk(nodes', s.lists[m], c.lo[m], c.hi[m])
  {
    var ls := s.lists[l];
    hide ListOk, Located, Linked, SameNode, LinkPast, At;
    var c' := DropNode(c, l, ls[i], At(ls, i - 1), ls[i + 1]);
    forall n | n in s.listOf && n < |c.nodes| && s.listOf[n] != l
      ensures SameNode(c'.nodes[n], c.nodes[n])
    {
      DropSame(c, s, l, i, n);
    }
    OtherLists(c.nodes, c'.nodes, c.lo, c.hi, s.lists, s.listOf, l);
  }

  lemma DropLists(c: Counts, s: Shape, l: nat, i: nat)
    requires ListsOk(c, s) && l < LISTS_MAX && DropAllowed(c, s, l, i)
    ensures var ls := s.lists[l];
      ListsOk(DropNode(c, l, ls[i], At(ls, i - 1), ls[i + 1]), DropShape(s, l, i))
  {
    var ls := s.lists[l];
    hide ListOk, Located, Distinct, Remove, LinkPast, At;
    var c' := DropNode(c, l, ls[i], At(ls, i - 1), ls[i + 1]);
    DropOtherLists(c, s, l, i);
    DropIsAllowed(c, s, l, i);
    DropList(c, s, l, i);
    LocatedRemove(s.lists, s.listOf, l, i);
    OneListChanged(c'.nodes, c.lo, c.hi, c'.lo, c'.hi, s.lists, l, Remove(ls, i));
    hide Linked;
  }

  lemma DropNeighbours(c: Counts, s: Shape, l: nat, i: nat)
    requires Located(s.lists, s.listOf) && l < LISTS_MAX && DropAllowed(c, s, l, i)
    ensures var ls := s.lists[l];
      && ls[i] in s.listOf && s.listOf[ls[i]] == l
      && ls[i + 1] in s.listOf && s.listOf[ls[i + 1]] == l
      && (At(ls, i - 1) != 0 ==> At(ls, i - 1) in s.listOf && s.listOf[At(ls, i - 1)] == l)
  {
    var ls := s.lists[l];
    assert s.lists[l][i] in s.listOf && s.lists[l][i + 1] in s.listOf;
    assert i > 0 ==> s.lists[l][i - 1] in s.listOf;
  }

  lemma DropSpares(c: Counts, s: Shape, l: nat, i: nat)
    requires Located(s.lists, s.listOf) && FreeOk(c, s) && l < LISTS_MAX && DropAllowed(c, s, l, i)
    ensures var ls := s.lists[l];
      var nodes' := DropNode(c, l, ls[i], At(ls, i - 1), ls[i + 1]).nodes;
      forall a :: 0 <= a < |s.freeList| ==> s.freeList[a] != ls[i] && nodes'[s.freeList[a]].next == c.nodes[s.freeList[a]].next
  {
    DropNeighbours(c, s, l, i);
    hide Located, Distinct;
    assert forall a :: 0 <= a < |s.freeList| ==> s.freeList[a] !in s.listOf;
  }

  lemma PutFirst(nodes: seq<Count>, nodes': seq<Count>, fl: seq<nat>, n: nat)
    requires Distinct(fl) && |nodes'| == |nodes| && n < |nodes|
    requires forall i :: 0 <= i < |fl| ==> fl[i] < |nodes| && fl[i] != n && nodes'[fl[i]].next == nodes[fl[i]].next
    requires forall i {:trigger nodes[fl[i]]} :: 0 <= i < |fl| - 1 ==> nodes[fl[i]].next == fl[i + 1]
    requires |fl| > 0 ==> nodes'[n].next == fl[0]
    ensures forall i {:trigger nodes'[([n] + fl)[i]]} :: 0 <= i < |fl| ==>
      ([n] + fl)[i] < |nodes| && nodes'[([n] + fl)[i]].next == ([n] + fl)[i + 1]
    ensures Distinct([n] + fl)
    ensures forall i :: 0 <= i <= |fl| ==> ([n] + fl)[i] == if i == 0 then n else fl[i - 1]
  {
    forall i | 0 < i < |fl|
      ensures nodes'[([n] + fl)[i]].next == ([n] + fl)[i + 1]
    {
      assert nodes[fl[i - 1]].next == fl[i];
    }
  }

  lemma DropFree(c: Counts, s: Shape, l: nat, i: nat)
    requires Located(s.lists, s.listOf) && FreeOk(c, s) && l < LISTS_MAX && DropAllowed(c, s, l, i)
    ensures var ls := s.lists[l];
      FreeOk(DropNode(c, l, ls[i], At(ls, i - 1), ls[i + 1]), DropShape(s, l, i))
  {
    var ls, n := s.lists[l], s.lists[l][i];
    hide Located, Remove, At, LinkPast, Distinct;
    DropNeighbours(c, s, l, i);
    DropSpares(c, s, l, i);
    CardRemove(s.listOf, n);
    PutFirst(c.nodes, DropNode(c, l, n, At(ls, i - 1), ls[i + 1]).nodes, s.freeList, n);
  }

  lemma CardRemove(m: map<nat, nat>, k: nat)
    requires k in m
    ensures |m - {k}| == |m| - 1
  {
    assert m.Keys == (m - {k}).Keys + {k};
  }

  lemma DropOtherChain(c: Counts, s: Shape, n: nat, p: nat, m: nat)
    requires ChainsOk(c, s, 0) && n in s.chains && s.chains[n] == [p] && m in s.chains && m != n
    ensures Threaded(c.links, m, s.chains[m]) && p !in s.chains[m]
  {
    assert Threaded(c.links, n, [p]);
    assert Threaded(c.links, m, s.chains[m]);
    hide ChainsOk;
    LinkAt(c.links, n, [p], 0);
    OnOneChain(c.links, m, s.chains[m], p);
  }

  lemma DropChains(c: Counts, s: Shape, l: nat, i: nat, p: nat)
    requires ChainsOk(c, s, 0) && 0 !in c.links && DropAllowed(c, s, l, i)
    requires s.lists[l][i] in s.chains && s.chains[s.lists[l][i]] == [p]
    ensures var ls := s.lists[l];
      ChainsOk(DropNode(c, l, ls[i], At(ls, i - 1), ls[i + 1]), DropShape(s, l, i), p)
  {
    hide Threaded, Remove, At;
    var n := s.lists[l][i];
    forall m | m in s.chains && m != n
      ensures Threaded(c.links, m, s.chains[m]) && p !in s.chains[m]
    {
      DropOtherChain(c, s, n, p, m);
    }
    forall q | q in c.links && q != p
      ensures c.links[q].node in s.chains && c.links[q].node != n && q in s.chains[c.links[q].node]
    {
      assert q in s.chains[c.links[q].node];
    }
  }

  lemma OnOneChain(links: map<nat, Link>, m: nat, ch: seq<nat>, p: nat)
    requires Threaded(links, m, ch) && p in links && links[p].node != m
    ensures p !in ch
  {
    forall i | 0 <= i < |ch|
      ensures ch[i] != p
    {
      assert links[ch[i]].node == m;
    }
  }

  lemma DropEffect(c: Counts, s: Shape, l: nat, i: nat, p: nat)
    requires DropAllowed(c, s, l, i) && ChainsOk(c, s, 0) && 0 !in c.links
    requires s.lists[l][i] in s.chains && s.chains[s.lists[l][i]] == [p]
    ensures var ls := s.lists[l];
      var c', s' := DropNode(c, l, ls[i], At(ls, i - 1), ls[i + 1]), DropShape(s, l, i);
      && OthersKept(c, s, c', s', p) && c'.links == c.links
      && c'.nodes[ls[i + 1]].count == c.nodes[ls[i + 1]].count
  {
    hide Threaded, Remove, At;
    var ls := s.lists[l];
    var c', s' := DropNode(c, l, ls[i], At(ls, i - 1), ls[i + 1]), DropShape(s, l, i);
    forall q | q in c.links && q != p
      ensures CountOf(c', q) == CountOf(c, q) && ListOf(c', s', q) == ListOf(c, s, q)
    {
      assert q in s.chains[c.links[q].node];
    }
  }

  lemma DropOk(c: Counts, s: Shape, l: nat, i: nat, p: nat)
    requires Ok(c, s, 0) && l < LISTS_MAX && i + 1 < |s.lists[l]|
    requires s.lists[l][i] in s.chains && s.chains[s.lists[l][i]] == [p]
    ensures DropAllowed(c, s, l, i)
    ensures var ls := s.lists[l];
      var c', s' := DropNode(c, l, ls[i], At(ls, i - 1), ls[i + 1]), DropShape(s, l, i);
      && Ok(c', s', p) && OthersKept(c, s, c', s', p) && c'.links == c.links
      && ls[i + 1] in s'.listOf && s'.listOf[ls[i + 1]] == l
      && c'.nodes[ls[i + 1]].count == c.nodes[ls[i + 1]].count
  {
    hide Linked, Located, FreeOk, ChainsOk, OthersKept, DropNode, DropAllowed, Remove, At;
    DropIsAllowed(c, s, l, i);
    DropLists(c, s, l, i);
    DropFree(c, s, l, i);
    DropChains(c, s, l, i, p);
    DropEffect(c, s, l, i, p);
    DropNeighbours(c, s, l, i);
    hide ListsOk, Distinct;
  }

  // ---------------------------------------------------------------- more free nodes

  const PAGE: nat := 4096
  const COUNT_BYTES: nat := 18

  /** The node array grown to `size` nodes, the new ones pushed from the last down to the first. */
  function Grow(c: Counts, size: nat): Counts
    requires c.free == 0 && 1 < size && |c.nodes| < size
  {
    var kept := if |c.nodes| == 0 then [Count(0, 0, 0, 0)] else c.nodes;
    var added := seq(size - |kept|, i requires 0 <= i < size - |kept| =>
      Count(0, if i + 1 < size - |kept| then |kept| + i + 1 else c.nextFree, 0, 0));
    c.(nodes := kept + added, nextFree := |kept|, free := size - |kept|)
  }

  ghost function GrowShape(c: Counts, s: Shape, size: nat): Shape
    requires c.free == 0 && 1 < size && |c.nodes| < size
  {
    var start := if |c.nodes| == 0 then 1 else |c.nodes|;
    s.(freeList := seq(size - start, i => start + i))
  }

  lemma GrowLists(c: Counts, s: Shape, size: nat)
    requires ListsOk(c, s) && c.free == 0 && 1 < size && |c.nodes| < size
    ensures ListsOk(Grow(c, size), GrowShape(c, s, size))
  {
    hide Located, ListOk;
    OtherLists(c.nodes, Grow(c, size).nodes, c.lo, c.hi, s.lists, s.listOf, LISTS_MAX);
  }

  lemma GrowChains(c: Counts, s: Shape, size: nat, p: nat)
    requires ChainsOk(c, s, p) && c.free == 0 && 1 < size && |c.nodes| < size
    ensures ChainsOk(Grow(c, size), GrowShape(c, s, size), p)
  {
    hide Threaded;
  }

  lemma NodesInRange(c: Counts, s: Shape, p: nat)
    requires ChainsOk(c, s, p)
    ensures forall n :: n in s.listOf ==> n < |c.nodes|
  {
    hide Threaded;
    forall n | n in s.listOf
      ensures n < |c.nodes|
    {
      assert n in s.chains;
    }
  }

  lemma GrowFree(c: Counts, s: Shape, size: nat)
    requires FreeOk(c, s) && c.free == 0 && 1 < size && |c.nodes| < size
    requires forall n :: n in s.listOf ==> n < |c.nodes|
    ensures FreeOk(Grow(c, size), GrowShape(c, s, size))
  {
    var c', s' := Grow(c, size), GrowShape(c, s, size);
    var start := if |c.nodes| == 0 then 1 else |c.nodes|;
    assert forall i :: 0 <= i < size - start ==> s'.freeList[i] == start + i;
    assert Distinct(s'.freeList);
    assert s'.listOf == s.listOf;
    hide GrowShape, Distinct;
    forall i | 0 <= i < |s'.freeList| - 1
      ensures c'.nodes[s'.freeList[i]].next == s'.freeList[i + 1]
    {
      assert c'.nodes[start + i].next == start + i + 1;
    }
    hide Grow;
    if |c.nodes| == 0 {
      assert s.listOf.Keys == {};
    }
  }

  lemma GrowEffect(c: Counts, s: Shape, size: nat, p: nat)
    requires ChainsOk(c, s, p) && c.free == 0 && 1 < size && |c.nodes| < size
    ensures forall q :: q in c.links && q != p ==> CountOf(Grow(c, size), q) == CountOf(c, q)
  {
    hide Threaded;
    forall q | q in c.links && q != p
      ensures CountOf(Grow(c, size), q) == CountOf(c, q)
    {
      assert c.links[q].node in s.chains;
    }
  }

  lemma GrowOk(c: Counts, s: Shape, size: nat, p: nat)
    requires Ok(c, s, p) && c.free == 0 && 1 < size && |c.nodes| < size
    ensures var c', s' := Grow(c, size), GrowShape(c, s, size);
      && Ok(c', s', p) && c'.free > 0 && c'.links == c.links && s'.listOf == s.listOf && s'.lists == s.lists
      && (forall q :: q in c.links && q != p ==> CountOf(c', q) == CountOf(c, q))
      && (forall n :: 0 <= n < |c.nodes| ==> c'.nodes[n] == c.nodes[n]) && |c'.nodes| == size
  {
    hide ListsOk, FreeOk, ChainsOk, CountOf;
    GrowLists(c, s, size);
    GrowChains(c, s, size, p);
    NodesInRange(c, s, p);
    GrowFree(c, s, size);
    GrowEffect(c, s, size, p);
  }

  // ---------------------------------------------------------------- where a key stands

  /** The node a key uses and its neighbours in the list. */
  ghost predicate PlacedAt(c: Counts, s: Shape, p: nat, l: nat, i: nat) {
    && p in c.links && l < LISTS_MAX && l < |s.lists| && i < |s.lists[l]|
    && var n, ls := c.links[p].node, s.lists[l];
       && n == ls[i] && 1 <= n < |c.nodes| && n in s.listOf && s.listOf[n] == l && n in s.chains
       && c.nodes[n].next == At(ls, i + 1) && c.nodes[n].last == At(ls, i - 1)
       && (forall a :: 0 <= a < |ls| ==> 1 <= ls[a] < |c.nodes|)
       && (i + 1 < |ls| ==> c.nodes[n].count < c.nodes[ls[i + 1]].count && ls[i + 1] in s.listOf && s.listOf[ls[i + 1]] == l)
       && c.nodes[n].count >= 1
  }

  lemma AscendingAt(nodes: seq<Count>, ls: seq<nat>, i: nat)
    requires Ascending(nodes, ls) && i < |ls|
    ensures ls[i] < |nodes| && nodes[ls[i]].count >= 1
    ensures i + 1 < |ls| ==> ls[i + 1] < |nodes| && nodes[ls[i]].count < nodes[ls[i + 1]].count
  {
  }

  lemma KeyPlace(c: Counts, s: Shape, p: nat, l: nat) returns (i: nat)
    requires Ok(c, s, 0) && ListOf(c, s, p) == Some(l)
    ensures PlacedAt(c, s, p, l, i)
  {
    hide FreeOk, ListOk, ChainsOk;
    var n := c.links[p].node;
    i := NodeIndex(s.lists, s.listOf, n);
    var ls := s.lists[l];
    assert ListOk(c.nodes, ls, c.lo[l], c.hi[l]);
    if i + 1 < |ls| {
      assert s.lists[l][i + 1] in s.listOf;
    }
    hide Located, Linked;
    NodePlace(c.nodes, ls, c.lo[l], c.hi[l], i);
    ChainKeys(c, s);
  }

  lemma NodePlace(nodes: seq<Count>, ls: seq<nat>, lo: nat, hi: nat, i: nat)
    requires ListOk(nodes, ls, lo, hi) && i < |ls|
    ensures forall a :: 0 <= a < |ls| ==> 1 <= ls[a] < |nodes|
    ensures nodes[ls[i]].next == At(ls, i + 1) && nodes[ls[i]].last == At(ls, i - 1) && nodes[ls[i]].count >= 1
    ensures i + 1 < |ls| ==> nodes[ls[i]].count < nodes[ls[i + 1]].count
  {
    NextInList(nodes, ls, i, lo, hi);
    AscendingAt(nodes, ls, i);
    hide Ascending;
  }

  lemma ChainKeys(c: Counts, s: Shape)
    requires ChainsOk(c, s, 0)
    ensures s.chains.Keys == s.listOf.Keys
  {
    hide Threaded;
  }

  lemma DistinctNext(c: Counts, s: Shape, p: nat, l: nat, i: nat)
    requires PlacedAt(c, s, p, l, i)
    ensures c.nodes[c.links[p].node].next != 0 <==> i + 1 < |s.lists[l]|
  {
  }

  /** A key alone on its node has no neighbours, and a key that is not leaves a chain behind. */
  lemma LoneOrNot(c: Counts, s: Shape, p: nat) returns (j: nat)
    requires ChainsOk(c, s, 0) && p in c.links && 0 !in c.links
    ensures HasNeighbours(c, p) && c.links[p].node in s.chains
    ensures var n, k := c.links[p].node, c.links[p];
      var ch := s.chains[n];
      && j < |ch| && ch[j] == p
      && if c.nodes[n].hkv1 == p && k.next == 0
         then ch == [p] && k.last == 0
         else |ch| > 1 && (if c.nodes[n].hkv1 == p then k.next != 0 else c.nodes[n].hkv1 != 0)
  {
    j := ChainIndex(c, s, p);
    var n := c.links[p].node;
    var ch := s.chains[n];
    assert Threaded(c.links, n, ch) && ch[0] == c.nodes[n].hkv1;
    hide ChainsOk;
    LinkAt(c.links, n, ch, j);
    LinkAt(c.links, n, ch, 0);
    FirstOnly(ch, j);
  }

  lemma FirstOnly(ch: seq<nat>, j: nat)
    requires Distinct(ch) && j < |ch|
    ensures ch[0] == ch[j] <==> j == 0
  {
  }

  lemma KeyOnChain(c: Counts, s: Shape, p: nat) returns (j: nat)
    requires Ok(c, s, 0) && p in c.links
    ensures HasNeighbours(c, p) && c.links[p].node in s.chains && p != 0
    ensures c.links[p].next != p && c.links[p].last != p
    ensures var n, k := c.links[p].node, c.links[p];
      var ch := s.chains[n];
      && j < |ch| && ch[j] == p
      && if c.nodes[n].hkv1 == p && k.next == 0
         then ch == [p] && k.last == 0
         else |ch| > 1 && (if c.nodes[n].hkv1 == p then k.next != 0 else c.nodes[n].hkv1 != 0)
  {
    hide ListsOk, FreeOk, Threaded;
    j := LoneOrNot(c, s, p);
    var n := c.links[p].node;
    assert Threaded(c.links, n, s.chains[n]);
    hide ChainsOk;
    NotOwnNeighbour(c.links, n, s.chains[n], j);
  }

  lemma NotOwnNeighbour(links: map<nat, Link>, n: nat, ch: seq<nat>, j: nat)
    requires Threaded(links, n, ch) && j < |ch|
    ensures ch[j] in links && links[ch[j]].next != ch[j] && links[ch[j]].last != ch[j]
  {
    LinkAt(links, n, ch, j);
    assert j + 1 < |ch| ==> ch[j] != ch[j + 1];
    assert j > 0 ==> ch[j - 1] != ch[j];
  }
}
