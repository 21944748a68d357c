/** The static pools under every list of the server: one array of node slots, one of element
    slots and one of list slots, each with a busy flag. Pointers are indices, NULL is -1.

    `PoolModel` holds the representation invariant as a predicate on the three arrays' values
    and a pair of ghost sequences: `ch`, the chain of node indices of every list, and `owner`,
    the list a busy node belongs to. */
module PoolModel {
  const MAX_NODES := 20
  const MAX_LISTS := 80
  const NULL := -1

  datatype Order = Sorted | Unsorted
  datatype Element = Element(element: int, busy: bool)
  datatype Node = Node(element: int, tail: int, busy: bool)
  datatype List = List(nodes: int, compare: (int, int) -> int, current: int, order: Order, busy: bool)

  /** What a comparator owes its list: it returns 0 for the same element and for no other. */
  ghost predicate TellsApart(compare: (int, int) -> int) {
    forall a, b :: compare(a, b) == 0 <==> a == b
  }

  /** The k-th node of a chain, NULL past its end. */
  function NodeAt(c: seq<int>, k: nat): int {
    if k < |c| then c[k] else NULL
  }

  /** The node before position k, NULL for the head. */
  function Before(c: seq<int>, k: nat): int
    requires k <= |c|
  {
    if k == 0 then NULL else c[k - 1]
  }

  ghost predicate NodeOk(e: Element, n: Node, ch: seq<seq<int>>, own: int, i: int) {
    && e.busy == n.busy
    && (n.busy ==> n.element == i && 0 <= own < |ch| && i in ch[own])
    && (!n.busy ==> own == NULL)
  }

  /** The k-th node of chain c points at the next one, the last at NULL. */
  ghost predicate LinkOk(ns: seq<Node>, c: seq<int>, k: nat) {
    k < |c| && 0 <= c[k] < |ns| && ns[c[k]].tail == NodeAt(c, k + 1)
  }

  ghost predicate Distinct(c: seq<int>) {
    forall j, k | 0 <= j < k < |c| :: c[j] != c[k]
  }

  ghost predicate ChainOk(ns: seq<Node>, c: seq<int>, owner: seq<int>, l: int)
    requires |owner| == |ns|
  {
    && (forall k | 0 <= k < |c| :: 0 <= c[k] < |ns| && ns[c[k]].busy && owner[c[k]] == l)
    && (forall k: nat | k < |c| :: LinkOk(ns, c, k))
    && Distinct(c)
  }

  ghost predicate ListOk(s: List, c: seq<int>) {
    && s.nodes == NodeAt(c, 0)
    && (s.busy ==> TellsApart(s.compare))
    && (!s.busy ==> c == [])
  }

  ghost predicate NodesOk(es: seq<Element>, ns: seq<Node>, ch: seq<seq<int>>, owner: seq<int>) {
    |es| == |ns| == |owner| && forall i | 0 <= i < |ns| :: NodeOk(es[i], ns[i], ch, owner[i], i)
  }

  ghost predicate ChainsOk(ns: seq<Node>, ch: seq<seq<int>>, owner: seq<int>) {
    |owner| == |ns| && forall l | 0 <= l < |ch| :: ChainOk(ns, ch[l], owner, l)
  }

  /** Chains are acyclic and pairwise disjoint, their union is exactly the busy nodes, and
      node i is busy precisely when element i is, which is then the element it holds. */
  ghost predicate PoolInv(es: seq<Element>, ns: seq<Node>, ls: seq<List>, ch: seq<seq<int>>, owner: seq<int>) {
    && |ns| == MAX_NODES && |ls| == |ch| == MAX_LISTS
    && NodesOk(es, ns, ch, owner)
    && ChainsOk(ns, ch, owner)
    && forall l | 0 <= l < MAX_LISTS :: ListOk(ls[l], ch[l])
  }

  ghost predicate InRange(c: seq<int>, n: nat) {
    forall k | 0 <= k < |c| :: 0 <= c[k] < n
  }

  ghost predicate OwnedBy(c: seq<int>, owner: seq<int>, l: int) {
    forall k | 0 <= k < |c| :: 0 <= c[k] < |owner| && owner[c[k]] == l
  }

  /** The elements along a chain. */
  ghost function Values(c: seq<int>, es: seq<Element>): (v: seq<int>)
    requires InRange(c, |es|)
    ensures |v| == |c|
    ensures forall k | 0 <= k < |c| :: v[k] == es[c[k]].element
  {
    seq(|c|, k requires 0 <= k < |c| => es[c[k]].element)
  }

  ghost predicate AllInRange(ch: seq<seq<int>>, n: nat) {
    forall l | 0 <= l < |ch| :: InRange(ch[l], n)
  }

  ghost function AllValues(ch: seq<seq<int>>, es: seq<Element>): (v: seq<seq<int>>)
    requires AllInRange(ch, |es|)
    ensures |v| == |ch|
    ensures forall l | 0 <= l < |ch| :: v[l] == Values(ch[l], es)
  {
    seq(|ch|, l requires 0 <= l < |ch| => Values(ch[l], es))
  }

  /** One node has been put before chain c. */
  ghost predicate Longer(c: seq<int>, c': seq<int>) { c' != [] && c'[1..] == c }

  /** What the deletion of x does to the chain c of the elements v, as far as the head is concerned. */
  ghost predicate Popped(v: seq<int>, x: int, c: seq<int>, c': seq<int>) {
    && (v != [] && v[0] == x && c != [] ==> c' == c[1..])
    && (x !in v ==> c' == c)
  }

  /** A cursor pointing at `node` stands before position k of chain c. */
  ghost predicate Stands(node: int, c: seq<int>, k: nat) {
    k <= |c| && node == NodeAt(c, k)
  }

  function InsertAt<T>(s: seq<T>, i: nat, x: T): seq<T>
    requires i <= |s|
  {
    s[..i] + [x] + s[i..]
  }

  function RemoveAt<T>(s: seq<T>, i: nat): seq<T>
    requires i < |s|
  {
    s[..i] + s[i + 1..]
  }

  /** s' is s with x put in at position i, said index by index. */
  ghost predicate Inserted<T>(s: seq<T>, i: nat, x: T, s': seq<T>) {
    && i <= |s| && |s'| == |s| + 1
    && (forall k | 0 <= k < i :: s'[k] == s[k])
    && s'[i] == x
    && (forall k {:trigger s[k]} | i <= k < |s| :: s'[k + 1] == s[k])
    && (forall k {:trigger s'[k]} | i < k < |s'| :: s'[k] == s[k - 1])
  }

  /** s' is s without position i, said index by index. */
  ghost predicate Removed<T>(s: seq<T>, i: nat, s': seq<T>) {
    && i < |s| && |s'| == |s| - 1
    && (forall k | 0 <= k < i :: s'[k] == s[k])
    && (forall k {:trigger s'[k]} | i <= k < |s'| :: s'[k] == s[k + 1])
    && (forall k {:trigger s[k]} | i < k < |s| :: s'[k - 1] == s[k])
  }

  lemma InsertAtInserts<T>(s: seq<T>, i: nat, x: T)
    requires i <= |s|
    ensures Inserted(s, i, x, InsertAt(s, i, x))
  {}

  lemma InsertedIsInsertAt<T>(s: seq<T>, i: nat, x: T, s': seq<T>)
    requires Inserted(s, i, x, s')
    ensures s' == InsertAt(s, i, x)
  {}

  lemma RemoveAtRemoves<T>(s: seq<T>, i: nat)
    requires i < |s|
    ensures Removed(s, i, RemoveAt(s, i))
  {}

  lemma RemovedIsRemoveAt<T>(s: seq<T>, i: nat, s': seq<T>)
    requires Removed(s, i, s')
    ensures s' == RemoveAt(s, i)
  {}

  /** ns' is ns after node n has been linked at position i of chain c. */
  ghost predicate Linked(ns: seq<Node>, c: seq<int>, i: nat, n: nat, ns': seq<Node>) {
    && |ns'| == |ns| && i <= |c| && n < |ns| && InRange(c, |ns|)
    && ns'[n] == Node(n, NodeAt(c, i), true)
    && (i > 0 ==> ns'[c[i - 1]] == ns[c[i - 1]].(tail := n))
    && forall j | 0 <= j < |ns| && j != n && j != Before(c, i) :: ns'[j] == ns[j]
  }

  /** ns' is ns after the node at position i of chain c has been spliced out and freed. */
  ghost predicate Unlinked(ns: seq<Node>, c: seq<int>, i: nat, ns': seq<Node>) {
    && |ns'| == |ns| && i < |c| && InRange(c, |ns|)
    && ns'[c[i]] == ns[c[i]].(busy := false)
    && (i > 0 ==> ns'[c[i - 1]] == ns[c[i - 1]].(tail := ns[c[i]].tail))
    && forall j | 0 <= j < |ns| && j != c[i] && j != Before(c, i) :: ns'[j] == ns[j]
  }

  /** A chain whose nodes are untouched stays a chain. */
  lemma ChainFrame(ns: seq<Node>, ns': seq<Node>, c: seq<int>, owner: seq<int>, owner': seq<int>, l: int)
    requires |ns| == |ns'| == |owner| == |owner'|
    requires ChainOk(ns, c, owner, l)
    requires forall j | 0 <= j < |ns| && owner[j] == l :: ns'[j] == ns[j] && owner'[j] == l
    ensures ChainOk(ns', c, owner', l)
  {
    forall k: nat | k < |c| ensures LinkOk(ns', c, k) {
      assert LinkOk(ns, c, k);
    }
  }

  lemma LinkChain(ns: seq<Node>, c: seq<int>, owner: seq<int>, l: nat, i: nat, n: nat, ns': seq<Node>, c': seq<int>)
    requires |owner| == |ns| && ChainOk(ns, c, owner, l)
    requires n < |ns| && owner[n] != l
    requires Linked(ns, c, i, n, ns') && Inserted(c, i, n, c')
    ensures ChainOk(ns', c', owner[n := l], l)
  {
    forall k: nat | k < |c'| ensures LinkOk(ns', c', k) {
      if k < i {
        assert LinkOk(ns, c, k);
        assert k < i - 1 ==> c[k] != c[i - 1];
      } else if k > i {
        assert LinkOk(ns, c, k - 1);
        assert i > 0 ==> c[k - 1] != c[i - 1];
      }
    }
  }

  lemma UnlinkChain(ns: seq<Node>, c: seq<int>, owner: seq<int>, l: nat, i: nat, ns': seq<Node>, c': seq<int>)
    requires |owner| == |ns| && ChainOk(ns, c, owner, l)
    requires Unlinked(ns, c, i, ns') && Removed(c, i, c')
    ensures ChainOk(ns', c', owner[c[i] := NULL], l)
  {
    assert LinkOk(ns, c, i);
    forall k: nat | k < |c'| ensures LinkOk(ns', c', k) {
      if k < i {
        assert LinkOk(ns, c, k);
        assert k < i - 1 ==> c[k] != c[i - 1];
      } else {
        assert LinkOk(ns, c, k + 1);
      }
    }
  }

  /** Linking the free node n at position i of list l keeps the invariant, puts x at position i
      of that list, and changes no other list. */
  lemma LinkKeepsInv(es: seq<Element>, ns: seq<Node>, ls: seq<List>, ch: seq<seq<int>>, owner: seq<int>,
                     l: nat, i: nat, n: nat, x: int, ns': seq<Node>, ls': seq<List>, c': seq<int>)
    requires PoolInv(es, ns, ls, ch, owner)
    requires l < MAX_LISTS && ls[l].busy && i <= |ch[l]| && n < MAX_NODES && !ns[n].busy
    requires Linked(ns, ch[l], i, n, ns') && Inserted(ch[l], i, n, c')
    requires ls' == if i == 0 then ls[l := ls[l].(nodes := n)] else ls
    ensures PoolInv(es[n := Element(x, true)], ns', ls', ch[l := c'], owner[n := l])
    ensures AllValues(ch[l := c'], es[n := Element(x, true)])
            == AllValues(ch, es)[l := InsertAt(AllValues(ch, es)[l], i, x)]
  {
    assert NodeOk(es[n], ns[n], ch, owner[n], n);
    LinkChains(ns, ch, owner, l, i, n, ns', c');
    LinkNodes(es, ns, ch, owner, l, i, n, x, ns', c');
    forall l2 | 0 <= l2 < MAX_LISTS ensures ListOk(ls'[l2], ch[l := c'][l2]) {
      assert ListOk(ls[l2], ch[l2]);
    }
    LinkValues(es, ch, owner, l, i, n, x, c');
  }

  lemma LinkChains(ns: seq<Node>, ch: seq<seq<int>>, owner: seq<int>, l: nat, i: nat, n: nat, ns': seq<Node>,
      c': seq<int>)
    requires ChainsOk(ns, ch, owner) && l < |ch| && n < |ns| && owner[n] == NULL
    requires Linked(ns, ch[l], i, n, ns') && Inserted(ch[l], i, n, c')
    ensures ChainsOk(ns', ch[l := c'], owner[n := l])
  {
    assert ChainOk(ns, ch[l], owner, l);
    LinkChain(ns, ch[l], owner, l, i, n, ns', c');
    forall l2 | 0 <= l2 < |ch| && l2 != l ensures ChainOk(ns', ch[l2], owner[n := l], l2) {
      ChainFrame(ns, ns', ch[l2], owner, owner[n := l], l2);
    }
  }

  lemma LinkNodes(es: seq<Element>, ns: seq<Node>, ch: seq<seq<int>>, owner: seq<int>, l: nat, i: nat, n: nat, x: int,
                  ns': seq<Node>, c': seq<int>)
    requires NodesOk(es, ns, ch, owner) && l < |ch| && n < |ns| && !ns[n].busy && ChainOk(ns, ch[l], owner, l)
    requires Linked(ns, ch[l], i, n, ns') && Inserted(ch[l], i, n, c')
    ensures NodesOk(es[n := Element(x, true)], ns', ch[l := c'], owner[n := l])
  {}

  /** The elements along all chains, after x has been put in a node that no chain held. */
  lemma LinkValues(es: seq<Element>, ch: seq<seq<int>>, owner: seq<int>, l: nat, i: nat, n: nat, x: int, c': seq<int>)
    requires |es| == |owner| && l < |ch| && n < |es| && owner[n] == NULL
    requires forall l2 | 0 <= l2 < |ch| :: OwnedBy(ch[l2], owner, l2)
    requires Inserted(ch[l], i, n, c')
    ensures AllInRange(ch, |es|) && AllInRange(ch[l := c'], |es|)
    ensures AllValues(ch[l := c'], es[n := Element(x, true)])
            == AllValues(ch, es)[l := InsertAt(AllValues(ch, es)[l], i, x)]
  {
    var es', ch' := es[n := Element(x, true)], ch[l := c'];
    forall l2 | 0 <= l2 < |ch|
      ensures InRange(ch[l2], |es|) && InRange(ch'[l2], |es|)
      ensures l2 != l ==> Values(ch'[l2], es') == Values(ch[l2], es)
    {
      assert OwnedBy(ch[l2], owner, l2) && OwnedBy(ch[l], owner, l);
    }
    assert OwnedBy(ch[l], owner, l);
    InsertedIsInsertAt(Values(ch[l], es), i, x, Values(c', es'));
  }

  /** Unlinking the node at position i of list l keeps the invariant, drops position i of that
      list, and changes no other list. */
  lemma UnlinkKeepsInv(es: seq<Element>, ns: seq<Node>, ls: seq<List>, ch: seq<seq<int>>, owner: seq<int>,
                       l: nat, i: nat, ns': seq<Node>, ls': seq<List>, c': seq<int>)
    requires PoolInv(es, ns, ls, ch, owner)
    requires l < MAX_LISTS && i < |ch[l]|
    requires Unlinked(ns, ch[l], i, ns') && Removed(ch[l], i, c')
    requires |ls'| == |ls| && (forall l2 | 0 <= l2 < |ls| && l2 != l :: ls'[l2] == ls[l2])
    requires ls'[l].nodes == (if i == 0 then ns[ch[l][i]].tail else ls[l].nodes)
    requires ls'[l].busy == ls[l].busy && ls'[l].compare == ls[l].compare
    ensures PoolInv(es[ch[l][i] := es[ch[l][i]].(busy := false)], ns', ls', ch[l := c'], owner[ch[l][i] := NULL])
    ensures AllValues(ch[l := c'], es[ch[l][i] := es[ch[l][i]].(busy := false)])
            == AllValues(ch, es)[l := RemoveAt(AllValues(ch, es)[l], i)]
  {
    assert ChainOk(ns, ch[l], owner, l) && LinkOk(ns, ch[l], i);
    UnlinkChains(ns, ch, owner, l, i, ns', c');
    UnlinkNodes(es, ns, ch, owner, l, i, ns', c');
    forall l2 | 0 <= l2 < MAX_LISTS ensures ListOk(ls'[l2], ch[l := c'][l2]) {
      assert ListOk(ls[l2], ch[l2]);
    }
    UnlinkValues(es, ch, owner, l, i, c');
  }

  lemma UnlinkChains(ns: seq<Node>, ch: seq<seq<int>>, owner: seq<int>, l: nat, i: nat, ns': seq<Node>, c': seq<int>)
    requires ChainsOk(ns, ch, owner) && l < |ch|
    requires Unlinked(ns, ch[l], i, ns') && Removed(ch[l], i, c')
    ensures ChainsOk(ns', ch[l := c'], owner[ch[l][i] := NULL])
  {
    assert ChainOk(ns, ch[l], owner, l);
    UnlinkChain(ns, ch[l], owner, l, i, ns', c');
    forall l2 | 0 <= l2 < |ch| && l2 != l ensures ChainOk(ns', ch[l2], owner[ch[l][i] := NULL], l2) {
      ChainFrame(ns, ns', ch[l2], owner, owner[ch[l][i] := NULL], l2);
    }
  }

  lemma UnlinkNodes(es: seq<Element>, ns: seq<Node>, ch: seq<seq<int>>, owner: seq<int>, l: nat, i: nat,
                    ns': seq<Node>, c': seq<int>)
    requires NodesOk(es, ns, ch, owner) && l < |ch| && ChainOk(ns, ch[l], owner, l)
    requires Unlinked(ns, ch[l], i, ns') && Removed(ch[l], i, c')
    ensures NodesOk(es[ch[l][i] := es[ch[l][i]].(busy := false)], ns', ch[l := c'], owner[ch[l][i] := NULL])
  {}

  lemma UnlinkValues(es: seq<Element>, ch: seq<seq<int>>, owner: seq<int>, l: nat, i: nat, c': seq<int>)
    requires |es| == |owner| && l < |ch|
    requires forall l2 | 0 <= l2 < |ch| :: OwnedBy(ch[l2], owner, l2)
    requires Removed(ch[l], i, c')
    ensures AllInRange(ch, |es|) && AllInRange(ch[l := c'], |es|)
    ensures 0 <= ch[l][i] < |es|
    ensures AllValues(ch[l := c'], es[ch[l][i] := es[ch[l][i]].(busy := false)])
            == AllValues(ch, es)[l := RemoveAt(AllValues(ch, es)[l], i)]
  {
    assert OwnedBy(ch[l], owner, l);
    var es', ch' := es[ch[l][i] := es[ch[l][i]].(busy := false)], ch[l := c'];
    forall l2 | 0 <= l2 < |ch|
      ensures InRange(ch[l2], |es|) && InRange(ch'[l2], |es|)
      ensures l2 != l ==> Values(ch'[l2], es') == Values(ch[l2], es)
    {
      assert OwnedBy(ch[l2], owner, l2);
    }
    RemovedIsRemoveAt(Values(ch[l], es), i, Values(c', es'));
  }

  // ---- Searching ----

  /** Where a search for x starting at position k stops: at the first element that is neither
      passed over as smaller nor, in an unsorted list, as merely different. */
  function Scan(compare: (int, int) -> int, order: Order, v: seq<int>, x: int, k: nat): (p: nat)
    requires k <= |v|
    ensures k <= p <= |v|
    decreases |v| - k
  {
    if k == |v| then k
    else
      var sign := compare(v[k], x);
      if sign < 0 || (sign > 0 && order.Unsorted?) then Scan(compare, order, v, x, k + 1) else k
  }

  predicate Found(compare: (int, int) -> int, v: seq<int>, x: int, p: nat) {
    p < |v| && compare(v[p], x) == 0
  }

  /** p is the position of the first x in v, or |v| when there is none. */
  ghost predicate FirstAt(v: seq<int>, x: int, p: nat) {
    && p <= |v|
    && (forall k | 0 <= k < p :: v[k] != x)
    && (p < |v| ==> v[p] == x)
  }

  /** On an unsorted list the search stops at the first occurrence, whatever sign the
      comparator gives to different elements. */
  lemma {:induction false} ScanFindsFirst(compare: (int, int) -> int, v: seq<int>, x: int, k: nat)
    requires TellsApart(compare) && k <= |v| && forall j | 0 <= j < k :: v[j] != x
    ensures FirstAt(v, x, Scan(compare, Unsorted, v, x, k))
    ensures Found(compare, v, x, Scan(compare, Unsorted, v, x, k)) <==> x in v
    decreases |v| - k
  {
    if k < |v| {
      if compare(v[k], x) != 0 {
        assert v[k] != x;
        ScanFindsFirst(compare, v, x, k + 1);
      }
    }
  }

  /** v without its first x. */
  function RemoveFirst(v: seq<int>, x: int): seq<int> {
    if v == [] then [] else if v[0] == x then v[1..] else [v[0]] + RemoveFirst(v[1..], x)
  }

  lemma RemoveAtTail(v: seq<int>, p: nat)
    requires p < |v|
    ensures RemoveAt(v, p) == if p == 0 then v[1..] else [v[0]] + RemoveAt(v[1..], p - 1)
  {
    if p > 0 { assert v[..p] == [v[0]] + v[1..][..p - 1] && v[1..][p..] == v[p + 1..]; }
  }

  lemma {:induction false} RemoveFirstIsRemoveAt(v: seq<int>, x: int, p: nat)
    requires FirstAt(v, x, p)
    ensures RemoveFirst(v, x) == if p < |v| then RemoveAt(v, p) else v
  {
    hide RemoveAt;
    if p < |v| { RemoveAtTail(v, p); }
    if v != [] && p > 0 {
      assert v[0] != x && v == [v[0]] + v[1..];
      assert FirstAt(v[1..], x, p - 1);
      RemoveFirstIsRemoveAt(v[1..], x, p - 1);
    }
  }

  // ---- How full the pool is ----

  /** How many elements the first n lists hold together. */
  ghost function Total(v: seq<seq<int>>, n: nat): nat
    requires n <= |v|
  {
    if n == 0 then 0 else Total(v, n - 1) + |v[n - 1]|
  }

  ghost function SetOf(c: seq<int>): set<int> { set x | x in c }

  ghost function NodesOf(ch: seq<seq<int>>, n: nat): set<int>
    requires n <= |ch|
  {
    if n == 0 then {} else NodesOf(ch, n - 1) + SetOf(ch[n - 1])
  }

  ghost function BusySet(ns: seq<Node>): set<int> { set i | 0 <= i < |ns| && ns[i].busy }

  lemma {:induction false} DistinctSize(c: seq<int>)
    requires Distinct(c)
    ensures |SetOf(c)| == |c|
  {
    if c == [] {
      assert SetOf(c) == {};
    } else {
      var last := c[|c| - 1];
      DistinctSize(c[..|c| - 1]);
      assert SetOf(c) == SetOf(c[..|c| - 1]) + {last};
    }
  }

  ghost predicate Disjoint(ch: seq<seq<int>>, owner: seq<int>) {
    forall l | 0 <= l < |ch| :: OwnedBy(ch[l], owner, l) && Distinct(ch[l])
  }

  lemma {:induction false} NodesOfMembers(ch: seq<seq<int>>, owner: seq<int>, n: nat)
    requires Disjoint(ch, owner) && n <= |ch|
    ensures forall x | x in NodesOf(ch, n) :: 0 <= x < |owner| && 0 <= owner[x] < n && x in ch[owner[x]]
    ensures forall l, x | 0 <= l < n && x in ch[l] :: x in NodesOf(ch, n)
  {
    if n > 0 {
      NodesOfMembers(ch, owner, n - 1);
      assert OwnedBy(ch[n - 1], owner, n - 1);
    }
  }

  lemma {:induction false} NodesOfSize(ch: seq<seq<int>>, owner: seq<int>, v: seq<seq<int>>, n: nat)
    requires Disjoint(ch, owner) && n <= |ch| == |v| && forall l | 0 <= l < |v| :: |v[l]| == |ch[l]|
    ensures |NodesOf(ch, n)| == Total(v, n)
  {
    if n > 0 {
      NodesOfSize(ch, owner, v, n - 1);
      NodesApart(ch, owner, n - 1);
      DistinctSize(ch[n - 1]);
      hide Disjoint, SetOf;
      var a, b := NodesOf(ch, n - 1), SetOf(ch[n - 1]);
      assert |a + b| == |a| + |b|;
    }
  }

  lemma NodesApart(ch: seq<seq<int>>, owner: seq<int>, n: nat)
    requires Disjoint(ch, owner) && n < |ch|
    ensures NodesOf(ch, n) !! SetOf(ch[n])
  {
    NodesOfMembers(ch, owner, n);
    assert OwnedBy(ch[n], owner, n);
    hide NodesOf;
    forall x | x in ch[n] ensures x !in NodesOf(ch, n) {
      var k :| 0 <= k < |ch[n]| && ch[n][k] == x;
    }
  }

  /** Marking the slot of an empty list free keeps the invariant. */
  lemma FreedKeepsInv(es: seq<Element>, ns: seq<Node>, ls: seq<List>, ch: seq<seq<int>>, owner: seq<int>, l: nat)
    requires PoolInv(es, ns, ls, ch, owner) && l < MAX_LISTS && ch[l] == []
    ensures PoolInv(es, ns, ls[l := ls[l].(busy := false)], ch, owner)
  {
    hide NodesOk, ChainsOk;
    var ls' := ls[l := ls[l].(busy := false)];
    forall k | 0 <= k < MAX_LISTS ensures ListOk(ls'[k], ch[k]) { assert ListOk(ls[k], ch[k]); }
  }

  ghost function Range(n: nat): (r: set<int>)
    ensures forall x :: x in r <==> 0 <= x < n
    ensures |r| == n
  {
    if n == 0 then {} else Range(n - 1) + {n - 1}
  }

  lemma SubsetSize(a: set<int>, b: set<int>)
    requires a <= b
    ensures |a| <= |b|
    ensures |a| == |b| ==> a == b
  {
    assert b == a + (b - a);
    assert |b| == |a| + |b - a|;
  }

  /** The busy nodes are the nodes of the chains. */
  lemma BusyIsReachable(ns: seq<Node>, es: seq<Element>, ch: seq<seq<int>>, owner: seq<int>)
    requires NodesOk(es, ns, ch, owner) && ChainsOk(ns, ch, owner)
    ensures Disjoint(ch, owner)
    ensures BusySet(ns) == NodesOf(ch, |ch|)
  {
    forall l | 0 <= l < |ch| ensures OwnedBy(ch[l], owner, l) && Distinct(ch[l]) {
      assert ChainOk(ns, ch[l], owner, l);
    }
    NodesOfMembers(ch, owner, |ch|);
    forall i | i in BusySet(ns) ensures i in NodesOf(ch, |ch|) {
      assert NodeOk(es[i], ns[i], ch, owner[i], i);
    }
    forall i | i in NodesOf(ch, |ch|) ensures i in BusySet(ns) {
      assert ChainOk(ns, ch[owner[i]], owner, owner[i]);
    }
  }

  /** Node n is on one of the chains. */
  ghost predicate Chained(ch: seq<seq<int>>, n: int) {
    exists l :: 0 <= l < |ch| && n in ch[l]
  }

  lemma BusyIffChained(ns: seq<Node>, es: seq<Element>, ch: seq<seq<int>>, owner: seq<int>, n: nat)
    requires NodesOk(es, ns, ch, owner) && ChainsOk(ns, ch, owner) && n < |ns|
    ensures ns[n].busy == es[n].busy == Chained(ch, n)
  {
    assert NodeOk(es[n], ns[n], ch, owner[n], n);
    if Chained(ch, n) {
      var l :| 0 <= l < |ch| && n in ch[l];
      assert ChainOk(ns, ch[l], owner, l);
    }
  }

  lemma AllBusyIffFull(ns: seq<Node>)
    ensures |BusySet(ns)| <= |ns|
    ensures (exists i :: 0 <= i < |ns| && !ns[i].busy) <==> |BusySet(ns)| < |ns|
  {
    SubsetSize(BusySet(ns), Range(|ns|));
    if i :| 0 <= i < |ns| && !ns[i].busy {
      assert i in Range(|ns|) && i !in BusySet(ns);
    } else {
      assert BusySet(ns) == Range(|ns|);
    }
  }

  /** A first-fit search finds a free node precisely when the lists together hold fewer than
      MAX_NODES elements. */
  lemma RoomIffNotFull(es: seq<Element>, ns: seq<Node>, ls: seq<List>, ch: seq<seq<int>>, owner: seq<int>)
    requires PoolInv(es, ns, ls, ch, owner)
    ensures AllInRange(ch, |es|)
    ensures Total(AllValues(ch, es), MAX_LISTS) <= MAX_NODES
    ensures (exists i :: 0 <= i < MAX_NODES && !ns[i].busy) <==> Total(AllValues(ch, es), MAX_LISTS) < MAX_NODES
  {
    BusyIsReachable(ns, es, ch, owner);
    NodesOfSize(ch, owner, AllValues(ch, es), MAX_LISTS);
    AllBusyIffFull(ns);
  }
}

/** The list operations over the shared pools. A list is named by its slot number. */
module ListPool {
  import opened PoolModel

  datatype ListResult = NoErr | NoMem | End | NoElem | ElemExists

  class ListPool {
    const elements: array<Element>
    const nodes: array<Node>
    const lists: array<List>
    ghost var chains: seq<seq<int>>
    ghost var owner: seq<int>

    ghost function Repr(): set<object> {
      {this, elements, nodes, lists}
    }

    ghost predicate Valid()
      reads Repr()
    {
      && elements as object != nodes && elements as object != lists && nodes as object != lists
      && PoolInv(elements[..], nodes[..], lists[..], chains, owner)
    }

    /** The elements of every list, in list order. */
    ghost function Contents(): (v: seq<seq<int>>)
      requires Valid()
      reads Repr()
      ensures |v| == MAX_LISTS && forall l | 0 <= l < MAX_LISTS :: |v[l]| == |chains[l]|
    {
      RangesOk(elements[..], nodes[..], chains, owner);
      AllValues(chains, elements[..])
    }

    /** The cursor of list l stands before position c. */
    ghost predicate CursorAt(l: nat, c: nat)
      requires Valid() && l < MAX_LISTS
      reads Repr()
    {
      Stands(lists[l].current, chains[l], c)
    }

    constructor ()
      ensures Valid() && fresh(Repr())
      ensures lists.Length == MAX_LISTS && forall l | 0 <= l < MAX_LISTS :: !lists[l].busy && Contents()[l] == []
    {
      elements := new Element[MAX_NODES](_ => Element(0, false));
      nodes := new Node[MAX_NODES](_ => Node(NULL, NULL, false));
      lists := new List[MAX_LISTS](_ => List(NULL, (a, b) => a - b, NULL, Unsorted, false));
      chains := seq(MAX_LISTS, _ => []);
      owner := seq(MAX_NODES, _ => NULL);
    }

    /** Takes the first free list slot; NULL when all are taken. */
    method NewList(compare: (int, int) -> int, order: Order) returns (l: int)
      requires Valid() && TellsApart(compare)
      modifies Repr()
      ensures Valid() && Contents() == old(Contents())
      ensures l == NULL ==> forall k | 0 <= k < MAX_LISTS :: old(lists[k].busy)
      ensures l != NULL ==> 0 <= l < MAX_LISTS && old(!lists[l].busy) && forall k | 0 <= k < l :: old(lists[k].busy)
      ensures forall k | 0 <= k < MAX_LISTS ::
                lists[k] == if k == l then List(NULL, compare, NULL, order, true) else old(lists[k])
      ensures chains == old(chains)
    {
      l := NULL;
      for i := 0 to MAX_LISTS
        invariant l == NULL && lists[..] == old(lists[..])
        invariant forall k | 0 <= k < i :: lists[k].busy
      {
        if !lists[i].busy {
          l := i;
          lists[i] := lists[i].(busy := true);
          break;
        }
      }
      if l == NULL { return; }
      lists[l] := List(NULL, compare, NULL, order, true);
    }

    method ListIsEmpty(l: nat) returns (empty: bool)
      requires Valid() && l < MAX_LISTS
      ensures empty <==> Contents()[l] == []
    {
      empty := lists[l].nodes == NULL;
    }

    method ListToBegin(l: nat)
      requires Valid() && l < MAX_LISTS
      modifies lists
      ensures Valid() && Contents() == old(Contents())
      ensures CursorAt(l, 0)
      ensures forall k | 0 <= k < MAX_LISTS ::
                lists[k] == if k == l then old(lists[l]).(current := old(lists[l].nodes)) else old(lists[k])
    {
      lists[l] := lists[l].(current := lists[l].nodes);
    }

    /** The element under the cursor, which moves on; LIST_END past the last one. */
    method ListGetElement(l: nat, ghost c: nat, element: int) returns (r: ListResult, copy: int)
      requires Valid() && l < MAX_LISTS && CursorAt(l, c)
      modifies lists
      ensures Valid() && Contents() == old(Contents())
      ensures if c == |Contents()[l]| then r == End && copy == element && CursorAt(l, c)
              else r == NoErr && copy == Contents()[l][c] && CursorAt(l, c + 1)
      ensures forall k | 0 <= k < MAX_LISTS && k != l :: lists[k] == old(lists[k])
      ensures lists[l] == old(lists[l]).(current := lists[l].current)
    {
      assert ChainOk(nodes[..], chains[l], owner, l);
      if lists[l].current == NULL { return End, element; }
      assert LinkOk(nodes[..], chains[l], c);
      assert NodeOk(elements[..][chains[l][c]], nodes[..][chains[l][c]], chains, owner[chains[l][c]], chains[l][c]);
      r, copy := NoErr, elements[nodes[lists[l].current].element].element;
      lists[l] := lists[l].(current := nodes[lists[l].current].tail);
    }

    /** The documented way to read a list: rewind, then get elements until LIST_END. */
    method ReadAll(l: nat) returns (v: seq<int>)
      requires Valid() && l < MAX_LISTS
      modifies lists
      ensures Valid() && Contents() == old(Contents()) && v == Contents()[l]
    {
      hide PoolInv;
      ListToBegin(l);
      v := [];
      var r, x := ListGetElement(l, 0, 0);
      while r == NoErr
        invariant Valid() && Contents() == old(Contents()) && |v| <= |Contents()[l]| && v == Contents()[l][..|v|]
        invariant r == NoErr ==> |v| < |Contents()[l]| && x == Contents()[l][|v|] && CursorAt(l, |v| + 1)
        invariant r != NoErr ==> |v| == |Contents()[l]|
        decreases |Contents()[l]| - |v|, r == NoErr
      {
        v := v + [x];
        r, x := ListGetElement(l, |v|, x);
      }
    }

    /** Walks the chain from its k-th node and stops where `Scan` does; `result` is then the node
        before that place, NULL for the head. */
    method ListFindNode(l: nat, chain: int, element: int, result: int, ghost k: nat) returns (found: bool, before: int)
      requires Valid() && l < MAX_LISTS && (lists[l].busy || chains[l] == [])
      requires k <= |chains[l]| && chain == NodeAt(chains[l], k) && result == Before(chains[l], k)
      ensures var p := Scan(lists[l].compare, lists[l].order, Contents()[l], element, k);
              && before == Before(chains[l], p)
              && found == Found(lists[l].compare, Contents()[l], element, p)
      decreases |chains[l]| - k
    {
      assert ChainOk(nodes[..], chains[l], owner, l);
      if chain == NULL { return false, result; }
      assert LinkOk(nodes[..], chains[l], k);
      assert NodeOk(elements[..][chain], nodes[..][chain], chains, owner[chain], chain);
      var sign := lists[l].compare(elements[nodes[chain].element].element, element);
      if sign < 0 || (sign > 0 && lists[l].order.Unsorted?) {
        found, before := ListFindNode(l, nodes[chain].tail, element, chain, k + 1);
      } else {
        found, before := sign == 0, result;
      }
    }

    method ListElementBelongs(l: nat, element: int) returns (belongs: bool)
      requires Valid() && l < MAX_LISTS && (lists[l].busy || chains[l] == [])
      ensures belongs == Found(lists[l].compare, Contents()[l], element,
              Scan(lists[l].compare, lists[l].order, Contents()[l], element, 0))
      ensures lists[l].order.Unsorted? ==> (belongs <==> element in Contents()[l])
    {
      var before: int;
      belongs, before := ListFindNode(l, lists[l].nodes, element, NULL, 0);
      if lists[l].order.Unsorted? && lists[l].busy {
        ScanFindsFirst(lists[l].compare, Contents()[l], element, 0);
      }
    }

    method FreeNode(n: int)
      modifies nodes
      ensures nodes[..] == if 0 <= n < nodes.Length then old(nodes[..])[n := old(nodes[n]).(busy := false)]
              else old(nodes[..])
    {
      for i := 0 to nodes.Length
        invariant forall j | 0 <= j < i :: nodes[j] == if j == n then old(nodes[j]).(busy := false) else old(nodes[j])
        invariant forall j | i <= j < nodes.Length :: nodes[j] == old(nodes[j])
      {
        if i == n { nodes[i] := nodes[i].(busy := false); }
      }
    }

    method FreeElement(e: int)
      modifies elements
      ensures elements[..] == if 0 <= e < elements.Length then old(elements[..])[e := old(elements[e]).(busy := false)]
              else old(elements[..])
    {
      for i := 0 to elements.Length
        invariant forall j | 0 <= j < i ::
                  elements[j] == if j == e then old(elements[j]).(busy := false) else old(elements[j])
        invariant forall j | i <= j < elements.Length :: elements[j] == old(elements[j])
      {
        if i == e { elements[i] := elements[i].(busy := false); }
      }
    }

    method FreeListSlot(l: int)
      modifies lists
      ensures forall i | 0 <= i < lists.Length ::
                lists[i] == if i == l then old(lists[i]).(busy := false) else old(lists[i])
    {
      for i := 0 to lists.Length
        invariant forall j | 0 <= j < i :: lists[j] == if j == l then old(lists[j]).(busy := false) else old(lists[j])
        invariant forall j | i <= j < lists.Length :: lists[j] == old(lists[j])
      {
        if i == l { lists[i] := lists[i].(busy := false); }
      }
    }

    /** Takes the first free node slot; NULL when every slot is busy. */
    method TakeNode() returns (n: int)
      modifies nodes
      ensures n == NULL ==> nodes[..] == old(nodes[..]) && forall k | 0 <= k < nodes.Length :: old(nodes[k].busy)
      ensures n != NULL
              ==> 0 <= n < nodes.Length && old(!nodes[n].busy) && (forall k | 0 <= k < n :: old(nodes[k].busy))
                            && nodes[..] == old(nodes[..])[n := old(nodes[n]).(busy := true)]
    {
      for i := 0 to nodes.Length
        invariant nodes[..] == old(nodes[..])
        invariant forall k | 0 <= k < i :: old(nodes[k].busy)
      {
        if !nodes[i].busy {
          nodes[i] := nodes[i].(busy := true);
          return i;
        }
      }
      n := NULL;
    }

    /** Takes the first free element slot; NULL when every slot is busy. */
    method TakeElement() returns (e: int)
      modifies elements
      ensures e == NULL
              ==> elements[..] == old(elements[..]) && forall k | 0 <= k < elements.Length :: old(elements[k].busy)
      ensures e != NULL
              ==> 0 <= e < elements.Length && old(!elements[e].busy) && (forall k | 0 <= k < e :: old(elements[k].busy))
                            && elements[..] == old(elements[..])[e := old(elements[e]).(busy := true)]
    {
      for i := 0 to elements.Length
        invariant elements[..] == old(elements[..])
        invariant forall k | 0 <= k < i :: old(elements[k].busy)
      {
        if !elements[i].busy {
          elements[i] := elements[i].(busy := true);
          return i;
        }
      }
      e := NULL;
    }

    /** Takes a node and an element for x and links them after `before`. */
    method LinkNew(l: nat, x: int, before: int, ghost p: nat) returns (r: ListResult)
      requires Valid() && l < MAX_LISTS && lists[l].busy
      requires p <= |chains[l]| && before == Before(chains[l], p)
      modifies Repr()
      ensures Valid()
      ensures r == if Total(old(Contents()), MAX_LISTS) >= MAX_NODES then NoMem else NoErr
      ensures Contents() == if r == NoErr then old(Contents())[l := InsertAt(old(Contents()[l]), p, x)]
              else old(Contents())
      ensures r != NoErr ==> chains == old(chains)
      ensures r == NoErr ==> Moved(lists[l].current, old(chains[l]), p, chains[l])
      ensures forall k | 0 <= k < MAX_LISTS && k != l :: lists[k] == old(lists[k]) && chains[k] == old(chains[k])
      ensures lists[l] == old(lists[l]).(nodes := lists[l].nodes)
    {
      ghost var es, ns := elements[..], nodes[..];
      LengthsAre();
      RoomIffNotFull(es, ns, lists[..], chains, owner);
      RangesOk(es, ns, chains, owner);
      hide PoolInv, NodesOk, AllValues, Total, InsertAt, Moved;
      var n := TakeNode();
      if n == NULL {
        assert nodes[..] == ns;
        return NoMem;
      }
      var e := TakeElement();
      FirstFreeAgree(es, ns, chains, owner, n, e);
      CursorAfterInsert(lists[l].current, chains[l], p, n);
      Splice(l, x, n, before, p, es, ns);
      r := NoErr;
    }

    /** Fills node n, taken with the element of the same number, and puts it in at position p. */
    method Splice(l: nat, x: int, n: nat, before: int, ghost p: nat, ghost es: seq<Element>, ghost ns: seq<Node>)
      requires elements as object != nodes && elements as object != lists && nodes as object != lists
      requires PoolInv(es, ns, lists[..], chains, owner) && AllInRange(chains, |es|)
      requires l < MAX_LISTS && lists[l].busy && p <= |chains[l]| && before == Before(chains[l], p)
      requires n < MAX_NODES && !ns[n].busy && nodes[..] == ns[n := ns[n].(busy := true)]
               && elements[..] == es[n := es[n].(busy := true)]
      modifies Repr()
      ensures Valid() && chains == old(chains)[l := InsertAt(old(chains[l]), p, n)]
      ensures Contents() == AllValues(old(chains), es)[l := InsertAt(AllValues(old(chains), es)[l], p, x)]
      ensures forall k | 0 <= k < MAX_LISTS && k != l :: lists[k] == old(lists[k])
      ensures lists[l] == old(lists[l]).(nodes := lists[l].nodes)
    {
      ghost var ls, ch, own := lists[..], chains, owner;
      assert nodes.Length == elements.Length == |ns| == MAX_NODES && lists.Length == |ch| == MAX_LISTS;
      assert ChainOk(ns, ch[l], own, l) && ListOk(ls[l], ch[l]) && Fresh(ns, n);
      if p > 0 { assert LinkOk(ns, ch[l], p - 1) && own[ch[l][p - 1]] == l; }
      assert NodeOk(es[n], ns[n], ch, own[n], n);
      InsertAtInserts(ch[l], p, n);
      hide PoolInv, NodesOk, ChainsOk, NodeOk, InsertAt, AllValues;
      nodes[n] := Node(n, if before == NULL then lists[l].nodes else nodes[before].tail, true);
      elements[n] := elements[n].(element := x);
      if before == NULL { lists[l] := lists[l].(nodes := n); } else { nodes[before] := nodes[before].(tail := n); }
      chains, owner := ch[l := InsertAt(ch[l], p, n)], own[n := l];
      assert elements[..] == es[n := Element(x, true)];
      assert lists[..] == if p == 0 then ls[l := ls[l].(nodes := n)] else ls;
      assert Linked(ns, ch[l], p, n, nodes[..]);
      LinkKeepsInv(es, ns, ls, ch, own, l, p, n, x, nodes[..], lists[..], chains[l]);
    }

    /** Inserts at the place the search stopped at (sorted) or at the head (unsorted). */
    method ListInsert(l: nat, element: int) returns (r: ListResult)
      requires Valid() && l < MAX_LISTS && lists[l].busy
      modifies Repr()
      ensures Valid()
      ensures var v, order, compare := old(Contents())[l], old(lists[l].order), old(lists[l].compare);
              var p := if order.Sorted? then Scan(compare, order, v, element, 0) else 0;
              && r == (if order.Sorted? && Found(compare, v, element, p) then ElemExists
                       else if Total(old(Contents()), MAX_LISTS) >= MAX_NODES then NoMem else NoErr)
              && Contents() == (if r == NoErr then old(Contents())[l := InsertAt(v, p, element)] else old(Contents()))
              && (forall c: nat ::
                   Stands(old(lists[l].current), old(chains[l]), c)
                   ==> CursorAt(l, if r == NoErr && p <= c then c + 1 else c))
      ensures forall k | 0 <= k < MAX_LISTS && k != l :: lists[k] == old(lists[k]) && chains[k] == old(chains[k])
      ensures lists[l].order.Unsorted? ==> chains[l] == old(chains[l]) || Longer(old(chains[l]), chains[l])
      ensures lists[l] == old(lists[l]).(nodes := lists[l].nodes)
    {
      LengthsAre();
      hide PoolInv, Total, InsertAt, AllValues, Stands, Longer, Scan, Found;
      ghost var p := if lists[l].order.Sorted? then Scan(lists[l].compare, lists[l].order, Contents()[l], element, 0)
          else 0;
      var before := NULL;
      if lists[l].order.Sorted? {
        var found: bool;
        found, before := ListFindNode(l, lists[l].nodes, element, NULL, 0);
        if found { return ElemExists; }
      }
      r := LinkNew(l, element, before, p);
    }

    /** Splices out the node at position p of list l and frees its element and then the node. */
    method Unlink(l: nat, before: int, ghost p: nat)
      requires Valid() && l < MAX_LISTS
      requires p < |chains[l]| && before == Before(chains[l], p)
      modifies Repr()
      ensures Valid()
      ensures Contents() == old(Contents())[l := RemoveAt(old(Contents()[l]), p)]
      ensures chains == old(chains)[l := RemoveAt(old(chains[l]), p)]
      ensures Fresh(nodes[..], old(chains[l][p]))
      ensures forall k | 0 <= k < MAX_LISTS && k != l :: lists[k] == old(lists[k])
      ensures lists[l] == old(lists[l]).(nodes := lists[l].nodes)
    {
      ghost var es, ns, ls := elements[..], nodes[..], lists[..];
      ghost var ch, own := chains, owner;
      LengthsOf(es, ns, ls, ch, own);
      hide PoolInv, RemoveAt, AllValues, Linked;
      var node := SpliceOut(l, before, p);
      ghost var ns1 := nodes[..];
      hide LinkOk;
      FreeElement(nodes[node].element);
      FreeNode(node);
      chains, owner := ch[l := RemoveAt(ch[l], p)], own[node := NULL];
      RemoveAtRemoves(ch[l], p);
      UnlinkedNodes(ns, ch[l], p, ns1);
      hide Unlinked, Removed;
      UnlinkKeepsInv(es, ns, ls, ch, own, l, p, nodes[..], lists[..], chains[l]);
    }

    /** Lets the pointer to the node at position p of list l skip it. */
    method SpliceOut(l: nat, before: int, ghost p: nat) returns (node: int)
      requires Valid() && l < MAX_LISTS
      requires p < |chains[l]| && before == Before(chains[l], p)
      modifies nodes, lists
      ensures node == chains[l][p] && 0 <= node < nodes.Length && nodes[node] == old(nodes[node])
              && nodes[node].element == node
      ensures InRange(chains[l], nodes.Length) && (p > 0 ==> chains[l][p - 1] != node)
      ensures nodes[..] == if p == 0 then old(nodes[..])
              else old(nodes[..])[before := old(nodes[before]).(tail := old(nodes[node].tail))]
      ensures forall k | 0 <= k < MAX_LISTS && k != l :: lists[k] == old(lists[k])
      ensures lists[l] == if p == 0 then old(lists[l]).(nodes := old(nodes[node].tail)) else old(lists[l])
    {
      ghost var c, x := chains[l], chains[l][p];
      assert ChainOk(nodes[..], c, owner, l) && ListOk(lists[..][l], c) && LinkOk(nodes[..], c, p);
      if p > 0 { assert LinkOk(nodes[..], c, p - 1); }
      assert NodeOk(elements[..][x], nodes[..][x], chains, owner[x], x);
      if before == NULL {
        node := lists[l].nodes;
        lists[l] := lists[l].(nodes := nodes[node].tail);
      } else {
        node := nodes[before].tail;
        nodes[before] := nodes[before].(tail := nodes[node].tail);
      }
    }

    /** The part of ListDelete after a successful search. A cursor on the deleted node moves to
        the next one; any other cursor stays on its node. */
    method DeleteAfter(l: nat, before: int, ghost p: nat)
      requires Valid() && l < MAX_LISTS
      requires p < |chains[l]| && before == Before(chains[l], p)
      modifies Repr()
      ensures Valid()
      ensures Contents() == old(Contents())[l := RemoveAt(old(Contents()[l]), p)]
      ensures chains == old(chains)[l := RemoveAt(old(chains[l]), p)]
      ensures Shifted(old(lists[l].current), old(chains[l]), p, lists[l].current, chains[l])
      ensures forall k | 0 <= k < MAX_LISTS && k != l :: lists[k] == old(lists[k])
      ensures lists[l] == old(lists[l]).(nodes := lists[l].nodes, current := lists[l].current)
    {
      ghost var c0 := chains[l];
      assert ChainOk(nodes[..], c0, owner, l) && LinkOk(nodes[..], c0, p);
      if p > 0 { assert LinkOk(nodes[..], c0, p - 1); }
      var node := if before == NULL then lists[l].nodes else nodes[before].tail;
      CursorAfterRemove(lists[l].current, c0, p, nodes[node].tail);
      if lists[l].current == node { lists[l] := lists[l].(current := nodes[node].tail); }
      Unlink(l, before, p);
    }

    method ListDelete(l: nat, element: int) returns (r: ListResult)
      requires Valid() && l < MAX_LISTS && lists[l].busy
      modifies Repr()
      ensures Valid()
      ensures var v := old(Contents())[l];
              var p := Scan(old(lists[l].compare), old(lists[l].order), v, element, 0);
              if Found(old(lists[l].compare), v, element, p) then
                && r == NoErr && Contents() == old(Contents())[l := RemoveAt(v, p)]
                && chains == old(chains)[l := RemoveAt(old(chains[l]), p)]
                && Shifted(old(lists[l].current), old(chains[l]), p, lists[l].current, chains[l])
              else
                r == NoElem && Contents() == old(Contents()) && chains == old(chains) && lists[..] == old(lists[..])
      ensures lists[l].order.Unsorted? ==>
                && Contents() == old(Contents())[l := RemoveFirst(old(Contents())[l], element)]
                && (r == NoErr <==> element in old(Contents())[l])
                && Popped(old(Contents())[l], element, old(chains[l]), chains[l])
      ensures forall k | 0 <= k < MAX_LISTS && k != l :: lists[k] == old(lists[k]) && chains[k] == old(chains[k])
      ensures lists[l] == old(lists[l]).(nodes := lists[l].nodes, current := lists[l].current)
    {
      LengthsAre();
      assert ListOk(lists[..][l], chains[l]);
      hide PoolInv, AllValues, RemoveAt, RemoveFirst, Popped, Shifted, Scan, FirstAt;
      ghost var was, compare := Contents(), lists[l].compare;
      ghost var p := Scan(compare, lists[l].order, was[l], element, 0);
      var found, before := ListFindNode(l, lists[l].nodes, element, NULL, 0);
      r := NoElem;
      if found {
        DeleteAfter(l, before, p);
        r := NoErr;
      }
      if lists[l].order.Unsorted? { UnsortedDelete(compare, was, Contents(), old(chains), chains, l, element); }
    }

    /** Unlinks the head. Rewinding first leaves the cursor on the node that is then freed. */
    method ListRemoveFirst(l: nat) returns (r: ListResult)
      requires Valid() && l < MAX_LISTS
      modifies Repr()
      ensures Valid()
      ensures if old(Contents())[l] == [] then r == End && Contents() == old(Contents())
              else && r == NoErr && Contents() == old(Contents())[l := old(Contents())[l][1..]]
                   && lists[l].current == old(lists[l].nodes) && Fresh(nodes[..], lists[l].current)
      ensures forall k | 0 <= k < MAX_LISTS && k != l :: lists[k] == old(lists[k])
      ensures lists[l] == old(lists[l]).(nodes := lists[l].nodes, current := lists[l].current)
    {
      if lists[l].nodes == NULL { return End; }
      assert ListOk(lists[..][l], chains[l]);
      ListToBegin(l);
      Unlink(l, NULL, 0);
      assert RemoveAt(old(Contents())[l], 0) == old(Contents())[l][1..];
      r := NoErr;
    }

    /** Frees every node of the list and then its slot. */
    method FreeList(l: nat)
      requires Valid() && l < MAX_LISTS
      modifies Repr()
      ensures Valid()
      ensures Contents() == old(Contents())[l := []]
      ensures forall k | 0 <= k < MAX_LISTS && k != l :: lists[k] == old(lists[k])
      ensures lists[l] == old(lists[l]).(nodes := NULL, busy := false)
    {
      EmptyList(l);
      FreedKeepsInv(elements[..], nodes[..], lists[..], chains, owner, l);
      hide PoolInv;
      ghost var ls := lists[..];
      FreeListSlot(l);
      assert lists[..] == ls[l := ls[l].(busy := false)];
    }

    lemma HeadIs(l: nat)
      requires Valid() && l < MAX_LISTS
      ensures l < lists.Length == |chains|
      ensures lists[l].nodes == NULL <==> chains[l] == []
      ensures lists[l].nodes != NULL ==> |chains[l]| > 0 && Before(chains[l], 0) == NULL
    {
      assert ListOk(lists[..][l], chains[l]) && ChainOk(nodes[..], chains[l], owner, l);
    }

    /** Unlinks the head until none is left. */
    method EmptyList(l: nat)
      requires Valid() && l < MAX_LISTS
      modifies Repr()
      ensures Valid() && chains[l] == [] && lists[l].nodes == NULL
      ensures Contents() == old(Contents())[l := []]
      ensures forall k | 0 <= k < MAX_LISTS && k != l :: lists[k] == old(lists[k])
      ensures lists[l] == old(lists[l]).(nodes := NULL)
    {
      HeadIs(l);
      LengthsAre();
      hide PoolInv;
      while lists[l].nodes != NULL
        invariant Valid() && lists.Length == |chains| == MAX_LISTS
        invariant Contents() == old(Contents())[l := Contents()[l]]
        invariant forall k | 0 <= k < MAX_LISTS && k != l :: lists[k] == old(lists[k])
        invariant lists[l] == old(lists[l]).(nodes := lists[l].nodes)
        decreases |chains[l]|
      {
        HeadIs(l);
        Unlink(l, NULL, 0);
        LengthsAre();
      }
      HeadIs(l);
    }

    /** The busy flags of nodes and elements say which nodes the chains hold, and nothing else. */
    lemma BusyIsChained()
      requires Valid()
      ensures nodes.Length == elements.Length == MAX_NODES
      ensures forall n | 0 <= n < MAX_NODES :: nodes[n].busy == elements[n].busy == Chained(chains, n)
    {
      forall n: nat | n < MAX_NODES ensures nodes[n].busy == elements[n].busy == Chained(chains, n) {
        BusyIffChained(nodes[..], elements[..], chains, owner, n);
      }
    }

    lemma LengthsAre()
      requires Valid()
      ensures lists.Length == |chains| == MAX_LISTS
    {}
  }

  /** On an unsorted list the search stops at the first occurrence, so what goes is that one and its node. */
  lemma UnsortedDelete(compare: (int, int) -> int, v: seq<seq<int>>, v': seq<seq<int>>, ch: seq<seq<int>>,
      ch': seq<seq<int>>, l: nat, x: int)
    requires TellsApart(compare) && l < |v| == |ch| && |v[l]| == |ch[l]|
    requires var p := Scan(compare, Unsorted, v[l], x, 0);
             if Found(compare, v[l], x, p) then v' == v[l := RemoveAt(v[l], p)] && ch' == ch[l := RemoveAt(ch[l], p)]
             else v' == v && ch' == ch
    ensures Found(compare, v[l], x, Scan(compare, Unsorted, v[l], x, 0)) <==> x in v[l]
    ensures v' == v[l := RemoveFirst(v[l], x)] && Popped(v[l], x, ch[l], ch'[l])
  {
    var p := Scan(compare, Unsorted, v[l], x, 0);
    ScanFindsFirst(compare, v[l], x, 0);
    RemoveFirstIsRemoveAt(v[l], x, p);
    hide RemoveFirst, Scan;
    if v[l] != [] && v[l][0] == x { assert RemoveAt(ch[l], 0) == ch[l][1..]; }
  }

  /** Position p of chain c is gone: a cursor beyond it stands one position earlier, any other where it stood. */
  ghost predicate Shifted(node: int, c: seq<int>, p: nat, node': int, c': seq<int>) {
    forall k: nat :: Stands(node, c, k) ==> Stands(node', c', if p < k then k - 1 else k)
  }

  lemma CursorAfterRemove(node: int, c: seq<int>, p: nat, next: int)
    requires p < |c| && Distinct(c) && NULL !in c && next == NodeAt(c, p + 1)
    ensures Shifted(node, c, p, if node == c[p] then next else node, RemoveAt(c, p))
  {}

  /** A node has come in at position p of chain c: the cursor stands where it stood, and a new head is before
      all of c. */
  ghost predicate Moved(node: int, c: seq<int>, p: nat, c': seq<int>) {
    && (forall k: nat :: Stands(node, c, k) ==> Stands(node, c', if p <= k then k + 1 else k))
    && (p == 0 ==> Longer(c, c'))
  }

  lemma CursorAfterInsert(node: int, c: seq<int>, p: nat, n: int)
    requires p <= |c|
    ensures Moved(node, c, p, InsertAt(c, p, n))
  {
    if p == 0 { assert InsertAt(c, 0, n) == [n] + c; }
  }

  ghost predicate Fresh(ns: seq<Node>, n: int) {
    0 <= n < |ns| && !ns[n].busy
  }

  /** The two first-fit searches run in lockstep: once the node search found slot n, the element
      search finds slot n as well, so its failure branch is dead. */
  lemma FirstFreeAgree(es: seq<Element>, ns: seq<Node>, ch: seq<seq<int>>, owner: seq<int>, n: int, e: int)
    requires NodesOk(es, ns, ch, owner) && Fresh(ns, n) && forall k | 0 <= k < n :: ns[k].busy
    requires e == NULL ==> forall k | 0 <= k < |es| :: es[k].busy
    requires e != NULL ==> 0 <= e < |es| && !es[e].busy && forall k | 0 <= k < e :: es[k].busy
    ensures e == n
  {}

  lemma UnlinkedNodes(ns: seq<Node>, c: seq<int>, p: nat, ns1: seq<Node>)
    requires p < |c| && InRange(c, |ns|) && (p > 0 ==> c[p - 1] != c[p])
    requires ns1 == if p == 0 then ns else ns[c[p - 1] := ns[c[p - 1]].(tail := ns[c[p]].tail)]
    ensures Unlinked(ns, c, p, ns1[c[p] := ns1[c[p]].(busy := false)])
  {}

  lemma LengthsOf(es: seq<Element>, ns: seq<Node>, ls: seq<List>, ch: seq<seq<int>>, owner: seq<int>)
    requires PoolInv(es, ns, ls, ch, owner)
    ensures |es| == |ns| == |owner| == MAX_NODES && |ls| == |ch| == MAX_LISTS
  {}

  lemma RangesOk(es: seq<Element>, ns: seq<Node>, ch: seq<seq<int>>, owner: seq<int>)
    requires |es| == |ns| && ChainsOk(ns, ch, owner)
    ensures AllInRange(ch, |es|)
  {}
}
