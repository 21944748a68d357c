/** The semaphore server over the pooled lists and the name table. Every operation is proved
    to take the same step as the state machine of module `Machine`. */
module Server {
  import opened PoolModel
  import LP = ListPool
  import NT = NameTable
  import opened Machine
  import opened Invariants
  import opened Lifecycle

  /** An entry of sem_array; the two lists are pool slots, NULL before the first use. */
  datatype Slot = Slot(semCount: int, refCount: nat, procList: int, blockedList: int, unlinked: bool)

  const UNUSED_SLOT := Slot(0, 0, NULL, NULL, false)

  /** The lockstep of the two allocators: slot i is live iff list slots 2i and 2i+1 are busy, and
      any list pointer slot i has ever received is one of those two. */
  ghost predicate SlotRep(m: Slot, i: nat, ls: seq<List>) {
    && 2 * i + 1 < |ls|
    && (m.procList == NULL || m.procList == 2 * i)
    && (m.blockedList == NULL || m.blockedList == 2 * i + 1)
    && (m.refCount != 0 ==> m.procList == 2 * i && m.blockedList == 2 * i + 1)
    && (ls[2 * i].busy <==> m.refCount != 0)
    && (ls[2 * i + 1].busy <==> m.refCount != 0)
    && (m.refCount != 0 ==> ls[2 * i].order.Unsorted? && ls[2 * i + 1].order.Unsorted?)
  }

  ghost predicate Rep(slots: seq<Slot>, ls: seq<List>) {
    && |slots| == INITIAL_SEM && |ls| == MAX_LISTS
    && (forall i: nat | i < |slots| :: SlotRep(slots[i], i, ls))
    && (forall l | 2 * INITIAL_SEM <= l < MAX_LISTS :: !ls[l].busy)
  }

  function AbsSem(m: Slot, openers: seq<int>, blocked: seq<int>): Sem {
    Sem(m.semCount, m.refCount, openers, blocked, m.unlinked)
  }

  ghost function AbsSems(slots: seq<Slot>, v: seq<seq<int>>): (r: seq<Sem>)
    requires 2 * |slots| <= |v|
    ensures |r| == |slots|
    ensures forall i | 0 <= i < |slots| :: r[i] == AbsSem(slots[i], v[2 * i], v[2 * i + 1])
  {
    seq(|slots|, i requires 0 <= i < |slots| => AbsSem(slots[i], v[2 * i], v[2 * i + 1]))
  }

  /** Changing slot i and its two lists changes entry i of the abstract array. */
  lemma AbsSemsUpdate(slots: seq<Slot>, v: seq<seq<int>>, i: nat, m: Slot, openers: seq<int>, blocked: seq<int>)
    requires 2 * |slots| <= |v| && i < |slots|
    ensures AbsSems(slots[i := m], v[2 * i := openers][2 * i + 1 := blocked])
            == AbsSems(slots, v)[i := AbsSem(m, openers, blocked)]
  {
    var v' := v[2 * i := openers][2 * i + 1 := blocked];
    var lhs, rhs := AbsSems(slots[i := m], v'), AbsSems(slots, v)[i := AbsSem(m, openers, blocked)];
    forall k | 0 <= k < |slots| ensures lhs[k] == rhs[k] {
      assert k != i ==> v'[2 * k] == v[2 * k] && v'[2 * k + 1] == v[2 * k + 1];
    }
  }

  lemma {:induction false} UsedIsTotal(slots: seq<Slot>, v: seq<seq<int>>, n: nat)
    requires 2 * |slots| <= |v| && n <= |slots|
    ensures Used(AbsSems(slots, v), n) == Total(v, 2 * n)
  {
    if n > 0 {
      UsedIsTotal(slots, v, n - 1);
      assert Total(v, 2 * n) == Total(v, 2 * n - 1) + |v[2 * n - 1]|;
      assert Total(v, 2 * n - 1) == Total(v, 2 * n - 2) + |v[2 * n - 2]|;
    }
  }

  lemma {:induction false} TotalOfEmpty(v: seq<seq<int>>, m: nat, n: nat)
    requires m <= n <= |v| && forall l | m <= l < n :: v[l] == []
    ensures Total(v, n) == Total(v, m)
  {
    if n > m { TotalOfEmpty(v, m, n - 1); }
  }

  /** The pool is full for ListInsert exactly when the abstract server is full. */
  lemma FullIsTotal(slots: seq<Slot>, v: seq<seq<int>>)
    requires |slots| == INITIAL_SEM && |v| == MAX_LISTS && forall l | 2 * INITIAL_SEM <= l < MAX_LISTS :: v[l] == []
    ensures Used(AbsSems(slots, v), INITIAL_SEM) == Total(v, MAX_LISTS)
  {
    UsedIsTotal(slots, v, INITIAL_SEM);
    TotalOfEmpty(v, 2 * INITIAL_SEM, MAX_LISTS);
  }

  /** Slots other than i keep their lists when only list slots 2i and 2i+1 change. */
  lemma RepUpdate(slots: seq<Slot>, ls: seq<List>, i: nat, m: Slot, ls': seq<List>)
    requires Rep(slots, ls) && i < |slots| && |ls'| == |ls| && SlotRep(m, i, ls')
    requires forall l | 0 <= l < |ls| && l != 2 * i && l != 2 * i + 1 :: ls'[l] == ls[l]
    ensures Rep(slots[i := m], ls')
  {}

  /** The first free slot's lists are the first two free list slots. */
  lemma FirstFreeLists(slots: seq<Slot>, ls: seq<List>, i: nat)
    requires Rep(slots, ls) && i < INITIAL_SEM && slots[i].refCount == 0
    requires forall k | 0 <= k < i :: slots[k].refCount != 0
    ensures 2 * i + 1 < MAX_LISTS && !ls[2 * i].busy && !ls[2 * i + 1].busy
    ensures forall l | 0 <= l < 2 * i :: ls[l].busy
  {
    assert SlotRep(slots[i], i, ls);
    forall l | 0 <= l < 2 * i ensures ls[l].busy {
      assert SlotRep(slots[l / 2], l / 2, ls);
      assert l == 2 * (l / 2) || l == 2 * (l / 2) + 1;
    }
  }

  lemma InitialRep(slots: seq<Slot>, ls: seq<List>, v: seq<seq<int>>)
    requires |slots| == INITIAL_SEM && (forall i | 0 <= i < INITIAL_SEM :: slots[i] == UNUSED_SLOT)
    requires |ls| == |v| == MAX_LISTS && forall l | 0 <= l < MAX_LISTS :: !ls[l].busy && v[l] == []
    ensures Rep(slots, ls) && AbsSems(slots, v) == INITIAL.sems
  {}

  lemma CountRep(slots: seq<Slot>, ls: seq<List>, i: nat, c: int)
    requires i < |slots| && SlotRep(slots[i], i, ls)
    ensures SlotRep(slots[i].(semCount := c), i, ls)
  {}

  /** Only chain l may have changed. */
  ghost predicate OneChain(ch: seq<seq<int>>, ch': seq<seq<int>>, l: int) {
    |ch'| == |ch| && forall k | 0 <= k < |ch| && k != l :: ch'[k] == ch[k]
  }

  /** Chain l is as it was, or has one node more at its head; the others are as they were. */
  ghost predicate Pushed(ch: seq<seq<int>>, ch': seq<seq<int>>, l: int) {
    OneChain(ch, ch', l) && 0 <= l < |ch| && (ch'[l] == ch[l] || Longer(ch[l], ch'[l]))
  }

  /** Closing h does not release its slot. */
  predicate LeftWithout(s: State, h: int, p: int) {
    Member(s, h, p) ==> !s.sems[h].unlinked || RemoveFirst(s.sems[h].openers, p) != []
  }

  /** And then the chain of its openers loses one node, or none, and the others stay. */
  ghost predicate ClosedChain(s: State, h: int, p: int, ch: seq<seq<int>>, ch': seq<seq<int>>) {
    if Member(s, h, p) then OneChain(ch, ch', 2 * h) && 2 * h < |ch|
        && Popped(s.sems[h].openers, p, ch[2 * h], ch'[2 * h]) else ch' == ch
  }

  /** The opener chains of slots below i are as they were or longer by one, all others as they were. */
  ghost predicate GrewTo(ch: seq<seq<int>>, ch': seq<seq<int>>, i: nat) {
    |ch'| == |ch| && forall l | 0 <= l < |ch| :: ch'[l] == ch[l] || (l % 2 == 0 && l < 2 * i && Longer(ch[l], ch'[l]))
  }

  lemma GrewOn(ch: seq<seq<int>>, mid: seq<seq<int>>, ch': seq<seq<int>>, i: nat)
    requires GrewTo(ch, mid, i) && (ch' == mid || Pushed(mid, ch', 2 * i))
    ensures GrewTo(ch, ch', i + 1)
  {}

  /** No close by p releases a slot. */
  predicate AllLeft(s: State, p: int) { forall k | 0 <= k < INITIAL_SEM :: LeftWithout(s, k, p) }

  /** The opener chains of slots below i have lost what their closes took, all others are as they were. */
  ghost predicate ClosedTo(s: State, p: int, ch: seq<seq<int>>, ch': seq<seq<int>>, i: nat)
    requires i <= |s.sems|
  {
    |ch'| == |ch| && forall l | 0 <= l < |ch| ::
      if l % 2 == 0 && l < 2 * i then Popped(s.sems[l / 2].openers, p, ch[l], ch'[l]) else ch'[l] == ch[l]
  }

  /** Slots from i on are as they were. */
  predicate AsBefore(s: State, s': State, i: nat) {
    |s'.sems| == |s.sems| == INITIAL_SEM && forall k | i <= k < INITIAL_SEM :: s'.sems[k] == s.sems[k]
  }

  lemma CloseBegins(s: State, p: int, ch: seq<seq<int>>)
    requires |s.sems| == INITIAL_SEM
    ensures AsBefore(s, s, 0) && ClosedTo(s, p, ch, ch, 0)
  {}

  /** Closing slot i of s', where the closes from s have got to. */
  lemma CloseOn(s: State, s': State, p: int, ch: seq<seq<int>>, mid: seq<seq<int>>, i: nat)
    requires i < INITIAL_SEM && AsBefore(s, s', i) && (AllLeft(s, p) ==> ClosedTo(s, p, ch, mid, i))
    ensures AsBefore(s, DoClose(s', p, i).state, i + 1)
    ensures AllLeft(s, p) ==> LeftWithout(s', i, p)
    ensures forall ch' :: AllLeft(s, p) && ClosedChain(s', i, p, mid, ch') ==> ClosedTo(s, p, ch, ch', i + 1)
  {
    if AllLeft(s, p) { assert LeftWithout(s, i, p); }
    forall ch' | AllLeft(s, p) && ClosedChain(s', i, p, mid, ch') ensures ClosedTo(s, p, ch, ch', i + 1) {
      ClosedOn(s, s', p, ch, mid, ch', i);
    }
  }

  lemma ClosedOn(s: State, s': State, p: int, ch: seq<seq<int>>, mid: seq<seq<int>>, ch': seq<seq<int>>, i: nat)
    requires i < INITIAL_SEM && AsBefore(s, s', i) && ClosedTo(s, p, ch, mid, i) && ClosedChain(s', i, p, mid, ch')
    ensures ClosedTo(s, p, ch, ch', i + 1)
  {
    forall l | 0 <= l < |ch|
      ensures if l % 2 == 0 && l < 2 * (i + 1) then Popped(s.sems[l / 2].openers, p, ch[l], ch'[l]) else ch'[l] == ch[l]
    {
      if l == 2 * i { assert mid[l] == ch[l] && l / 2 == i; }
    }
  }

  /** A child joins only slots its parent is in, so its leaving releases none of them. */
  lemma ForkLeaves(s: State, parent: int, child: int)
    requires |s.sems| == INITIAL_SEM && parent != child
             && forall k | 0 <= k < INITIAL_SEM :: child !in s.sems[k].openers
    ensures AllLeft(DoOpenAll(s, parent, child), child)
  {
    var s1 := DoOpenAll(s, parent, child);
    OpenFromSlots(s, parent, child, 0);
    hide OpenFrom;
    forall k | 0 <= k < INITIAL_SEM ensures LeftWithout(s1, k, child) {
      var o := s.sems[k].openers;
      if Member(s1, k, child) { assert s1.sems[k].openers == [child] + o && RemoveFirst([child] + o, child) == o; }
    }
  }

  /** The opener chain of each slot is as long as its list of openers. */
  ghost predicate Sized(s: State, ch: seq<seq<int>>) {
    |s.sems| == INITIAL_SEM && |ch| == MAX_LISTS
    && forall k | 0 <= k < INITIAL_SEM :: |ch[2 * k]| == |s.sems[k].openers|
  }

  /** The node a child took is at the head of its chain, and that is the one its exit gives back. */
  lemma BackAgain(s: State, parent: int, child: int, ch: seq<seq<int>>, mid: seq<seq<int>>, ch': seq<seq<int>>)
    requires Sized(s, ch) && Sized(DoOpenAll(s, parent, child), mid)
             && forall k | 0 <= k < INITIAL_SEM :: child !in s.sems[k].openers
    requires GrewTo(ch, mid, INITIAL_SEM) && ClosedTo(DoOpenAll(s, parent, child), child, mid, ch', INITIAL_SEM)
    ensures ch' == ch
  {
    var s1 := DoOpenAll(s, parent, child);
    OpenFromSlots(s, parent, child, 0);
    hide OpenFrom;
    forall l | 0 <= l < MAX_LISTS ensures ch'[l] == ch[l] {
      if l % 2 == 0 && l < 2 * INITIAL_SEM {
        var k := l / 2;
        assert l == 2 * k && Popped(s1.sems[k].openers, child, mid[l], ch'[l]);
      }
    }
  }

  /** A slot's count takes no room in the pool. */
  lemma CountLeavesRoom(s: State, s': State, i: nat, value: int)
    requires |s.sems| == INITIAL_SEM && i < INITIAL_SEM && s'.sems == s.sems[i := s.sems[i].(count := value)]
    ensures forall p :: Push(s', [], p) == Push(s, [], p)
  {
    UsedUpdate(s.sems, i, s'.sems[i], INITIAL_SEM);
  }

  lemma NoWakes(out: Message)
    ensures Wakes([], out, Ok) == []
  {}

  function ProcCmp(a: int, b: int): int { if a != b then -1 else 0 }

  function BlockedCmp(a: int, b: int): int { if a != b then 1 else 0 }

  class SemServer {
    const semArray: array<Slot>
    const pool: LP.ListPool
    const semNameMap: NT.NameTable
    var errno: Errno
    var who: int
    var dontReply: bool
    var out: Message
    var sent: seq<Reply>

    ghost function Repr(): set<object> {
      {this, semArray, semNameMap, semNameMap.entries} + pool.Repr()
    }

    ghost predicate Separate() {
      && this !in pool.Repr() && semArray !in pool.Repr() && semNameMap !in pool.Repr()
      && semNameMap.entries !in pool.Repr()
      && semArray as object != semNameMap.entries && semArray as object != semNameMap
      && semNameMap.entries as object != semNameMap
      && this as object != semArray && this as object != semNameMap && this as object != semNameMap.entries
    }

    /** The representation: pools, table and slots fit together. */
    ghost predicate Shape()
      reads Repr()
    {
      && Separate()
      && pool.Valid() && semNameMap.Valid()
      && semArray.Length == INITIAL_SEM && Rep(semArray[..], pool.lists[..])
    }

    /** Everything but the correspondence of names and slots, which sem_create breaks until its
        caller has bound the name or marked the slot. */
    ghost predicate Core()
      reads Repr()
    {
      Shape() && SlotsOk(Abs())
    }

    ghost predicate Valid()
      reads Repr()
    {
      Core() && NamesOk(Abs())
    }

    /** The state machine's view of the server. */
    ghost function Abs(): State
      reads Repr(), pool.Repr()
      requires pool.Valid() && semArray.Length == INITIAL_SEM
    {
      State(AbsSems(semArray[..], pool.Contents()), semNameMap.bound, errno, out)
    }

    lemma ChainSizes()
      requires Valid()
      ensures Sized(Abs(), pool.chains)
    {
      pool.LengthsAre();
      hide PoolInv, NT.Refines, SlotsOk, NamesOk, Rep;
    }

    /** init_sem_server. */
    constructor ()
      ensures Valid() && fresh(Repr()) && Abs() == INITIAL && sent == []
    {
      hide PoolInv, NT.Refines, SlotsOk, NamesOk, Rep;
      semArray := new Slot[INITIAL_SEM](_ => UNUSED_SLOT);
      pool := new LP.ListPool();
      semNameMap := new NT.NameTable();
      errno, who, dontReply, out, sent := Ok, 0, false, Message(0, 0, 0), [];
      new;
      assert forall i | 0 <= i < INITIAL_SEM :: semArray[..][i] == UNUSED_SLOT;
      assert |pool.lists[..]| == MAX_LISTS;
      assert forall l | 0 <= l < MAX_LISTS :: !pool.lists[..][l].busy && pool.Contents()[l] == [];
      InitialRep(semArray[..], pool.lists[..], pool.Contents());
      InitialOk();
      assert Abs() == INITIAL;
      assert Shape();
    }

    /** The test at the head of every operation. A slot never used has no members. */
    method IsMember(semFd: int, p: int) returns (b: bool)
      requires Shape()
      ensures b == Member(Abs(), semFd, p)
    {
      if semFd < 0 || semFd >= INITIAL_SEM { return false; }
      assert SlotRep(semArray[..][semFd], semFd, pool.lists[..]);
      assert ListOk(pool.lists[..][2 * semFd], pool.chains[2 * semFd]);
      if semArray[semFd].procList == NULL { return false; }
      b := pool.ListElementBelongs(semArray[semFd].procList, p);
    }

    /** ListInsert on an unsorted list: at the head, unless the pool is full. */
    method PushFront(l: nat, p: int)
      requires pool.Valid() && l < MAX_LISTS && pool.lists[l].busy && pool.lists[l].order.Unsorted?
      modifies pool.Repr()
      ensures pool.Valid()
      ensures pool.Contents() == old(pool.Contents())[l :=
                                     if Total(old(pool.Contents()), MAX_LISTS) >= MAX_NODES then old(pool.Contents()[l])
                                     else [p] + old(pool.Contents()[l])]
      ensures forall k | 0 <= k < MAX_LISTS && k != l :: pool.lists[k] == old(pool.lists[k])
      ensures pool.lists[l] == old(pool.lists[l]).(nodes := pool.lists[l].nodes)
      ensures Pushed(old(pool.chains), pool.chains, l)
    {
      hide PoolInv, Stands, Total, Scan;
      ghost var v := pool.Contents();
      var _ := pool.ListInsert(l, p);
      assert InsertAt(v[l], 0, p) == [p] + v[l];
    }

    /** ListInsert on one of the lists of slot i, with its answer ignored. */
    method PushOn(i: nat, l: nat, p: int)
      requires Shape() && i < INITIAL_SEM && (l == 2 * i || l == 2 * i + 1) && semArray[i].refCount != 0
      modifies pool.Repr()
      ensures pool.Valid() && Rep(semArray[..], pool.lists[..])
      ensures pool.Contents() == old(pool.Contents())[l := Push(old(Abs()), old(pool.Contents())[l], p)]
      ensures Pushed(old(pool.chains), pool.chains, l)
    {
      hide PoolInv;
      assert SlotRep(semArray[..][i], i, pool.lists[..]);
      FullIffNoRoom();
      ghost var ls := pool.lists[..];
      PushFront(l, p);
      RepUpdate(semArray[..], ls, i, semArray[i], pool.lists[..]);
      assert semArray[..] == semArray[..][i := semArray[i]];
    }

    lemma FullIffNoRoom()
      requires Shape()
      ensures Full(Abs()) <==> Total(pool.Contents(), MAX_LISTS) >= MAX_NODES
    {
      forall l | 2 * INITIAL_SEM <= l < MAX_LISTS ensures pool.Contents()[l] == [] {
        assert ListOk(pool.lists[..][l], pool.chains[l]);
      }
      FullIsTotal(semArray[..], pool.Contents());
    }

    /** Folds the new contents of slot i and its two lists back into the abstract state. */
    lemma AbsIs(slots: seq<Slot>, v: seq<seq<int>>, i: nat, openers: seq<int>, blocked: seq<int>)
      requires pool.Valid() && semArray.Length == INITIAL_SEM == |slots| && |v| == MAX_LISTS && i < INITIAL_SEM
      requires semArray[..] == slots[i := semArray[i]]
      requires pool.Contents() == v[2 * i := openers][2 * i + 1 := blocked]
      ensures Abs().sems == AbsSems(slots, v)[i := AbsSem(semArray[i], openers, blocked)]
    {
      hide PoolInv, AbsSems, AbsSem;
      AbsSemsUpdate(slots, v, i, semArray[i], openers, blocked);
    }

    /** sem_create once slot i has been found: marks it live and gives it two fresh lists. */
    method FillSlot(i: nat)
      requires Shape() && i < INITIAL_SEM && semArray[i].refCount == 0
      requires forall k | 0 <= k < i :: semArray[k].refCount != 0
      modifies semArray, pool.Repr()
      ensures Shape()
      ensures Abs() == old(Abs()).(sems :=
              old(Abs()).sems[i := Sem(old(semArray[i]).semCount, 1, Push(old(Abs()), [], who), [], false)])
    {
      hide PoolInv, NT.Refines, Total;
      ghost var slots, v, ls := semArray[..], pool.Contents(), pool.lists[..];
      FirstFreeLists(slots, ls, i);
      hide Rep;
      FullIffNoRoom();
      EmptyLists(i);
      semArray[i] := semArray[i].(refCount := 1, unlinked := false);
      var l := pool.NewList(ProcCmp, Unsorted);
      assert l == 2 * i;
      semArray[i] := semArray[i].(procList := l);
      PushFront(l, who);
      l := pool.NewList(BlockedCmp, Unsorted);
      assert l == 2 * i + 1;
      semArray[i] := semArray[i].(blockedList := l);
      RepUpdate(slots, ls, i, semArray[i], pool.lists[..]);
      AbsIs(slots, v, i, Push(old(Abs()), [], who), []);
    }

    lemma EmptyLists(i: nat)
      requires Shape() && i < INITIAL_SEM && semArray[i].refCount == 0
      ensures pool.Contents()[2 * i] == [] && pool.Contents()[2 * i + 1] == []
    {}

    /** sem_create with a slot in hand: the count is set before the value is checked. */
    method SemCreateAt(i: nat, value: nat) returns (ret: int)
      requires Shape() && i < INITIAL_SEM && semArray[i].refCount == 0 && errno == Ok
      requires forall k | 0 <= k < i :: semArray[k].refCount != 0
      modifies `errno, semArray, pool.Repr()
      ensures Shape()
      ensures value > SEM_VALUE_MAX ==>
                ret == -1 && Abs()
                    == old(Abs()).(errno := EINVAL, sems := old(Abs()).sems[i := old(Abs()).sems[i].(count := value)])
      ensures value <= SEM_VALUE_MAX ==>
                ret == 0 && Abs()
                    == old(Abs()).(sems := old(Abs()).sems[i := Sem(value, 1, Push(old(Abs()), [], who), [], false)])
    {
      hide PoolInv, NT.Refines, Rep, AbsSems, AbsSem, Full;
      ghost var s := Abs();
      SetCount(i, value);
      CountLeavesRoom(s, Abs(), i, value);
      if value > SEM_VALUE_MAX {
        errno := EINVAL;
        return -1;
      }
      FillSlot(i);
      ret := 0;
    }

    /** The write of the count alone. */
    method SetCount(i: nat, c: int)
      requires Shape() && i < INITIAL_SEM
      modifies semArray
      ensures Shape() && semArray[..] == old(semArray[..])[i := old(semArray[i]).(semCount := c)]
      ensures Abs() == old(Abs()).(sems := old(Abs()).sems[i := old(Abs()).sems[i].(count := c)])
    {
      ghost var slots, v := semArray[..], pool.Contents();
      assert SlotRep(slots[i], i, pool.lists[..]);
      hide PoolInv, NT.Refines, Rep, AllValues, AbsSems;
      semArray[i] := semArray[i].(semCount := c);
      CountRep(slots, pool.lists[..], i, c);
      RepUpdate(slots, pool.lists[..], i, semArray[i], pool.lists[..]);
      AbsIs(slots, v, i, v[2 * i], v[2 * i + 1]);
    }

    /** First-fit search for a free slot, then two fresh lists for it. */
    method SemCreate(handle: int, value: nat) returns (ret: int, sem: int)
      requires Valid()
      modifies `errno, semArray, pool.Repr()
      ensures Core()
      ensures Abs() == Create(old(Abs()), who, handle, value).0.state
      ensures ret == Create(old(Abs()), who, handle, value).0.ret && sem == Create(old(Abs()), who, handle, value).1
    {
      hide PoolInv, NT.Refines, SlotsOk, NamesOk, Rep, AbsSems, AllValues;
      CreateKeeps(Abs(), who, handle, value);
      ghost var s := Abs();
      ret, sem := -1, handle;
      var i := 0;
      while i < INITIAL_SEM && semArray[i].refCount != 0
        invariant 0 <= i <= INITIAL_SEM && FirstFree(s.sems, 0) == FirstFree(s.sems, i)
        invariant forall k | 0 <= k < i :: semArray[k].refCount != 0
      {
        i := i + 1;
      }
      if i == INITIAL_SEM { errno := ENOSPC; }
      if errno == Ok {
        ret := SemCreateAt(i, value);
        if ret == 0 { sem := i; }
      }
    }

    /** Changing errno alone changes nothing else of the abstract state. */
    method SetErrno(e: Errno)
      requires Core()
      modifies `errno
      ensures Core() && errno == e && Abs() == old(Abs()).(errno := e)
      ensures old(NamesOk(Abs())) ==> NamesOk(Abs())
    {
      hide PoolInv, NT.Refines, Rep, SlotsOk, NamesOk;
      errno := e;
      OutIrrelevant(old(Abs()), Abs());
    }

    method SemOpen(name: string, creat: bool, excl: bool, value: nat) returns (rta: int)
      requires Valid()
      modifies `errno, semArray, pool.Repr(), semNameMap, semNameMap.entries
      ensures Valid()
      ensures Abs() == DoOpen(old(Abs()), who, name, creat, excl, value).state
      ensures rta == DoOpen(old(Abs()), who, name, creat, excl, value).ret
    {
      hide PoolInv, Pushed, NT.Refines, Rep, SlotsOk, NamesOk, AbsSems, AllValues;
      OpenKeeps(Abs(), who, name, creat, excl, value);
      NamesFit(Abs());
      rta := -1;
      SetErrno(Ok);
      var found, semFd := semNameMap.HashTableFind(name);
      if !found && !creat {
        SetErrno(ENOENT);
      } else if |name| > PATH_MAX {
        SetErrno(ENAMETOOLONG);
      } else if found && creat && excl {
        SetErrno(EEXIST);
      } else if found && !excl {
        NamedIsLive(Abs(), NT.Clip(name));
        JoinSlot(semFd, who);
        rta := semFd;
      } else if !found && creat && !excl {
        rta := OpenNew(name, value);
      }
    }

    /** The branch of sem_open that creates a semaphore and binds its name. */
    method OpenNew(name: string, value: nat) returns (rta: int)
      requires Valid() && NT.Clip(name) !in Abs().names
      modifies `errno, semArray, pool.Repr(), semNameMap, semNameMap.entries
      ensures Shape()
      ensures var (r, fd) := Create(old(Abs()), who, -1, value);
              && rta == (if r.ret == -1 then -1 else fd)
              && Abs() == if r.ret == -1 then r.state else r.state.(names := old(Abs()).names[NT.Clip(name) := fd])
    {
      hide PoolInv, NT.Refines, Rep, SlotsOk, NamesOk, AbsSems, AllValues;
      NamesFit(Abs());
      CreateKeeps(Abs(), who, -1, value);
      var ret: int;
      ret, rta := SemCreate(-1, value);
      if ret == -1 { return -1; }
      var _ := semNameMap.HashTableInsert(name, rta);
    }

    /** Counts one more reference to a live slot and inserts p in its opener list. */
    method JoinSlot(i: int, p: int)
      requires Shape() && IsHandle(i) && Live(Abs().sems[i])
      modifies semArray, pool.Repr()
      ensures Shape()
      ensures var m := old(Abs()).sems[i];
              Abs() == old(Abs()).(sems :=
                  old(Abs()).sems[i := m.(refCount := m.refCount + 1, openers := Push(old(Abs()), m.openers, p))])
      ensures Pushed(old(pool.chains), pool.chains, 2 * i)
    {
      hide PoolInv, NT.Refines, AbsSems, AllValues;
      ghost var s, slots, v, ls := Abs(), semArray[..], pool.Contents(), pool.lists[..];
      assert SlotRep(slots[i], i, ls);
      semArray[i] := semArray[i].(refCount := semArray[i].refCount + 1);
      RepUpdate(slots, ls, i, semArray[i], ls);
      AbsIs(slots, v, i, v[2 * i], v[2 * i + 1]);
      UsedUpdate(s.sems, i, Abs().sems[i], INITIAL_SEM);
      PushOn(i, 2 * i, p);
      AbsIs(slots, v, i, Push(s, v[2 * i], p), v[2 * i + 1]);
    }

    method SemInit(handle: int, value: nat) returns (ret: int, sem: int)
      requires Valid()
      modifies `errno, semArray, pool.Repr()
      ensures Valid()
      ensures Abs() == DoInit(old(Abs()), who, handle, value).0.state
      ensures ret == DoInit(old(Abs()), who, handle, value).0.ret && sem == DoInit(old(Abs()), who, handle, value).1
    {
      hide PoolInv, NT.Refines, SlotsOk, NamesOk;
      CreateKeeps(Abs(), who, handle, value);
      InitKeeps(Abs(), who, handle, value);
      ret, sem := SemCreate(handle, value);
      if ret != 0 { return -1, handle; }
      MarkUnlinked(sem);
    }

    method MarkUnlinked(i: int)
      requires Shape() && IsHandle(i)
      modifies semArray
      ensures Shape()
      ensures Abs() == old(Abs()).(sems := old(Abs()).sems[i := old(Abs()).sems[i].(unlinked := true)])
    {
      hide PoolInv, NT.Refines;
      ghost var slots, v := semArray[..], pool.Contents();
      semArray[i] := semArray[i].(unlinked := true);
      assert SlotRep(slots[i], i, pool.lists[..]);
      RepUpdate(slots, pool.lists[..], i, semArray[i], pool.lists[..]);
      AbsIs(slots, v, i, v[2 * i], v[2 * i + 1]);
    }

    /** FreeList on both lists of slot i, and ref_count set to 0. */
    method ReleaseSlot(i: nat)
      requires Shape() && i < INITIAL_SEM && semArray[i].refCount != 0
      modifies semArray, pool.Repr()
      ensures Shape()
      ensures Abs() == old(Abs()).(sems :=
              old(Abs()).sems[i := old(Abs()).sems[i].(refCount := 0, openers := [], blocked := [])])
    {
      hide PoolInv, NT.Refines;
      ghost var slots, v, ls := semArray[..], pool.Contents(), pool.lists[..];
      assert SlotRep(slots[i], i, ls);
      pool.FreeList(semArray[i].procList);
      pool.FreeList(semArray[i].blockedList);
      semArray[i] := semArray[i].(refCount := 0);
      RepUpdate(slots, ls, i, semArray[i], pool.lists[..]);
      AbsIs(slots, v, i, [], []);
    }

    /** sem_destroy as written: on a slot that still has a name it leaves the name behind, and
        then `Valid` is lost. */
    method SemDestroy(semFd: int) returns (ret: int)
      requires Valid()
      modifies `errno, semArray, pool.Repr()
      ensures Core()
      ensures Abs() == DoDestroy(old(Abs()), who, semFd).state && ret == DoDestroy(old(Abs()), who, semFd).ret
      ensures Valid() <==> !DestroysNamed(old(Abs()), Event(who, Destroy(semFd), 0))
    {
      hide PoolInv, NT.Refines, SlotsOk, NamesOk, AbsSems, AllValues;
      DestroyKeeps(Abs(), Event(who, Destroy(semFd), 0));
      MembersAreLive(Abs(), semFd, who);
      var member := IsMember(semFd, who);
      if !member {
        SetErrno(EINVAL);
        return -1;
      }
      assert SlotRep(semArray[..][semFd], semFd, pool.lists[..]);
      var idle := pool.ListIsEmpty(semArray[semFd].blockedList);
      if !idle {
        SetErrno(EBUSY);
        return -1;
      }
      ReleaseSlot(semFd);
      ret := 0;
    }

    method SemUnlink(name: string) returns (ret: int)
      requires Valid()
      modifies `errno, semArray, semNameMap, semNameMap.entries
      ensures Valid()
      ensures Abs() == DoUnlink(old(Abs()), who, name).state && ret == DoUnlink(old(Abs()), who, name).ret
    {
      hide PoolInv, NT.Refines, SlotsOk, NamesOk;
      UnlinkKeeps(Abs(), who, name);
      var found, semFd := semNameMap.HashTableFind(name);
      if |name| > PATH_MAX {
        SetErrno(ENAMETOOLONG);
        return -1;
      }
      if !found {
        SetErrno(ENOENT);
        return -1;
      }
      NamedIsLive(Abs(), NT.Clip(name));
      var member := IsMember(semFd, who);
      if !member {
        SetErrno(EACCES);
        return -1;
      }
      MarkUnlinked(semFd);
      var _ := semNameMap.HashTableRemove(name);
      ret := 0;
    }

    /** ListDelete on the opener list of slot i. */
    method LeaveSlot(i: nat, p: int)
      requires Shape() && i < INITIAL_SEM && semArray[i].refCount != 0
      modifies pool.Repr()
      ensures Shape()
      ensures Abs() == old(Abs()).(sems :=
              old(Abs()).sems[i := old(Abs()).sems[i].(openers := RemoveFirst(old(Abs()).sems[i].openers, p))])
      ensures OneChain(old(pool.chains), pool.chains, 2 * i) && 2 * i < |pool.chains|
      ensures Popped(old(Abs()).sems[i].openers, p, old(pool.chains)[2 * i], pool.chains[2 * i])
    {
      hide PoolInv, NT.Refines, Stands, Scan;
      ghost var slots, v, ls := semArray[..], pool.Contents(), pool.lists[..];
      assert SlotRep(slots[i], i, ls);
      var _ := pool.ListDelete(semArray[i].procList, p);
      RepUpdate(slots, ls, i, semArray[i], pool.lists[..]);
      assert slots == slots[i := slots[i]];
      AbsIs(slots, v, i, RemoveFirst(v[2 * i], p), v[2 * i + 1]);
    }

    method SemClose(semFd: int) returns (ret: int)
      requires Valid()
      modifies `errno, semArray, pool.Repr()
      ensures Valid()
      ensures Abs() == DoClose(old(Abs()), who, semFd).state && ret == DoClose(old(Abs()), who, semFd).ret
      ensures LeftWithout(old(Abs()), semFd, who) ==> ClosedChain(old(Abs()), semFd, who, old(pool.chains), pool.chains)
    {
      hide PoolInv, NT.Refines, SlotsOk, NamesOk;
      CloseKeeps(Abs(), who, semFd);
      MembersAreLive(Abs(), semFd, who);
      var member := IsMember(semFd, who);
      if !member {
        SetErrno(EINVAL);
        return -1;
      }
      LeaveSlot(semFd, who);
      assert SlotRep(semArray[..][semFd], semFd, pool.lists[..]);
      var last := pool.ListIsEmpty(semArray[semFd].procList);
      if semArray[semFd].unlinked && last { ReleaseSlot(semFd); }
      assert Abs().sems == old(Abs()).sems[semFd := Abs().sems[semFd]];
      ret := 0;
    }

    /** ListInsert on the blocked list of slot i. */
    method BlockOn(i: nat, p: int)
      requires Shape() && i < INITIAL_SEM && semArray[i].refCount != 0
      modifies pool.Repr()
      ensures Shape()
      ensures Abs() == old(Abs()).(sems :=
              old(Abs()).sems[i := old(Abs()).sems[i].(blocked := Push(old(Abs()), old(Abs()).sems[i].blocked, p))])
    {
      hide PoolInv, NT.Refines;
      ghost var s, slots, v := Abs(), semArray[..], pool.Contents();
      PushOn(i, 2 * i + 1, p);
      assert slots == slots[i := slots[i]];
      AbsIs(slots, v, i, v[2 * i], Push(s, v[2 * i + 1], p));
    }

    /** sem_wait once the caller has been found to be a member. Blocking is a reply not sent and
        an entry in the blocked list, the latter only if the pool has a node. */
    method WaitOn(i: nat)
      requires Shape() && i < INITIAL_SEM && semArray[i].refCount != 0
      modifies `dontReply, semArray, pool.Repr()
      ensures Shape()
      ensures dontReply == (old(dontReply) || old(semArray[i].semCount) <= 0)
      ensures var m := old(Abs()).sems[i];
              Abs() == old(Abs()).(sems := old(Abs()).sems[i :=
                m.(count := m.count - 1, blocked := if m.count <= 0 then Push(old(Abs()), m.blocked, who)
                    else m.blocked)])
    {
      hide PoolInv, NT.Refines, Rep, Push, AbsSems, AllValues;
      if semArray[i].semCount <= 0 {
        dontReply := true;
        BlockOn(i, who);
      }
      SetCount(i, semArray[i].semCount - 1);
    }

    method SemWait(semFd: int) returns (ret: int)
      requires Valid()
      modifies `errno, `dontReply, semArray, pool.Repr()
      ensures Valid()
      ensures Abs() == DoWait(old(Abs()), who, semFd).state && ret == DoWait(old(Abs()), who, semFd).ret
      ensures dontReply == (old(dontReply) || DoWait(old(Abs()), who, semFd).withheld)
    {
      hide PoolInv, NT.Refines, SlotsOk, NamesOk, Rep;
      CountKeeps(Abs(), who, semFd, 0);
      MembersAreLive(Abs(), semFd, who);
      SetErrno(Ok);
      var member := IsMember(semFd, who);
      if !member {
        SetErrno(EINVAL);
        return -1;
      }
      WaitOn(semFd);
      ret := 0;
    }

    method SemTryWait(semFd: int) returns (ret: int)
      requires Valid()
      modifies `errno, semArray
      ensures Valid()
      ensures Abs() == DoTryWait(old(Abs()), who, semFd).state && ret == DoTryWait(old(Abs()), who, semFd).ret
    {
      hide PoolInv, NT.Refines, SlotsOk, NamesOk;
      CountKeeps(Abs(), who, semFd, 0);
      SetErrno(Ok);
      var member := IsMember(semFd, who);
      if !member {
        SetErrno(EINVAL);
        return -1;
      }
      if semArray[semFd].semCount <= 0 {
        SetErrno(EAGAIN);
        return -1;
      }
      SetCount(semFd, semArray[semFd].semCount - 1);
      ret := 0;
    }

    method SemGetValue(semFd: int, current: int) returns (ret: int, value: int)
      requires Valid()
      modifies `errno
      ensures Valid()
      ensures Abs() == DoGetValue(old(Abs()), who, semFd, current).0.state
      ensures ret == DoGetValue(old(Abs()), who, semFd, current).0.ret
              && value == DoGetValue(old(Abs()), who, semFd, current).1
    {
      hide PoolInv, NT.Refines, SlotsOk, NamesOk;
      var member := IsMember(semFd, who);
      if !member {
        SetErrno(EINVAL);
        return -1, current;
      }
      ret, value := 0, semArray[semFd].semCount;
    }

    /** ListToBegin, ListGetElement and ListRemoveFirst on the blocked list of slot i; `proc`
        keeps what it held when the list is empty. */
    method PopBlocked(i: nat, proc: int) returns (p: int)
      requires Shape() && i < INITIAL_SEM && semArray[i].refCount != 0
      modifies pool.Repr()
      ensures Shape()
      ensures var b := old(Abs()).sems[i].blocked;
              && p == (if b == [] then proc else b[0])
              && Abs() == old(Abs()).(sems :=
                   old(Abs()).sems[i := old(Abs()).sems[i].(blocked := if b == [] then b else b[1..])])
    {
      hide PoolInv, NT.Refines, AbsSems, AllValues;
      ghost var slots, v, ls := semArray[..], pool.Contents(), pool.lists[..];
      assert SlotRep(slots[i], i, ls);
      var l := semArray[i].blockedList;
      pool.ListToBegin(l);
      var r: LP.ListResult;
      r, p := pool.ListGetElement(l, 0, proc);
      r := pool.ListRemoveFirst(l);
      RepUpdate(slots, ls, i, semArray[i], pool.lists[..]);
      assert slots == slots[i := slots[i]];
      AbsIs(slots, v, i, v[2 * i], if v[2 * i + 1] == [] then [] else v[2 * i + 1][1..]);
    }

    /** Fills the outgoing message. */
    method SetAnswer(rta: int, param1: int, param2: int, params: nat)
      modifies `out
      ensures out == Answer(old(out), rta, param1, param2, params)
    {
      if params >= 3 { out := out.(param2 := param2); }
      if params >= 2 { out := out.(param1 := param1); }
      out := out.(rta := rta);
    }

    /** `reply`: sends the outgoing message. */
    method SendReply(whom: int, result: Errno)
      modifies `sent
      ensures sent == old(sent) + [Reply(whom, out, result)]
    {
      sent := sent + [Reply(whom, out, result)];
    }

    method SemWake(proc: int, rta: int)
      modifies `out, `sent
      ensures out == Answer(old(out), rta, 0, 0, 1) && sent == old(sent) + [Reply(proc, out, errno)]
    {
      SetAnswer(rta, 0, 0, 1);
      SendReply(proc, errno);
    }

    /** The branch of sem_post that wakes the first sleeper. */
    method WakeFirst(i: nat, junk: int)
      requires Shape() && i < INITIAL_SEM && semArray[i].refCount != 0
      modifies `out, `sent, pool.Repr()
      ensures Shape()
      ensures var b := old(Abs()).sems[i].blocked;
              && sent == old(sent) + Wakes([if b == [] then junk else b[0]], old(out), errno)
              && out == Answer(old(out), 0, 0, 0, 1)
              && Abs() == old(Abs()).(out := out,
                   sems := old(Abs()).sems[i := old(Abs()).sems[i].(blocked := if b == [] then b else b[1..])])
    {
      hide PoolInv, NT.Refines, Rep;
      var proc := PopBlocked(i, junk);
      SemWake(proc, 0);
    }

    /** sem_post once the caller has been found to be a member. */
    method PostOn(i: nat, junk: int)
      requires Shape() && i < INITIAL_SEM && semArray[i].refCount != 0 && errno == Ok
      modifies `out, `sent, semArray, pool.Repr()
      ensures Shape()
      ensures var m := old(Abs()).sems[i];
              var woken := if m.count >= 0 then [] else [if m.blocked == [] then junk else m.blocked[0]];
              && sent == old(sent) + Wakes(woken, old(out), Ok)
              && out == (if woken == [] then old(out) else Answer(old(out), 0, 0, 0, 1))
              && Abs() == old(Abs()).(out := out, sems := old(Abs()).sems[i :=
                   m.(count := m.count + 1, blocked := if m.count < 0 && m.blocked != [] then m.blocked[1..]
                       else m.blocked)])
    {
      hide PoolInv, NT.Refines, Rep, Wakes;
      NoWakes(out);
      if semArray[i].semCount < 0 { WakeFirst(i, junk); }
      SetCount(i, semArray[i].semCount + 1);
    }

    /** `proc` is the local variable of sem_post, uninitialised on entry. */
    method SemPost(semFd: int, junk: int) returns (ret: int)
      requires Valid()
      modifies `errno, `out, `sent, semArray, pool.Repr()
      ensures Valid()
      ensures var r := DoPost(old(Abs()), who, semFd, junk);
              && Abs() == r.state.(out := out) && ret == r.ret
              && out == (if r.woken == [] then old(out) else Answer(old(out), 0, 0, 0, 1))
              && sent == old(sent) + Wakes(r.woken, old(out), Ok)
    {
      hide PoolInv, NT.Refines, SlotsOk, NamesOk, Rep, Wakes, AbsSems, AllValues;
      ghost var s := Abs();
      CountKeeps(s, who, semFd, junk);
      MembersAreLive(s, semFd, who);
      NoWakes(out);
      SetErrno(Ok);
      var member := IsMember(semFd, who);
      if !member {
        SetErrno(EINVAL);
        return -1;
      }
      PostOn(semFd, junk);
      OutIrrelevant(DoPost(s, who, semFd, junk).state, Abs());
      ret := 0;
    }

    method SemOpenAll(parent: int, child: int)
      requires Valid()
      modifies semArray, pool.Repr()
      ensures Valid() && Abs() == DoOpenAll(old(Abs()), parent, child)
      ensures GrewTo(old(pool.chains), pool.chains, INITIAL_SEM)
    {
      hide PoolInv, NT.Refines, SlotsOk, NamesOk, Rep, OpenFrom, AbsSems, AllValues, Pushed;
      for i := 0 to INITIAL_SEM
        invariant Valid() && OpenFrom(Abs(), parent, child, i) == OpenFrom(old(Abs()), parent, child, 0)
        invariant GrewTo(old(pool.chains), pool.chains, i)
      {
        ghost var mid := pool.chains;
        OpenOneKeeps(Abs(), parent, child, i);
        OpenFromUnfold(Abs(), parent, child, i);
        MembersAreLive(Abs(), i, parent);
        var member := IsMember(i, parent);
        if member { JoinSlot(i, child); }
        GrewOn(old(pool.chains), mid, pool.chains, i);
      }
      OpenFromEnd(Abs(), parent, child);
    }

    /** Closes every slot on behalf of p, borrowing `who`. */
    method SemCloseAll(p: int)
      requires Valid()
      modifies `errno, `who, semArray, pool.Repr()
      ensures Valid() && Abs() == DoCloseAll(old(Abs()), p) && who == old(who)
      ensures AllLeft(old(Abs()), p) ==> ClosedTo(old(Abs()), p, old(pool.chains), pool.chains, INITIAL_SEM)
    {
      hide PoolInv, NT.Refines, SlotsOk, NamesOk, Rep, CloseFrom, DoClose, ClosedChain, ClosedTo, LeftWithout, AllLeft,
          AsBefore;
      var whoBk := who;
      who := p;
      CloseBegins(old(Abs()), p, old(pool.chains));
      for i := 0 to INITIAL_SEM
        invariant Valid() && CloseFrom(Abs(), p, i) == CloseFrom(old(Abs()), p, 0) && who == p
        invariant AsBefore(old(Abs()), Abs(), i)
        invariant AllLeft(old(Abs()), p) ==> ClosedTo(old(Abs()), p, old(pool.chains), pool.chains, i)
      {
        CloseFromUnfold(Abs(), p, i);
        CloseOn(old(Abs()), Abs(), p, old(pool.chains), pool.chains, i);
        var _ := SemClose(i);
      }
      CloseFromEnd(Abs(), p);
      who := whoBk;
    }

    /** Fork and then exit: the child takes nodes from the pool and gives back the very same ones, so that every
        list is the chain of nodes that it was, and the same nodes and elements are busy. */
    method ForkThenExit(parent: int, child: int)
      requires Valid() && parent != child && forall k | 0 <= k < INITIAL_SEM :: child !in Abs().sems[k].openers
      modifies `errno, `who, semArray, pool.Repr()
      ensures Valid() && Abs() == DoCloseAll(DoOpenAll(old(Abs()), parent, child), child)
      ensures pool.chains == old(pool.chains)
      ensures forall n | 0 <= n < MAX_NODES ::
              pool.nodes[n].busy == old(pool.nodes[n].busy) && pool.elements[n].busy == old(pool.elements[n].busy)
    {
      ghost var s, ch := Abs(), pool.chains;
      pool.BusyIsChained();
      ChainSizes();
      hide PoolInv, NT.Refines, Rep, AbsSems, AllValues, SlotsOk, NamesOk, GrewTo, ClosedTo, AllLeft, Sized;
      SemOpenAll(parent, child);
      ghost var mid := pool.chains;
      ForkLeaves(s, parent, child);
      ChainSizes();
      SemCloseAll(child);
      BackAgain(s, parent, child, ch, mid, pool.chains);
      pool.BusyIsChained();
    }

    /** One call of semaphore_entry up to the point where it answers. */
    method Dispatch(e: Event) returns (ret: int, param1: int, param2: int, params: nat)
      requires Valid() && !FromManager(e.call) && who == e.who && !dontReply && !DestroysNamed(Abs(), e)
      modifies `errno, `dontReply, `out, `sent, semArray, pool.Repr(), semNameMap, semNameMap.entries
      ensures Valid()
      ensures var o := Operate(old(Abs()), e);
              && Abs() == o.result.state.(out := out) && ret == o.result.ret && dontReply == o.result.withheld
              && param1 == o.param1 && param2 == o.param2 && params == o.params
              && out == (if o.result.woken == [] then old(out) else Answer(old(out), 0, 0, 0, 1))
              && sent == old(sent) + Wakes(o.result.woken, old(out), Ok)
    {
      hide PoolInv, NT.Refines, SlotsOk, NamesOk, Rep, Wakes, DoOpen, DoClose, DoInit, DoWait, DoPost, DoUnlink,
          DoGetValue, DoTryWait, DoDestroy;
      ghost var s := Abs();
      EffectsOf(s, e);
      NoWakes(out);
      param1, param2, params := 0, 0, 1;
      match e.call {
        case Open(name, creat, excl, value) =>
          ret := SemOpen(name, creat, excl, value);
        case Close(h) =>
          ret := SemClose(h);
          param1, params := h, 2;
        case Init(h, value) =>
          ret, param1 := SemInit(h, value);
          params := 2;
        case Wait(h) =>
          ret := SemWait(h);
          param1, params := h, 2;
        case Post(h) =>
          ret := SemPost(h, e.junk);
          param1, params := h, 2;
        case Unlink(name) =>
          ret := SemUnlink(name);
        case GetValue(h, current) =>
          ret, param2 := SemGetValue(h, current);
          param1, params := h, 3;
        case TryWait(h) =>
          ret := SemTryWait(h);
          param1, params := h, 2;
        case Destroy(h) =>
          ret := SemDestroy(h);
          param1, params := h, 2;
      }
    }

    /** The calls of the memory manager; anyone else gets EGENERIC. */
    method ServeManager(e: Event) returns (error: Errno)
      requires Valid() && FromManager(e.call) && who == e.who
      modifies `errno, `who, semArray, pool.Repr()
      ensures Valid() && who == old(who)
      ensures e.who != MM_PROC_NR ==> error == EGENERIC && Abs() == old(Abs())
      ensures e.who == MM_PROC_NR ==> error == Ok && Abs() == Manage(old(Abs()), e.call)
    {
      hide PoolInv, NT.Refines, SlotsOk, NamesOk, Rep, OpenFrom, CloseFrom;
      if who != MM_PROC_NR { return EGENERIC; }
      match e.call {
        case Fork(parent, child) => SemOpenAll(parent, child);
        case Exec(p) => SemCloseAll(p);
        case Exit(p) => SemCloseAll(p);
      }
      error := Ok;
    }

    /** semaphore_entry: the operation, the answer, and errno for a failure. */
    method SemaphoreEntry(e: Event) returns (error: Errno)
      requires Valid() && !FromManager(e.call) && who == e.who && !dontReply && !DestroysNamed(Abs(), e)
      modifies `errno, `dontReply, `out, `sent, semArray, pool.Repr(), semNameMap, semNameMap.entries
      ensures Valid()
      ensures var o := Operate(old(Abs()), e);
              && Abs() == o.result.state.(out := out) && dontReply == o.result.withheld
              && out == Answer(old(out), o.result.ret, o.param1, o.param2, o.params)
              && error == (if o.result.ret == -1 then o.result.state.errno else Ok)
              && sent == old(sent) + Wakes(o.result.woken, old(out), Ok)
    {
      hide PoolInv, NT.Refines, SlotsOk, NamesOk, Rep, Wakes, Operate, Answer;
      var ret, param1, param2, params := Dispatch(e);
      AnswerTwice(old(out), ret, param1, param2, params);
      ghost var before := Abs();
      SetAnswer(ret, param1, param2, params);
      OutIrrelevant(before, Abs());
      error := if ret == -1 then errno else Ok;
    }

    /** One iteration of the main loop: dispatch, answer, and reply unless the caller blocked. */
    method ServeRequest(e: Event)
      requires Valid() && !DestroysNamed(Abs(), e)
      modifies Repr()
      ensures Valid()
      ensures Abs() == Serve(old(Abs()), e).state
      ensures sent == old(sent) + Serve(old(Abs()), e).replies
    {
      hide PoolInv, NT.Refines, SlotsOk, NamesOk, Rep, Wakes, Operate, Manage, Answer;
      ghost var s := Abs();
      who, dontReply := e.who, false;
      var error: Errno;
      if FromManager(e.call) {
        ManagerTouchesNoMessage(s, e.call);
        error := ServeManager(e);
      } else {
        EffectsOf(s, e);
        WakersSucceed(s, e);
        error := SemaphoreEntry(e);
      }
      if dontReply { return; }
      SendReply(who, error);
    }

    /** The main loop over any finite stretch of requests. */
    method ServeAll(es: seq<Event>)
      requires Valid() && Lawful(Abs(), es)
      modifies Repr()
      ensures Valid()
      ensures Abs() == Run(old(Abs()), es).state
      ensures sent == old(sent) + Run(old(Abs()), es).replies
    {
      hide PoolInv, NT.Refines, SlotsOk, NamesOk, Rep, Serve, Run;
      ghost var s0 := Abs();
      for i := 0 to |es|
        invariant Valid() && Lawful(Abs(), es[i..])
        invariant Run(s0, es).state == Run(Abs(), es[i..]).state
        invariant old(sent) + Run(s0, es).replies == sent + Run(Abs(), es[i..]).replies
      {
        RunUnfold(Abs(), es[i..]);
        assert es[i..][1..] == es[i + 1..];
        ServeRequest(es[i]);
      }
      RunEnd(Abs());
    }
  }

  lemma RunUnfold(s: State, es: seq<Event>)
    requires es != []
    ensures Run(s, es).state == Run(Serve(s, es[0]).state, es[1..]).state
    ensures Run(s, es).replies == Serve(s, es[0]).replies + Run(Serve(s, es[0]).state, es[1..]).replies
  {}

  lemma RunEnd(s: State)
    ensures Run(s, []) == Step(s, [])
  {}

  lemma AnswerTwice(out: Message, rta: int, param1: int, param2: int, params: nat)
    ensures Answer(Answer(out, 0, 0, 0, 1), rta, param1, param2, params) == Answer(out, rta, param1, param2, params)
  {}

  /** A post that wakes someone has errno clear when it does so. */
  lemma WakersSucceed(s: State, e: Event)
    requires !FromManager(e.call)
    ensures var r := Operate(s, e).result; Wakes(r.woken, r.state.out, r.state.errno) == Wakes(r.woken, s.out, Ok)
  {}

  lemma ManagerTouchesNoMessage(s: State, call: Call)
    requires FromManager(call) && |s.sems| == INITIAL_SEM
    ensures Manage(s, call).out == s.out
  {
    match call {
      case Fork(parent, child) => OpenFromSlots(s, parent, child, 0);
      case Exec(p) => CloseFromSlots(s, p, 0);
      case Exit(p) => CloseFromSlots(s, p, 0);
    }
  }

  lemma OpenFromUnfold(s: State, parent: int, child: int, i: nat)
    requires i < |s.sems|
    ensures OpenFrom(s, parent, child, i) == OpenFrom(OpenOne(s, parent, child, i), parent, child, i + 1)
  {}

  lemma OpenFromEnd(s: State, parent: int, child: int)
    ensures OpenFrom(s, parent, child, |s.sems|) == s
  {}

  lemma CloseFromUnfold(s: State, p: int, i: nat)
    requires i < |s.sems|
    ensures CloseFrom(s, p, i) == CloseFrom(DoClose(s, p, i).state, p, i + 1)
  {}

  lemma CloseFromEnd(s: State, p: int)
    ensures CloseFrom(s, p, |s.sems|) == s
  {}
}
