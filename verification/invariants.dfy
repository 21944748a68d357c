/** What every request keeps: the shape of the slots, the bound on pool nodes, and the
    one-to-one correspondence between bound names and linked slots. */
module Invariants {
  import opened PoolModel
  import opened NameTable
  import opened Machine

  /** A free slot has empty lists; ref_count is at least the number of list entries. */
  predicate SlotOk(m: Sem) {
    && (!Live(m) ==> m.openers == [] && m.blocked == [])
    && |m.openers| <= m.refCount
  }

  predicate Named(m: Sem) { Live(m) && !m.unlinked }

  ghost predicate SlotsOk(s: State) {
    && |s.sems| == INITIAL_SEM
    && (forall k | 0 <= k < INITIAL_SEM :: SlotOk(s.sems[k]))
    && Used(s.sems, INITIAL_SEM) <= MAX_NODES
  }

  ghost predicate BoundToLinked(s: State, n: string)
    requires n in s.names
  {
    IsHandle(s.names[n]) && s.names[n] < |s.sems| && Named(s.sems[s.names[n]])
  }

  /** Every bound name has a linked slot of its own, and every linked slot has a name. */
  ghost predicate NamesOk(s: State) {
    && (forall n | n in s.names :: BoundToLinked(s, n))
    && (forall n, n' | n in s.names && n' in s.names && n != n' :: s.names[n] != s.names[n'])
    && (forall k | 0 <= k < |s.sems| && Named(s.sems[k]) :: k in s.names.Values)
  }

  ghost predicate Inv(s: State) { SlotsOk(s) && NamesOk(s) }

  function Size(m: Sem): nat { |m.openers| + |m.blocked| }

  lemma {:induction false} UsedUpdate(sems: seq<Sem>, k: nat, m: Sem, n: nat)
    requires k < |sems| && n <= |sems|
    ensures Used(sems[k := m], n) == Used(sems, n) + if k < n then Size(m) - Size(sems[k]) else 0
  {
    if n > 0 { UsedUpdate(sems, k, m, n - 1); }
  }

  lemma {:induction false} RemoveFirstSize(v: seq<int>, x: int)
    ensures |RemoveFirst(v, x)| == if x in v then |v| - 1 else |v|
  {
    if v != [] { RemoveFirstSize(v[1..], x); }
  }

  /** Changing one slot keeps the slot invariant as long as the slot is fine and does not grow
      a full pool. */
  lemma SlotUpdate(s: State, s': State, k: nat, m: Sem)
    requires SlotsOk(s) && k < INITIAL_SEM && s'.sems == s.sems[k := m]
    requires SlotOk(m) && (Size(m) <= Size(s.sems[k]) || (Size(m) == Size(s.sems[k]) + 1 && !Full(s)))
    ensures SlotsOk(s')
  {
    UsedUpdate(s.sems, k, m, INITIAL_SEM);
  }

  /** A slot that stays linked, or unlinked, under its old name leaves the name map alone. */
  lemma NamesUpdate(s: State, s': State, k: nat, m: Sem)
    requires NamesOk(s) && k < |s.sems| && s'.sems == s.sems[k := m] && s'.names == s.names
    requires Named(m) == Named(s.sems[k])
    ensures NamesOk(s')
  {}

  lemma NamedIsLive(s: State, n: string)
    requires NamesOk(s) && n in s.names
    ensures IsHandle(s.names[n]) && s.names[n] < |s.sems| && Live(s.sems[s.names[n]])
  {}

  lemma MembersAreLive(s: State, h: int, p: int)
    requires SlotsOk(s)
    ensures Member(s, h, p) ==> Live(s.sems[h])
  {}

  lemma CreateKeeps(s: State, who: int, handle: int, value: nat)
    requires Inv(s)
    ensures var (r, fd) := Create(s, who, handle, value);
            && SlotsOk(r.state) && r.state.names == s.names
            && (r.ret == -1 ==> NamesOk(r.state))
            && (r.ret != -1 ==>
                  && 0 <= fd < INITIAL_SEM && !Live(s.sems[fd])
                  && r.state.sems == s.sems[fd := r.state.sems[fd]] && Named(r.state.sems[fd]))
  {
    var i := FirstFree(s.sems, 0);
    var (r, fd) := Create(s, who, handle, value);
    if i < |s.sems| {
      assert SlotOk(s.sems[i]);
      SlotUpdate(s, r.state, i, r.state.sems[i]);
      if r.ret == -1 { NamesUpdate(s, r.state, i, r.state.sems[i]); }
    }
  }

  lemma OpenKeeps(s: State, who: int, name: string, creat: bool, excl: bool, value: nat)
    requires Inv(s)
    ensures Inv(DoOpen(s, who, name, creat, excl, value).state)
  {
    var s0, key, s' := s.(errno := Ok), Clip(name), DoOpen(s, who, name, creat, excl, value).state;
    assert NamesOk(s0) by { forall n | n in s0.names ensures BoundToLinked(s0, n) { assert BoundToLinked(s, n); } }
    if key in s.names {
      assert BoundToLinked(s, key);
      var fd := s.names[key];
      if s'.sems != s.sems {
        SlotUpdate(s, s', fd, s'.sems[fd]);
        NamesUpdate(s, s', fd, s'.sems[fd]);
      }
    } else if creat && !excl && |name| <= PATH_MAX {
      CreateKeeps(s0, who, -1, value);
      var (r, fd) := Create(s0, who, -1, value);
      if r.ret != -1 {
        NamesFit(s);
        BindKeepsNames(s0, s', fd, key);
      }
    }
  }

  /** Binding a fresh name to a slot that was free and is now linked. */
  lemma BindKeepsNames(s: State, s': State, k: nat, key: string)
    requires NamesOk(s) && k < |s.sems| && IsHandle(k) && key !in s.names && !Live(s.sems[k])
    requires |s'.sems| == |s.sems| && s'.sems == s.sems[k := s'.sems[k]] && Named(s'.sems[k])
             && s'.names == s.names[key := k]
    ensures NamesOk(s')
  {
    forall n | n in s'.names ensures BoundToLinked(s', n) {
      if n != key { assert BoundToLinked(s, n); }
    }
    forall n | n in s.names ensures s.names[n] != k { assert BoundToLinked(s, n); }
    forall j | 0 <= j < |s'.sems| && Named(s'.sems[j]) ensures j in s'.names.Values {
      if j == k {
        assert s'.names[key] == k;
      } else {
        var n :| n in s.names && s.names[n] == j;
        assert s'.names[n] == j;
      }
    }
  }

  /** At most ten names are bound, so the table of forty entries is never full. */
  lemma NamesFit(s: State)
    requires Inv(s)
    ensures |s.names| <= INITIAL_SEM < MAX_HASH_ELEM
  {
    forall n | n in s.names ensures IsHandle(s.names[n]) { assert BoundToLinked(s, n); }
    InjectiveSize(s.names, INITIAL_SEM);
  }

  lemma {:induction false} InjectiveSize(m: map<string, int>, n: nat)
    requires forall k | k in m :: 0 <= m[k] < n
    requires forall k, k' | k in m && k' in m && k != k' :: m[k] != m[k']
    ensures |m| <= n
  {
    if k :| k in m {
      var rest := map j | j in m && j != k :: if m[j] == n - 1 then m[k] else m[j];
      assert m.Keys == rest.Keys + {k};
      InjectiveSize(rest, n - 1);
    } else {
      assert m == map[];
    }
  }

  lemma InitKeeps(s: State, who: int, handle: int, value: nat)
    requires Inv(s)
    ensures Inv(DoInit(s, who, handle, value).0.state)
  {
    CreateKeeps(s, who, handle, value);
    var (r, fd) := Create(s, who, handle, value);
    if r.ret != -1 {
      var s' := DoInit(s, who, handle, value).0.state;
      assert SlotOk(r.state.sems[fd]);
      SlotUpdate(r.state, s', fd, s'.sems[fd]);
      NamesUpdate(s, s', fd, s'.sems[fd]);
    }
  }

  lemma UnlinkKeeps(s: State, who: int, name: string)
    requires Inv(s)
    ensures Inv(DoUnlink(s, who, name).state)
  {
    var key, s' := Clip(name), DoUnlink(s, who, name).state;
    if s'.names == s.names {
      forall n | n in s'.names ensures BoundToLinked(s', n) { assert BoundToLinked(s, n); }
    } else {
      var fd := s.names[key];
      assert SlotOk(s.sems[fd]);
      SlotUpdate(s, s', fd, s'.sems[fd]);
      forall n | n in s'.names ensures BoundToLinked(s', n) { assert BoundToLinked(s, n); }
      forall j | 0 <= j < |s'.sems| && Named(s'.sems[j]) ensures j in s'.names.Values {
        var n :| n in s.names && s.names[n] == j;
        assert s'.names[n] == j;
      }
    }
  }

  lemma CloseKeeps(s: State, who: int, h: int)
    requires Inv(s)
    ensures Inv(DoClose(s, who, h).state)
  {
    var s' := DoClose(s, who, h).state;
    if Member(s, h, who) {
      RemoveFirstSize(s.sems[h].openers, who);
      assert SlotOk(s.sems[h]);
      SlotUpdate(s, s', h, s'.sems[h]);
      NamesUpdate(s, s', h, s'.sems[h]);
    } else {
      forall n | n in s'.names ensures BoundToLinked(s', n) { assert BoundToLinked(s, n); }
    }
  }

  /** sem_wait, sem_trywait and sem_post change one slot's count and blocked list. */
  lemma CountKeeps(s: State, who: int, h: int, junk: int)
    requires Inv(s)
    ensures Inv(DoWait(s, who, h).state) && Inv(DoTryWait(s, who, h).state) && Inv(DoPost(s, who, h, junk).state)
  {
    if Member(s, h, who) {
      assert SlotOk(s.sems[h]);
      TouchKeeps(s, DoWait(s, who, h).state, h);
      TouchKeeps(s, DoTryWait(s, who, h).state, h);
      TouchKeeps(s, DoPost(s, who, h, junk).state, h);
    } else {
      SameSlotsKeep(s, Fail(s, EINVAL).state);
    }
  }

  lemma SameSlotsKeep(s: State, s': State)
    requires Inv(s) && s'.sems == s.sems && s'.names == s.names
    ensures Inv(s')
  {}

  lemma TouchKeeps(s: State, s': State, h: nat)
    requires Inv(s) && h < INITIAL_SEM && |s'.sems| == |s.sems| && s'.sems == s.sems[h := s'.sems[h]]
             && s'.names == s.names
    requires var m, m' := s.sems[h], s'.sems[h];
             && Live(m) && m' == m.(count := m'.count, blocked := m'.blocked)
             && (|m'.blocked| <= |m.blocked| || m'.blocked == Push(s, m.blocked, m'.blocked[0]))
    ensures Inv(s')
  {
    assert SlotOk(s.sems[h]);
    SlotUpdate(s, s', h, s'.sems[h]);
    NamesUpdate(s, s', h, s'.sems[h]);
  }

  /** The destroy that the manual page rules out: a successful one on a slot that still has a name. */
  predicate DestroysNamed(s: State, e: Event) {
    && e.call.Destroy? && Member(s, e.call.handle, e.who)
    && s.sems[e.call.handle].blocked == [] && !s.sems[e.call.handle].unlinked
  }

  lemma DestroyKeeps(s: State, e: Event)
    requires Inv(s) && e.call.Destroy?
    ensures SlotsOk(DoDestroy(s, e.who, e.call.handle).state)
    ensures NamesOk(DoDestroy(s, e.who, e.call.handle).state) <==> !DestroysNamed(s, e)
  {
    var h, s' := e.call.handle, DoDestroy(s, e.who, e.call.handle).state;
    if s'.sems == s.sems {
      SameSlotsKeep(s, s');
      if Member(s, h, e.who) { assert SlotOk(s.sems[h]); }
    } else {
      assert SlotOk(s.sems[h]);
      SlotUpdate(s, s', h, s'.sems[h]);
      if s.sems[h].unlinked {
        NamesUpdate(s, s', h, s'.sems[h]);
      } else {
        assert Named(s.sems[h]);
        var n :| n in s.names && s.names[n] == h;
        assert !BoundToLinked(s', n);
      }
    }
  }

  lemma OpenOneKeeps(s: State, parent: int, child: int, i: nat)
    requires Inv(s) && i < INITIAL_SEM
    ensures Inv(OpenOne(s, parent, child, i))
  {
    var s' := OpenOne(s, parent, child, i);
    if parent in s.sems[i].openers {
      assert SlotOk(s.sems[i]);
      SlotUpdate(s, s', i, s'.sems[i]);
      NamesUpdate(s, s', i, s'.sems[i]);
    }
  }

  lemma {:induction false} OpenFromKeeps(s: State, parent: int, child: int, i: nat)
    requires Inv(s) && i <= INITIAL_SEM
    ensures Inv(OpenFrom(s, parent, child, i))
    decreases INITIAL_SEM - i
  {
    if i < INITIAL_SEM {
      OpenOneKeeps(s, parent, child, i);
      OpenFromKeeps(OpenOne(s, parent, child, i), parent, child, i + 1);
    }
  }

  lemma {:induction false} CloseFromKeeps(s: State, p: int, i: nat)
    requires Inv(s) && i <= INITIAL_SEM
    ensures Inv(CloseFrom(s, p, i))
    decreases INITIAL_SEM - i
  {
    if i < INITIAL_SEM {
      CloseKeeps(s, p, i);
      CloseFromKeeps(DoClose(s, p, i).state, p, i + 1);
    }
  }

  /** The state a request leaves, before the reply message is filled. */
  function ServeCore(s: State, e: Event): State {
    if !FromManager(e.call) then Operate(s, e).result.state
    else if e.who != MM_PROC_NR then s else Manage(s, e.call)
  }

  lemma ServeIsCore(s: State, e: Event)
    ensures Serve(s, e).state == ServeCore(s, e).(out := Serve(s, e).state.out)
  {}

  lemma CoreKeepsInv(s: State, e: Event)
    requires Inv(s)
    ensures SlotsOk(ServeCore(s, e))
    ensures Inv(ServeCore(s, e)) <==> !DestroysNamed(s, e)
  {
    hide SlotsOk, NamesOk, DoOpen, DoClose, DoInit, DoWait, DoPost, DoUnlink, DoGetValue, DoTryWait, DoDestroy,
        OpenFrom, CloseFrom;
    match e.call {
      case Open(name, creat, excl, value) => OpenKeeps(s, e.who, name, creat, excl, value);
      case Close(h) => CloseKeeps(s, e.who, h);
      case Init(h, value) => InitKeeps(s, e.who, h, value);
      case Wait(h) => CountKeeps(s, e.who, h, e.junk);
      case Post(h) => CountKeeps(s, e.who, h, e.junk);
      case Unlink(name) => UnlinkKeeps(s, e.who, name);
      case GetValue(h, current) => GetValueKeeps(s, e.who, h, current);
      case TryWait(h) => CountKeeps(s, e.who, h, e.junk);
      case Destroy(h) => DestroyKeeps(s, e);
      case Fork(parent, child) => OpenFromKeeps(s, parent, child, 0);
      case Exec(p) => CloseFromKeeps(s, p, 0);
      case Exit(p) => CloseFromKeeps(s, p, 0);
    }
  }

  lemma GetValueKeeps(s: State, who: int, h: int, current: int)
    requires Inv(s)
    ensures Inv(DoGetValue(s, who, h, current).0.state)
  {}

  /** Every request keeps the invariant, except exactly the destroy of a slot that still has a name. */
  lemma ServeKeepsInv(s: State, e: Event)
    requires Inv(s)
    ensures SlotsOk(Serve(s, e).state)
    ensures Inv(Serve(s, e).state) <==> !DestroysNamed(s, e)
  {
    CoreKeepsInv(s, e);
    ServeIsCore(s, e);
    OutIrrelevant(ServeCore(s, e), Serve(s, e).state);
  }

  lemma OutIrrelevant(s: State, s': State)
    requires s'.sems == s.sems && s'.names == s.names
    ensures SlotsOk(s) ==> SlotsOk(s')
    ensures NamesOk(s) <==> NamesOk(s')
  {}

  /** Only sem_post wakes, and one process at most; only sem_wait withholds its reply; no operation
      touches the message. */
  lemma EffectsOf(s: State, e: Event)
    requires !FromManager(e.call)
    ensures var r := Operate(s, e).result;
            && |r.woken| <= 1 && (r.woken != [] ==> e.call.Post?)
            && (r.withheld ==> e.call.Wait?)
            && r.state.out == s.out
  {}

  /** No request of the run destroys a slot that still has a name. */
  predicate Lawful(s: State, es: seq<Event>)
    decreases |es|
  {
    es == [] || (!DestroysNamed(s, es[0]) && Lawful(Serve(s, es[0]).state, es[1..]))
  }

  /** Names and linked slots correspond one to one after every prefix of a run precisely when
      the run destroys no slot that still has a name. */
  lemma {:induction false} RunKeepsInvIff(s: State, es: seq<Event>)
    requires Inv(s)
    ensures Lawful(s, es) <==> forall i | 0 <= i <= |es| :: Inv(Run(s, es[..i]).state)
    decreases |es|
  {
    if es != [] {
      var s1 := Serve(s, es[0]).state;
      ServeKeepsInv(s, es[0]);
      forall i | 1 <= i <= |es| ensures Run(s, es[..i]).state == Run(s1, es[1..][..i - 1]).state {
        assert es[..i][0] == es[0] && es[..i][1..] == es[1..][..i - 1];
      }
      if !DestroysNamed(s, es[0]) {
        RunKeepsInvIff(s1, es[1..]);
        if Lawful(s1, es[1..]) {
          forall i | 0 <= i <= |es| ensures Inv(Run(s, es[..i]).state) {
            if i > 0 { assert Inv(Run(s1, es[1..][..i - 1]).state); }
          }
        } else {
          var i :| 0 <= i <= |es[1..]| && !Inv(Run(s1, es[1..][..i]).state);
          assert !Inv(Run(s, es[..i + 1]).state);
        }
      } else {
        assert es[..1] == [es[0]] && Run(s, es[..1]).state == s1;
      }
    }
  }

  lemma InitialOk()
    ensures Inv(INITIAL)
  {
    assert forall k | 0 <= k < INITIAL_SEM :: INITIAL.sems[k] == FREE_SEM;
    UsedOfFree(INITIAL.sems, INITIAL_SEM);
  }

  lemma {:induction false} UsedOfFree(sems: seq<Sem>, n: nat)
    requires n <= |sems| && forall k | 0 <= k < n :: Size(sems[k]) == 0
    ensures Used(sems, n) == 0
  {
    if n > 0 { UsedOfFree(sems, n - 1); }
  }
}
