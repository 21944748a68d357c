/** Handles, names and processes over time: what fork, exec, exit, close, unlink and destroy do to
    memberships, and when a handle keeps meaning the same semaphore. */
module Lifecycle {
  import opened PoolModel
  import opened NameTable
  import opened Machine
  import opened Invariants
  import opened Runs
  import A = Accounting

  // ---- fork, exec, exit ----

  /** sem_close as seen by one slot. */
  function CloseSlot(m: Sem, p: int): Sem {
    if p !in m.openers then m
    else
      var rest := RemoveFirst(m.openers, p);
      if m.unlinked && rest == [] then m.(refCount := 0, openers := [], blocked := []) else m.(openers := rest)
  }

  lemma CloseOneSlot(s: State, p: int, i: nat)
    requires |s.sems| == INITIAL_SEM && i < INITIAL_SEM
    ensures var s1 := DoClose(s, p, i).state;
            && s1.sems == s.sems[i := CloseSlot(s.sems[i], p)] && s1.names == s.names && s1.out == s.out
            && s1.errno == if p !in s.sems[i].openers then EINVAL else s.errno
  {
    hide RemoveFirst;
  }

  /** p is missing from one of the slots from i on. */
  ghost predicate Misses(s: State, p: int, i: nat) {
    exists k :: i <= k < |s.sems| && p !in s.sems[k].openers
  }

  lemma MissesStep(s: State, s1: State, p: int, i: nat)
    requires i < |s.sems| && s1.sems == s.sems[i := CloseSlot(s.sems[i], p)]
    ensures Misses(s, p, i) <==> p !in s.sems[i].openers || Misses(s1, p, i + 1)
  {
    hide CloseSlot;
    if Misses(s1, p, i + 1) {
      var k :| i + 1 <= k < |s1.sems| && p !in s1.sems[k].openers;
      assert s1.sems[k] == s.sems[k];
    }
    if Misses(s, p, i) {
      var k :| i <= k < |s.sems| && p !in s.sems[k].openers;
      assert k == i || s1.sems[k] == s.sems[k];
    }
  }

  /** sem_close_all acts on each slot alone. */
  lemma {:induction false} CloseFromSlots(s: State, p: int, i: nat)
    requires |s.sems| == INITIAL_SEM && i <= INITIAL_SEM
    ensures var s' := CloseFrom(s, p, i);
            && s'.names == s.names && s'.out == s.out
            && (forall k | 0 <= k < INITIAL_SEM :: s'.sems[k] == if k < i then s.sems[k] else CloseSlot(s.sems[k], p))
            && (s'.errno == if Misses(s, p, i) then EINVAL else s.errno)
    decreases INITIAL_SEM - i
  {
    if i < INITIAL_SEM {
      var s1 := DoClose(s, p, i).state;
      CloseOneSlot(s, p, i);
      MissesStep(s, s1, p, i);
      CloseFromSlots(s1, p, i + 1);
      hide CloseSlot, DoClose, Misses;
    }
  }

  /** sem_open_all: each slot of the parent counts one more reference and, if the pool has a node,
      one more opener. */
  lemma {:induction false} OpenFromSlots(s: State, parent: int, child: int, i: nat)
    requires |s.sems| == INITIAL_SEM && i <= INITIAL_SEM
    ensures var s' := OpenFrom(s, parent, child, i);
            && s'.names == s.names && s'.out == s.out && s'.errno == s.errno
            && forall k | 0 <= k < INITIAL_SEM ::
                 var m, m' := s.sems[k], s'.sems[k];
                 if k < i || parent !in m.openers then m' == m
                 else m' == m.(refCount := m.refCount + 1, openers := m'.openers)
                      && (m'.openers == m.openers || m'.openers == [child] + m.openers)
    decreases INITIAL_SEM - i
  {
    if i < INITIAL_SEM { OpenFromSlots(OpenOne(s, parent, child, i), parent, child, i + 1); }
  }

  /** Fork then exit is an identity: the child leaves every opener list, blocked list, count, flag
      and name as it found them, gives back every pool node it took, frees nothing else, and leaves one
      stale reference per slot behind. */
  lemma ForkThenExit(s: State, parent: int, child: int)
    requires Inv(s) && parent != child && forall k | 0 <= k < INITIAL_SEM :: child !in s.sems[k].openers
    ensures var s' := DoCloseAll(DoOpenAll(s, parent, child), child);
            && s'.names == s.names && s'.out == s.out && |s'.sems| == INITIAL_SEM
            && (forall k | 0 <= k < INITIAL_SEM ::
                  s'.sems[k] == s.sems[k].(refCount := s.sems[k].refCount + if parent in s.sems[k].openers then 1
                      else 0))
            && Used(s'.sems, INITIAL_SEM) == Used(s.sems, INITIAL_SEM)
  {
    SizeOk(s);
    hide SlotsOk, NamesOk, DoOpenAll, DoCloseAll, Used;
    forall k: nat | k < INITIAL_SEM
      ensures var s' := DoCloseAll(DoOpenAll(s, parent, child), child);
              && s'.names == s.names && s'.out == s.out && |s'.sems| == INITIAL_SEM
              && s'.sems[k] == s.sems[k].(refCount := s.sems[k].refCount + if parent in s.sems[k].openers then 1 else 0)
    {
      JoinThenLeave(s, parent, child, k);
    }
    JoinThenLeave(s, parent, child, 0);
    UsedSame(s.sems, DoCloseAll(DoOpenAll(s, parent, child), child).sems, INITIAL_SEM);
  }

  lemma JoinThenLeave(s: State, parent: int, child: int, k: nat)
    requires |s.sems| == INITIAL_SEM && k < INITIAL_SEM && parent != child && child !in s.sems[k].openers
    ensures var s', m := DoCloseAll(DoOpenAll(s, parent, child), child), s.sems[k];
            && s'.names == s.names && s'.out == s.out && |s'.sems| == INITIAL_SEM
            && s'.sems[k] == m.(refCount := m.refCount + if parent in m.openers then 1 else 0)
  {
    OpenFromSlots(s, parent, child, 0);
    CloseFromSlots(DoOpenAll(s, parent, child), child, 0);
    assert RemoveFirst([child] + s.sems[k].openers, child) == s.sems[k].openers;
    hide OpenFrom, CloseFrom;
  }

  lemma {:induction false} UsedSame(a: seq<Sem>, b: seq<Sem>, n: nat)
    requires n <= |a| == |b| && forall k | 0 <= k < n :: Size(a[k]) == Size(b[k])
    ensures Used(a, n) == Used(b, n)
  {
    if n > 0 { UsedSame(a, b, n - 1); }
  }

  lemma {:induction false} RemoveFirstCount(v: seq<int>, x: int)
    ensures x in RemoveFirst(v, x) <==> multiset(v)[x] > 1
  {
    if v != [] {
      assert v == [v[0]] + v[1..];
      if v[0] != x { RemoveFirstCount(v[1..], x); }
    }
  }

  /** Exit (or exec) leaves the process in no opener list if and only if no list held it twice:
      sem_close_all closes each slot once. A list that did keeps the dead process as a member. */
  lemma ExitLeavesNothingIff(s: State, p: int)
    requires Inv(s)
    ensures (forall k | 0 <= k < INITIAL_SEM :: p !in DoCloseAll(s, p).sems[k].openers)
       <==> (forall k | 0 <= k < INITIAL_SEM :: multiset(s.sems[k].openers)[p] <= 1)
  {
    CloseFromSlots(s, p, 0);
    forall k | 0 <= k < INITIAL_SEM
      ensures p in DoCloseAll(s, p).sems[k].openers <==> multiset(s.sems[k].openers)[p] > 1
    {
      RemoveFirstCount(s.sems[k].openers, p);
    }
  }

  // ---- close and unlink ----

  /** sem_close releases a slot exactly when it is unlinked and the caller is its last entry; a
      slot that still has a name is never released. */
  lemma CloseReleasesIff(s: State, p: int, h: int)
    requires Inv(s) && Member(s, h, p)
    ensures !Live(DoClose(s, p, h).state.sems[h]) <==> s.sems[h].unlinked && s.sems[h].openers == [p]
    ensures multiset(DoClose(s, p, h).state.sems[h].openers) == multiset(s.sems[h].openers) - multiset{p}
  {
    assert SlotOk(s.sems[h]);
    RemoveFirstSize(s.sems[h].openers, p);
    RemoveFirstMultiset(s.sems[h].openers, p);
  }

  lemma {:induction false} RemoveFirstMultiset(v: seq<int>, x: int)
    ensures multiset(RemoveFirst(v, x)) == multiset(v) - multiset{x}
  {
    if v != [] {
      assert v == [v[0]] + v[1..];
      if v[0] != x { RemoveFirstMultiset(v[1..], x); }
    }
  }

  /** Some request of the run opens, or unlinks, the name key. */
  predicate OpensName(es: seq<Event>, key: string) {
    exists i :: 0 <= i < |es| && es[i].call.Open? && Clip(es[i].call.name) == key
  }

  predicate UnlinksName(es: seq<Event>, key: string) {
    exists i :: 0 <= i < |es| && es[i].call.Unlink? && Clip(es[i].call.name) == key
  }

  lemma OpenNames(s: State, who: int, name: string, creat: bool, excl: bool, value: nat, key: string)
    ensures var s1 := DoOpen(s, who, name, creat, excl, value).state;
            && |s1.sems| == |s.sems|
            && (key !in s.names && Clip(name) != key ==> key !in s1.names)
            && (key in s.names ==> key in s1.names && s1.names[key] == s.names[key])
  {
    hide Used, Clip, FirstFree;
  }

  lemma CallNames(s: State, e: Event, key: string)
    requires !FromManager(e.call) && !e.call.Open?
    ensures var s1 := Operate(s, e).result.state;
            && |s1.sems| == |s.sems|
            && (key !in s.names ==> key !in s1.names)
            && (key in s.names && !(e.call.Unlink? && Clip(e.call.name) == key) ==>
                 key in s1.names && s1.names[key] == s.names[key])
  {
    hide Used, Clip, RemoveFirst, FirstFree;
  }

  /** Only an open of a name binds it, and only an unlink of it unbinds or moves it. */
  lemma NamesStep(s: State, e: Event, key: string)
    requires |s.sems| == INITIAL_SEM
    ensures var s1 := Serve(s, e).state;
            && |s1.sems| == INITIAL_SEM
            && (key !in s.names && !(e.call.Open? && Clip(e.call.name) == key) ==> key !in s1.names)
            && (key in s.names && !(e.call.Unlink? && Clip(e.call.name) == key) ==>
                 key in s1.names && s1.names[key] == s.names[key])
  {
    ServeIsCore(s, e);
    hide Serve, Clip, DoOpen, OpenFrom, CloseFrom;
    match e.call {
      case Fork(parent, child) => OpenFromSlots(s, parent, child, 0);
      case Exec(p) => CloseFromSlots(s, p, 0);
      case Exit(p) => CloseFromSlots(s, p, 0);
      case Open(name, creat, excl, value) => OpenNames(s, e.who, name, creat, excl, value, key);
      case _ => CallNames(s, e, key);
    }
  }

  lemma {:induction false} NameStaysFree(s: State, es: seq<Event>, key: string)
    requires |s.sems| == INITIAL_SEM && key !in s.names && !OpensName(es, key)
    ensures key !in Run(s, es).state.names
    decreases |es|
  {
    hide Serve, Clip;
    if es != [] {
      NamesStep(s, es[0], key);
      assert forall i | 0 <= i < |es[1..]| :: es[1..][i] == es[i + 1];
      assert !(es[0].call.Open? && Clip(es[0].call.name) == key);
      NameStaysFree(Serve(s, es[0]).state, es[1..], key);
    }
  }

  lemma {:induction false} NameStaysBound(s: State, es: seq<Event>, key: string)
    requires |s.sems| == INITIAL_SEM && key in s.names && !UnlinksName(es, key)
    ensures |Run(s, es).state.sems| == INITIAL_SEM
    ensures key in Run(s, es).state.names && Run(s, es).state.names[key] == s.names[key]
    decreases |es|
  {
    hide Serve, Clip;
    if es != [] {
      NamesStep(s, es[0], key);
      assert forall i | 0 <= i < |es[1..]| :: es[1..][i] == es[i + 1];
      assert !(es[0].call.Unlink? && Clip(es[0].call.name) == key);
      NameStaysBound(Serve(s, es[0]).state, es[1..], key);
    }
  }

  lemma {:induction false} RunKeepsInv(s: State, es: seq<Event>)
    requires Inv(s) && Lawful(s, es)
    ensures Inv(Run(s, es).state)
    decreases |es|
  {
    hide Serve, SlotsOk, NamesOk, DestroysNamed;
    if es != [] {
      ServeKeepsInv(s, es[0]);
      RunKeepsInv(Serve(s, es[0]).state, es[1..]);
    }
  }

  lemma OpenKeepsMark(s: State, who: int, name: string, creat: bool, excl: bool, value: nat, k: nat)
    requires k < |s.sems| && Live(s.sems[k]) && s.sems[k].unlinked
    ensures var s1 := DoOpen(s, who, name, creat, excl, value).state; k < |s1.sems| && s1.sems[k].unlinked
  {
    hide Used, Clip;
  }

  lemma CallKeepsMark(s: State, e: Event, k: nat)
    requires LiveAt(s, k) && s.sems[k].unlinked && !FromManager(e.call) && !e.call.Open?
    ensures var s1 := Operate(s, e).result.state; k < |s1.sems| && s1.sems[k].unlinked
  {
    hide Used, Clip, RemoveFirst;
  }

  lemma UnlinkedStep(s: State, e: Event, k: nat)
    requires |s.sems| == INITIAL_SEM && LiveAt(s, k) && s.sems[k].unlinked && LiveAt(Serve(s, e).state, k)
    ensures Serve(s, e).state.sems[k].unlinked
  {
    ServeIsCore(s, e);
    hide Serve, DoOpen, OpenFrom, CloseFrom;
    match e.call {
      case Fork(parent, child) => OpenFromSlots(s, parent, child, 0);
      case Exec(p) => CloseFromSlots(s, p, 0);
      case Exit(p) => CloseFromSlots(s, p, 0);
      case Open(name, creat, excl, value) => OpenKeepsMark(s, e.who, name, creat, excl, value, k);
      case _ => CallKeepsMark(s, e, k);
    }
  }

  lemma {:induction false} UnlinkedStays(s: State, es: seq<Event>, k: nat)
    requires Inv(s) && Lawful(s, es) && StaysLive(s, es, k) && s.sems[k].unlinked
    ensures LiveAt(Run(s, es).state, k) && Run(s, es).state.sems[k].unlinked
    decreases |es|
  {
    hide Serve, SlotsOk, NamesOk, DestroysNamed;
    if es != [] {
      SizeOk(s);
      ServeKeepsInv(s, es[0]);
      UnlinkedStep(s, es[0], k);
      UnlinkedStays(Serve(s, es[0]).state, es[1..], k);
    }
  }

  /** After a successful unlink, and whatever lawful requests follow that do not open the name, the next
      open of the name creates a fresh semaphore in a slot that was free, if there is one. The old semaphore,
      as long as it lasts, is another slot, nameless, and not touched by that open. */
  lemma OpenAfterUnlinkIsFresh(s: State, p: int, name: string, es: seq<Event>, q: int, value: nat)
    requires Inv(s) && DoUnlink(s, p, name).ret == 0
    requires Lawful(Serve(s, Event(p, Unlink(name), 0)).state, es) && !OpensName(es, Clip(name))
    ensures var t := Run(Serve(s, Event(p, Unlink(name), 0)).state, es).state;
            var r := DoOpen(t, q, name, true, false, value);
            && |t.sems| == INITIAL_SEM
            && (r.ret != -1 <==> value <= SEM_VALUE_MAX && exists k :: 0 <= k < INITIAL_SEM && !Live(t.sems[k]))
            && (r.ret != -1 ==>
                  && 0 <= r.ret < INITIAL_SEM && !Live(t.sems[r.ret])
                  && r.state.sems == t.sems[r.ret := Sem(value, 1, Push(t, [], q), [], false)]
                  && r.state.names == t.names[Clip(name) := r.ret])
    ensures Clip(name) in s.names && 0 <= s.names[Clip(name)] < INITIAL_SEM
    ensures var s1, fd := Serve(s, Event(p, Unlink(name), 0)).state, s.names[Clip(name)];
            var t := Run(s1, es).state;
            var r := DoOpen(t, q, name, true, false, value);
            StaysLive(s1, es, fd) ==>
              && LiveAt(t, fd) && t.sems[fd].unlinked
              && (r.ret != -1 ==> r.ret != fd && LiveAt(r.state, fd) && r.state.sems[fd] == t.sems[fd])
  {
    var e, key := Event(p, Unlink(name), 0), Clip(name);
    var s1 := Serve(s, e).state;
    UnlinkShape(s, p, name);
    ServeKeepsInv(s, e);
    assert s1.names == s.names - {key} && s1.sems == s.sems[s.names[key] := s.sems[s.names[key]].(unlinked := true)];
    SizeOk(s);
    SizeOk(s1);
    hide Serve, SlotsOk, NamesOk, Used, DoOpen, DoUnlink, FirstFree, OpensName;
    var t := Run(s1, es).state;
    NameStaysFree(s1, es, key);
    RunKeepsInv(s1, es);
    SizeOk(t);
    NamesFit(t);
    OpenCreates(t, q, name, value);
    if StaysLive(s1, es, s.names[key]) { UnlinkedStays(s1, es, s.names[key]); }
  }

  lemma SizeOk(s: State)
    requires Inv(s)
    ensures |s.sems| == INITIAL_SEM
  {}

  lemma UnlinkShape(s: State, p: int, name: string)
    requires DoUnlink(s, p, name).ret == 0
    ensures var s1, key := DoUnlink(s, p, name).state, Clip(name);
            && |name| <= PATH_MAX && key in s.names && s1.names == s.names - {key}
            && 0 <= s.names[key] < |s.sems|
            && s1.sems == s.sems[s.names[key] := s.sems[s.names[key]].(unlinked := true)]
  {}

  /** An open of an unbound name with O_CREAT takes the first free slot, if there is one. */
  lemma OpenCreates(s: State, q: int, name: string, value: nat)
    requires |s.sems| == INITIAL_SEM && Clip(name) !in s.names && |name| <= PATH_MAX && |s.names| < MAX_HASH_ELEM
    ensures var r, fd := DoOpen(s, q, name, true, false, value), FirstFree(s.sems, 0);
            && (r.ret != -1 <==> value <= SEM_VALUE_MAX && exists k :: 0 <= k < INITIAL_SEM && !Live(s.sems[k]))
            && (r.ret != -1 ==>
                  && r.ret == fd < INITIAL_SEM && !Live(s.sems[fd])
                  && r.state.sems == s.sems[fd := Sem(value, 1, Push(s, [], q), [], false)]
                  && r.state.names == s.names[Clip(name) := fd])
  {}

  /** How an open is answered. */
  lemma OpenReply(s: State, p: int, name: string, value: nat, junk: int)
    ensures var e := Event(p, Open(name, true, false, value), junk);
            var r := DoOpen(s, p, name, true, false, value);
            Serve(s, e).replies
                == [Reply(p, Message(r.ret, s.out.param1, s.out.param2), if r.ret == -1 then r.state.errno else Ok)]
  {
    EffectsOf(s, Event(p, Open(name, true, false, value), junk));
    hide DoOpen;
    assert Wakes([], s.out, DoOpen(s, p, name, true, false, value).state.errno) == [];
  }

  /** The open succeeded, with handle k. */
  predicate OpenedAs(step: Step, p: int, k: int) {
    |step.replies| == 1 && step.replies[0].to == p && step.replies[0].result == Ok && step.replies[0].body.rta == k
  }

  /** An open of a bound name, served: its caller joins if there is a node for it, and is told that it has the
      semaphore open in any case. */
  lemma OpenJoins(s: State, p: int, name: string, value: nat, k: nat, junk: int)
    requires k < |s.sems| && Clip(name) == name && |name| <= PATH_MAX && name in s.names && s.names[name] == k
    ensures var step := Serve(s, Event(p, Open(name, true, false, value), junk));
            && step.state.sems == s.sems[k := s.sems[k].(refCount := s.sems[k].refCount + 1,
                                                         openers := Push(s, s.sems[k].openers, p))]
            && step.state.names == s.names && OpenedAs(step, p, k)
  {
    hide Used;
    OpenReply(s, p, name, value, junk);
  }

  /** A creating open of a new name, served: it takes slot k if that is the lowest free one. */
  lemma OpenCreatesAt(s: State, p: int, name: string, value: nat, k: nat, junk: int)
    requires |s.sems| == INITIAL_SEM && Clip(name) == name && |name| <= PATH_MAX && name !in s.names
             && value <= SEM_VALUE_MAX
    requires |s.names| < MAX_HASH_ELEM && k < INITIAL_SEM && !Live(s.sems[k])
             && forall j | 0 <= j < k :: Live(s.sems[j])
    ensures var step := Serve(s, Event(p, Open(name, true, false, value), junk));
            && step.state.sems == s.sems[k := Sem(value, 1, Push(s, [], p), [], false)]
            && step.state.names == s.names[name := k]
            && OpenedAs(step, p, k)
  {
    FirstFreeIs(s.sems, 0, k);
    OpenCreates(s, p, name, value);
    OpenReply(s, p, name, value, junk);
    ServeIsCore(s, Event(p, Open(name, true, false, value), junk));
    hide FirstFree, Used, DoOpen, Serve;
    assert !Live(s.sems[k]);
    assert DoOpen(s, p, name, true, false, value).ret == k;
  }

  lemma {:induction false} FirstFreeIs(sems: seq<Sem>, i: nat, h: nat)
    requires i <= h < |sems| && !Live(sems[h]) && forall k | i <= k < h :: Live(sems[k])
    ensures FirstFree(sems, i) == h
    decreases h - i
  {}

  // ---- Failures ----

  /** No live semaphore and no name has changed, and nobody was woken or blocked. */
  ghost predicate Untouched(s: State, r: Result) {
    && |r.state.sems| == |s.sems|
    && (forall k | 0 <= k < |s.sems| ::
         if Live(s.sems[k]) then r.state.sems[k] == s.sems[k] else !Live(r.state.sems[k]))
    && r.state.names == s.names && r.woken == [] && !r.withheld
  }

  lemma CreateFailure(s: State, who: int, h: int, value: nat)
    requires Create(s, who, h, value).0.ret == -1
    ensures Untouched(s, Create(s, who, h, value).0) && Create(s, who, h, value).0.state.errno != Ok
  {
    hide Used;
  }

  lemma OpenFailure(s: State, who: int, name: string, creat: bool, excl: bool, value: nat)
    requires NamesOk(s) && DoOpen(s, who, name, creat, excl, value).ret == -1
    ensures Untouched(s, DoOpen(s, who, name, creat, excl, value))
    ensures DoOpen(s, who, name, creat, excl, value).state.errno == Ok ==> excl
  {
    if Clip(name) in s.names { NamedIsLive(s, Clip(name)); }
    var s0 := s.(errno := Ok);
    if Create(s0, who, -1, value).0.ret == -1 { CreateFailure(s0, who, -1, value); }
    hide NamesOk, Used, Create;
  }

  /** A call that returns -1 has changed no live semaphore and no name, has woken and blocked nobody,
      and has set errno, except that sem_open with O_EXCL fails in silence. */
  lemma FailureIsClean(s: State, e: Event)
    requires Inv(s) && !FromManager(e.call) && Operate(s, e).result.ret == -1
    ensures Untouched(s, Operate(s, e).result)
    ensures Operate(s, e).result.state.errno == Ok ==> e.call.Open? && e.call.excl
  {
    hide SlotsOk, NamesOk, Used, RemoveFirst, Create, DoOpen;
    match e.call {
      case Open(name, creat, excl, value) => OpenFailure(s, e.who, name, creat, excl, value);
      case Init(h, value) => InitFailure(s, e.who, h, value);
      case _ =>
    }
  }

  lemma InitFailure(s: State, who: int, h: int, value: nat)
    requires Inv(s) && DoInit(s, who, h, value).0.ret == -1
    ensures Untouched(s, DoInit(s, who, h, value).0) && DoInit(s, who, h, value).0.state.errno != Ok
  {
    CreateKeeps(s, who, h, value);
    if Create(s, who, h, value).0.ret == -1 { CreateFailure(s, who, h, value); }
    hide SlotsOk, NamesOk, Create;
  }

  // ---- Handles ----

  /** p gives up its entry in slot k: by closing it, or by exec or exit. */
  predicate Leaves(e: Event, k: nat, p: int) {
    || (e.call.Close? && e.call.handle == k && e.who == p)
    || (e.who == MM_PROC_NR && (e.call.Exec? || e.call.Exit?) && e.call.proc == p)
  }

  predicate Destroys(s: State, e: Event, k: nat) {
    e.call.Destroy? && e.call.handle == k && DoDestroy(s, e.who, k).ret == 0
  }

  lemma StepKeepsMember(s: State, e: Event, k: nat, p: int)
    requires Inv(s) && Member(s, k, p) && !Leaves(e, k, p) && !Destroys(s, e, k)
    ensures Member(Serve(s, e).state, k, p)
  {
    assert SlotOk(s.sems[k]);
    ServeIsCore(s, e);
    if FromManager(e.call) {
      if e.who == MM_PROC_NR {
        match e.call {
          case Fork(parent, child) => OpenFromSlots(s, parent, child, 0);
          case Exec(q) => CloseAllKeepsMember(s, q, k, p);
          case Exit(q) => CloseAllKeepsMember(s, q, k, p);
        }
      }
    } else if e.call.Close? {
      CloseKeepsMember(s, e.who, e.call.handle, k, p);
    } else {
      OperateKeepsMember(s, e, k, p);
    }
  }

  lemma CloseAllKeepsMember(s: State, q: int, k: nat, p: int)
    requires |s.sems| == INITIAL_SEM && Member(s, k, p) && p != q
    ensures Member(DoCloseAll(s, q), k, p)
  {
    CloseFromSlots(s, q, 0);
    A.RemoveFirstKeepsOthers(s.sems[k].openers, q, p);
  }

  lemma CloseKeepsMember(s: State, q: int, h: int, k: nat, p: int)
    requires |s.sems| == INITIAL_SEM && Member(s, k, p) && (h != k || p != q)
    ensures Member(DoClose(s, q, h).state, k, p)
  {
    if h == k { A.RemoveFirstKeepsOthers(s.sems[k].openers, q, p); }
  }

  lemma OperateKeepsMember(s: State, e: Event, k: nat, p: int)
    requires Inv(s) && Member(s, k, p) && Live(s.sems[k]) && !Destroys(s, e, k) && !FromManager(e.call)
             && !e.call.Close?
    ensures Member(Operate(s, e).result.state, k, p)
  {
    hide SlotsOk, NamesOk, Used;
  }

  /** Along the run p neither leaves slot k nor does any member destroy it. */
  predicate HoldsOn(s: State, es: seq<Event>, k: nat, p: int)
    decreases |es|
  {
    es == [] || (!Leaves(es[0], k, p) && !Destroys(s, es[0], k) && HoldsOn(Serve(s, es[0]).state, es[1..], k, p))
  }

  /** Handle stability: while p has an entry in slot k, does not give it up, and no member destroys
      the semaphore, the slot holds the same semaphore throughout and p stays a member. */
  lemma {:induction false} HandleIsStable(s: State, es: seq<Event>, k: nat, p: int)
    requires Inv(s) && Lawful(s, es) && Member(s, k, p) && HoldsOn(s, es, k, p)
    ensures StaysLive(s, es, k) && Member(Run(s, es).state, k, p)
    decreases |es|
  {
    hide Serve, SlotsOk, NamesOk, Leaves, Destroys;
    MembersAreLive(s, k, p);
    if es != [] {
      ServeKeepsInv(s, es[0]);
      StepKeepsMember(s, es[0], k, p);
      HandleIsStable(Serve(s, es[0]).state, es[1..], k, p);
    }
  }

  // ---- Who is in an opener list, and how often ----

  function Mult(s: State, k: nat, p: int): nat
    requires k < |s.sems|
  {
    multiset(s.sems[k].openers)[p]
  }

  /** How many of the slots i to k - 1 the process is in. */
  function Memberships(s: State, p: int, i: nat, k: nat): nat
    requires i <= k <= |s.sems|
    decreases k - i
  {
    if i == k then 0 else (if p in s.sems[i].openers then 1 else 0) + Memberships(s, p, i + 1, k)
  }

  /** A fork puts the child into each slot of its parent, in slot order, while nodes last. */
  lemma {:induction false} ForkJoins(s: State, parent: int, child: int, i: nat, k: nat)
    requires SlotsOk(s) && i <= k < INITIAL_SEM
    ensures OpenFrom(s, parent, child, i).sems[k].openers
         == if parent in s.sems[k].openers && Used(s.sems, INITIAL_SEM) + Memberships(s, parent, i, k) < MAX_NODES
            then [child] + s.sems[k].openers else s.sems[k].openers
    decreases k - i
  {
    OpenFromSlots(s, parent, child, i);
    var s1 := OpenOne(s, parent, child, i);
    OpenFromSlots(s1, parent, child, i + 1);
    if i < k {
      OpenOneShape(s, parent, child, i);
      ForkJoins(s1, parent, child, i + 1, k);
      MembershipsFrame(s, s1, parent, i + 1, k);
    }
  }

  lemma OpenOneShape(s: State, parent: int, child: int, i: nat)
    requires SlotsOk(s) && i < INITIAL_SEM
    ensures var s1 := OpenOne(s, parent, child, i);
            && SlotsOk(s1) && s1.sems == s.sems[i := s1.sems[i]]
            && Used(s1.sems, INITIAL_SEM)
                 == Used(s.sems, INITIAL_SEM) + (if parent in s.sems[i].openers && !Full(s) then 1 else 0)
  {
    var s1 := OpenOne(s, parent, child, i);
    assert SlotOk(s.sems[i]);
    UsedUpdate(s.sems, i, s1.sems[i], INITIAL_SEM);
    if parent in s.sems[i].openers { SlotUpdate(s, s1, i, s1.sems[i]); }
  }

  lemma {:induction false} MembershipsFrame(s: State, s1: State, p: int, i: nat, k: nat)
    requires |s.sems| == |s1.sems| && i <= k <= |s.sems| && forall j | i <= j < k :: s1.sems[j] == s.sems[j]
    ensures Memberships(s1, p, i, k) == Memberships(s, p, i, k)
    decreases k - i
  {
    if i < k { MembershipsFrame(s, s1, p, i + 1, k); }
  }

  /** Entries a request adds for p in slot k: an open that ended in slot k, an init that took it, or
      a fork with p as the child, each only if the pool still had a node. */
  function Joins(s: State, e: Event, k: nat, p: int): nat
    requires |s.sems| == INITIAL_SEM && k < INITIAL_SEM
  {
    match e.call
    case Open(name, creat, excl, value) =>
      if e.who == p && DoOpen(s, p, name, creat, excl, value).ret == k && !Full(s) then 1 else 0
    case Init(h, value) =>
      if e.who == p && DoInit(s, p, h, value).0.ret == 0 && DoInit(s, p, h, value).1 == k && !Full(s) then 1 else 0
    case Fork(parent, child) =>
      if e.who == MM_PROC_NR && child == p && parent in s.sems[k].openers
         && Used(s.sems, INITIAL_SEM) + Memberships(s, parent, 0, k) < MAX_NODES then 1 else 0
    case _ => 0
  }

  /** Entries a request takes away: a close by p, or an exec or exit of p, when p is a member. */
  function Parts(s: State, e: Event, k: nat, p: int): nat {
    if Leaves(e, k, p) && Member(s, k, p) then 1 else 0
  }

  lemma StepMultiplicity(s: State, e: Event, k: nat, p: int)
    requires Inv(s) && k < INITIAL_SEM && !Destroys(s, e, k)
    ensures |Serve(s, e).state.sems| == INITIAL_SEM
    ensures Mult(Serve(s, e).state, k, p) == Mult(s, k, p) + Joins(s, e, k, p) - Parts(s, e, k, p)
  {
    ServeKeepsInv(s, e);
    ServeIsCore(s, e);
    hide ServeCore, Serve, SlotsOk, NamesOk, Joins, Parts;
    if FromManager(e.call) { ManagerMultiplicity(s, e, k, p); } else { CallMultiplicity(s, e, k, p); }
  }

  lemma ManagerMultiplicity(s: State, e: Event, k: nat, p: int)
    requires Inv(s) && k < INITIAL_SEM && FromManager(e.call)
    ensures |ServeCore(s, e).sems| == INITIAL_SEM
    ensures Mult(ServeCore(s, e), k, p) == Mult(s, k, p) + Joins(s, e, k, p) - Parts(s, e, k, p)
  {
    assert |s.sems| == INITIAL_SEM;
    hide SlotsOk, NamesOk, Used, DoOpenAll, DoCloseAll, Memberships;
    if e.who == MM_PROC_NR {
      match e.call {
        case Fork(parent, child) => ForkMultiplicity(s, parent, child, k, p);
        case Exec(q) => CloseAllMultiplicity(s, q, k, p);
        case Exit(q) => CloseAllMultiplicity(s, q, k, p);
      }
    }
  }

  lemma ForkMultiplicity(s: State, parent: int, child: int, k: nat, p: int)
    requires SlotsOk(s) && k < INITIAL_SEM
    ensures |DoOpenAll(s, parent, child).sems| == INITIAL_SEM
    ensures Mult(DoOpenAll(s, parent, child), k, p) == Mult(s, k, p)
         + if child == p && parent in s.sems[k].openers
             && Used(s.sems, INITIAL_SEM) + Memberships(s, parent, 0, k) < MAX_NODES
           then 1 else 0
  {
    ForkJoins(s, parent, child, 0, k);
    hide Used, OpenFrom, Memberships;
  }

  lemma CallMultiplicity(s: State, e: Event, k: nat, p: int)
    requires Inv(s) && k < INITIAL_SEM && !FromManager(e.call) && !Destroys(s, e, k)
             && |ServeCore(s, e).sems| == INITIAL_SEM
    ensures Mult(ServeCore(s, e), k, p) == Mult(s, k, p) + Joins(s, e, k, p) - Parts(s, e, k, p)
  {
    assert |s.sems| == INITIAL_SEM;
    hide SlotsOk, NamesOk, Used, DoOpen, DoInit, DoClose, Create;
    match e.call {
      case Open(name, creat, excl, value) => OpenMultiplicity(s, e.who, name, creat, excl, value, k, p);
      case Init(h, value) => InitMultiplicity(s, e.who, h, value, k, p);
      case Close(h) => CloseOneMultiplicity(s, e.who, h, k, p);
      case _ => OthersMultiplicity(s, e, k);
    }
  }

  lemma CloseAllMultiplicity(s: State, q: int, k: nat, p: int)
    requires |s.sems| == INITIAL_SEM && k < INITIAL_SEM
    ensures |DoCloseAll(s, q).sems| == INITIAL_SEM
    ensures Mult(DoCloseAll(s, q), k, p) == Mult(s, k, p) - if p == q && p in s.sems[k].openers then 1 else 0
  {
    CloseFromSlots(s, q, 0);
    CloseMultiplicity(s.sems[k], q, p);
  }

  lemma CloseOneMultiplicity(s: State, q: int, h: int, k: nat, p: int)
    requires |s.sems| == INITIAL_SEM && k < INITIAL_SEM
    ensures |DoClose(s, q, h).state.sems| == INITIAL_SEM
    ensures Mult(DoClose(s, q, h).state, k, p)
            == Mult(s, k, p) - if h == k && p == q && p in s.sems[k].openers then 1 else 0
  {
    CloseMultiplicity(s.sems[k], q, p);
    if Member(s, h, q) && h == k {
      var m := s.sems[h];
      assert DoClose(s, q, h).state.sems[k].openers == RemoveFirst(m.openers, q) == CloseSlot(m, q).openers;
    }
  }

  lemma CloseMultiplicity(m: Sem, q: int, p: int)
    ensures multiset(CloseSlot(m, q).openers)[p] == multiset(m.openers)[p] - if p == q && p in m.openers then 1 else 0
  {
    RemoveFirstMultiset(m.openers, q);
    if q in m.openers && RemoveFirst(m.openers, q) == [] {
      assert multiset(RemoveFirst(m.openers, q)) == multiset{};
    }
  }

  lemma OthersMultiplicity(s: State, e: Event, k: nat)
    requires Inv(s) && k < INITIAL_SEM && !Destroys(s, e, k)
    requires e.call.Wait? || e.call.TryWait? || e.call.Post? || e.call.GetValue? || e.call.Unlink? || e.call.Destroy?
    ensures Operate(s, e).result.state.sems[k].openers == s.sems[k].openers
  {
    hide NamesOk, Used;
  }

  lemma CreateMultiplicity(s: State, who: int, h: int, value: nat, k: nat, p: int)
    requires SlotsOk(s) && k < INITIAL_SEM
    ensures var (r, fd) := Create(s, who, h, value);
            && |r.state.sems| == INITIAL_SEM && r.state.names == s.names && (r.ret == 0 || r.ret == -1)
            && (r.ret == 0 ==> 0 <= fd < INITIAL_SEM)
            && Mult(r.state, k, p) == Mult(s, k, p) + if who == p && r.ret == 0 && fd == k && !Full(s) then 1 else 0
  {
    var i := FirstFree(s.sems, 0);
    if i < |s.sems| { assert SlotOk(s.sems[i]); }
    hide Used, SlotOk, FirstFree, Full;
    var (r, fd) := Create(s, who, h, value);
    if i != k || r.ret == -1 { assert i < |s.sems| ==> r.state.sems[k].openers == s.sems[k].openers; }
  }

  lemma OpenMultiplicity(s: State, who: int, name: string, creat: bool, excl: bool, value: nat, k: nat, p: int)
    requires Inv(s) && k < INITIAL_SEM
    ensures |DoOpen(s, who, name, creat, excl, value).state.sems| == INITIAL_SEM
    ensures Mult(DoOpen(s, who, name, creat, excl, value).state, k, p) == Mult(s, k, p)
         + if who == p && DoOpen(s, who, name, creat, excl, value).ret == k && !Full(s) then 1 else 0
  {
    if Clip(name) in s.names { NamedIsLive(s, Clip(name)); }
    CreateMultiplicity(s.(errno := Ok), who, -1, value, k, p);
    hide SlotsOk, NamesOk, Used, Create;
  }

  lemma InitMultiplicity(s: State, who: int, h: int, value: nat, k: nat, p: int)
    requires Inv(s) && k < INITIAL_SEM
    ensures |DoInit(s, who, h, value).0.state.sems| == INITIAL_SEM
    ensures Mult(DoInit(s, who, h, value).0.state, k, p) == Mult(s, k, p)
         + if who == p && DoInit(s, who, h, value).0.ret == 0 && DoInit(s, who, h, value).1 == k && !Full(s) then 1
             else 0
  {
    CreateMultiplicity(s, who, h, value, k, p);
    hide SlotsOk, NamesOk, Used, Create;
  }

  function RunJoins(s: State, es: seq<Event>, k: nat, p: int): nat
    requires |s.sems| == INITIAL_SEM && k < INITIAL_SEM
    decreases |es|
  {
    if es == [] then 0
    else
      var s1 := Serve(s, es[0]).state;
      Joins(s, es[0], k, p) + if |s1.sems| == INITIAL_SEM then RunJoins(s1, es[1..], k, p) else 0
  }

  function RunParts(s: State, es: seq<Event>, k: nat, p: int): nat
    decreases |es|
  {
    if es == [] then 0 else Parts(s, es[0], k, p) + RunParts(Serve(s, es[0]).state, es[1..], k, p)
  }

  predicate NeverDestroyed(s: State, es: seq<Event>, k: nat)
    decreases |es|
  {
    es == [] || (!Destroys(s, es[0], k) && NeverDestroyed(Serve(s, es[0]).state, es[1..], k))
  }

  /** The opener multiset: over every lawful run in which slot k is not destroyed, the entries of p in
      its list are those at the start, plus the opens, inits and inherited forks that got a node,
      minus the closes, execs and exits that found one. */
  lemma {:induction false} Multiplicity(s: State, es: seq<Event>, k: nat, p: int)
    requires Inv(s) && Lawful(s, es) && k < INITIAL_SEM && NeverDestroyed(s, es, k)
    ensures |Run(s, es).state.sems| == INITIAL_SEM
    ensures Mult(Run(s, es).state, k, p) + RunParts(s, es, k, p) == Mult(s, k, p) + RunJoins(s, es, k, p)
    decreases |es|
  {
    hide Serve, NamesOk, Joins, Parts, Destroys;
    if es != [] {
      ServeKeepsInv(s, es[0]);
      StepMultiplicity(s, es[0], k, p);
      Multiplicity(Serve(s, es[0]).state, es[1..], k, p);
    }
  }
}
