/** Where the server as written falls short of what its documentation promises: for each case the
    exact condition, or a run from which it follows. */
module Findings {
  import opened PoolModel
  import opened NameTable
  import opened Machine
  import opened Invariants
  import opened Runs
  import opened Lifecycle
  import A = Accounting
  import W = Wakeups

  // ---- sem_init and errno ----

  /** sem_init looks at an errno that nobody cleared for it. */
  lemma InitSucceedsIff(s: State, who: int, handle: int, value: nat)
    requires Inv(s)
    ensures DoInit(s, who, handle, value).0.ret == 0
       <==> s.errno == Ok && value <= SEM_VALUE_MAX && exists k :: 0 <= k < INITIAL_SEM && !Live(s.sems[k])
  {}

  /** After an exec or exit of p, sem_init works for no one, until some other request clears errno,
      unless errno was clear before and p was in all ten semaphores and was the last in one of them
      that was unlinked, whose slot is then free. */
  lemma InitAfterCloseAllIff(s: State, p: int, who: int, handle: int, value: nat)
    requires Inv(s)
    ensures DoInit(DoCloseAll(s, p), who, handle, value).0.ret == 0
       <==> (&& s.errno == Ok && (forall k | 0 <= k < INITIAL_SEM :: p in s.sems[k].openers)
             && value <= SEM_VALUE_MAX
             && (exists k :: 0 <= k < INITIAL_SEM && s.sems[k].unlinked && s.sems[k].openers == [p]))
  {
    var s' := DoCloseAll(s, p);
    CloseFromKeeps(s, p, 0);
    CloseFromSlots(s, p, 0);
    InitSucceedsIff(s', who, handle, value);
    forall k | 0 <= k < INITIAL_SEM && p in s.sems[k].openers
      ensures !Live(s'.sems[k]) <==> s.sems[k].unlinked && s.sems[k].openers == [p]
    {
      Dies(s.sems[k], p);
    }
    hide SlotsOk, NamesOk, CloseFrom, CloseSlot, DoInit;
  }

  /** The last close of an unlinked slot frees it. */
  lemma Dies(m: Sem, p: int)
    requires SlotOk(m) && p in m.openers
    ensures !Live(CloseSlot(m, p)) <==> m.unlinked && m.openers == [p]
  {
    RemoveFirstSize(m.openers, p);
  }

  // ---- sem_open and O_EXCL ----

  /** When sem_open succeeds. With O_EXCL it never does, not even with O_CREAT for an absent name,
      and then it reports no error. */
  lemma OpenSucceedsIff(s: State, who: int, name: string, creat: bool, excl: bool, value: nat)
    requires Inv(s)
    ensures var r := DoOpen(s, who, name, creat, excl, value);
            && (r.ret != -1 <==>
                  && !excl && |name| <= PATH_MAX
                  && (Clip(name) in s.names
                      || (creat && value <= SEM_VALUE_MAX && exists k :: 0 <= k < INITIAL_SEM && !Live(s.sems[k]))))
            && (r.ret == -1 && r.state.errno == Ok <==>
                 excl && |name| <= PATH_MAX && (Clip(name) in s.names <==> !creat))
  {}

  /** A successful open does not always let its caller in: it leaves it a stranger to the semaphore, whose
      every wait and post will fail, exactly when the pool was full and the caller was not in it before. */
  lemma OpenShutsOutIff(s: State, who: int, name: string, creat: bool, excl: bool, value: nat)
    requires Inv(s) && DoOpen(s, who, name, creat, excl, value).ret != -1
    ensures var r := DoOpen(s, who, name, creat, excl, value);
            && IsHandle(r.ret)
            && (!Member(r.state, r.ret, who) <==>
                 Full(s) && !(Clip(name) in s.names && who in s.sems[s.names[Clip(name)]].openers))
  {
    if Clip(name) in s.names { NamedIsLive(s, Clip(name)); } else { CreateKeeps(s.(errno := Ok), who, -1, value); }
    hide SlotsOk, NamesOk, Used, Clip, FirstFree;
  }

  // ---- Destroying a named semaphore ----

  /** Destroying a semaphore that has a name leaves the name bound to the freed slot, for as long as nobody
      unlinks it and whatever else happens: an open of the old name is then given, in that slot, whatever
      was made there since. */
  lemma DestroyedNameIsReused(s: State, name: string, p: int, es: seq<Event>, r: int)
    requires Inv(s) && |name| <= PATH_MAX && name in s.names && Clip(name) == name
    requires DestroysNamed(s, Event(p, Destroy(s.names[name]), 0)) && !UnlinksName(es, name)
    ensures var h, s1 := s.names[name], Serve(s, Event(p, Destroy(s.names[name]), 0)).state;
            var t := Run(s1, es).state;
            && 0 <= h < INITIAL_SEM == |s1.sems| == |t.sems|
            && !Live(s1.sems[h]) && DoOpen(t, r, name, false, false, 0).ret == h
            && DoOpen(t, r, name, false, false, 0).state.sems
               == t.sems[h := t.sems[h].(refCount := t.sems[h].refCount + 1, openers := Push(t, t.sems[h].openers, r))]
  {
    var e, h := Event(p, Destroy(s.names[name]), 0), s.names[name];
    var s1 := Serve(s, e).state;
    assert s1.names == s.names && |s1.sems| == INITIAL_SEM && !Live(s1.sems[h]);
    hide Serve, Used, UnlinksName, SlotsOk, NamesOk;
    NameStaysBound(s1, es, name);
  }

  /** For instance a private semaphore: when the slot is the lowest free one, the next sem_init takes it,
      and the next open of the old name joins that semaphore. */
  lemma PrivateSemaphoreIsOpened(s: State, name: string, p: int, q: int, value: nat, r: int)
    requires Inv(s) && s.errno == Ok && |name| <= PATH_MAX && name in s.names && value <= SEM_VALUE_MAX
    requires DestroysNamed(s, Event(p, Destroy(s.names[name]), 0))
    requires forall k | 0 <= k < s.names[name] :: Live(s.sems[k])
    ensures var h := s.names[name];
            var (made, handle) := DoInit(DoDestroy(s, p, h).state, q, -1, value);
            && made.ret == 0 && handle == h
            && DoOpen(made.state, r, name, false, false, 0).ret == h
            && made.state.sems[h] == Sem(value, 1, Push(DoDestroy(s, p, h).state, [], q), [], true)
            && DoOpen(made.state, r, name, false, false, 0).state.sems
               == made.state.sems[h :=
                    made.state.sems[h].(refCount := 2, openers := Push(made.state, made.state.sems[h].openers, r))]
  {
    hide SlotsOk, NamesOk, Used;
    var h := s.names[name];
    var s1 := DoDestroy(s, p, h).state;
    FirstFreeIs(s1.sems, 0, h);
  }

  // ---- The late reply ----

  /** A request that is answered with a handle: every call but open, unlink and the memory manager's. */
  predicate NamesHandle(e: Event) { !FromManager(e.call) && !e.call.Open? && !e.call.Unlink? }

  /** That handle: the one it was sent, or the one that init has made. */
  function HandleOf(s: State, e: Event): int
    requires NamesHandle(e)
  {
    if e.call.Init? then DoInit(s, e.who, e.call.handle, e.call.value).1 else e.call.handle
  }

  /** The handle of the last request of the run that was answered with one; before the first of them,
      what the message held at the start. */
  function LastHandle(s: State, es: seq<Event>): int
    decreases |es|
  {
    if es == [] then s.out.param1
    else
      var before, e := es[..|es| - 1], es[|es| - 1];
      if NamesHandle(e) then HandleOf(Run(s, before).state, e) else LastHandle(s, before)
  }

  lemma OutStep(s: State, e: Event)
    requires |s.sems| == INITIAL_SEM
    ensures Serve(s, e).state.out.param1 == if NamesHandle(e) then HandleOf(s, e) else s.out.param1
  {
    match e.call {
      case Fork(parent, child) => OpenFromSlots(s, parent, child, 0);
      case Exec(p) => CloseFromSlots(s, p, 0);
      case Exit(p) => CloseFromSlots(s, p, 0);
      case _ => EffectsOf(s, e);
    }
    hide DoOpen, DoInit, DoClose, DoUnlink, DoPost, DoWait, DoTryWait, DoGetValue, DoDestroy, OpenFrom, CloseFrom;
  }

  lemma {:induction false} RunSize(s: State, es: seq<Event>)
    requires |s.sems| == INITIAL_SEM
    ensures |Run(s, es).state.sems| == INITIAL_SEM
    decreases |es|
  {
    hide Serve;
    if es != [] {
      W.BlockedStep(s, es[0], 0);
      RunSize(Serve(s, es[0]).state, es[1..]);
    }
  }

  /** The second field of the message, over any run. */
  lemma {:induction false} OutIsLastHandle(s: State, es: seq<Event>)
    requires |s.sems| == INITIAL_SEM
    ensures Run(s, es).state.out.param1 == LastHandle(s, es)
    decreases |es|
  {
    if es != [] {
      var before, e := es[..|es| - 1], es[|es| - 1];
      assert es == before + [e];
      OutIsLastHandle(s, before);
      RunSize(s, before);
      RunAppend(s, before, [e]);
      OutStep(Run(s, before).state, e);
      RunOne(Run(s, before).state, e);
      hide Serve, Run, HandleOf, NamesHandle;
    }
  }

  lemma RunOne(s: State, e: Event)
    ensures Run(s, [e]).state == Serve(s, e).state
  {
    hide Serve;
    assert [e][1..] == [] && Run(Serve(s, e).state, []).state == Serve(s, e).state;
  }

  /** The reply to a woken process is built from whatever message was answered last. After any run, the
      post of q that wakes a sleeper on h tells it handle h if and only if the last request of the run that
      was answered with a handle was answered with h; q itself is told h in any case. */
  lemma WokenHandleIff(s: State, es: seq<Event>, q: int, h: int, junk: int)
    requires |s.sems| == INITIAL_SEM && Member(Run(s, es).state, h, q) && Run(s, es).state.sems[h].count < 0
    ensures var t := Run(s, es).state;
            var replies := Serve(t, Event(q, Post(h), junk)).replies;
            && |replies| == 2 && replies[1].to == q && replies[1].body.param1 == h
            && replies[0].to == (if t.sems[h].blocked == [] then junk else t.sems[h].blocked[0])
            && (replies[0].body.param1 == h <==> LastHandle(s, es) == h)
  {
    var t, e := Run(s, es).state, Event(q, Post(h), junk);
    OutIsLastHandle(s, es);
    W.RepliesShape(t, e);
    hide Run, LastHandle;
  }

  /** A sleeper on h woken by a process whose previous request named another semaphore g is told
      handle g. */
  lemma WokenHandleWrong(s: State, p: int, q: int, h: int, g: int, junk: int)
    requires Inv(s) && p != q && h != g && Member(s, h, p) && Member(s, h, q) && s.sems[h].count <= 0 && !Full(s)
    ensures var s1 := Serve(s, Event(p, Wait(h), 0)).state;
            var s2 := Serve(s1, Event(q, TryWait(g), 0)).state;
            var replies := Serve(s2, Event(q, Post(h), junk)).replies;
            && |replies| == 2 && replies[0].to == p && replies[0].result == Ok
            && replies[0].body == Message(0, g, replies[0].body.param2)
  {
    hide SlotsOk, NamesOk, Used;
    var s1 := Serve(s, Event(p, Wait(h), 0)).state;
    var s2 := Serve(s1, Event(q, TryWait(g), 0)).state;
    assert s1.sems[h].blocked[0] == p && s1.sems[h].count < 0;
    assert s2.sems[h] == s1.sems[h] && s2.out.param1 == g;
    var r := DoPost(s2, q, h, junk);
    assert r.woken == [p];
    assert Wakes(r.woken[1..], r.state.out, r.state.errno) == [];
  }

  /** A process that exits while asleep stays in the blocked list, and the next post is spent on it. */
  lemma ExitedSleeperEatsPost(s: State, p: int, q: int, h: int, junk: int)
    requires Inv(s) && p != q && IsHandle(h) && Member(s, h, q) && s.sems[h].count < 0
    requires s.sems[h].blocked != [] && s.sems[h].blocked[0] == p
    ensures DoPost(DoCloseAll(s, p), q, h, junk).woken == [p]
  {
    CloseFromSlots(s, p, 0);
    if p in s.sems[h].openers { A.RemoveFirstKeepsOthers(s.sems[h].openers, p, q); }
  }

  /** An exit takes a sleeper out of the blocked lists exactly where it releases the slot: the process must have been
      the last opener, with one entry, of an unlinked semaphore. Everywhere else it is left behind. */
  lemma ExitLeavesSleeperIff(s: State, p: int)
    requires Inv(s)
    ensures (forall k | 0 <= k < INITIAL_SEM :: p !in DoCloseAll(s, p).sems[k].blocked)
       <==> (forall k | 0 <= k < INITIAL_SEM ::
           p in s.sems[k].blocked ==> s.sems[k].unlinked && s.sems[k].openers == [p])
  {
    CloseFromSlots(s, p, 0);
    hide CloseFrom, SlotsOk, NamesOk, RemoveFirst;
    forall k | 0 <= k < INITIAL_SEM
      ensures p in DoCloseAll(s, p).sems[k].blocked
         <==> p in s.sems[k].blocked && !(s.sems[k].unlinked && s.sems[k].openers == [p])
    {
      ReleasedByLast(s.sems[k].openers, p);
    }
  }

  lemma ReleasedByLast(openers: seq<int>, p: int)
    ensures p in openers && RemoveFirst(openers, p) == [] <==> openers == [p]
  {
    RemoveFirstSize(openers, p);
    if p in openers && |openers| == 1 { assert openers == [p]; }
  }

  // ---- The pool runs out ----

  /** Processes 1 to n open the semaphore "s". */
  function Opens(n: nat): seq<Event> {
    if n == 0 then [] else Opens(n - 1) + [Event(n, Open("s", true, false, 0), 0)]
  }

  /** n processes have opened the one semaphore "s". */
  ghost predicate Openers(s: State, n: nat) {
    && |s.sems| == INITIAL_SEM && s.names == map["s" := 0] && (forall k | 1 <= k < INITIAL_SEM :: s.sems[k] == FREE_SEM)
    && s.sems[0].count == 0 && s.sems[0].refCount == n && s.sems[0].blocked == []
    && |s.sems[0].openers| == n && 1 in s.sems[0].openers
  }

  lemma FirstOpens()
    ensures Openers(Serve(INITIAL, Event(1, Open("s", true, false, 0), 0)).state, 1)
  {
    hide Serve, Used;
    assert Clip("s") == "s";
    UsedOfFree(INITIAL.sems, INITIAL_SEM);
    OpenCreatesAt(INITIAL, 1, "s", 0, 0, 0);
  }

  lemma OneMoreOpens(s: State, n: nat)
    requires Openers(s, n) && n < MAX_NODES
    ensures Openers(Serve(s, Event(n + 1, Open("s", true, false, 0), 0)).state, n + 1)
  {
    hide Serve, Used;
    assert Clip("s") == "s";
    UsedOfFree(INITIAL.sems, INITIAL_SEM);
    assert s.sems == INITIAL.sems[0 := s.sems[0]];
    UsedUpdate(INITIAL.sems, 0, s.sems[0], INITIAL_SEM);
    OpenJoins(s, n + 1, "s", 0, 0, 0);
  }

  lemma {:induction false} OpensFill(n: nat)
    requires 1 <= n <= MAX_NODES
    ensures Openers(Run(INITIAL, Opens(n)).state, n)
  {
    hide Serve, Openers;
    var e, before := Event(n, Open("s", true, false, 0), 0), Run(INITIAL, Opens(n - 1)).state;
    RunAppend(INITIAL, Opens(n - 1), [e]);
    RunOne(before, e);
    if n > 1 {
      OpensFill(n - 1);
      OneMoreOpens(before, n - 1);
    } else {
      FirstOpens();
    }
  }

  /** Twenty processes opening one semaphore use up the pool: the first of them to wait is blocked and is
      in no blocked list. `Wakeups.DroppedAnsweredIff` says what can still become of it. */
  lemma TwentyOpenersLoseAWaiter()
    ensures A.Drops(Run(INITIAL, Opens(20)).state, Event(1, Wait(0), 0))
  {
    hide Run, Opens;
    OpensFill(20);
    var s := Run(INITIAL, Opens(20)).state;
    assert s.sems == INITIAL.sems[0 := s.sems[0]];
    UsedOfFree(INITIAL.sems, INITIAL_SEM);
    UsedUpdate(INITIAL.sems, 0, s.sems[0], INITIAL_SEM);
  }

  // ---- A stray reply breaks mutual exclusion ----

  /** Process 2 opens it; 1 takes it; 2 waits for it. */
  const CONTENTION := [Event(2, Open("m", true, false, 0), 0), Event(1, Wait(0), 0), Event(2, Wait(0), 0)]

  /** Processes 3 to n + 2 open "s". */
  function Strangers(n: nat): seq<Event> {
    if n == 0 then [] else Strangers(n - 1) + [Event(n + 2, Open("s", true, false, 0), 0)]
  }

  /** Process 3 waits for "s" and is dropped; 4 posts "s", and its local holds 2. */
  const ACCIDENT := [Event(3, Wait(1), 0), Event(4, Post(1), 2)]

  /** Process 1 holds "m", 2 sleeps on it, and n strangers have "s" open. */
  ghost predicate Crowded(w: W.Watch, n: nat) {
    && |w.state.sems| == INITIAL_SEM && w.state.sems[0] == Sem(-1, 2, [2, 1], [2], false)
    && (forall k | 2 <= k < INITIAL_SEM :: w.state.sems[k] == FREE_SEM)
    && w.state.names == (if n == 0 then map["m" := 0] else map["m" := 0, "s" := 1])
    && w.state.sems[1] == Sem(0, n, w.state.sems[1].openers, [], false) && |w.state.sems[1].openers| == n
    && (n > 0 ==> 3 in w.state.sems[1].openers) && (n > 1 ==> 4 in w.state.sems[1].openers)
    && w.view == W.View({2}, multiset{1}) && w.owed == {2}
  }

  lemma CrowdedUsed(w: W.Watch, n: nat)
    requires Crowded(w, n)
    ensures Used(w.state.sems, INITIAL_SEM) == 3 + n
  {
    var m := Sem(-1, 2, [2, 1], [2], false);
    UsedOfFree(INITIAL.sems, INITIAL_SEM);
    UsedUpdate(INITIAL.sems, 0, m, INITIAL_SEM);
    UsedUpdate(INITIAL.sems[0 := m], 1, w.state.sems[1], INITIAL_SEM);
    assert w.state.sems == INITIAL.sems[0 := m][1 := w.state.sems[1]];
  }

  lemma OneMore(w: W.Watch, n: nat)
    requires Crowded(w, n) && n < 17
    ensures var e := Event(n + 3, Open("s", true, false, 0), 0); W.Fair(w, e, 0) && Crowded(W.Next(w, e, 0), n + 1)
  {
    hide Serve, Used, W.Observe, A.StillOwed, W.Releases;
    var s, e := w.state, Event(n + 3, Open("s", true, false, 0), 0);
    CrowdedUsed(w, n);
    assert Clip("s") == "s";
    if n == 0 { OpenCreatesAt(s, 3, "s", 0, 1, 0); } else { OpenJoins(s, n + 3, "s", 0, 1, 0); }
    W.PlainRequest(w, e, 0);
  }

  lemma {:induction false} StrangersCrowd(w: W.Watch, n: nat)
    requires Crowded(w, 0) && n <= 17
    ensures W.FairRun(w, Strangers(n), 0) && Crowded(W.Watched(w, Strangers(n), 0), n)
  {
    hide Crowded, W.Fair, W.Next;
    if n > 0 {
      var e, before := Event(n + 2, Open("s", true, false, 0), 0), W.Watched(w, Strangers(n - 1), 0);
      StrangersCrowd(w, n - 1);
      OneMore(before, n - 1);
      W.WatchedAppend(w, Strangers(n - 1), [e], 0);
      WatchedOne(before, e);
    }
  }

  lemma WatchedOne(w: W.Watch, e: Event)
    ensures W.Watched(w, [e], 0) == W.Next(w, e, 0) && (W.FairRun(w, [e], 0) <==> W.Fair(w, e, 0))
  {
    hide W.Fair, W.Next;
    assert [e][1..] == [] && W.Watched(W.Next(w, e, 0), [], 0) == W.Next(w, e, 0) && W.FairRun(W.Next(w, e, 0), [], 0);
  }

  /** The dropped wait of process 3. */
  lemma ThreeIsDropped(w: W.Watch)
    requires Crowded(w, 17)
    ensures var e := Event(3, Wait(1), 0); var w1 := W.Next(w, e, 0);
            && A.Drops(w.state, e) && W.Fair(w, e, 0) && w1.view == w.view && w1.owed == {2, 3}
            && w1.state.sems == w.state.sems[1 := w.state.sems[1].(count := -1)]
  {
    var s, e := w.state, Event(3, Wait(1), 0);
    CrowdedUsed(w, 17);
    W.RepliesShape(s, e);
    assert Serve(s, e).replies == [] && W.Granted({2}, e, 0, []) == multiset{};
    hide Used, W.Granted;
  }

  /** The post of process 4 is answered to process 2. */
  lemma TwoIsMisled(w: W.Watch)
    requires |w.state.sems| == INITIAL_SEM && Live(w.state.sems[0]) && 4 in w.state.sems[1].openers
    requires w.state.sems[1].count == -1 && w.state.sems[1].blocked == [] && w.view == W.View({2}, multiset{1})
             && w.owed == {2, 3}
    ensures var e := Event(4, Post(1), 2); W.Fair(w, e, 0) && W.Next(w, e, 0).view.held == multiset{1, 2}
  {
    var s, e := w.state, Event(4, Post(1), 2);
    W.RepliesShape(s, e);
    W.GrantedFew({2}, e, 0, Serve(s, e).replies);
    assert Serve(s, e).state.sems[0] == s.sems[0];
    hide Serve, W.Granted;
  }

  /** Without contention so far: 1 has created "m". */
  lemma OneCreates()
    ensures var s := Serve(INITIAL, Event(1, Open("m", true, false, 1), 0)).state;
            s.sems == INITIAL.sems[0 := Sem(1, 1, [1], [], false)] && s.names == map["m" := 0]
  {
    UsedOfFree(INITIAL.sems, INITIAL_SEM);
    assert Clip("m") == "m";
    assert Push(INITIAL, [], 1) == [1];
    OpenCreatesAt(INITIAL, 1, "m", 1, 0, 0);
  }

  /** Only slot 0 is taken, with m in it, under the name "m". */
  ghost predicate OnlyM(w: W.Watch, m: Sem) {
    && |w.state.sems| == INITIAL_SEM && w.state.sems[0] == m
    && (forall k | 1 <= k < INITIAL_SEM :: w.state.sems[k] == FREE_SEM)
    && w.state.names == map["m" := 0] && w.owed == {}
  }

  lemma RoomBesideM(w: W.Watch, m: Sem)
    requires OnlyM(w, m) && Size(m) < MAX_NODES
    ensures !Full(w.state)
  {
    UsedOfFree(INITIAL.sems, INITIAL_SEM);
    UsedUpdate(INITIAL.sems, 0, m, INITIAL_SEM);
    assert w.state.sems == INITIAL.sems[0 := m];
  }

  lemma TwoOpens(w: W.Watch)
    requires OnlyM(w, Sem(1, 1, [1], [], false)) && w.view == W.NOBODY
    ensures var e := CONTENTION[0];
            W.Fair(w, e, 0) && OnlyM(W.Next(w, e, 0), Sem(1, 2, [2, 1], [], false)) && W.Next(w, e, 0).view == W.NOBODY
  {
    RoomBesideM(w, Sem(1, 1, [1], [], false));
    W.PlainRequest(w, CONTENTION[0], 0);
    assert Clip("m") == "m" && [2] + [1] == [2, 1];
    OpenJoins(w.state, 2, "m", 0, 0, 0);
    hide Serve, Used, W.Observe, A.StillOwed;
  }

  lemma OneTakes(w: W.Watch)
    requires OnlyM(w, Sem(1, 2, [2, 1], [], false)) && w.view == W.NOBODY
    ensures var e := CONTENTION[1];
            W.Fair(w, e, 0) && OnlyM(W.Next(w, e, 0), Sem(0, 2, [2, 1], [], false))
            && W.Next(w, e, 0).view == W.View({}, multiset{1})
  {
    var s, e := w.state, CONTENTION[1];
    W.RepliesShape(s, e);
    assert 1 in s.sems[0].openers && Serve(s, e).replies == [Serve(s, e).replies[0]];
    W.GrantedFew({}, e, 0, Serve(s, e).replies);
    hide Used, W.Granted;
  }

  lemma TwoSleeps(w: W.Watch)
    requires OnlyM(w, Sem(0, 2, [2, 1], [], false)) && w.view == W.View({}, multiset{1})
    ensures var e := CONTENTION[2]; W.Fair(w, e, 0) && Crowded(W.Next(w, e, 0), 0)
  {
    var s, e := w.state, CONTENTION[2];
    RoomBesideM(w, Sem(0, 2, [2, 1], [], false));
    assert 2 in s.sems[0].openers && s.sems[1] == FREE_SEM;
    W.RepliesShape(s, e);
    assert Serve(s, e).replies == [] && W.Granted({}, e, 0, []) == multiset{} && Push(s, [], 2) == [2];
    hide Used, W.Granted;
  }

  /** Mutual exclusion fails once the pool has run out: a run that meets every other demand of
      `Wakeups.MutualExclusion`, in which process 1 is told that it holds "m", of value 1, and process 2
      is told so too while 1 has not posted. A dropped wait and a stray reply of another semaphore do it;
      the slot of "m" itself is not touched by either. */
  lemma StrayBreaksExclusion()
    ensures var w := W.Watch(Serve(INITIAL, Event(1, Open("m", true, false, 1), 0)).state, W.NOBODY, {});
            var es := CONTENTION + Strangers(17) + ACCIDENT;
            && Inv(w.state) && A.Orderly(w.state, w.owed) && A.Accounted(w.state, w.owed) && W.Untaken(w, 0, 1)
            && W.FairRun(w, es, 0) && W.Watched(w, es, 0).view.held == multiset{1, 2}
            && !A.NoDrops(w.state, es) && !W.StraysMiss(w, es, 0)
  {
    var first := Event(1, Open("m", true, false, 1), 0);
    var w := W.Watch(Serve(INITIAL, first).state, W.NOBODY, {});
    var es := CONTENTION + Strangers(17) + ACCIDENT;
    StartIsSound(w);
    CrowdGathers(w);
    W.OrderlyIsTidy(w.state, w.owed);
    assert |multiset{1, 2}| == 2;
    hide Serve, Inv, A.Orderly, A.Accounted, W.Watched, W.FairRun, W.StraysMiss, A.NoDrops, Strangers, W.Tidy;
    if W.StraysMiss(w, es, 0) { W.MutualExclusion(w, es, 0, 1); }
    if A.NoDrops(w.state, es) { W.NoDropsNoStrays(w, es, 0); }
  }

  lemma StartIsSound(w: W.Watch)
    requires w == W.Watch(Serve(INITIAL, Event(1, Open("m", true, false, 1), 0)).state, W.NOBODY, {})
    ensures Inv(w.state) && A.Orderly(w.state, w.owed) && A.Accounted(w.state, w.owed) && W.Untaken(w, 0, 1)
    ensures OnlyM(w, Sem(1, 1, [1], [], false))
  {
    hide Serve, Operate, Inv, A.Orderly, A.Accounted, W.Observe;
    var e := Event(1, Open("m", true, false, 1), 0);
    OneCreates();
    A.InitialOrderly();
    assert A.Allowed(INITIAL, e, {}) && !A.Drops(INITIAL, e);
    A.StepAccounted(INITIAL, e, {});
    W.PlainRequest(W.Watch(INITIAL, W.NOBODY, {}), e, 0);
  }

  lemma CrowdGathers(w: W.Watch)
    requires OnlyM(w, Sem(1, 1, [1], [], false)) && w.view == W.NOBODY
    ensures var es := CONTENTION + Strangers(17) + ACCIDENT;
            W.FairRun(w, es, 0) && W.Watched(w, es, 0).view.held == multiset{1, 2}
  {
    var w1 := W.Watched(w, CONTENTION, 0);
    ContentionCrowds(w);
    StrangersCrowd(w1, 17);
    var w2 := W.Watched(w1, Strangers(17), 0);
    AccidentMisleads(w2);
    hide Strangers, W.Watched, W.FairRun, Crowded;
    W.WatchedAppend(w, CONTENTION, Strangers(17), 0);
    W.WatchedAppend(w, CONTENTION + Strangers(17), ACCIDENT, 0);
  }

  lemma ContentionCrowds(w: W.Watch)
    requires OnlyM(w, Sem(1, 1, [1], [], false)) && w.view == W.NOBODY
    ensures W.FairRun(w, CONTENTION, 0) && Crowded(W.Watched(w, CONTENTION, 0), 0)
  {
    var w1 := W.Next(w, CONTENTION[0], 0);
    var w2 := W.Next(w1, CONTENTION[1], 0);
    TwoOpens(w);
    OneTakes(w1);
    TwoSleeps(w2);
    hide W.Fair, W.Next, Crowded, OnlyM;
    WatchedOne(w2, CONTENTION[2]);
    assert CONTENTION[1..][1..] == [CONTENTION[2]] && CONTENTION[1..][0] == CONTENTION[1];
  }

  lemma AccidentMisleads(w: W.Watch)
    requires Crowded(w, 17)
    ensures W.FairRun(w, ACCIDENT, 0) && W.Watched(w, ACCIDENT, 0).view.held == multiset{1, 2}
  {
    var w1 := W.Next(w, ACCIDENT[0], 0);
    ThreeIsDropped(w);
    TwoIsMisled(w1);
    hide W.Fair, W.Next, Crowded;
    WatchedOne(w1, ACCIDENT[1]);
    assert ACCIDENT[1..] == [ACCIDENT[1]];
  }
}
