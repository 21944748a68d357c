/** The ten slots as a resource: how many are in use after a run, what a semaphore made and destroyed leaves
    free, and when a slot is lost for good. */
module Slots {
  import opened PoolModel
  import opened NameTable
  import opened Machine
  import opened Invariants
  import opened Runs
  import opened Lifecycle
  import opened Replies

  // ---- How many slots are in use ----

  function InUse(sems: seq<Sem>, n: nat): (r: nat)
    requires n <= |sems|
    ensures r <= n
  {
    if n == 0 then 0 else InUse(sems, n - 1) + if Live(sems[n - 1]) then 1 else 0
  }

  function SlotsInUse(s: State): nat { InUse(s.sems, |s.sems|) }

  lemma {:induction false} InUseUpdate(sems: seq<Sem>, k: nat, m: Sem, n: nat)
    requires k < |sems| && n <= |sems|
    ensures InUse(sems[k := m], n)
            == InUse(sems, n) + if k < n then (if Live(m) then 1 else 0) - (if Live(sems[k]) then 1 else 0) else 0
  {
    if n > 0 { InUseUpdate(sems, k, m, n - 1); }
  }

  lemma {:induction false} InUseSame(a: seq<Sem>, b: seq<Sem>, n: nat)
    requires n <= |a| == |b| && forall k | 0 <= k < n :: Live(a[k]) == Live(b[k])
    ensures InUse(a, n) == InUse(b, n)
  {
    if n > 0 { InUseSame(a, b, n - 1); }
  }

  lemma {:induction false} AllInUseIff(sems: seq<Sem>, n: nat)
    requires n <= |sems|
    ensures InUse(sems, n) == n <==> forall k | 0 <= k < n :: Live(sems[k])
  {
    if n > 0 { AllInUseIff(sems, n - 1); }
  }

  /** A slot is free exactly when fewer than ten are in use. */
  lemma FreeIffFewer(s: State)
    requires |s.sems| == INITIAL_SEM
    ensures SlotFree(s) <==> SlotsInUse(s) < INITIAL_SEM
  {
    AllInUseIff(s.sems, INITIAL_SEM);
  }

  /** p is the only opener entry of an unlinked semaphore. */
  predicate LastOf(m: Sem, p: int) { m.unlinked && m.openers == [p] }

  /** The slots below n that p is the last of. */
  function LastIn(sems: seq<Sem>, p: int, n: nat): nat
    requires n <= |sems|
  {
    if n == 0 then 0 else LastIn(sems, p, n - 1) + if LastOf(sems[n - 1], p) then 1 else 0
  }

  /** How many slots a request takes into use: one, if it makes a semaphore. */
  ghost function Made(s: State, e: Event): nat { if Makes(s, e) then 1 else 0 }

  /** How many it frees: a destroy one, a close one if it is the last of an unlinked semaphore, and an exec or exit
      all those of which the process is the last. */
  ghost function Freed(s: State, e: Event): nat {
    match e.call
    case Destroy(h) => if Admitted(s, e) then 1 else 0
    case Close(h) => if Admitted(s, e) && LastOf(s.sems[h], e.who) then 1 else 0
    case Exec(p) => if e.who == MM_PROC_NR then LastIn(s.sems, p, |s.sems|) else 0
    case Exit(p) => if e.who == MM_PROC_NR then LastIn(s.sems, p, |s.sems|) else 0
    case _ => 0
  }

  lemma {:induction false} CloseAllFrees(a: seq<Sem>, b: seq<Sem>, p: int, n: nat)
    requires n <= |a| == |b| && forall k | 0 <= k < n :: SlotOk(a[k]) && b[k] == CloseSlot(a[k], p)
    ensures InUse(b, n) == InUse(a, n) - LastIn(a, p, n)
  {
    if n > 0 {
      CloseAllFrees(a, b, p, n - 1);
      RemoveFirstSize(a[n - 1].openers, p);
      hide RemoveFirst;
    }
  }

  lemma CloseAllSlots(s: State, p: int)
    requires Inv(s)
    ensures SlotsInUse(DoCloseAll(s, p)) == SlotsInUse(s) - LastIn(s.sems, p, |s.sems|)
  {
    CloseFromSlots(s, p, 0);
    CloseAllFrees(s.sems, DoCloseAll(s, p).sems, p, INITIAL_SEM);
    hide CloseFrom, InUse, LastIn, Used, NamesOk;
  }

  lemma OpenAllSlots(s: State, parent: int, child: int)
    requires Inv(s)
    ensures SlotsInUse(DoOpenAll(s, parent, child)) == SlotsInUse(s)
  {
    OpenFromSlots(s, parent, child, 0);
    hide OpenFrom, InUse, Used, NamesOk;
    InUseSame(s.sems, DoOpenAll(s, parent, child).sems, INITIAL_SEM);
  }

  lemma ManagerSlots(s: State, e: Event)
    requires Inv(s) && FromManager(e.call)
    ensures SlotsInUse(Serve(s, e).state) == SlotsInUse(s) - Freed(s, e)
  {
    hide SlotsOk, NamesOk, DoOpenAll, DoCloseAll, InUse, LastIn;
    if e.who == MM_PROC_NR {
      match e.call {
        case Fork(parent, child) => OpenAllSlots(s, parent, child);
        case Exec(p) => CloseAllSlots(s, p);
        case Exit(p) => CloseAllSlots(s, p);
      }
    }
  }

  lemma CloseSlots(s: State, e: Event)
    requires Inv(s) && e.call.Close?
    ensures SlotsInUse(Serve(s, e).state) == SlotsInUse(s) - Freed(s, e)
  {
    var h := e.call.handle;
    OwnIs(s, e);
    if Member(s, h, e.who) {
      CloseOneSlot(s, e.who, h);
      assert SlotOk(s.sems[h]);
      RemoveFirstSize(s.sems[h].openers, e.who);
      InUseUpdate(s.sems, h, CloseSlot(s.sems[h], e.who), INITIAL_SEM);
    }
    hide InUse, Serve, Used, NamesOk, RemoveFirst;
  }

  /** A request that neither makes nor frees a semaphore leaves the same slots in use. */
  lemma OthersKeepSlots(s: State, e: Event)
    requires Inv(s) && !FromManager(e.call) && Admitted(s, e) && !Makes(s, e) && !e.call.Close? && !e.call.Destroy?
    ensures SlotsInUse(Serve(s, e).state) == SlotsInUse(s)
  {
    OwnIs(s, e);
    var s' := Serve(s, e).state;
    if e.call.Open? { NamedIsLive(s, Clip(e.call.name)); }
    if e.call.Unlink? { NamedIsLive(s, Clip(e.call.name)); }
    hide Serve, Used, SlotsOk, NamesOk, InUse, Clip;
    InUseSame(s.sems, s'.sems, INITIAL_SEM) by { assert |s.sems| == INITIAL_SEM by { SizeOk(s); } }
  }

  /** One request: slots in use after it are those before, plus the one it makes, less those it frees. */
  lemma StepSlots(s: State, e: Event)
    requires Inv(s)
    ensures SlotsInUse(Serve(s, e).state) == SlotsInUse(s) + Made(s, e) - Freed(s, e)
  {
    SizeOk(s);
    if FromManager(e.call) {
      ManagerSlots(s, e);
    } else if !Admitted(s, e) {
      RefusedIsClean(s, e);
      InUseSame(s.sems, Serve(s, e).state.sems, INITIAL_SEM);
    } else if Makes(s, e) {
      MakesOne(s, e);
      InUseUpdate(s.sems, NewSlot(s, e), Serve(s, e).state.sems[NewSlot(s, e)], INITIAL_SEM);
    } else if e.call.Close? {
      CloseSlots(s, e);
    } else if e.call.Destroy? {
      DestroyOne(s, e);
    } else {
      OthersKeepSlots(s, e);
    }
    hide Serve, SlotsOk, NamesOk, InUse, LastIn;
  }

  lemma DestroyOne(s: State, e: Event)
    requires Inv(s) && e.call.Destroy? && Admitted(s, e)
    ensures SlotsInUse(Serve(s, e).state) == SlotsInUse(s) - 1
  {
    var s', h := Serve(s, e).state, e.call.handle;
    SizeOk(s);
    MembersAreLive(s, h, e.who);
    DestroyFrees(s, e);
    assert s'.sems == s.sems[h := s'.sems[h]];
    InUseUpdate(s.sems, h, s'.sems[h], INITIAL_SEM);
    hide Serve, SlotsOk, NamesOk, InUse;
  }

  ghost function AllMade(s: State, es: seq<Event>): nat
    decreases |es|
  {
    if es == [] then 0 else Made(s, es[0]) + AllMade(Serve(s, es[0]).state, es[1..])
  }

  ghost function AllFreed(s: State, es: seq<Event>): nat
    decreases |es|
  {
    if es == [] then 0 else Freed(s, es[0]) + AllFreed(Serve(s, es[0]).state, es[1..])
  }

  /** The ledger of the slots, over every lawful run. A new semaphore is refused for want of a slot exactly when
      the ledger stands at ten. */
  lemma {:induction false} SlotLedger(s: State, es: seq<Event>)
    requires Inv(s) && Lawful(s, es)
    ensures SlotsInUse(Run(s, es).state) == SlotsInUse(s) + AllMade(s, es) - AllFreed(s, es)
    ensures SlotFree(Run(s, es).state) <==> SlotsInUse(s) + AllMade(s, es) - AllFreed(s, es) < INITIAL_SEM
    decreases |es|
  {
    hide Serve, SlotsOk, NamesOk, InUse, Made, Freed, SlotFree;
    if es != [] {
      StepSlots(s, es[0]);
      ServeKeepsInv(s, es[0]);
      SlotLedger(Serve(s, es[0]).state, es[1..]);
    } else {
      SizeOk(s);
      FreeIffFewer(s);
    }
  }

  // ---- Init and destroy ----

  /** An init followed, after any lawful requests during which its maker neither leaves nor sees it destroyed, by a
      destroy by its maker, nobody being asleep on it: the destroy is lawful, is answered 0 and leaves one slot
      fewer in use. If the two follow each other, as many are in use as before. */
  lemma InitThenDestroy(s: State, e: Event, es: seq<Event>, junk: int)
    requires Inv(s) && e.call.Init? && Makes(s, e) && !Full(s)
    requires Lawful(Serve(s, e).state, es)
    ensures Serve(s, e).replies != [] && Lowest(s, NewSlot(s, e))
    ensures var s1, k := Serve(s, e).state, NewSlot(s, e);
            var t, d := Run(s1, es).state, Event(e.who, Destroy(k), junk);
            HoldsOn(s1, es, k, e.who) && k < |t.sems| && t.sems[k].blocked == [] ==>
              && !DestroysNamed(t, d) && Serve(t, d).replies != []
              && Own(t, d).body.rta == 0 && Own(t, d).result == Ok
              && SlotsInUse(Serve(t, d).state) == SlotsInUse(t) - 1
              && (es == [] ==> SlotsInUse(Serve(t, d).state) == SlotsInUse(s))
  {
    var s1, k := Serve(s, e).state, NewSlot(s, e);
    var t, d := Run(s1, es).state, Event(e.who, Destroy(k), junk);
    MakesOne(s, e);
    ServeKeepsInv(s, e);
    StepSlots(s, e);
    assert Member(s1, k, e.who) && s1.sems[k].unlinked && LiveAt(s1, k);
    RunKeepsInv(s1, es);
    SizeOk(t);
    hide Serve, SlotsOk, NamesOk, Makes, InUse, Full;
    if HoldsOn(s1, es, k, e.who) && t.sems[k].blocked == [] {
      HandleIsStable(s1, es, k, e.who);
      UnlinkedStays(s1, es, k);
      AnswerIff(t, d);
      ErrorIs(t, d);
      DestroyOne(t, d);
    }
  }

  /** p inits a semaphore in slot k and destroys it, n times over. */
  function Pairs(p: int, h: int, value: nat, k: int, n: nat): seq<Event> {
    if n == 0 then [] else [Event(p, Init(h, value), 0), Event(p, Destroy(k), 0)] + Pairs(p, h, value, k, n - 1)
  }

  /** A server on which p can go on making and destroying semaphores. */
  ghost predicate Fit(s: State, k: int) { Inv(s) && s.errno == Ok && Lowest(s, k) && !Full(s) }

  ghost predicate AllDone(replies: seq<Reply>, n: nat) {
    |replies| == n && forall i | 0 <= i < n :: replies[i].body.rta == 0 && replies[i].result == Ok
  }

  /** An admitted init or destroy is answered 0 and Ok, and nobody else is sent anything. */
  lemma DoneAlone(s: State, e: Event)
    requires Inv(s) && (e.call.Init? || e.call.Destroy?) && Admitted(s, e)
    ensures AllDone(Serve(s, e).replies, 1) && Serve(s, e).state.errno == s.errno
  {
    AnswerIff(s, e);
    ErrorIs(s, e);
    ErrnoAfter(s, e);
    AnsweredAlone(s, e);
    hide Serve, SlotsOk, NamesOk;
  }

  /** The destroy puts back the slot, and the nodes. */
  lemma BackToFit(s: State, s1: State, d: Event, k: int)
    requires Fit(s, k) && Inv(s1) && s1.errno == Ok && d.call == Destroy(k) && Admitted(s1, d) && !DestroysNamed(s1, d)
    requires |s1.sems| == INITIAL_SEM && forall j | 0 <= j < INITIAL_SEM && j != k :: s1.sems[j] == s.sems[j]
    ensures Fit(Serve(s1, d).state, k)
  {
    var s2 := Serve(s1, d).state;
    SizeOk(s);
    ServeKeepsInv(s1, d);
    DestroyFrees(s1, d);
    DoneAlone(s1, d);
    assert Size(s2.sems[k]) == 0 && Size(s.sems[k]) == 0 by { assert SlotOk(s.sems[k]); }
    assert s2.sems == s.sems[k := s2.sems[k]];
    UsedUpdate(s.sems, k, s2.sems[k], INITIAL_SEM);
    hide Serve, SlotsOk, NamesOk, Used;
  }

  lemma OnePair(s: State, p: int, h: int, value: nat, k: int)
    requires Fit(s, k) && value <= SEM_VALUE_MAX
    ensures var e, d := Event(p, Init(h, value), 0), Event(p, Destroy(k), 0);
            var s1 := Serve(s, e).state;
            && !DestroysNamed(s, e) && !DestroysNamed(s1, d) && Fit(Serve(s1, d).state, k)
            && AllDone(Serve(s, e).replies, 1) && AllDone(Serve(s1, d).replies, 1)
            && SlotsInUse(Serve(s1, d).state) == SlotsInUse(s)
  {
    var e, d := Event(p, Init(h, value), 0), Event(p, Destroy(k), 0);
    var s1 := Serve(s, e).state;
    SizeOk(s);
    assert Makes(s, e);
    MakesOne(s, e);
    assert NewSlot(s, e) == k;
    StepSlots(s, e);
    ServeKeepsInv(s, e);
    DoneAlone(s, e);
    hide Serve, SlotsOk, NamesOk, Used, InUse, Makes, Full;
    assert Admitted(s1, d) && !DestroysNamed(s1, d);
    DoneAlone(s1, d);
    DestroyOne(s1, d);
    BackToFit(s, s1, d, k);
  }

  lemma TwoThen(s: State, e: Event, d: Event, rest: seq<Event>)
    ensures var first := Serve(s, e);
            var second := Serve(first.state, d);
            && Run(s, [e, d] + rest).state == Run(second.state, rest).state
            && Run(s, [e, d] + rest).replies == first.replies + (second.replies + Run(second.state, rest).replies)
            && (Lawful(s, [e, d] + rest) <==>
                  !DestroysNamed(s, e) && !DestroysNamed(first.state, d) && Lawful(second.state, rest))
  {
    var es := [e, d] + rest;
    assert es[0] == e && es[1..] == [d] + rest && es[1..][0] == d && es[1..][1..] == rest;
    hide Serve, DestroysNamed;
  }

  lemma DoneAppend(a: seq<Reply>, b: seq<Reply>, m: nat, n: nat)
    requires AllDone(a, m) && AllDone(b, n)
    ensures AllDone(a + b, m + n)
  {}

  /** All m requests es are lawful and answered 0, and leave the server fit and as many slots in use. */
  ghost predicate GoesWell(s: State, es: seq<Event>, m: nat, k: int) {
    && Lawful(s, es) && AllDone(Run(s, es).replies, m) && Fit(Run(s, es).state, k)
    && SlotsInUse(Run(s, es).state) == SlotsInUse(s)
  }

  lemma PairThen(s: State, p: int, h: int, value: nat, k: int, rest: seq<Event>, m: nat)
    requires Fit(s, k) && value <= SEM_VALUE_MAX
    requires GoesWell(Serve(Serve(s, Event(p, Init(h, value), 0)).state, Event(p, Destroy(k), 0)).state, rest, m, k)
    ensures GoesWell(s, [Event(p, Init(h, value), 0), Event(p, Destroy(k), 0)] + rest, m + 2, k)
  {
    var e, d := Event(p, Init(h, value), 0), Event(p, Destroy(k), 0);
    var first := Serve(s, e);
    var second := Serve(first.state, d);
    hide Serve, Fit, InUse, DestroysNamed, AllDone, Run, Lawful;
    OnePair(s, p, h, value, k);
    TwoThen(s, e, d, rest);
    DoneAppend(second.replies, Run(second.state, rest).replies, 1, m);
    DoneAppend(first.replies, second.replies + Run(second.state, rest).replies, 1, m + 1);
  }

  lemma NothingGoesWell(s: State, k: int)
    requires Fit(s, k)
    ensures GoesWell(s, [], 0, k)
  {
    assert Run(s, []) == Step(s, []) && Lawful(s, []);
    hide Serve, Fit, InUse, DestroysNamed;
  }

  /** However often a process makes a semaphore and destroys it, it never runs out: every one of the requests is
      answered 0, and as many slots are in use at the end as at the start. */
  lemma {:induction false} PairsForever(s: State, p: int, h: int, value: nat, k: int, n: nat)
    requires Fit(s, k) && value <= SEM_VALUE_MAX
    ensures GoesWell(s, Pairs(p, h, value, k, n), 2 * n, k)
    decreases n
  {
    hide Serve, Fit, GoesWell, Run, Lawful;
    if n == 0 {
      NothingGoesWell(s, k);
    } else {
      OnePair(s, p, h, value, k);
      var s2 := Serve(Serve(s, Event(p, Init(h, value), 0)).state, Event(p, Destroy(k), 0)).state;
      PairsForever(s2, p, h, value, k, n - 1);
      PairThen(s, p, h, value, k, Pairs(p, h, value, k, n - 1), 2 * (n - 1));
    }
  }

  // ---- A slot lost for good ----

  /** In use, without a name and without a member. */
  predicate Orphan(s: State, k: int) {
    0 <= k < |s.sems| && LiveAt(s, k) && s.sems[k].unlinked && s.sems[k].openers == []
  }

  lemma OrphanCall(s: State, e: Event, k: nat)
    requires Inv(s) && Orphan(s, k) && !FromManager(e.call)
    ensures var s' := Operate(s, e).result.state; k < |s'.sems| && s'.sems[k] == s.sems[k]
  {
    if e.call.Open? && Bound(s, e.call.name) { assert BoundToLinked(s, Clip(e.call.name)); }
    hide SlotsOk, NamesOk, Used, RemoveFirst, Clip;
  }

  /** No request can reach it: every call on it is refused, it has no name to open it by, and nobody inherits it. */
  lemma OrphanStep(s: State, e: Event, k: nat)
    requires Inv(s) && Orphan(s, k)
    ensures k < |Serve(s, e).state.sems| && Serve(s, e).state.sems[k] == s.sems[k]
  {
    ServeIsCore(s, e);
    SizeOk(s);
    hide Serve, OpenFrom, CloseFrom, Operate, SlotsOk, NamesOk;
    match e.call {
      case Fork(parent, child) => OpenFromSlots(s, parent, child, 0);
      case Exec(p) => CloseFromSlots(s, p, 0);
      case Exit(p) => CloseFromSlots(s, p, 0);
      case _ => OrphanCall(s, e, k);
    }
  }

  lemma {:induction false} OrphanStays(s: State, es: seq<Event>, k: nat)
    requires Inv(s) && Lawful(s, es) && Orphan(s, k)
    ensures Orphan(Run(s, es).state, k) && Run(s, es).state.sems[k] == s.sems[k]
    decreases |es|
  {
    hide Serve, SlotsOk, NamesOk, DestroysNamed;
    if es != [] {
      OrphanStep(s, es[0], k);
      ServeKeepsInv(s, es[0]);
      OrphanStays(Serve(s, es[0]).state, es[1..], k);
    }
  }

  lemma DestroyRun(s: State, d: Event, k: nat)
    requires Inv(s) && d.call == Destroy(k) && Admitted(s, d) && !DestroysNamed(s, d)
    ensures Lawful(s, [d]) && !LiveAt(Run(s, [d]).state, k)
  {
    DestroyFrees(s, d);
    assert [d][1..] == [] && Run(Serve(s, d).state, []).state == Serve(s, d).state;
    assert Lawful(Serve(s, d).state, []);
    hide Serve, SlotsOk, NamesOk, DestroysNamed;
  }

  /** A sem_init that finds the pool full succeeds, and its slot is lost: no lawful requests ever free it. It is
      the only way: with a node to spare its maker can destroy the semaphore. */
  lemma InitLostIff(s: State, e: Event)
    requires Inv(s) && e.call.Init? && Makes(s, e)
    ensures Serve(s, e).replies != [] && Lowest(s, NewSlot(s, e))
    ensures (forall es | Lawful(Serve(s, e).state, es) :: LiveAt(Run(Serve(s, e).state, es).state, NewSlot(s, e)))
            <==> Full(s)
  {
    var s1, k := Serve(s, e).state, NewSlot(s, e);
    MakesOne(s, e);
    ServeKeepsInv(s, e);
    hide Serve, SlotsOk, NamesOk, Full, Makes, Run;
    if Full(s) {
      assert Orphan(s1, k);
      forall es | Lawful(s1, es) ensures LiveAt(Run(s1, es).state, k) { OrphanStays(s1, es, k); }
    } else {
      var d := Event(e.who, Destroy(k), 0);
      assert Admitted(s1, d) && !DestroysNamed(s1, d);
      DestroyRun(s1, d, k);
    }
  }
}
