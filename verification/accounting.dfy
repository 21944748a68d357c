/** Who is still owed a reply, over every run: exactly the sleepers, unless the pool once had no
    node for one. */
module Accounting {
  import opened PoolModel
  import opened NameTable
  import opened Machine
  import opened Invariants
  import opened Runs
  import C = Semaphore

  ghost predicate Sleeps(s: State, k: int, p: int) {
    0 <= k < |s.sems| && p in s.sems[k].blocked
  }

  ghost predicate SleepsSomewhere(s: State, p: int) {
    exists k :: Sleeps(s, k, p)
  }

  /** The sleepers of one slot: in its list once, among its openers, as many as the count says. */
  ghost predicate SleepersOk(m: Sem) {
    && Distinct(m.blocked)
    && (forall p | p in m.blocked :: p in m.openers)
    && (Live(m) ==> C.Missing(CellOf(m)) == 0)
  }

  ghost predicate Orderly(s: State, owed: set<int>) {
    && (forall k | 0 <= k < |s.sems| :: SleepersOk(s.sems[k]))
    && (forall k, p :: Sleeps(s, k, p) ==> p in owed)
    && (forall k, k', p :: Sleeps(s, k, p) && Sleeps(s, k', p) ==> k == k')
  }

  /** The processes owed a reply are exactly the union of the blocked lists. */
  ghost predicate Accounted(s: State, owed: set<int>) {
    forall p :: p in owed <==> SleepsSomewhere(s, p)
  }

  /** What the runs below assume of a request: its sender is not waiting for an earlier reply, which the kernel
      sees to, and nobody execs or exits a process that is, which a signal may do. */
  predicate Allowed(s: State, e: Event, owed: set<int>) {
    && e.who !in owed && !DestroysNamed(s, e)
    && (e.who == MM_PROC_NR && (e.call.Exec? || e.call.Exit?) ==> e.call.proc !in owed)
  }

  /** A wait that blocks its caller while no pool node is free. */
  predicate Drops(s: State, e: Event) {
    && e.call.Wait? && Member(s, e.call.handle, e.who)
    && s.sems[e.call.handle].count <= 0 && Full(s)
  }

  ghost function RepliedTo(replies: seq<Reply>): set<int> {
    set r | r in replies :: r.to
  }

  ghost function StillOwed(owed: set<int>, e: Event, replies: seq<Reply>): set<int> {
    owed + {e.who} - RepliedTo(replies)
  }

  // ---- Steps that move no sleeper ----

  ghost predicate QuietAt(m: Sem, m': Sem) {
    && m'.blocked == m.blocked
    && (forall p | p in m.blocked :: p in m'.openers)
    && (Live(m') ==> C.Missing(CellOf(m')) == 0)
  }

  ghost predicate Quiet(s: State, s': State) {
    |s'.sems| == |s.sems| && forall k | 0 <= k < |s.sems| :: QuietAt(s.sems[k], s'.sems[k])
  }

  lemma QuietKeeps(s: State, s': State, owed: set<int>)
    requires Quiet(s, s') && Orderly(s, owed)
    ensures Orderly(s', owed)
    ensures Accounted(s, owed) <==> Accounted(s', owed)
  {
    forall k, p ensures Sleeps(s', k, p) <==> Sleeps(s, k, p) {
      if 0 <= k < |s.sems| { assert QuietAt(s.sems[k], s'.sems[k]); }
    }
    forall k | 0 <= k < |s.sems| ensures SleepersOk(s'.sems[k]) {
      assert QuietAt(s.sems[k], s'.sems[k]) && SleepersOk(s.sems[k]);
    }
    forall p ensures SleepsSomewhere(s', p) <==> SleepsSomewhere(s, p) {
      if SleepsSomewhere(s, p) { var k :| Sleeps(s, k, p); assert Sleeps(s', k, p); }
      if SleepsSomewhere(s', p) { var k :| Sleeps(s', k, p); assert Sleeps(s, k, p); }
    }
  }

  lemma QuietUpdate(s: State, s': State, owed: set<int>, k: nat)
    requires Orderly(s, owed) && k < |s.sems| == |s'.sems| && s'.sems == s.sems[k := s'.sems[k]]
    requires QuietAt(s.sems[k], s'.sems[k])
    ensures Quiet(s, s')
  {}

  lemma QuietSame(s: State, s': State, owed: set<int>)
    requires Orderly(s, owed) && s'.sems == s.sems
    ensures Quiet(s, s')
  {}

  lemma {:induction false} RemoveFirstKeepsOthers(v: seq<int>, x: int, y: int)
    requires y in v && y != x
    ensures y in RemoveFirst(v, x)
  {
    if v[0] != x && v[0] != y { RemoveFirstKeepsOthers(v[1..], x, y); }
  }

  lemma CloseIsQuiet(s: State, p: int, h: int, owed: set<int>)
    requires Inv(s) && Orderly(s, owed) && p !in owed
    ensures Quiet(s, DoClose(s, p, h).state)
  {
    var s' := DoClose(s, p, h).state;
    if Member(s, h, p) {
      var m := s.sems[h];
      assert SleepersOk(m) && SlotOk(m);
      forall q | q in m.blocked ensures q in RemoveFirst(m.openers, p) {
        assert Sleeps(s, h, q);
        RemoveFirstKeepsOthers(m.openers, p, q);
      }
      if m.blocked != [] { assert m.blocked[0] in RemoveFirst(m.openers, p); }
      QuietUpdate(s, s', owed, h);
    } else {
      QuietSame(s, s', owed);
    }
  }

  lemma CreateIsQuiet(s: State, who: int, handle: int, value: nat, owed: set<int>)
    requires Inv(s) && Orderly(s, owed)
    ensures Quiet(s, Create(s, who, handle, value).0.state)
  {
    var i, s' := FirstFree(s.sems, 0), Create(s, who, handle, value).0.state;
    if s'.sems == s.sems { QuietSame(s, s', owed); } else {
      assert SlotOk(s.sems[i]);
      QuietUpdate(s, s', owed, i);
    }
  }

  lemma NameCallIsQuiet(s: State, e: Event, owed: set<int>)
    requires Inv(s) && Orderly(s, owed) && (e.call.Open? || e.call.Init? || e.call.Unlink?)
    ensures Quiet(s, Operate(s, e).result.state)
  {
    var s' := Operate(s, e).result.state;
    match e.call {
      case Open(name, creat, excl, value) => OpenIsQuiet(s, e.who, name, creat, excl, value, owed);
      case Init(h, value) => InitIsQuiet(s, e.who, h, value, owed);
      case Unlink(name) =>
        if s'.sems == s.sems { QuietSame(s, s', owed); } else {
          var h := s.names[Clip(name)];
          assert SleepersOk(s.sems[h]);
          QuietUpdate(s, s', owed, h);
        }
    }
  }

  lemma OpenIsQuiet(s: State, who: int, name: string, creat: bool, excl: bool, value: nat, owed: set<int>)
    requires Inv(s) && Orderly(s, owed)
    ensures Quiet(s, DoOpen(s, who, name, creat, excl, value).state)
  {
    hide SlotsOk, NamesOk, Orderly, Create;
    var s0, s', key := s.(errno := Ok), DoOpen(s, who, name, creat, excl, value).state, Clip(name);
    if s'.sems == s.sems {
      QuietSame(s, s', owed);
    } else if key in s.names {
      NamedIsLive(s, key);
      SleepersAt(s, owed, s.names[key]);
      QuietUpdate(s, s', owed, s.names[key]);
    } else {
      SameSlotsKeep(s, s0);
      QuietSame(s, s0, owed);
      QuietKeeps(s, s0, owed);
      CreateIsQuiet(s0, who, -1, value, owed);
    }
  }

  lemma SleepersAt(s: State, owed: set<int>, k: nat)
    requires Orderly(s, owed) && k < |s.sems|
    ensures SleepersOk(s.sems[k])
  {}

  lemma InitIsQuiet(s: State, who: int, handle: int, value: nat, owed: set<int>)
    requires Inv(s) && Orderly(s, owed)
    ensures Quiet(s, DoInit(s, who, handle, value).0.state)
  {
    CreateIsQuiet(s, who, handle, value, owed);
    CreateKeeps(s, who, handle, value);
    var (r, fd) := Create(s, who, handle, value);
    if r.ret != -1 {
      var s' := DoInit(s, who, handle, value).0.state;
      forall k | 0 <= k < |s.sems| ensures QuietAt(s.sems[k], s'.sems[k]) {
        assert QuietAt(s.sems[k], r.state.sems[k]);
      }
    }
  }

  lemma HandleCallIsQuiet(s: State, e: Event, owed: set<int>)
    requires Inv(s) && Orderly(s, owed) && Allowed(s, e, owed)
    requires e.call.Close? || e.call.TryWait? || e.call.GetValue? || e.call.Destroy?
    ensures Quiet(s, Operate(s, e).result.state)
  {
    var s', h := Operate(s, e).result.state, e.call.handle;
    if e.call.Close? {
      CloseIsQuiet(s, e.who, h, owed);
    } else if s'.sems == s.sems {
      QuietSame(s, s', owed);
    } else {
      assert SleepersOk(s.sems[h]) && SlotOk(s.sems[h]);
      QuietUpdate(s, s', owed, h);
    }
  }

  lemma {:induction false} OpenFromIsQuiet(s: State, parent: int, child: int, i: nat, owed: set<int>)
    requires Inv(s) && Orderly(s, owed) && i <= INITIAL_SEM
    ensures Orderly(OpenFrom(s, parent, child, i), owed)
    ensures Accounted(OpenFrom(s, parent, child, i), owed) <==> Accounted(s, owed)
    decreases INITIAL_SEM - i
  {
    if i < INITIAL_SEM {
      var s' := OpenOne(s, parent, child, i);
      OpenOneKeeps(s, parent, child, i);
      assert SleepersOk(s.sems[i]) && SlotOk(s.sems[i]);
      QuietUpdate(s, s', owed, i);
      QuietKeeps(s, s', owed);
      OpenFromIsQuiet(s', parent, child, i + 1, owed);
    }
  }

  lemma {:induction false} CloseFromIsQuiet(s: State, p: int, i: nat, owed: set<int>)
    requires Inv(s) && Orderly(s, owed) && p !in owed && i <= INITIAL_SEM
    ensures Orderly(CloseFrom(s, p, i), owed)
    ensures Accounted(CloseFrom(s, p, i), owed) <==> Accounted(s, owed)
    decreases INITIAL_SEM - i
  {
    if i < INITIAL_SEM {
      var s' := DoClose(s, p, i).state;
      CloseKeeps(s, p, i);
      CloseIsQuiet(s, p, i, owed);
      QuietKeeps(s, s', owed);
      CloseFromIsQuiet(s', p, i + 1, owed);
    }
  }

  // ---- Falling asleep and waking ----

  lemma FallAsleep(s: State, s': State, owed: set<int>, h: nat, p: int)
    requires Orderly(s, owed) && Accounted(s, owed) && h < |s.sems| && p !in owed
    requires s.sems[h].count <= 0 && Live(s.sems[h]) && p in s.sems[h].openers
    requires s'.sems == s.sems[h := s.sems[h].(count := s.sems[h].count - 1, blocked := [p] + s.sems[h].blocked)]
    ensures Orderly(s', owed + {p}) && Accounted(s', owed + {p})
  {
    assert !Sleeps(s, h, p) && SleepersOk(s.sems[h]);
    forall k, q ensures Sleeps(s', k, q) <==> Sleeps(s, k, q) || (k == h && q == p) {}
    forall k | 0 <= k < |s.sems| ensures SleepersOk(s'.sems[k]) { assert SleepersOk(s.sems[k]); }
    forall q ensures q in owed + {p} <==> SleepsSomewhere(s', q) {
      if q == p {
        assert Sleeps(s', h, q);
      } else {
        assert q in owed <==> SleepsSomewhere(s, q);
        if SleepsSomewhere(s, q) { var k :| Sleeps(s, k, q); assert Sleeps(s', k, q); }
        if SleepsSomewhere(s', q) { var k :| Sleeps(s', k, q); assert Sleeps(s, k, q); }
      }
    }
  }

  lemma WakeUp(s: State, s': State, owed: set<int>, h: nat)
    requires Orderly(s, owed) && Accounted(s, owed) && h < |s.sems|
    requires s.sems[h].count < 0 && Live(s.sems[h])
    requires s'.sems == s.sems[h := s.sems[h].(count := s.sems[h].count + 1,
                                               blocked := if s.sems[h].blocked != [] then s.sems[h].blocked[1..]
                                                   else [])]
    ensures s.sems[h].blocked != [] && s.sems[h].blocked[0] in owed
    ensures Orderly(s', owed - {s.sems[h].blocked[0]}) && Accounted(s', owed - {s.sems[h].blocked[0]})
  {
    assert SleepersOk(s.sems[h]);
    var b, p := s.sems[h].blocked, s.sems[h].blocked[0];
    assert Sleeps(s, h, p);
    forall k, q ensures Sleeps(s', k, q) <==> Sleeps(s, k, q) && q != p {
      if k == h { assert b == [p] + b[1..]; }
    }
    forall k | 0 <= k < |s.sems| ensures SleepersOk(s'.sems[k]) { assert SleepersOk(s.sems[k]); }
    forall q ensures q in owed - {p} <==> SleepsSomewhere(s', q) {
      assert q in owed <==> SleepsSomewhere(s, q);
      if q != p && SleepsSomewhere(s, q) { var k :| Sleeps(s, k, q); assert Sleeps(s', k, q); }
      if SleepsSomewhere(s', q) { var k :| Sleeps(s', k, q); assert Sleeps(s, k, q); }
    }
  }

  /** What a wait does to the slots. */
  lemma WaitShape(s: State, e: Event)
    requires |s.sems| == INITIAL_SEM && e.call.Wait?
    ensures var s', h := Serve(s, e).state, e.call.handle;
            if !Member(s, h, e.who) then s'.sems == s.sems
            else s'.sems == s.sems[h := s.sems[h].(count := s.sems[h].count - 1,
                                                   blocked := if s.sems[h].count <= 0
                                                       then Push(s, s.sems[h].blocked, e.who) else s.sems[h].blocked)]
  {
    hide Full;
  }

  lemma WaitAccounted(s: State, e: Event, owed: set<int>)
    requires Inv(s) && Orderly(s, owed) && Accounted(s, owed) && Allowed(s, e, owed) && e.call.Wait? && !Drops(s, e)
    ensures var s', owed' := Serve(s, e).state, StillOwed(owed, e, Serve(s, e).replies);
            Orderly(s', owed') && Accounted(s', owed')
  {
    var s', h := Serve(s, e).state, e.call.handle;
    MembersAreLive(s, h, e.who);
    RepliesOf(s, e);
    WaitShape(s, e);
    assert Operate(s, e).result.woken == [];
    hide Serve, SlotsOk, NamesOk, Orderly, Accounted, Used;
    if Member(s, h, e.who) && s.sems[h].count <= 0 {
      FallAsleep(s, s', owed, h, e.who);
      assert StillOwed(owed, e, Serve(s, e).replies) == owed + {e.who};
    } else {
      if Member(s, h, e.who) {
        SleepersAt(s, owed, h);
        QuietUpdate(s, s', owed, h);
      } else {
        QuietSame(s, s', owed);
      }
      QuietKeeps(s, s', owed);
      assert StillOwed(owed, e, Serve(s, e).replies) == owed;
    }
  }

  lemma PostAccounted(s: State, e: Event, owed: set<int>)
    requires Inv(s) && Orderly(s, owed) && Accounted(s, owed) && Allowed(s, e, owed) && e.call.Post?
    ensures var s', owed' := Serve(s, e).state, StillOwed(owed, e, Serve(s, e).replies);
            Orderly(s', owed') && Accounted(s', owed')
  {
    hide NamesOk, Orderly, Accounted;
    var s', h := Serve(s, e).state, e.call.handle;
    MembersAreLive(s, h, e.who);
    RepliesOf(s, e);
    if Member(s, h, e.who) && s.sems[h].count < 0 {
      WakeUp(s, s', owed, h);
      assert StillOwed(owed, e, Serve(s, e).replies) == owed - {s.sems[h].blocked[0]};
    } else {
      if Member(s, h, e.who) {
        SleepersAt(s, owed, h);
        QuietUpdate(s, s', owed, h);
      } else {
        QuietSame(s, s', owed);
      }
      QuietKeeps(s, s', owed);
      assert StillOwed(owed, e, Serve(s, e).replies) == owed;
    }
  }

  /** Whom one iteration replies to: the sender unless it blocked, and the process a post wakes. */
  lemma RepliesOf(s: State, e: Event)
    ensures var replies := Serve(s, e).replies;
            var woken := if FromManager(e.call) then [] else Operate(s, e).result.woken;
            var withheld := !FromManager(e.call) && Operate(s, e).result.withheld;
            && |woken| <= 1
            && |replies| == |woken| + (if withheld then 0 else 1)
            && (woken != [] ==> replies[0].to == woken[0])
            && (!withheld ==> replies[|woken|].to == e.who)
            && RepliedTo(replies) == (if woken == [] then {} else {woken[0]}) + (if withheld then {} else {e.who})
  {
    hide Operate, Manage;
    if !FromManager(e.call) {
      EffectsOf(s, e);
      var r := Operate(s, e).result;
      if r.woken != [] { assert Wakes(r.woken[1..], r.state.out, r.state.errno) == []; }
    }
  }

  // ---- Whole runs ----

  lemma OthersAccounted(s: State, e: Event, owed: set<int>)
    requires Inv(s) && Orderly(s, owed) && Accounted(s, owed) && Allowed(s, e, owed) && !e.call.Wait? && !e.call.Post?
    ensures var s', owed' := Serve(s, e).state, StillOwed(owed, e, Serve(s, e).replies);
            Orderly(s', owed') && Accounted(s', owed')
  {
    hide SlotsOk, NamesOk, Orderly, Accounted, Operate, OpenFrom, CloseFrom;
    var s', core := Serve(s, e).state, ServeCore(s, e);
    RepliesOf(s, e);
    ServeIsCore(s, e);
    if FromManager(e.call) {
      ManagerAccounted(s, e, owed);
    } else {
      EffectsOf(s, e);
      if e.call.Open? || e.call.Init? || e.call.Unlink? {
        NameCallIsQuiet(s, e, owed);
      } else {
        HandleCallIsQuiet(s, e, owed);
      }
      QuietKeeps(s, core, owed);
    }
    QuietSame(core, s', owed);
    QuietKeeps(core, s', owed);
    assert StillOwed(owed, e, Serve(s, e).replies) == owed;
  }

  lemma ManagerAccounted(s: State, e: Event, owed: set<int>)
    requires Inv(s) && Orderly(s, owed) && Accounted(s, owed) && Allowed(s, e, owed) && FromManager(e.call)
    ensures Orderly(ServeCore(s, e), owed) && Accounted(ServeCore(s, e), owed)
  {
    if e.who == MM_PROC_NR {
      match e.call {
        case Fork(parent, child) => OpenFromIsQuiet(s, parent, child, 0, owed);
        case Exec(p) => CloseFromIsQuiet(s, p, 0, owed);
        case Exit(p) => CloseFromIsQuiet(s, p, 0, owed);
      }
    }
  }

  lemma StepAccounted(s: State, e: Event, owed: set<int>)
    requires Inv(s) && Orderly(s, owed) && Accounted(s, owed) && Allowed(s, e, owed) && !Drops(s, e)
    ensures var s', owed' := Serve(s, e).state, StillOwed(owed, e, Serve(s, e).replies);
            Inv(s') && Orderly(s', owed') && Accounted(s', owed')
  {
    ServeKeepsInv(s, e);
    if e.call.Wait? { WaitAccounted(s, e, owed); }
    else if e.call.Post? { PostAccounted(s, e, owed); }
    else { OthersAccounted(s, e, owed); }
  }

  /** A dropped waiter is owed a reply and sleeps nowhere. */
  lemma DropIsLost(s: State, e: Event, owed: set<int>)
    requires Inv(s) && Orderly(s, owed) && Allowed(s, e, owed) && Drops(s, e)
    ensures var s', owed' := Serve(s, e).state, StillOwed(owed, e, Serve(s, e).replies);
            e.who in owed' && !SleepsSomewhere(s', e.who)
  {
    RepliesOf(s, e);
    var s' := Serve(s, e).state;
    forall k ensures !Sleeps(s', k, e.who) { assert !Sleeps(s, k, e.who); }
  }

  /** The processes owed a reply after a run. */
  ghost function OwedAfter(s: State, es: seq<Event>, owed: set<int>): set<int>
    decreases |es|
  {
    if es == [] then owed
    else OwedAfter(Serve(s, es[0]).state, es[1..], StillOwed(owed, es[0], Serve(s, es[0]).replies))
  }

  ghost predicate RunAllowed(s: State, es: seq<Event>, owed: set<int>)
    decreases |es|
  {
    es == [] || (Allowed(s, es[0], owed)
        && RunAllowed(Serve(s, es[0]).state, es[1..], StillOwed(owed, es[0], Serve(s, es[0]).replies)))
  }

  predicate NoDrops(s: State, es: seq<Event>)
    decreases |es|
  {
    es == [] || (!Drops(s, es[0]) && NoDrops(Serve(s, es[0]).state, es[1..]))
  }

  lemma RunShift(s: State, es: seq<Event>, owed: set<int>, i: nat)
    requires 1 <= i <= |es|
    ensures var s1, owed1 := Serve(s, es[0]).state, StillOwed(owed, es[0], Serve(s, es[0]).replies);
            && Run(s, es[..i]).state == Run(s1, es[1..][..i - 1]).state
            && OwedAfter(s, es[..i], owed) == OwedAfter(s1, es[1..][..i - 1], owed1)
  {
    hide Serve;
    assert es[..i][0] == es[0] && es[..i][1..] == es[1..][..i - 1];
  }

  ghost predicate AccountedAt(s: State, es: seq<Event>, owed: set<int>, i: int) {
    0 <= i <= |es| && Accounted(Run(s, es[..i]).state, OwedAfter(s, es[..i], owed))
  }

  ghost predicate OrderlyAt(s: State, es: seq<Event>, owed: set<int>, i: int) {
    0 <= i <= |es| && Orderly(Run(s, es[..i]).state, OwedAfter(s, es[..i], owed))
  }

  /** Reply accounting: after every iteration of every run the processes still owed a reply are
      exactly the sleepers, if and only if no wait of the run found the pool full. And then each of them is in
      one blocked list, once, among the openers there, and each list is as long as the count says. */
  lemma {:induction false} AccountedIffNoDrops(s: State, es: seq<Event>, owed: set<int>)
    requires Inv(s) && Orderly(s, owed) && Accounted(s, owed) && RunAllowed(s, es, owed)
    ensures (forall i | 0 <= i <= |es| :: AccountedAt(s, es, owed, i)) <==> NoDrops(s, es)
    ensures NoDrops(s, es) ==> forall i | 0 <= i <= |es| :: OrderlyAt(s, es, owed, i)
    decreases |es|
  {
    hide Serve, SlotsOk, NamesOk, Orderly, Accounted, Drops, Allowed;
    assert es[..0] == [] && AccountedAt(s, es, owed, 0) && OrderlyAt(s, es, owed, 0);
    if es != [] {
      var s1, owed1 := Serve(s, es[0]).state, StillOwed(owed, es[0], Serve(s, es[0]).replies);
      RunShift(s, es, owed, 1);
      assert es[1..][..0] == [] && (AccountedAt(s, es, owed, 1) <==> Accounted(s1, owed1));
      if Drops(s, es[0]) {
        DropIsLost(s, es[0], owed);
        NotAccounted(s1, owed1, es[0].who);
      } else {
        StepAccounted(s, es[0], owed);
        AccountedIffNoDrops(s1, es[1..], owed1);
        if NoDrops(s1, es[1..]) {
          forall i | 1 <= i <= |es| ensures AccountedAt(s, es, owed, i) && OrderlyAt(s, es, owed, i) {
            RunShift(s, es, owed, i);
            assert AccountedAt(s1, es[1..], owed1, i - 1) && OrderlyAt(s1, es[1..], owed1, i - 1);
          }
        } else {
          var i :| 0 <= i <= |es[1..]| && !AccountedAt(s1, es[1..], owed1, i);
          RunShift(s, es, owed, i + 1);
          assert !AccountedAt(s, es, owed, i + 1);
        }
      }
    }
  }

  lemma NotAccounted(s: State, owed: set<int>, p: int)
    requires p in owed && !SleepsSomewhere(s, p)
    ensures !Accounted(s, owed)
  {}

  // ---- Every request is answered once ----

  function RepliesTo(replies: seq<Reply>, p: int): nat {
    if replies == [] then 0 else (if replies[0].to == p then 1 else 0) + RepliesTo(replies[1..], p)
  }

  function RequestsFrom(es: seq<Event>, p: int): nat {
    if es == [] then 0 else (if es[0].who == p then 1 else 0) + RequestsFrom(es[1..], p)
  }

  lemma {:induction false} RepliesToAppend(a: seq<Reply>, b: seq<Reply>, p: int)
    ensures RepliesTo(a + b, p) == RepliesTo(a, p) + RepliesTo(b, p)
  {
    if a == [] {
      assert a + b == b;
    } else {
      assert (a + b)[1..] == a[1..] + b;
      RepliesToAppend(a[1..], b, p);
    }
  }

  ghost function Pending(owed: set<int>, p: int): nat { if p in owed then 1 else 0 }

  lemma StepConserves(s: State, e: Event, owed: set<int>, p: int)
    requires Inv(s) && Orderly(s, owed) && Accounted(s, owed) && Allowed(s, e, owed)
    ensures RepliesTo(Serve(s, e).replies, p) + Pending(StillOwed(owed, e, Serve(s, e).replies), p)
         == (if e.who == p then 1 else 0) + Pending(owed, p)
  {
    hide SlotsOk, NamesOk, Serve, Operate;
    RepliesOf(s, e);
    var replies := Serve(s, e).replies;
    WokenWasOwed(s, e, owed);
    if |replies| > 0 {
      assert RepliesTo(replies, p) == (if replies[0].to == p then 1 else 0) + RepliesTo(replies[1..], p);
    }
    if |replies| > 1 {
      assert RepliesTo(replies[1..], p) == (if replies[1].to == p then 1 else 0) + RepliesTo(replies[1..][1..], p);
    }
  }

  lemma WokenWasOwed(s: State, e: Event, owed: set<int>)
    requires Inv(s) && Orderly(s, owed)
    ensures !FromManager(e.call) && Operate(s, e).result.woken != []
            ==> Operate(s, e).result.woken[0] in owed && !Operate(s, e).result.withheld
  {
    hide SlotsOk, NamesOk, Operate;
    if !FromManager(e.call) && Operate(s, e).result.woken != [] {
      EffectsOf(s, e);
      PostWokeOwed(s, e, owed);
    }
  }

  lemma PostWokeOwed(s: State, e: Event, owed: set<int>)
    requires Inv(s) && Orderly(s, owed) && e.call.Post? && Operate(s, e).result.woken != []
    ensures Operate(s, e).result.woken[0] in owed && !Operate(s, e).result.withheld
  {
    hide SlotsOk, NamesOk;
    var h := e.call.handle;
    MembersAreLive(s, h, e.who);
    SleepersAt(s, owed, h);
    assert Sleeps(s, h, s.sems[h].blocked[0]);
  }

  /** Conservation: over every run without a dropped waiter, the replies sent to a process plus the
      one it is still owed are the requests it sent plus the one it was owed at the start. */
  lemma {:induction false} EveryRequestAnsweredOnce(s: State, es: seq<Event>, owed: set<int>, p: int)
    requires Inv(s) && Orderly(s, owed) && Accounted(s, owed) && RunAllowed(s, es, owed) && NoDrops(s, es)
    ensures RepliesTo(Run(s, es).replies, p) + Pending(OwedAfter(s, es, owed), p)
            == RequestsFrom(es, p) + Pending(owed, p)
    decreases |es|
  {
    hide Serve, SlotsOk, NamesOk, Orderly, Accounted, Drops, Allowed;
    if es != [] {
      var first := Serve(s, es[0]);
      StepConserves(s, es[0], owed, p);
      StepAccounted(s, es[0], owed);
      EveryRequestAnsweredOnce(first.state, es[1..], StillOwed(owed, es[0], first.replies), p);
      RepliesToAppend(first.replies, Run(first.state, es[1..]).replies, p);
    }
  }

  lemma InitialOrderly()
    ensures Inv(INITIAL) && Orderly(INITIAL, {}) && Accounted(INITIAL, {})
  {
    InitialOk();
    assert forall k | 0 <= k < INITIAL_SEM :: INITIAL.sems[k] == FREE_SEM;
  }
}
