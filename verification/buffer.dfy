/** The example program from boot: producers and consumers that open the two semaphores, run their loops against
    the server and leave, each step a request served and its replies heard. */
module BufferServer {
  import opened PoolModel
  import opened Machine
  import opened Invariants
  import opened Runs
  import opened Lifecycle
  import opened ProdCons
  import A = Accounting
  import W = Wakeups
  import C = Semaphore
  import N = NameTable

  /** Where a process stands: about to open sem_prod, or sem_cons; in its loop; or leaving, with so many calls
      still to make. Outside are those that are no part of the program. */
  datatype Stage = Outside | Opens | OpensCons | Loop(pc: Pc) | Leaving(left: nat)

  /** A process, with its variables *sem_prod and *sem_cons. */
  datatype Proc = Proc(producer: bool, stage: Stage, prod: int, cons: int)

  /** What the code does beyond the loop: `stores`, its sem_wait puts the second field of the reply into the
      caller's handle; `leaves`, a process unlinks both names and closes both handles when its loop ends. */
  datatype Habits = Habits(stores: bool, leaves: bool)

  /** As written, the library stores and the program leaves. */
  const AS_WRITTEN := Habits(true, true)
  const PLAIN := Habits(false, false)

  /** The server, the processes by process number, and the counters of the program. */
  datatype System = System(server: State, procs: seq<Proc>, created: nat, consumed: nat, finished: nat)

  /** Who moves, whether getchar (or, at the start of a consumer, the uninitialised c) gives EOF, and what
      sem_post's local holds. */
  datatype Turn = Turn(p: int, eof: bool, junk: int)

  /** The numbers below are the memory manager's, the file system's and init's. */
  const FIRST_USER := 3

  predicate Bound(sys: System) { 0 <= sys.created - sys.consumed <= BUFFER + sys.finished }

  // ---- Steps ----

  function Stored(v: Habits, handle: int, r: Reply): int {
    if v.stores && r.result == Ok then r.body.param1 else handle
  }

  /** A reply reaches a process: if it is blocked in sem_wait, it goes on, whatever the answer. */
  function Hear(v: Habits, proc: Proc, r: Reply): Proc {
    match proc.stage
    case Loop(PBlocked) => proc.(stage := Loop(PRead), prod := Stored(v, proc.prod, r))
    case Loop(CBlocked) => proc.(stage := Loop(CUse), cons := Stored(v, proc.cons, r))
    case _ => proc
  }

  function HearOne(v: Habits, procs: seq<Proc>, r: Reply): seq<Proc> {
    if 0 <= r.to < |procs| then procs[r.to := Hear(v, procs[r.to], r)] else procs
  }

  function HearAll(v: Habits, procs: seq<Proc>, replies: seq<Reply>): seq<Proc>
    decreases |replies|
  {
    if replies == [] then procs else HearAll(v, HearOne(v, procs, replies[0]), replies[1..])
  }

  /** Process t.p sends a request and stands as `to` meanwhile. */
  function Ask(v: Habits, sys: System, t: Turn, call: Call, to: Proc): System
    requires 0 <= t.p < |sys.procs|
  {
    var step := Serve(sys.server, Event(t.p, call, t.junk));
    sys.(server := step.state, procs := HearAll(v, sys.procs[t.p := to], step.replies))
  }

  /** The handle an open was answered with; without one the program dereferences SEM_FAILED and is gone. */
  function Opened(proc: Proc, replies: seq<Reply>): Proc {
    if |replies| != 1 || replies[0].result != Ok then proc.(stage := Outside)
    else if proc.stage.Opens? then proc.(stage := OpensCons, prod := replies[0].body.rta)
    else proc.(stage := Loop(if proc.producer then PWait else CStart), cons := replies[0].body.rta)
  }

  function OpenOne(sys: System, t: Turn): System
    requires 0 <= t.p < |sys.procs|
  {
    var proc := sys.procs[t.p];
    var call := if proc.stage.Opens? then Open("sem_prod", true, false, BUFFER) else Open("sem_cons", true, false, 0);
    var step := Serve(sys.server, Event(t.p, call, t.junk));
    sys.(server := step.state, procs := sys.procs[t.p := Opened(proc, step.replies)])
  }

  function GoTo(sys: System, p: int, stage: Stage): System
    requires 0 <= p < |sys.procs|
  {
    sys.(procs := sys.procs[p := sys.procs[p].(stage := stage)])
  }

  function LoopEnds(v: Habits, sys: System, t: Turn): System
    requires 0 <= t.p < |sys.procs|
  {
    if v.leaves then Ask(v, sys, t, Unlink("sem_cons"), sys.procs[t.p].(stage := Leaving(3))) else sys
  }

  function LoopStep(v: Habits, sys: System, t: Turn): System
    requires 0 <= t.p < |sys.procs| && sys.procs[t.p].stage.Loop?
  {
    var proc := sys.procs[t.p];
    match proc.stage.pc
    case PWait => Ask(v, sys, t, Call.Wait(proc.prod), proc.(stage := Loop(PBlocked)))
    case PPost => Ask(v, sys, t, Call.Post(proc.cons), proc.(stage := Loop(PWait)))
    case CWait => Ask(v, sys, t, Call.Wait(proc.cons), proc.(stage := Loop(CBlocked)))
    case CPost(eof) =>
      var after := Ask(v, sys, t, Call.Post(proc.prod), proc.(stage := Loop(if eof then CDone else CRead)));
      after.(finished := if eof then sys.finished + 1 else sys.finished)
    case PRead => if t.eof then GoTo(sys, t.p, Loop(PDone))
        else GoTo(sys, t.p, Loop(PPost)).(created := sys.created + 1)
    case CStart => if t.eof then GoTo(sys, t.p, Loop(CDone)).(finished := sys.finished + 1)
        else GoTo(sys, t.p, Loop(CRead))
    case CRead => GoTo(sys, t.p, Loop(if t.eof then CPost(true) else CWait))
    case CUse => GoTo(sys, t.p, Loop(CPost(false))).(consumed := sys.consumed + 1)
    case PDone => LoopEnds(v, sys, t)
    case CDone => LoopEnds(v, sys, t)
    case PBlocked => sys
    case CBlocked => sys
  }

  function Act(v: Habits, sys: System, t: Turn): System {
    if !(0 <= t.p < |sys.procs|) then sys
    else
      var proc := sys.procs[t.p];
      match proc.stage
      case Outside => sys
      case Loop(_) => LoopStep(v, sys, t)
      case Leaving(left) =>
        if left == 3 then Ask(v, sys, t, Unlink("sem_prod"), proc.(stage := Leaving(2)))
        else if left == 2 then Ask(v, sys, t, Close(proc.cons), proc.(stage := Leaving(1)))
        else if left == 1 then Ask(v, sys, t, Close(proc.prod), proc.(stage := Leaving(0)))
        else sys
      case _ => OpenOne(sys, t)
  }

  function ActAll(v: Habits, sys: System, ts: seq<Turn>): System
    decreases |ts|
  {
    if ts == [] then sys else ActAll(v, Act(v, sys, ts[0]), ts[1..])
  }

  /** The server as it boots. */
  ghost predicate Booted(s: State) {
    && |s.sems| == INITIAL_SEM && (forall k | 0 <= k < INITIAL_SEM :: s.sems[k] == FREE_SEM)
    && s.names == map[] && s.errno == Ok && s.out == Message(0, 0, 0)
  }

  lemma InitialBooted()
    ensures Booted(INITIAL)
  {}

  /** n processes about to start, as producers or consumers, on a server that has just booted. */
  ghost predicate Starting(sys: System, n: nat) {
    && Booted(sys.server) && |sys.procs| == FIRST_USER + n
    && (forall p | 0 <= p < FIRST_USER :: sys.procs[p].stage == Outside)
    && (forall p | FIRST_USER <= p < |sys.procs| :: sys.procs[p].stage == Opens)
    && sys.created == sys.consumed == sys.finished == 0
  }

  lemma {:induction false} ActAllAppend(v: Habits, sys: System, a: seq<Turn>, b: seq<Turn>)
    ensures ActAll(v, sys, a + b) == ActAll(v, ActAll(v, sys, a), b)
    decreases |a|
  {
    hide Act;
    if a == [] {
      assert a + b == b;
    } else {
      assert (a + b)[0] == a[0] && (a + b)[1..] == a[1..] + b;
      ActAllAppend(v, Act(v, sys, a[0]), a[1..], b);
    }
  }

  // ---- Requests and what is heard of them ----

  /** A wait or a post of a member moves its slot as the automaton says, changes no other slot and no
      membership, and is answered as the automaton's fate says. */
  lemma CallStep(s: State, p: int, h: nat, wait: bool, junk: int)
    requires |s.sems| == INITIAL_SEM && Member(s, h, p)
    ensures var e := Event(p, if wait then Call.Wait(h) else Call.Post(h), junk);
            var (c', fate) := C.Do(CellOf(s.sems[h]), if wait then C.Wait(p, !Full(s)) else C.Post(p, junk));
            var step := Serve(s, e);
            && step.state.sems == s.sems[h := s.sems[h].(count := c'.count, blocked := c'.blocked)]
            && step.state.names == s.names
            && (wait ==> |step.replies| == (if fate.Granted? then 1 else 0))
            && (wait && fate.Granted? ==> step.replies[0].to == p)
            && (!wait ==> |step.replies| == (if fate.Banked? then 1 else 2) && step.replies[|step.replies| - 1].to == p)
            && (!wait && !fate.Banked? ==> (fate.Woke? || fate.Stray?) && step.replies[0].to == fate.p)
  {
    W.RepliesShape(s, Event(p, if wait then Call.Wait(h) else Call.Post(h), junk));
    hide Used;
  }

  lemma HearFew(v: Habits, procs: seq<Proc>, replies: seq<Reply>)
    ensures |replies| == 0 ==> HearAll(v, procs, replies) == procs
    ensures |replies| == 1 ==> HearAll(v, procs, replies) == HearOne(v, procs, replies[0])
    ensures |replies| == 2 ==> HearAll(v, procs, replies) == HearOne(v, HearOne(v, procs, replies[0]), replies[1])
  {
    hide HearOne;
    if |replies| == 2 {
      assert HearAll(v, HearOne(v, procs, replies[0]), replies[1..])
          == HearOne(v, HearOne(v, procs, replies[0]), replies[1..][0]);
    }
  }

  /** A request on a semaphore the caller is not in fails: it is answered at once, changes no slot, and
      the program goes on as if it had succeeded. */
  lemma StrangerStep(s: State, p: int, h: int, wait: bool, junk: int)
    requires |s.sems| == INITIAL_SEM && !Member(s, h, p)
    ensures var step := Serve(s, Event(p, if wait then Call.Wait(h) else Call.Post(h), junk));
            && step.state.sems == s.sems && step.state.names == s.names
            && |step.replies| == 1 && step.replies[0].to == p && step.replies[0].result != Ok
  {
    W.RepliesShape(s, Event(p, if wait then Call.Wait(h) else Call.Post(h), junk));
  }

  // ---- The loop of members, and the program on two semaphores alone ----

  function PcOf(proc: Proc): Pc {
    match proc.stage
    case Loop(pc) => pc
    case Opens => if proc.producer then PWait else CStart
    case OpensCons => if proc.producer then PWait else CStart
    case Leaving(_) => PDone
    case Outside => CDone
  }

  function Pcs(procs: seq<Proc>): (pcs: seq<Pc>)
    ensures |pcs| == |procs| && forall p | 0 <= p < |procs| :: pcs[p] == PcOf(procs[p])
  {
    seq(|procs|, p requires 0 <= p < |procs| => PcOf(procs[p]))
  }

  lemma PcsUpdate(procs: seq<Proc>, p: nat, x: Proc)
    requires p < |procs|
    ensures Pcs(procs[p := x]) == Pcs(procs)[p := PcOf(x)]
  {}

  /** A slot as the automaton; a slot still free as the semaphore it will be. */
  function SlotCell(m: Sem, value: int): C.Cell { if Live(m) then CellOf(m) else C.Cell(value, []) }

  /** The two semaphores, in slots 0 and 1, and the program, without the server. */
  function WorldOf(sys: System): World
    requires |sys.server.sems| == INITIAL_SEM
  {
    World(SlotCell(sys.server.sems[0], BUFFER), SlotCell(sys.server.sems[1], 0), Pcs(sys.procs), sys.created,
        sys.consumed, sys.finished)
  }

  /** p is in its loop with the right handles, and has a node in both lists. */
  ghost predicate Inside(sys: System, p: int) {
    && |sys.server.sems| == INITIAL_SEM && Live(sys.server.sems[0]) && Live(sys.server.sems[1]) && 0 <= p < |sys.procs|
    && sys.procs[p].stage.Loop? && sys.procs[p].prod == 0 && sys.procs[p].cons == 1
    && p in sys.server.sems[0].openers && p in sys.server.sems[1].openers
  }

  /** Processes that differ at most in where they stand in their loops. */
  ghost predicate SameBut(procs: seq<Proc>, procs': seq<Proc>) {
    |procs'| == |procs| && forall p | 0 <= p < |procs| :: SameProc(procs[p], procs'[p])
  }

  predicate SameProc(x: Proc, x': Proc) {
    x' == x.(stage := x'.stage) && ((x.stage.Loop? && x'.stage.Loop?) || x'.stage == x.stage)
  }

  lemma SameTwice(a: seq<Proc>, b: seq<Proc>, c: seq<Proc>)
    requires SameBut(a, b) && SameBut(b, c)
    ensures SameBut(a, c)
  {
    forall p | 0 <= p < |a| ensures SameProc(a[p], c[p]) { assert SameProc(a[p], b[p]) && SameProc(b[p], c[p]); }
  }

  lemma SameAt(procs: seq<Proc>, p: nat, x: Proc)
    requires p < |procs| && SameProc(procs[p], x)
    ensures SameBut(procs, procs[p := x])
  {}

  /** A reply is heard as a delivery of the automaton's fate. */
  lemma HeardAsDelivered(procs: seq<Proc>, r: Reply, fate: C.Fate)
    requires (fate.Woke? || fate.Stray?) && fate.p == r.to
    ensures Pcs(HearOne(PLAIN, procs, r)) == Deliver(Pcs(procs), fate) && SameBut(procs, HearOne(PLAIN, procs, r))
  {
    if 0 <= r.to < |procs| {
      PcsUpdate(procs, r.to, Hear(PLAIN, procs[r.to], r));
      SameAt(procs, r.to, Hear(PLAIN, procs[r.to], r));
      assert SameBut(procs, procs[r.to := Hear(PLAIN, procs[r.to], r)]);
    }
    hide Pcs, SameBut;
  }

  lemma NotListening(v: Habits, procs: seq<Proc>, r: Reply)
    requires 0 <= r.to < |procs| && procs[r.to].stage != Loop(PBlocked) && procs[r.to].stage != Loop(CBlocked)
    ensures HearOne(v, procs, r) == procs
  {
    assert procs[r.to := procs[r.to]] == procs;
  }

  /** What a served call leaves: one slot moved, everyone where they were or at another place of the loop. */
  ghost predicate Moved(sys: System, sys': System, h: nat, c': C.Cell, pcs: seq<Pc>) {
    && |sys.server.sems| == INITIAL_SEM && h < INITIAL_SEM
    && sys' == sys.(server := sys'.server, procs := sys'.procs) && SameBut(sys.procs, sys'.procs)
    && Pcs(sys'.procs) == pcs
    && sys'.server.sems == sys.server.sems[h := sys.server.sems[h].(count := c'.count, blocked := c'.blocked)]
    && sys'.server.names == sys.server.names
  }

  lemma AskWait(sys: System, t: Turn, h: nat, at: Pc)
    requires Inside(sys, t.p) && h < 2 && (at == PBlocked || at == CBlocked)
    ensures var (c', fate) := C.Do(CellOf(sys.server.sems[h]), C.Wait(t.p, !Full(sys.server)));
            var on := if !fate.Granted? then at else if at == PBlocked then PRead else CUse;
            Moved(sys, Ask(PLAIN, sys, t, Call.Wait(h), sys.procs[t.p].(stage := Loop(at))), h, c',
                Pcs(sys.procs)[t.p := on])
  {
    hide Serve, HearAll, Full, C.Do, Pcs, SameBut;
    var x := sys.procs[t.p].(stage := Loop(at));
    var replies := Serve(sys.server, Event(t.p, Call.Wait(h), t.junk)).replies;
    CallStep(sys.server, t.p, h, true, t.junk);
    PcsUpdate(sys.procs, t.p, x);
    SameAt(sys.procs, t.p, x);
    HearFew(PLAIN, sys.procs[t.p := x], replies);
    if |replies| == 1 {
      var y := Hear(PLAIN, x, replies[0]);
      assert sys.procs[t.p := x][t.p := y] == sys.procs[t.p := y];
      PcsUpdate(sys.procs, t.p, y);
      SameAt(sys.procs, t.p, y);
    }
  }

  lemma AskPost(sys: System, t: Turn, h: nat, at: Pc)
    requires Inside(sys, t.p) && h < 2 && at != PBlocked && at != CBlocked
    ensures var (c', fate) := C.Do(CellOf(sys.server.sems[h]), C.Post(t.p, t.junk));
            Moved(sys, Ask(PLAIN, sys, t, Call.Post(h), sys.procs[t.p].(stage := Loop(at))), h, c',
                Deliver(Pcs(sys.procs)[t.p := at], fate))
  {
    var x, fate := sys.procs[t.p].(stage := Loop(at)), C.Do(CellOf(sys.server.sems[h]), C.Post(t.p, t.junk)).1;
    var procs1, replies := sys.procs[t.p := x], Serve(sys.server, Event(t.p, Call.Post(h), t.junk)).replies;
    CallStep(sys.server, t.p, h, false, t.junk);
    PcsUpdate(sys.procs, t.p, x);
    SameAt(sys.procs, t.p, x);
    PostHeard(procs1, t.p, fate, replies);
    SameTwice(sys.procs, procs1, HearAll(PLAIN, procs1, replies));
    hide Serve, HearAll, C.Do, Pcs, SameBut, Deliver;
  }

  /** The sender of a post is not blocked in sem_wait, so its own reply moves nobody; the other one reaches
      whom the automaton says. */
  lemma PostHeard(procs: seq<Proc>, p: nat, fate: C.Fate, replies: seq<Reply>)
    requires p < |procs| && procs[p].stage.Loop? && procs[p].stage.pc != PBlocked && procs[p].stage.pc != CBlocked
    requires |replies| == (if fate.Banked? then 1 else 2) && replies[|replies| - 1].to == p
    requires !fate.Banked? ==> (fate.Woke? || fate.Stray?) && replies[0].to == fate.p
    ensures Pcs(HearAll(PLAIN, procs, replies)) == Deliver(Pcs(procs), fate)
            && SameBut(procs, HearAll(PLAIN, procs, replies))
  {
    HearFew(PLAIN, procs, replies);
    if fate.Banked? {
      NotListening(PLAIN, procs, replies[0]);
    } else {
      HeardAsDelivered(procs, replies[0], fate);
      NotListening(PLAIN, HearOne(PLAIN, procs, replies[0]), replies[1]);
    }
    hide HearAll, Pcs;
  }

  /** The slots may differ in count and sleepers, and only those of the program. */
  ghost predicate SameSlots(s: State, s': State) {
    && |s.sems| == |s'.sems| == INITIAL_SEM && s'.names == s.names
    && forall k | 0 <= k < INITIAL_SEM :: SameSlot(s.sems[k], s'.sems[k], k)
  }

  predicate SameSlot(m: Sem, m': Sem, k: int) {
    m' == (if k < 2 then m.(count := m'.count, blocked := m'.blocked) else m)
  }

  lemma MovedWorld(sys: System, sys': System, h: nat, c': C.Cell, pcs: seq<Pc>)
    requires Moved(sys, sys', h, c', pcs) && h < 2 && Live(sys.server.sems[h])
    ensures SameSlots(sys.server, sys'.server) && SameBut(sys.procs, sys'.procs)
    ensures WorldOf(sys') == if h == 0 then WorldOf(sys).(prod := c', pc := pcs)
            else WorldOf(sys).(cons := c', pc := pcs)
  {
    hide SameBut, Pcs;
  }

  /** The same turn as a choice, with the room the server's pool has. */
  function InWorld(sys: System, t: Turn): Choice { Choice(t.p, t.eof, !Full(sys.server), t.junk) }

  lemma WaitIsMove(sys: System, t: Turn)
    requires Inside(sys, t.p) && (sys.procs[t.p].stage.pc == PWait || sys.procs[t.p].stage.pc == CWait)
    ensures var sys' := LoopStep(PLAIN, sys, t);
            SameSlots(sys.server, sys'.server) && SameBut(sys.procs, sys'.procs)
            && WorldOf(sys') == Move(WorldOf(sys), InWorld(sys, t))
  {
    hide Ask, Moved, Full, C.Do, SameBut, SameSlots;
    var h := if sys.procs[t.p].stage.pc == PWait then 0 else 1;
    var at := if sys.procs[t.p].stage.pc == PWait then PBlocked else CBlocked;
    AskWait(sys, t, h, at);
    var (c', fate) := C.Do(CellOf(sys.server.sems[h]), C.Wait(t.p, !Full(sys.server)));
    MovedWorld(sys, LoopStep(PLAIN, sys, t), h, c',
        Pcs(sys.procs)[t.p := if !fate.Granted? then at else if at == PBlocked then PRead else CUse]);
  }

  lemma PostIsMove(sys: System, t: Turn)
    requires Inside(sys, t.p) && (sys.procs[t.p].stage.pc.PPost? || sys.procs[t.p].stage.pc.CPost?)
    ensures var sys' := LoopStep(PLAIN, sys, t);
            SameSlots(sys.server, sys'.server) && SameBut(sys.procs, sys'.procs)
            && WorldOf(sys') == Move(WorldOf(sys), InWorld(sys, t))
  {
    hide Ask, Moved, Full, C.Do, SameBut, SameSlots, Deliver;
    var pc := sys.procs[t.p].stage.pc;
    var h := if pc.PPost? then 1 else 0;
    var at := if pc.PPost? then PWait else if pc.eof then CDone else CRead;
    AskPost(sys, t, h, at);
    var (c', fate) := C.Do(CellOf(sys.server.sems[h]), C.Post(t.p, t.junk));
    MovedWorld(sys, Ask(PLAIN, sys, t, Call.Post(h), sys.procs[t.p].(stage := Loop(at))), h, c',
        Deliver(Pcs(sys.procs)[t.p := at], fate));
  }

  lemma LocalIsMove(sys: System, t: Turn)
    requires Inside(sys, t.p)
             && sys.procs[t.p].stage.pc in {PRead, CStart, CRead, CUse, PDone, CDone, PBlocked, CBlocked}
    ensures var sys' := LoopStep(PLAIN, sys, t);
            SameSlots(sys.server, sys'.server) && SameBut(sys.procs, sys'.procs)
            && WorldOf(sys') == Move(WorldOf(sys), InWorld(sys, t))
  {
    hide Ask, Full, C.Do, SameBut, Pcs;
    var to := LoopStep(PLAIN, sys, t).procs[t.p];
    assert LoopStep(PLAIN, sys, t).procs == sys.procs[t.p := to];
    PcsUpdate(sys.procs, t.p, to);
    SameAt(sys.procs, t.p, to);
  }

  /** One step of a member's loop against the server is one move of the program on its own, with the room
      the pool has. */
  lemma StepIsMove(sys: System, t: Turn)
    requires Inside(sys, t.p)
    ensures var sys' := Act(PLAIN, sys, t);
            SameSlots(sys.server, sys'.server) && SameBut(sys.procs, sys'.procs)
            && WorldOf(sys') == Move(WorldOf(sys), InWorld(sys, t))
  {
    hide LoopStep, SameSlots, SameBut, WorldOf, Move;
    match sys.procs[t.p].stage.pc {
      case PWait => WaitIsMove(sys, t);
      case CWait => WaitIsMove(sys, t);
      case PPost => PostIsMove(sys, t);
      case CPost(_) => PostIsMove(sys, t);
      case _ => LocalIsMove(sys, t);
    }
  }

  lemma InsideStays(sys: System, sys': System, p: int)
    requires Inside(sys, p) && SameSlots(sys.server, sys'.server) && SameBut(sys.procs, sys'.procs)
    ensures Inside(sys', p)
  {
    assert SameProc(sys.procs[p], sys'.procs[p]);
    assert SameSlot(sys.server.sems[0], sys'.server.sems[0], 0) && SameSlot(sys.server.sems[1], sys'.server.sems[1], 1);
  }

  // ---- Counting the nodes that processes hold ----

  function Sum(procs: seq<Proc>, f: Proc -> nat): nat {
    if procs == [] then 0 else f(procs[0]) + Sum(procs[1..], f)
  }

  lemma {:induction false} SumUpdate(procs: seq<Proc>, p: nat, x: Proc, f: Proc -> nat)
    requires p < |procs|
    ensures Sum(procs[p := x], f) == Sum(procs, f) - f(procs[p]) + f(x)
  {
    if p > 0 {
      assert procs[p := x][1..] == procs[1..][p - 1 := x];
      SumUpdate(procs[1..], p - 1, x, f);
    }
  }

  lemma {:induction false} SumSame(procs: seq<Proc>, procs': seq<Proc>, f: Proc -> nat)
    requires |procs| == |procs'| && forall p | 0 <= p < |procs| :: f(procs'[p]) == f(procs[p])
    ensures Sum(procs', f) == Sum(procs, f)
  {
    if procs != [] { SumSame(procs[1..], procs'[1..], f); }
  }

  function IsUser(proc: Proc): nat { if proc.stage.Outside? then 0 else 1 }

  /** Opener entries a process holds. */
  function Entries(proc: Proc): nat {
    match proc.stage case OpensCons => 1 case Loop(_) => 2 case _ => 0
  }

  predicate Blocked(proc: Proc) { proc.stage == Loop(PBlocked) || proc.stage == Loop(CBlocked) }

  /** Nodes it holds at most: its entries, and one more if it is asleep. */
  function Nodes(proc: Proc): nat { Entries(proc) + if Blocked(proc) then 1 else 0 }

  lemma {:induction false} NodesSplit(procs: seq<Proc>)
    ensures Sum(procs, Nodes)
            == Sum(procs, Entries) + ProdCons.At(Pcs(procs), PBlocked) + ProdCons.At(Pcs(procs), CBlocked)
  {
    if procs != [] {
      NodesSplit(procs[1..]);
      assert Pcs(procs)[1..] == Pcs(procs[1..]);
    }
  }

  lemma {:induction false} ThreeEach(procs: seq<Proc>)
    ensures Sum(procs, Nodes) <= 3 * Sum(procs, IsUser)
    ensures Sum(procs, Nodes) == 3 * Sum(procs, IsUser)
            ==> forall p | 0 <= p < |procs| :: procs[p].stage.Outside? || Blocked(procs[p])
  {
    if procs != [] {
      ThreeEach(procs[1..]);
      if Sum(procs, Nodes) == 3 * Sum(procs, IsUser) {
        forall p | 0 <= p < |procs| ensures procs[p].stage.Outside? || Blocked(procs[p]) {
          if p > 0 { assert procs[1..][p - 1] == procs[p]; }
        }
      }
    }
  }

  /** The others hold three nodes each at most, and exactly three only if all of them are asleep. */
  lemma OthersHold(procs: seq<Proc>, p: nat)
    requires p < |procs| && !procs[p].stage.Outside?
    ensures Sum(procs, Nodes) <= 3 * (Sum(procs, IsUser) - 1) + Nodes(procs[p])
    ensures Sum(procs, Nodes) == 3 * (Sum(procs, IsUser) - 1) + Nodes(procs[p])
       ==> forall q | 0 <= q < |procs| && q != p :: procs[q].stage.Outside? || Blocked(procs[q])
  {
    var x := procs[p].(stage := Outside);
    SumUpdate(procs, p, x, Nodes);
    SumUpdate(procs, p, x, IsUser);
    ThreeEach(procs[p := x]);
    hide Sum;
    assert forall q | 0 <= q < |procs| && q != p :: procs[p := x][q] == procs[q];
  }

  // ---- Up to seven processes, from boot ----

  /** The server has only the program's two semaphores: the one in slot 0, and later the one in slot 1. */
  ghost predicate TwoSlots(s: State) {
    && |s.sems| == INITIAL_SEM && (forall k | 2 <= k < INITIAL_SEM :: s.sems[k] == FREE_SEM)
    && (!Live(s.sems[0]) ==> s.sems[0] == FREE_SEM) && (!Live(s.sems[1]) ==> s.sems[1] == FREE_SEM)
    && s.names == (if Live(s.sems[1]) then map["sem_prod" := 0, "sem_cons" := 1]
         else if Live(s.sems[0]) then map["sem_prod" := 0] else map[])
    && (Live(s.sems[1]) ==> Live(s.sems[0]))
  }

  lemma TwoSlotsUsed(s: State)
    requires TwoSlots(s)
    ensures Used(s.sems, INITIAL_SEM) == Size(s.sems[0]) + Size(s.sems[1])
  {
    UsedOfFree(INITIAL.sems, INITIAL_SEM);
    UsedUpdate(INITIAL.sems, 0, s.sems[0], INITIAL_SEM);
    UsedUpdate(INITIAL.sems[0 := s.sems[0]], 1, s.sems[1], INITIAL_SEM);
    assert s.sems == INITIAL.sems[0 := s.sems[0]][1 := s.sems[1]];
  }

  /** Whoever has an open behind it is in that semaphore. */
  ghost predicate PlaceOk(sys: System, p: int)
    requires 0 <= p < |sys.procs| && |sys.server.sems| == INITIAL_SEM
  {
    var proc, s := sys.procs[p], sys.server;
    match proc.stage
    case OpensCons => proc.prod == 0 && Live(s.sems[0]) && p in s.sems[0].openers
    case Loop(_) => Inside(sys, p)
    case Leaving(_) => false
    case _ => true
  }

  ghost predicate Placed(sys: System) {
    |sys.server.sems| == INITIAL_SEM && forall p | 0 <= p < |sys.procs| :: PlaceOk(sys, p)
  }

  /** n processes, and the opener lists hold their entries. */
  predicate Counted(sys: System, n: nat) {
    && |sys.server.sems| == INITIAL_SEM && Sum(sys.procs, IsUser) == n
    && |sys.server.sems[0].openers| + |sys.server.sems[1].openers| == Sum(sys.procs, Entries)
  }

  ghost predicate Sound(sys: System, n: nat) {
    TwoSlots(sys.server) && Counted(sys, n) && Placed(sys) && Balanced(WorldOf(sys))
  }

  /** Everybody sleeps, and nobody is left to post. */
  ghost predicate Stuck(sys: System) {
    forall p | 0 <= p < |sys.procs| :: sys.procs[p].stage.Outside? || Blocked(sys.procs[p])
  }

  lemma NodesInUse(sys: System, n: nat)
    requires Sound(sys, n)
    ensures Used(sys.server.sems, INITIAL_SEM) <= Sum(sys.procs, Nodes)
  {
    var w := WorldOf(sys);
    TwoSlotsUsed(sys.server);
    NodesSplit(sys.procs);
    SleepersFit(w.prod.blocked, w.pc, PBlocked);
    SleepersFit(w.cons.blocked, w.pc, CBlocked);
    hide Sum, Used, ProdCons.At, Pcs, TwoSlots, Placed;
    assert |sys.server.sems[0].blocked| <= |w.prod.blocked| by { assert TwoSlots(sys.server); }
  }

  lemma Names()
    ensures N.Clip("sem_prod") == "sem_prod" && N.Clip("sem_cons") == "sem_cons" && "sem_prod" != "sem_cons"
  {
    assert |"sem_prod"| == 8 && "sem_prod"[4] != "sem_cons"[4];
  }

  /** The slot after an open by p with a node to spare, or without. */
  function Joined(s: State, m: Sem, value: int, p: int): Sem {
    if Live(m) then m.(refCount := m.refCount + 1, openers := Push(s, m.openers, p))
    else Sem(value, 1, Push(s, [], p), [], false)
  }

  /** An open by the program, served: sem_prod is slot 0 and sem_cons slot 1, and the caller is told so, node or
      no node. */
  lemma OpenServed(s: State, p: int, prod: bool, junk: int)
    requires TwoSlots(s) && (!prod ==> Live(s.sems[0]))
    ensures var k, value := if prod then 0 else 1, if prod then BUFFER else 0;
            var step := Serve(s, Event(p, Open(if prod then "sem_prod" else "sem_cons", true, false, value), junk));
            step.state.sems == s.sems[k := Joined(s, s.sems[k], value, p)] && TwoSlots(step.state)
            && OpenedAs(step, p, k)
  {
    Names();
    hide Serve, Full;
    var name, k, value := if prod then "sem_prod" else "sem_cons", if prod then 0 else 1, if prod then BUFFER else 0;
    if Live(s.sems[k]) { OpenJoins(s, p, name, value, k, junk); } else { OpenCreatesAt(s, p, name, value, k, junk); }
  }

  /** What becomes of the caller. */
  function AfterOpen(proc: Proc): Proc {
    if proc.stage.Opens? then proc.(stage := OpensCons, prod := 0)
    else proc.(stage := Loop(if proc.producer then PWait else CStart), cons := 1)
  }

  /** An open moves its caller on and changes one slot. */
  lemma OpenStep(v: Habits, sys: System, t: Turn)
    requires TwoSlots(sys.server) && 0 <= t.p < |sys.procs|
             && (sys.procs[t.p].stage.Opens? || sys.procs[t.p].stage.OpensCons?)
    requires sys.procs[t.p].stage.OpensCons? ==> Live(sys.server.sems[0])
    ensures var sys', k := Act(v, sys, t), if sys.procs[t.p].stage.Opens? then 0 else 1;
            && TwoSlots(sys'.server)
            && sys' == sys.(server := sys'.server, procs := sys.procs[t.p := AfterOpen(sys.procs[t.p])])
            && sys'.server.sems
                 == sys.server.sems[k := Joined(sys.server, sys.server.sems[k], if k == 0 then BUFFER else 0, t.p)]
  {
    assert |sys.server.sems| == INITIAL_SEM;
    hide Serve, Full, TwoSlots;
    OpenServed(sys.server, t.p, sys.procs[t.p].stage.Opens?, t.junk);
  }

  /** It changes neither semaphore as the loops see them, nor where anyone stands. */
  lemma OpenWorld(sys: System, sys': System, p: nat)
    requires TwoSlots(sys.server) && p < |sys.procs| && (sys.procs[p].stage.Opens? || sys.procs[p].stage.OpensCons?)
    requires var k := if sys.procs[p].stage.Opens? then 0 else 1;
             sys'.server.sems
                 == sys.server.sems[k := Joined(sys.server, sys.server.sems[k], if k == 0 then BUFFER else 0, p)]
    requires sys' == sys.(server := sys'.server, procs := sys.procs[p := AfterOpen(sys.procs[p])])
    ensures WorldOf(sys') == WorldOf(sys)
  {
    hide Full, Push;
    PcsUpdate(sys.procs, p, AfterOpen(sys.procs[p]));
    assert Pcs(sys.procs)[p := Pcs(sys.procs)[p]] == Pcs(sys.procs);
    hide Pcs;
  }

  lemma RoomToOpen(sys: System, p: nat, n: nat)
    requires Sound(sys, n) && n <= 7 && p < |sys.procs| && (sys.procs[p].stage.Opens? || sys.procs[p].stage.OpensCons?)
    ensures !Full(sys.server)
  {
    NodesInUse(sys, n);
    OthersHold(sys.procs, p);
    hide Sum, Used, Balanced, WorldOf, Placed;
  }

  /** With a node to spare, an open keeps everyone in place and lets the caller in. */
  lemma OpenPlaces(sys: System, sys': System, p: nat, prod: bool)
    requires |sys.server.sems| == INITIAL_SEM && p < |sys.procs| && !Full(sys.server)
    requires sys.procs[p].stage == (if prod then Opens else OpensCons)
    requires var k := if prod then 0 else 1;
             sys'.server.sems
                 == sys.server.sems[k := Joined(sys.server, sys.server.sems[k], if prod then BUFFER else 0, p)]
    requires sys'.procs == sys.procs[p := AfterOpen(sys.procs[p])]
    requires Placed(sys)
    ensures Placed(sys')
  {
    hide Full;
    var k := if prod then 0 else 1;
    assert p in sys'.server.sems[k].openers && Live(sys'.server.sems[k]);
    assert PlaceOk(sys, p);
    forall q | 0 <= q < |sys'.procs| ensures PlaceOk(sys', q) { assert PlaceOk(sys, q); }
  }

  lemma OpenCounts(sys: System, sys': System, p: nat, prod: bool, n: nat)
    requires Counted(sys, n) && TwoSlots(sys.server) && !Full(sys.server) && p < |sys.procs|
    requires sys.procs[p].stage == (if prod then Opens else OpensCons)
    requires var k := if prod then 0 else 1;
             sys'.server.sems
                 == sys.server.sems[k := Joined(sys.server, sys.server.sems[k], if prod then BUFFER else 0, p)]
    requires sys'.procs == sys.procs[p := AfterOpen(sys.procs[p])]
    ensures Counted(sys', n)
  {
    hide Full;
    SumUpdate(sys.procs, p, sys'.procs[p], IsUser);
    SumUpdate(sys.procs, p, sys'.procs[p], Entries);
    assert sys'.procs == sys.procs[p := sys'.procs[p]];
    hide Sum;
  }

  lemma OpenStaysSound(sys: System, t: Turn, n: nat)
    requires Sound(sys, n) && n <= 7 && 0 <= t.p < |sys.procs|
             && (sys.procs[t.p].stage.Opens? || sys.procs[t.p].stage.OpensCons?)
    ensures Sound(Act(PLAIN, sys, t), n)
  {
    assert PlaceOk(sys, t.p);
    hide Act, Full, Balanced, WorldOf, TwoSlots, Placed, Counted;
    RoomToOpen(sys, t.p, n);
    OpenStep(PLAIN, sys, t);
    OpenWorld(sys, Act(PLAIN, sys, t), t.p);
    OpenPlaces(sys, Act(PLAIN, sys, t), t.p, sys.procs[t.p].stage.Opens?);
    OpenCounts(sys, Act(PLAIN, sys, t), t.p, sys.procs[t.p].stage.Opens?, n);
  }

  // ---- The step of a member keeps everything, or everybody is asleep ----

  lemma SameKeepsPlaces(sys: System, sys': System)
    requires |sys.server.sems| == INITIAL_SEM && SameSlots(sys.server, sys'.server) && SameBut(sys.procs, sys'.procs)
    requires Placed(sys)
    ensures Placed(sys')
    ensures Sum(sys'.procs, IsUser) == Sum(sys.procs, IsUser) && Sum(sys'.procs, Entries) == Sum(sys.procs, Entries)
  {
    forall p | 0 <= p < |sys.procs|
      ensures PlaceOk(sys', p) && IsUser(sys'.procs[p]) == IsUser(sys.procs[p])
              && Entries(sys'.procs[p]) == Entries(sys.procs[p])
    {
      assert PlaceOk(sys, p) && SameProc(sys.procs[p], sys'.procs[p]);
      assert SameSlot(sys.server.sems[0], sys'.server.sems[0], 0)
          && SameSlot(sys.server.sems[1], sys'.server.sems[1], 1);
    }
    SumSame(sys.procs, sys'.procs, IsUser);
    SumSame(sys.procs, sys'.procs, Entries);
  }

  lemma SameKeepsSlots(s: State, s': State)
    requires TwoSlots(s) && SameSlots(s, s') && Live(s.sems[0]) && Live(s.sems[1])
    ensures TwoSlots(s') && s'.sems[0].openers == s.sems[0].openers && s'.sems[1].openers == s.sems[1].openers
  {
    forall k | 0 <= k < INITIAL_SEM ensures s'.sems[k] == if k < 2 then s'.sems[k] else s.sems[k] {
      assert SameSlot(s.sems[k], s'.sems[k], k);
    }
    assert SameSlot(s.sems[0], s'.sems[0], 0) && SameSlot(s.sems[1], s'.sems[1], 1);
  }

  /** A wait that blocks with the pool full: everybody else is asleep already. */
  predicate Drops(sys: System, t: Turn)
    requires |sys.server.sems| == INITIAL_SEM
  {
    && Full(sys.server) && 0 <= t.p < |sys.procs|
    && ((sys.procs[t.p].stage == Loop(PWait) && sys.server.sems[0].count <= 0)
         || (sys.procs[t.p].stage == Loop(CWait) && sys.server.sems[1].count <= 0))
  }

  lemma MoveWithRoom(sys: System, t: Turn)
    requires Inside(sys, t.p) && !Drops(sys, t)
    ensures var w, c := WorldOf(sys), InWorld(sys, t);
            Move(w, c) == Move(w, c.(room := c.room || w.pc[t.p] == PWait || w.pc[t.p] == CWait))
  {
    hide Full;
  }

  lemma LoopStaysSound(sys: System, t: Turn, n: nat)
    requires Sound(sys, n) && 0 <= t.p < |sys.procs| && sys.procs[t.p].stage.Loop? && !Drops(sys, t)
    ensures Sound(Act(PLAIN, sys, t), n)
  {
    var sys', w, c := Act(PLAIN, sys, t), WorldOf(sys), InWorld(sys, t);
    assert PlaceOk(sys, t.p);
    StepIsMove(sys, t);
    SameKeepsPlaces(sys, sys');
    SameKeepsSlots(sys.server, sys'.server);
    MoveWithRoom(sys, t);
    hide Act, Full, Sum, Balanced, Move, WorldOf, Used, TwoSlots, Placed, SameSlots, SameBut;
    MoveKeepsBalance(w, c.(room := c.room || w.pc[t.p] == PWait || w.pc[t.p] == CWait));
  }

  lemma OthersSleep(sys: System, t: Turn, n: nat)
    requires Sound(sys, n) && n <= 7 && Drops(sys, t)
    ensures forall q | 0 <= q < |sys.procs| && q != t.p :: sys.procs[q].stage.Outside? || Blocked(sys.procs[q])
  {
    NodesInUse(sys, n);
    OthersHold(sys.procs, t.p);
    hide Sum, Used, Balanced, WorldOf, Placed;
  }

  lemma DropOutcome(sys: System, t: Turn)
    requires Inside(sys, t.p) && Drops(sys, t)
    ensures var sys', w := Act(PLAIN, sys, t), WorldOf(sys);
            && SameBut(sys.procs, sys'.procs) && sys'.created == sys.created && sys'.consumed == sys.consumed
            && sys'.finished == sys.finished
            && Pcs(sys'.procs) == w.pc[t.p := if sys.procs[t.p].stage.pc == PWait then PBlocked else CBlocked]
  {
    StepIsMove(sys, t);
    hide Act, Pcs, SameBut, SameSlots, Full;
    assert WorldOf(Act(PLAIN, sys, t)) == Move(WorldOf(sys), InWorld(sys, t));
  }

  /** With seven processes at most, the pool is full at a blocking wait only if all the others sleep. */
  lemma DropIsLast(sys: System, t: Turn, n: nat)
    requires Sound(sys, n) && n <= 7 && Drops(sys, t)
    ensures var sys' := Act(PLAIN, sys, t);
            Stuck(sys') && sys'.created == sys.created && sys'.consumed == sys.consumed && sys'.finished == sys.finished
  {
    var sys' := Act(PLAIN, sys, t);
    OthersSleep(sys, t, n);
    assert PlaceOk(sys, t.p);
    DropOutcome(sys, t);
    hide Act, Sound, Drops;
    forall q | 0 <= q < |sys'.procs| ensures sys'.procs[q].stage.Outside? || Blocked(sys'.procs[q]) {
      assert SameProc(sys.procs[q], sys'.procs[q]) && PcOf(sys'.procs[q]) == Pcs(sys'.procs)[q];
      if q != t.p { assert PcOf(sys'.procs[q]) == PcOf(sys.procs[q]); }
    }
  }

  lemma StuckStays(sys: System, t: Turn)
    requires Stuck(sys)
    ensures Act(PLAIN, sys, t) == sys
  {}

  lemma BalancedBound(sys: System, n: nat)
    requires Sound(sys, n)
    ensures Bound(sys)
  {
    hide ProdCons.At, Asleep;
  }

  /** What holds all along: everything is in order, or everybody is asleep for good. */
  ghost predicate Going(sys: System, n: nat) { Sound(sys, n) || (Stuck(sys) && Bound(sys)) }

  lemma ActKeepsGoing(sys: System, t: Turn, n: nat)
    requires Going(sys, n) && n <= 7
    ensures Going(Act(PLAIN, sys, t), n)
  {
    hide Sound, Stuck, Act;
    if !Sound(sys, n) {
      StuckStays(sys, t);
    } else {
      BalancedBound(sys, n);
      SoundStep(sys, t, n);
    }
  }

  lemma SoundStep(sys: System, t: Turn, n: nat)
    requires Sound(sys, n) && n <= 7
    ensures var sys' := Act(PLAIN, sys, t);
            Sound(sys', n) || (Stuck(sys') && sys'.created == sys.created && sys'.consumed == sys.consumed
                && sys'.finished == sys.finished)
  {
    if 0 <= t.p < |sys.procs| {
      assert PlaceOk(sys, t.p);
      match sys.procs[t.p].stage {
        case Outside =>
        case Opens => OpenStaysSound(sys, t, n);
        case OpensCons => OpenStaysSound(sys, t, n);
        case Loop(_) => if Drops(sys, t) { DropIsLast(sys, t, n); } else { LoopStaysSound(sys, t, n); }
      }
    }
    hide Sound, Stuck, Drops, LoopStep, OpenOne;
  }

  lemma {:induction false} ActAllKeepsGoing(sys: System, ts: seq<Turn>, n: nat)
    requires Going(sys, n) && n <= 7
    ensures Going(ActAll(PLAIN, sys, ts), n)
    decreases |ts|
  {
    hide Going, Act;
    if ts != [] {
      ActKeepsGoing(sys, ts[0], n);
      ActAllKeepsGoing(Act(PLAIN, sys, ts[0]), ts[1..], n);
    }
  }

  lemma StartingSums(sys: System, n: nat)
    requires Starting(sys, n)
    ensures Sum(sys.procs, IsUser) == n && Sum(sys.procs, Entries) == 0
  {
    assert sys.procs == sys.procs[..FIRST_USER] + sys.procs[FIRST_USER..];
    UsersOf(sys.procs, 0, n);
  }

  lemma {:induction false} UsersOf(procs: seq<Proc>, i: nat, n: nat)
    requires |procs| + i == FIRST_USER + n
             && forall p | 0 <= p < |procs| :: procs[p].stage == if p + i < FIRST_USER then Outside else Opens
    ensures Sum(procs, IsUser) == (if i < FIRST_USER then n else |procs|) && Sum(procs, Entries) == 0
    decreases |procs|
  {
    if procs != [] { UsersOf(procs[1..], i + 1, n); }
  }

  lemma StartingIsSound(sys: System, n: nat)
    requires Starting(sys, n)
    ensures Sound(sys, n)
  {
    StartingSums(sys, n);
    var w := WorldOf(sys);
    NobodyAt(w.pc, PRead);
    NobodyAt(w.pc, CPost(false));
    NobodyAt(w.pc, CUse);
    NobodyAt(w.pc, PPost);
    hide ProdCons.At, Sum;
  }

  /** Up to seven processes of the plain program keep the bound, from boot, in every interleaving of their
      opens and their loops. */
  lemma PlainHolds(sys: System, n: nat, ts: seq<Turn>)
    requires Starting(sys, n) && n <= 7
    ensures Bound(ActAll(PLAIN, sys, ts))
  {
    StartingIsSound(sys, n);
    hide Sound, Starting, Bound, Stuck;
    ActAllKeepsGoing(sys, ts, n);
    if Sound(ActAll(PLAIN, sys, ts), n) { BalancedBound(ActAll(PLAIN, sys, ts), n); }
  }

  // ---- Opens that find the pool full ----

  function Times(t: Turn, n: nat): seq<Turn> {
    if n == 0 then [] else [t] + Times(t, n - 1)
  }

  lemma ThreeTurns(v: Habits, sys: System, t: Turn, s1: System, s2: System, s3: System, n: nat)
    requires Act(v, sys, t) == s1 && Act(v, s1, t) == s2 && Act(v, s2, t) == s3 && n >= 3
    ensures ActAll(v, sys, Times(t, n)) == ActAll(v, s3, Times(t, n - 3))
  {
    hide Act, ActAll, Times;
    NextTurn(v, sys, t, n);
    NextTurn(v, s1, t, n - 1);
    NextTurn(v, s2, t, n - 2);
  }

  lemma NextTurn(v: Habits, sys: System, t: Turn, n: nat)
    requires n > 0
    ensures ActAll(v, sys, Times(t, n)) == ActAll(v, Act(v, sys, t), Times(t, n - 1))
  {
    hide Act;
    assert Times(t, n)[1..] == Times(t, n - 1);
  }

  lemma TwoTurns(v: Habits, sys: System, a: Turn, b: Turn)
    ensures ActAll(v, sys, [a, b]) == Act(v, Act(v, sys, a), b)
  {
    hide Act;
    assert [a, b][1..] == [b] && [b][1..] == [];
    assert ActAll(v, Act(v, Act(v, sys, a), b), []) == Act(v, Act(v, sys, a), b);
  }

  /** A producer that was told that it has both semaphores open, and is in neither. */
  ghost predicate ShutOut(sys: System, p: int) {
    && |sys.server.sems| == INITIAL_SEM && 0 <= p < |sys.procs| && sys.procs[p].stage == Loop(PWait)
    && sys.procs[p].prod == 0 && sys.procs[p].cons == 1
    && p !in sys.server.sems[0].openers && p !in sys.server.sems[1].openers
  }

  /** A failed wait is over at once. */
  lemma StrangerWaits(v: Habits, sys: System, t: Turn)
    requires ShutOut(sys, t.p)
    ensures var sys' := Act(v, sys, t);
            && sys' == sys.(server := sys'.server, procs := sys.procs[t.p := sys.procs[t.p].(stage := Loop(PRead))])
            && sys'.server.sems == sys.server.sems
  {
    StrangerStep(sys.server, t.p, 0, true, t.junk);
    var x := sys.procs[t.p].(stage := Loop(PBlocked));
    HearFew(v, sys.procs[t.p := x], Serve(sys.server, Event(t.p, Call.Wait(0), t.junk)).replies);
    hide Serve, HearAll;
    assert sys.procs[t.p := x][t.p := x.(stage := Loop(PRead))]
        == sys.procs[t.p := sys.procs[t.p].(stage := Loop(PRead))];
  }

  lemma StrangerPosts(v: Habits, sys: System, t: Turn)
    requires |sys.server.sems| == INITIAL_SEM && 0 <= t.p < |sys.procs| && sys.procs[t.p].stage == Loop(PPost)
    requires sys.procs[t.p].cons == 1 && t.p !in sys.server.sems[1].openers
    ensures var sys' := Act(v, sys, t);
            && sys' == sys.(server := sys'.server, procs := sys.procs[t.p := sys.procs[t.p].(stage := Loop(PWait))])
            && sys'.server.sems == sys.server.sems
  {
    StrangerStep(sys.server, t.p, 1, false, t.junk);
    var replies := Serve(sys.server, Event(t.p, Call.Post(1), t.junk)).replies;
    HearFew(v, sys.procs[t.p := sys.procs[t.p].(stage := Loop(PWait))], replies);
    NotListening(v, sys.procs[t.p := sys.procs[t.p].(stage := Loop(PWait))], replies[0]);
    hide Serve, HearAll, HearOne;
  }

  /** It goes round its loop all the same, and counts an element each time. */
  lemma StrangerRound(v: Habits, sys: System, t: Turn, n: nat) returns (after: System)
    requires ShutOut(sys, t.p) && !t.eof && n >= 3
    ensures ShutOut(after, t.p) && after.created == sys.created + 1 && after.consumed == sys.consumed
            && after.finished == sys.finished
    ensures ActAll(v, sys, Times(t, n)) == ActAll(v, after, Times(t, n - 3))
  {
    var s1 := Act(v, sys, t);
    StrangerWaits(v, sys, t);
    var s2 := Act(v, s1, t);
    assert s2 == s1.(procs := s1.procs[t.p := s1.procs[t.p].(stage := Loop(PPost))], created := s1.created + 1);
    after := Act(v, s2, t);
    StrangerPosts(v, s2, t);
    hide Act;
    ThreeTurns(v, sys, t, s1, s2, after, n);
  }

  lemma {:induction false} StrangerRounds(v: Habits, sys: System, t: Turn, n: nat)
    requires ShutOut(sys, t.p) && !t.eof
    ensures var end := ActAll(v, sys, Times(t, 3 * n));
            end.created == sys.created + n && end.consumed == sys.consumed && end.finished == sys.finished
    decreases n
  {
    if n > 0 {
      var after := StrangerRound(v, sys, t, 3 * n);
      hide Act, ActAll, Times, ShutOut;
      StrangerRounds(v, after, t, n - 1);
    }
  }

  /** The first n processes open the semaphores, one after the other. */
  function OpenTurns(n: nat): seq<Turn> {
    if n == 0 then [] else OpenTurns(n - 1) + [Turn(FIRST_USER + n - 1, false, 0), Turn(FIRST_USER + n - 1, false, 0)]
  }

  function Min(a: nat, b: nat): nat { if a < b then a else b }

  /** A process after its two opens. */
  function AtWork(proc: Proc): Proc {
    proc.(stage := Loop(if proc.producer then PWait else CStart), prod := 0, cons := 1)
  }

  /** The first m processes have opened; ten of them got their nodes. */
  ghost predicate AllOpen(start: System, sys: System, m: nat) {
    && TwoSlots(sys.server) && |sys.procs| == |start.procs| >= FIRST_USER + m
    && sys == start.(server := sys.server, procs := sys.procs)
    && (forall q | 0 <= q < |sys.procs| ::
         sys.procs[q] == if FIRST_USER <= q < FIRST_USER + m then AtWork(start.procs[q]) else start.procs[q])
    && (m > 0 ==> Live(sys.server.sems[1])) && (m == 0 ==> !Live(sys.server.sems[0]))
    && OpenList(sys.server.sems[0], m, BUFFER) && OpenList(sys.server.sems[1], m, 0)
  }

  ghost predicate OpenList(m: Sem, n: nat, value: int) {
    && (n > 0 ==> m.count == value) && m.blocked == [] && !m.unlinked && |m.openers| == Min(n, 10)
    && forall q :: q in m.openers <==> FIRST_USER <= q < FIRST_USER + Min(n, 10)
  }

  lemma StartIsAllOpen(start: System, n: nat)
    requires Starting(start, n)
    ensures AllOpen(start, start, 0)
  {}

  /** One of the two lists of the program after an open by process n. */
  lemma ListOpened(s: State, m: Sem, n: nat, value: nat)
    requires OpenList(m, n, value) && (Live(m) <==> n > 0) && (Full(s) <==> n >= 10)
    ensures OpenList(Joined(s, m, value, FIRST_USER + n), n + 1, value) && Live(Joined(s, m, value, FIRST_USER + n))
  {
    hide Full;
    var m' := Joined(s, m, value, FIRST_USER + n);
    forall q ensures q in m'.openers <==> FIRST_USER <= q < FIRST_USER + Min(n + 1, 10) {
      if n == 0 && !Live(m) { assert m'.openers == [FIRST_USER]; }
    }
  }

  /** An open by process p that finds m lists entries in each, or one more in the first. */
  lemma NextOpens(v: Habits, start: System, sys: System, m: nat, n: nat) returns (s2: System)
    requires Starting(start, n) && AllOpen(start, sys, m) && m < n
    ensures s2 == ActAll(v, sys, [Turn(FIRST_USER + m, false, 0), Turn(FIRST_USER + m, false, 0)])
            && AllOpen(start, s2, m + 1)
  {
    var p, t := FIRST_USER + m, Turn(FIRST_USER + m, false, 0);
    TwoSlotsUsed(sys.server);
    assert sys.procs[p] == start.procs[p] && (Full(sys.server) <==> m >= 10);
    OpenStep(v, sys, t);
    var s1 := Act(v, sys, t);
    ListOpened(sys.server, sys.server.sems[0], m, BUFFER);
    TwoSlotsUsed(s1.server);
    assert Full(s1.server) <==> m >= 10;
    OpenStep(v, s1, t);
    s2 := Act(v, s1, t);
    ListOpened(s1.server, s1.server.sems[1], m, 0);
    hide Act, Full, Used, TwoSlots, OpenList, Starting;
    TwoTurns(v, sys, t, t);
    assert s2.server.sems[0] == s1.server.sems[0];
  }

  lemma {:induction false} AllDoOpen(v: Habits, start: System, m: nat, n: nat)
    requires Starting(start, n) && m <= n
    ensures AllOpen(start, ActAll(v, start, OpenTurns(m)), m)
  {
    hide Starting, AllOpen, Act;
    if m > 0 {
      var t := Turn(FIRST_USER + m - 1, false, 0);
      var before := ActAll(v, start, OpenTurns(m - 1));
      AllDoOpen(v, start, m - 1, n);
      var _ := NextOpens(v, start, before, m - 1, n);
      ActAllAppend(v, start, OpenTurns(m - 1), [t, t]);
    } else {
      StartIsAllOpen(start, n);
      assert ActAll(v, start, []) == start;
    }
  }

  /** n processes, the first k of them consumers and the others producers. */
  function Team(server: State, k: nat, n: nat): System {
    var team := seq(FIRST_USER + n, i => Proc(i >= FIRST_USER + k, if i < FIRST_USER then Outside else Opens, 0, 0));
    System(server, team, 0, 0, 0)
  }

  lemma TeamStarts(server: State, k: nat, n: nat)
    requires Booted(server)
    ensures Starting(Team(server, k, n), n)
  {}

  /** The eleventh process is shut out, goes its rounds, and creates sixteen elements. */
  lemma EleventhBreaks(v: Habits, start: System, n: nat)
    requires Starting(start, n) && n >= 11 && start.procs[FIRST_USER + 10].producer
    ensures !Bound(ActAll(v, start, OpenTurns(n) + Times(Turn(FIRST_USER + 10, false, 0), 48)))
  {
    var sys, t := ActAll(v, start, OpenTurns(n)), Turn(FIRST_USER + 10, false, 0);
    AllDoOpen(v, start, n, n);
    ActAllAppend(v, start, OpenTurns(n), Times(t, 48));
    hide ActAll, OpenTurns, Times;
    assert sys.procs[t.p] == AtWork(start.procs[t.p]);
    StrangerRounds(v, sys, t, 16);
  }

  // ---- Eight processes whose opens and loops interleave ----

  /** A consumer falls asleep on sem_cons. */
  lemma ConsumerSleeps(v: Habits, sys: System, t: Turn)
    requires |sys.server.sems| == INITIAL_SEM && 0 <= t.p < |sys.procs| && sys.procs[t.p].stage == Loop(CWait)
    requires sys.procs[t.p].cons == 1 && t.p in sys.server.sems[1].openers && sys.server.sems[1].count <= 0
    ensures var sys', m := Act(v, sys, t), sys.server.sems[1];
            && sys' == sys.(server := sys'.server, procs := sys.procs[t.p := sys.procs[t.p].(stage := Loop(CBlocked))])
            && sys'.server.sems
                 == sys.server.sems[1 := m.(count := m.count - 1, blocked := Push(sys.server, m.blocked, t.p))]
            && sys'.server.names == sys.server.names && sys'.server.out.param1 == 1
  {
    CallStep(sys.server, t.p, 1, true, t.junk);
    HearFew(v, sys.procs[t.p := sys.procs[t.p].(stage := Loop(CBlocked))],
        Serve(sys.server, Event(t.p, Call.Wait(1), t.junk)).replies);
    WaitAnswered(sys.server, t.p, 1, t.junk);
    hide Serve, HearAll, Full;
  }

  lemma WaitAnswered(s: State, p: int, h: int, junk: int)
    ensures Serve(s, Event(p, Call.Wait(h), junk)).state.out.param1 == h
  {
    hide Full;
  }

  /** Seven processes have opened, and the first k of them are asleep on sem_cons. */
  ghost predicate Asleep7(start: System, sys: System, k: nat) {
    && TwoSlots(sys.server) && |sys.procs| == |start.procs| && sys == start.(server := sys.server, procs := sys.procs)
    && (forall q | 0 <= q < |sys.procs| :: sys.procs[q] == StandsAt(start.procs[q], q, k))
    && Live(sys.server.sems[1])
    && sys.server.sems[1].count + k == 0 && |sys.server.sems[1].blocked| == k && sys.server.sems[0].blocked == []
    && SevenIn(sys.server.sems[0]) && SevenIn(sys.server.sems[1])
  }

  ghost predicate SevenIn(m: Sem) {
    |m.openers| == 7 && forall q :: q in m.openers <==> FIRST_USER <= q < FIRST_USER + 7
  }

  function StandsAt(proc: Proc, q: int, k: nat): Proc {
    if FIRST_USER <= q < FIRST_USER + k then AtWork(proc).(stage := Loop(CBlocked))
    else if FIRST_USER <= q < FIRST_USER + 7 then AtWork(proc) else proc
  }

  lemma OneMoreAsleep(start: System, sys: System, k: nat) returns (after: System)
    requires Asleep7(start, sys, k) && k < 6 && |start.procs| >= FIRST_USER + 7 && !start.procs[FIRST_USER + k].producer
    ensures ActAll(PLAIN, sys, Times(Turn(FIRST_USER + k, false, 0), 3)) == after && Asleep7(start, after, k + 1)
  {
    var p, t := FIRST_USER + k, Turn(FIRST_USER + k, false, 0);
    TwoSlotsUsed(sys.server);
    assert sys.procs[p] == AtWork(start.procs[p]) && sys.procs[p].stage == Loop(CStart) && !Full(sys.server);
    var s1, s2 := GoTo(sys, p, Loop(CRead)), GoTo(GoTo(sys, p, Loop(CRead)), p, Loop(CWait));
    assert Act(PLAIN, sys, t) == s1 && Act(PLAIN, s1, t) == s2;
    after := Act(PLAIN, s2, t);
    ConsumerSleeps(PLAIN, s2, t);
    hide Act, Full, Used;
    ThreeTurns(PLAIN, sys, t, s1, s2, after, 3);
    NoTurns(PLAIN, after, t);
    forall q | 0 <= q < |after.procs| ensures after.procs[q] == StandsAt(start.procs[q], q, k + 1) {
      assert q != p ==> after.procs[q] == sys.procs[q];
    }
  }

  lemma NoTurns(v: Habits, sys: System, t: Turn)
    ensures ActAll(v, sys, Times(t, 0)) == sys
  {}

  function SleepTurns(k: nat): seq<Turn> {
    if k == 0 then [] else SleepTurns(k - 1) + Times(Turn(FIRST_USER + k - 1, false, 0), 3)
  }

  lemma {:induction false} ManyAsleep(start: System, sys: System, k: nat)
    requires Asleep7(start, sys, 0) && k <= 6 && |start.procs| >= FIRST_USER + 7
    requires forall p | FIRST_USER <= p < FIRST_USER + 6 :: !start.procs[p].producer
    ensures Asleep7(start, ActAll(PLAIN, sys, SleepTurns(k)), k)
  {
    hide Asleep7, Act, Times;
    if k > 0 {
      ManyAsleep(start, sys, k - 1);
      var before := ActAll(PLAIN, sys, SleepTurns(k - 1));
      var _ := OneMoreAsleep(start, before, k - 1);
      ActAllAppend(PLAIN, sys, SleepTurns(k - 1), Times(Turn(FIRST_USER + k - 1, false, 0), 3));
    }
  }

  lemma SevenOpened(start: System, sys: System)
    requires AllOpen(start, sys, 7)
    ensures Asleep7(start, sys, 0)
  {
    hide TwoSlots;
    forall q | 0 <= q < |sys.procs| ensures sys.procs[q] == StandsAt(start.procs[q], q, 0) {}
  }

  /** With seven entries twice and six sleepers the pool is full, and the eighth process is shut out. */
  lemma EighthShutOut(start: System, sys: System) returns (after: System)
    requires Asleep7(start, sys, 6) && |start.procs| > FIRST_USER + 7
    requires start.procs[FIRST_USER + 7].producer && start.procs[FIRST_USER + 7].stage == Opens
    ensures after == ActAll(PLAIN, sys, [Turn(FIRST_USER + 7, false, 0), Turn(FIRST_USER + 7, false, 0)])
    ensures ShutOut(after, FIRST_USER + 7)
    ensures after.created == start.created && after.consumed == start.consumed && after.finished == start.finished
  {
    var p, t := FIRST_USER + 7, Turn(FIRST_USER + 7, false, 0);
    TwoSlotsUsed(sys.server);
    assert sys.procs[p] == start.procs[p] && Full(sys.server);
    OpenStep(PLAIN, sys, t);
    var s1 := Act(PLAIN, sys, t);
    TwoSlotsUsed(s1.server);
    assert Full(s1.server);
    OpenStep(PLAIN, s1, t);
    after := Act(PLAIN, s1, t);
    hide Act, Full, Used, TwoSlots;
    TwoTurns(PLAIN, sys, t, t);
  }

  function EightTurns(): seq<Turn> {
    OpenTurns(7) + SleepTurns(6) + [Turn(FIRST_USER + 7, false, 0), Turn(FIRST_USER + 7, false, 0)]
        + Times(Turn(FIRST_USER + 7, false, 0), 48)
  }

  lemma EightBreak(start: System, n: nat)
    requires Starting(start, n) && n >= 8 && start.procs[FIRST_USER + 7].producer
    requires forall p | FIRST_USER <= p < FIRST_USER + 6 :: !start.procs[p].producer
    ensures !Bound(ActAll(PLAIN, start, EightTurns()))
  {
    hide ActAll, OpenTurns, SleepTurns, Times, AllOpen, Asleep7, ShutOut;
    var t := Turn(FIRST_USER + 7, false, 0);
    var s1 := ActAll(PLAIN, start, OpenTurns(7));
    AllDoOpen(PLAIN, start, 7, n);
    SevenOpened(start, s1);
    var s2 := ActAll(PLAIN, s1, SleepTurns(6));
    ManyAsleep(start, s1, 6);
    var s3 := EighthShutOut(start, s2);
    StrangerRounds(PLAIN, s3, t, 16);
    ActAllAppend(PLAIN, start, OpenTurns(7), SleepTurns(6));
    ActAllAppend(PLAIN, start, OpenTurns(7) + SleepTurns(6), [t, t]);
    ActAllAppend(PLAIN, start, OpenTurns(7) + SleepTurns(6) + [t, t], Times(t, 48));
  }

  // ---- Calls that are answered at once ----

  lemma Listeners(v: Habits, procs: seq<Proc>, replies: seq<Reply>)
    requires forall p | 0 <= p < |procs| :: !Blocked(procs[p])
    ensures HearAll(v, procs, replies) == procs
    decreases |replies|
  {
    if replies != [] {
      if 0 <= replies[0].to < |procs| { NotListening(v, procs, replies[0]); }
      Listeners(v, procs, replies[1..]);
    }
  }

  /** The place after a wait that is granted. */
  function Next(pc: Pc): Pc { if pc == PWait then PRead else CUse }

  /** The semaphore that p is about to wait for, in its own variable. */
  function Target(proc: Proc): int { if proc.stage == Loop(PWait) then proc.prod else proc.cons }

  /** A wait that is granted answers with the handle it was sent, so storing it changes nothing. */
  lemma WaitGranted(v: Habits, sys: System, t: Turn, h: nat)
    requires |sys.server.sems| == INITIAL_SEM && h < INITIAL_SEM && 0 <= t.p < |sys.procs|
    requires (sys.procs[t.p].stage == Loop(PWait) || sys.procs[t.p].stage == Loop(CWait)) && Target(sys.procs[t.p]) == h
    requires t.p in sys.server.sems[h].openers && sys.server.sems[h].count > 0
    ensures var sys', m := Act(v, sys, t), sys.server.sems[h];
            && sys' == sys.(server := sys'.server,
                 procs := sys.procs[t.p := sys.procs[t.p].(stage := Loop(Next(sys.procs[t.p].stage.pc)))])
            && sys'.server.sems == sys.server.sems[h := m.(count := m.count - 1)]
            && sys'.server.names == sys.server.names
            && sys'.server.out.param1 == h
  {
    var proc, to := sys.procs[t.p],
        sys.procs[t.p].(stage := Loop(if sys.procs[t.p].stage.pc == PWait then PBlocked else CBlocked));
    var replies := Serve(sys.server, Event(t.p, Call.Wait(h), t.junk)).replies;
    GrantedReply(sys.server, t.p, h, t.junk);
    HearFew(v, sys.procs[t.p := to], replies);
    hide Serve, HearAll;
    assert sys.procs[t.p := to][t.p := Hear(v, to, replies[0])] == sys.procs[t.p := Hear(v, to, replies[0])];
  }

  lemma GrantedReply(s: State, p: int, h: nat, junk: int)
    requires |s.sems| == INITIAL_SEM && Member(s, h, p) && s.sems[h].count > 0
    ensures var step := Serve(s, Event(p, Call.Wait(h), junk));
            && step.state.sems == s.sems[h := s.sems[h].(count := s.sems[h].count - 1)] && step.state.names == s.names
            && step.state.out.param1 == h
            && |step.replies| == 1 && step.replies[0].to == p && step.replies[0].result == Ok
            && step.replies[0].body.param1 == h
  {
    assert Wakes([], s.out, Ok) == [];
  }

  /** A post that finds the count at 0 or above. */
  lemma PostBanked(v: Habits, sys: System, t: Turn, h: nat, to: Proc)
    requires |sys.server.sems| == INITIAL_SEM && h < INITIAL_SEM && 0 <= t.p < |sys.procs| && !Blocked(to)
    requires t.p in sys.server.sems[h].openers && sys.server.sems[h].count >= 0
    ensures var sys', m := Ask(v, sys, t, Call.Post(h), to), sys.server.sems[h];
            && sys' == sys.(server := sys'.server, procs := sys.procs[t.p := to])
            && sys'.server.sems == sys.server.sems[h := m.(count := m.count + 1)]
            && sys'.server.names == sys.server.names
  {
    var replies := Serve(sys.server, Event(t.p, Call.Post(h), t.junk)).replies;
    CallStep(sys.server, t.p, h, false, t.junk);
    HearFew(v, sys.procs[t.p := to], replies);
    NotListening(v, sys.procs[t.p := to], replies[0]);
    hide Serve, HearAll, HearOne;
  }

  /** A producer's round when nobody has to wait. */
  ghost predicate CanProduce(sys: System, p: int) {
    && |sys.server.sems| == INITIAL_SEM && 0 <= p < |sys.procs| && sys.procs[p].stage == Loop(PWait)
    && sys.procs[p].prod == 0 && sys.procs[p].cons == 1
    && p in sys.server.sems[0].openers && p in sys.server.sems[1].openers && sys.server.sems[1].count >= 0
  }

  /** What a round changes. */
  function AfterRound(sys: System, server: State): System { sys.(server := server, created := sys.created + 1) }

  lemma ProducerRound(v: Habits, sys: System, t: Turn, n: nat) returns (after: System)
    requires CanProduce(sys, t.p) && !t.eof && sys.server.sems[0].count > 0 && n >= 3
    ensures after == AfterRound(sys, after.server) && after.server.names == sys.server.names
    ensures var m0, m1 := sys.server.sems[0], sys.server.sems[1];
            after.server.sems == sys.server.sems[0 := m0.(count := m0.count - 1)][1 := m1.(count := m1.count + 1)]
    ensures ActAll(v, sys, Times(t, n)) == ActAll(v, after, Times(t, n - 3))
  {
    hide Act, Ask;
    var s1 := Act(v, sys, t);
    WaitGranted(v, sys, t, 0);
    var s2 := Act(v, s1, t);
    ReadOne(v, s1, t);
    after := Act(v, s2, t);
    ProducerPosts(v, s2, t);
    assert after.procs == sys.procs;
    ThreeTurns(v, sys, t, s1, s2, after, n);
  }

  lemma ReadOne(v: Habits, sys: System, t: Turn)
    requires 0 <= t.p < |sys.procs| && sys.procs[t.p].stage == Loop(PRead) && !t.eof
    ensures Act(v, sys, t)
            == sys.(procs := sys.procs[t.p := sys.procs[t.p].(stage := Loop(PPost))], created := sys.created + 1)
  {
    hide Ask;
  }

  lemma ProducerPosts(v: Habits, sys: System, t: Turn)
    requires |sys.server.sems| == INITIAL_SEM && 0 <= t.p < |sys.procs| && sys.procs[t.p].stage == Loop(PPost)
             && sys.procs[t.p].cons == 1
    requires t.p in sys.server.sems[1].openers && sys.server.sems[1].count >= 0
    ensures var sys', m := Act(v, sys, t), sys.server.sems[1];
            && sys' == sys.(server := sys'.server, procs := sys.procs[t.p := sys.procs[t.p].(stage := Loop(PWait))])
            && sys'.server.sems == sys.server.sems[1 := m.(count := m.count + 1)]
            && sys'.server.names == sys.server.names
  {
    PostBanked(v, sys, t, 1, sys.procs[t.p].(stage := Loop(PWait)));
    hide Ask;
  }

  lemma {:induction false} ProducerRounds(v: Habits, sys: System, t: Turn, n: nat)
    requires CanProduce(sys, t.p) && !t.eof && sys.server.sems[0].count >= n
    ensures var end := ActAll(v, sys, Times(t, 3 * n));
            && end == sys.(server := end.server, created := sys.created + n)
    decreases n
  {
    if n > 0 {
      var after := ProducerRound(v, sys, t, 3 * n);
      hide Act, ActAll, Times;
      ProducerRounds(v, after, t, n - 1);
    } else {
      NoTurns(v, sys, t);
    }
  }

  // ---- Two processes, with the library as written ----

  const EATER := FIRST_USER
  const MAKER := FIRST_USER + 1

  /** A consumer and a producer that have opened: where they stand, what their handles are, and the counts. The
      consumer, if it is asleep, may have been lost. */
  ghost predicate Pair(sys: System, x: Proc, y: Proc, c0: int, c1: int, asleep: seq<int>, created: nat, consumed: nat) {
    && |sys.server.sems| == INITIAL_SEM && |sys.procs| > MAKER && sys.procs[EATER] == x && sys.procs[MAKER] == y
    && sys.server.sems[0].count == c0 && sys.server.sems[1].count == c1
    && (sys.server.sems[1].blocked == asleep || sys.server.sems[1].blocked == [])
    && EATER in sys.server.sems[0].openers && EATER in sys.server.sems[1].openers
    && MAKER in sys.server.sems[0].openers && MAKER in sys.server.sems[1].openers
    && sys.created == created && sys.consumed == consumed && sys.finished == 0
  }

  function Eats(pc: Pc, cons: int): Proc { Proc(false, Loop(pc), 0, cons) }
  function Makes(pc: Pc): Proc { Proc(true, Loop(pc), 0, 1) }

  const EAT_TURN := Turn(EATER, false, 0)
  const MAKE_TURN := Turn(MAKER, false, EATER)

  /** A post answers the only sleeper, or the one its local names if that one was lost, with the second field of
      the message as it is. */
  lemma WokenReply(s: State, p: int, q: int, h: nat, junk: int)
    requires |s.sems| == INITIAL_SEM && Member(s, h, p) && s.sems[h].count == -1
    requires s.sems[h].blocked == [q] || (s.sems[h].blocked == [] && junk == q)
    ensures var step := Serve(s, Event(p, Call.Post(h), junk));
            && step.state.sems == s.sems[h := s.sems[h].(count := 0, blocked := [])]
            && |step.replies| == 2 && step.replies[0] == Reply(q, Message(0, s.out.param1, s.out.param2), Ok)
            && step.replies[1].to == p
  {
    W.RepliesShape(s, Event(p, Call.Post(h), junk));
    if s.sems[h].blocked != [] { assert s.sems[h].blocked[1..] == []; }
  }

  /** The consumer, asleep on sem_cons, is woken by the producer's post, and its handle of sem_cons becomes the
      handle of the producer's last request but one. */
  lemma WakeStores(v: Habits, sys: System)
    requires v.stores && Pair(sys, Eats(CBlocked, 1), Makes(PPost), 14, -1, [EATER], 1, 0) && sys.server.out.param1 == 0
    ensures Pair(Act(v, sys, MAKE_TURN), Eats(CUse, 0), Makes(PWait), 14, 0, [], 1, 0)
  {
    WokenReply(sys.server, MAKER, EATER, 1, EATER);
    var procs1 := sys.procs[MAKER := Makes(PWait)];
    var replies := Serve(sys.server, Event(MAKER, Call.Post(1), EATER)).replies;
    HearFew(v, procs1, replies);
    NotListening(v, HearOne(v, procs1, replies[0]), replies[1]);
    hide Serve, HearAll;
  }

  /** The consumer waits for an element and blocks. */
  lemma EaterSleeps(v: Habits, sys: System)
    requires Pair(sys, Eats(CStart, 1), Makes(PWait), 15, 0, [], 0, 0)
    ensures Pair(ActAll(v, sys, Times(EAT_TURN, 3)), Eats(CBlocked, 1), Makes(PWait), 15, -1, [EATER], 0, 0)
  {
    var s1, s2 := GoTo(sys, EATER, Loop(CRead)), GoTo(GoTo(sys, EATER, Loop(CRead)), EATER, Loop(CWait));
    assert Act(v, sys, EAT_TURN) == s1 && Act(v, s1, EAT_TURN) == s2;
    hide Act, Full;
    ConsumerSleeps(v, s2, EAT_TURN);
    var s3 := Act(v, s2, EAT_TURN);
    ThreeTurns(v, sys, EAT_TURN, s1, s2, s3, 3);
    NoTurns(v, s3, EAT_TURN);
  }

  /** The producer creates an element and posts it. */
  lemma MakerMakes(v: Habits, sys: System)
    requires v.stores && Pair(sys, Eats(CBlocked, 1), Makes(PWait), 15, -1, [EATER], 0, 0)
    ensures Pair(ActAll(v, sys, Times(MAKE_TURN, 3)), Eats(CUse, 0), Makes(PWait), 14, 0, [], 1, 0)
  {
    hide Act;
    var s1 := Act(v, sys, MAKE_TURN);
    WaitGranted(v, sys, MAKE_TURN, 0);
    var s2 := Act(v, s1, MAKE_TURN);
    ReadOne(v, s1, MAKE_TURN);
    var s3 := Act(v, s2, MAKE_TURN);
    WakeStores(v, s2);
    ThreeTurns(v, sys, MAKE_TURN, s1, s2, s3, 3);
    NoTurns(v, s3, MAKE_TURN);
  }

  /** The consumer consumes the element, gives its place back, and waits for the next one on the wrong
      semaphore, which has fifteen. */
  lemma EaterEatsTwice(v: Habits, sys: System)
    requires Pair(sys, Eats(CUse, 0), Makes(PWait), 14, 0, [], 1, 0)
    ensures ActAll(v, sys, Times(EAT_TURN, 5)).consumed == 2 && ActAll(v, sys, Times(EAT_TURN, 5)).created == 1
    ensures ActAll(v, sys, Times(EAT_TURN, 5)).finished == 0
  {
    var t := EAT_TURN;
    var s1 := GoTo(sys, EATER, Loop(CPost(false))).(consumed := 1);
    assert Act(v, sys, t) == s1;
    var s2 := Act(v, s1, t);
    PostBanked(v, s1, t, 0, s1.procs[EATER].(stage := Loop(CRead)));
    assert s2 == Ask(v, s1, t, Call.Post(0), s1.procs[EATER].(stage := Loop(CRead)));
    var s3 := GoTo(s2, EATER, Loop(CWait));
    assert Act(v, s2, t) == s3;
    var s4 := Act(v, s3, t);
    WaitGranted(v, s3, t, 0);
    assert Act(v, s4, t).consumed == 2 && Act(v, s4, t).created == 1 && Act(v, s4, t).finished == 0;
    hide Act, Ask;
    ThreeTurns(v, sys, t, s1, s2, s3, 5);
    NextTurn(v, s3, t, 2);
    NextTurn(v, s4, t, 1);
    NoTurns(v, Act(v, s4, t), t);
  }

  function WrongHandle(): seq<Turn> { Times(EAT_TURN, 3) + (Times(MAKE_TURN, 3) + Times(EAT_TURN, 5)) }

  lemma TwoOpened(start: System, sys: System, m: nat)
    requires AllOpen(start, sys, m) && m >= 2
    requires start.procs[EATER] == Proc(false, Opens, 0, 0) && start.procs[MAKER] == Proc(true, Opens, 0, 0)
    requires start.created == start.consumed == start.finished == 0
    ensures Pair(sys, Eats(CStart, 1), Makes(PWait), 15, 0, [], 0, 0)
  {}

  lemma StoringBreaks(v: Habits, start: System, n: nat, m: nat)
    requires v.stores && Starting(start, n) && 2 <= m <= n
    requires start.procs[EATER] == Proc(false, Opens, 0, 0) && start.procs[MAKER] == Proc(true, Opens, 0, 0)
    ensures !Bound(ActAll(v, start, OpenTurns(m) + WrongHandle()))
  {
    var a := ActAll(v, start, OpenTurns(m));
    var b := ActAll(v, a, Times(EAT_TURN, 3));
    var c := ActAll(v, b, Times(MAKE_TURN, 3));
    AllDoOpen(v, start, m, n);
    TwoOpened(start, a, m);
    hide ActAll, OpenTurns, Times, AllOpen, Starting, Pair;
    EaterSleeps(v, a);
    MakerMakes(v, b);
    EaterEatsTwice(v, c);
    ActAllAppend(v, start, OpenTurns(m), WrongHandle());
    ActAllAppend(v, a, Times(EAT_TURN, 3), Times(MAKE_TURN, 3) + Times(EAT_TURN, 5));
    ActAllAppend(v, b, Times(MAKE_TURN, 3), Times(EAT_TURN, 5));
  }

  // ---- Two producers, the second of which starts when the first has left ----

  /** A request that wakes nobody and is heard by nobody blocked. */
  lemma AskQuietly(v: Habits, sys: System, t: Turn, call: Call, to: Proc)
    requires 0 <= t.p < |sys.procs| && !Blocked(to)
             && forall p | 0 <= p < |sys.procs| && p != t.p :: !Blocked(sys.procs[p])
    ensures Ask(v, sys, t, call, to)
            == sys.(server := Serve(sys.server, Event(t.p, call, t.junk)).state, procs := sys.procs[t.p := to])
  {
    Listeners(v, sys.procs[t.p := to], Serve(sys.server, Event(t.p, call, t.junk)).replies);
    hide Serve, HearAll;
  }

  lemma UnlinkServed(s: State, p: int, name: string, k: nat, junk: int)
    requires |s.sems| == INITIAL_SEM && N.Clip(name) == name && |name| <= PATH_MAX && name in s.names
             && s.names[name] == k && Member(s, k, p)
    ensures var s' := Serve(s, Event(p, Unlink(name), junk)).state;
            s'.sems == s.sems[k := s.sems[k].(unlinked := true)] && s'.names == s.names - {name}
  {}

  lemma CloseServed(s: State, p: int, k: nat, junk: int)
    requires |s.sems| == INITIAL_SEM && k < INITIAL_SEM && s.sems[k].unlinked && s.sems[k].openers == [p]
    ensures var s' := Serve(s, Event(p, Close(k), junk)).state;
            s'.sems == s.sems[k := s.sems[k].(refCount := 0, openers := [], blocked := [])] && s'.names == s.names
  {
    assert p in s.sems[k].openers && RemoveFirst([p], p) == [];
  }

  /** Process p is alone in the two semaphores of the program, and nobody sleeps. */
  ghost predicate Alone(s: State, p: int, linked0: bool, linked1: bool) {
    && |s.sems| == INITIAL_SEM && s.sems[0].openers == [p] && s.sems[1].openers == [p]
    && s.sems[0].unlinked == !linked0 && s.sems[1].unlinked == !linked1
    && (forall k | 2 <= k < INITIAL_SEM :: s.sems[k] == FREE_SEM)
    && s.names == (if linked1 then map["sem_prod" := 0, "sem_cons" := 1] else if linked0 then map["sem_prod" := 0]
         else map[])
  }

  /** No semaphore is in use. */
  ghost predicate Vacant(s: State) {
    && |s.sems| == INITIAL_SEM && s.names == map[]
    && forall k | 0 <= k < INITIAL_SEM :: !Live(s.sems[k]) && Size(s.sems[k]) == 0
  }

  ghost predicate NobodyBlocked(sys: System) { forall p | 0 <= p < |sys.procs| :: !Blocked(sys.procs[p]) }

  /** One leaving step. */
  lemma LeaveStep(v: Habits, sys: System, t: Turn, call: Call, left: nat)
    requires v.leaves && NobodyBlocked(sys) && 0 <= t.p < |sys.procs| && sys.procs[t.p].prod == 0
             && sys.procs[t.p].cons == 1
    requires sys.procs[t.p].stage == (if left == 3 then Loop(PDone) else Leaving(left + 1))
    requires call == (if left == 3 then Unlink("sem_cons") else if left == 2 then Unlink("sem_prod")
             else if left == 1 then Close(1) else Close(0))
    requires left <= 3
    ensures var sys', to := Act(v, sys, t), sys.procs[t.p].(stage := Leaving(left));
            && sys' == sys.(server := Serve(sys.server, Event(t.p, call, t.junk)).state, procs := sys.procs[t.p := to])
            && NobodyBlocked(sys')
  {
    hide Serve, Ask;
    AskQuietly(v, sys, t, call, sys.procs[t.p].(stage := Leaving(left)));
  }

  lemma LeavesNames(v: Habits, sys: System, t: Turn) returns (after: System)
    requires v.leaves && NobodyBlocked(sys) && 0 <= t.p < |sys.procs| && sys.procs[t.p].prod == 0
             && sys.procs[t.p].cons == 1
    requires sys.procs[t.p].stage == Loop(PDone) && Alone(sys.server, t.p, true, true)
    ensures after == Act(v, Act(v, sys, t), t) && Alone(after.server, t.p, false, false) && NobodyBlocked(after)
    ensures after == sys.(server := after.server, procs := sys.procs[t.p := sys.procs[t.p].(stage := Leaving(2))])
  {
    hide Serve, Act;
    Names();
    LeaveStep(v, sys, t, Unlink("sem_cons"), 3);
    UnlinkServed(sys.server, t.p, "sem_cons", 1, t.junk);
    var s1 := Act(v, sys, t);
    LeaveStep(v, s1, t, Unlink("sem_prod"), 2);
    UnlinkServed(s1.server, t.p, "sem_prod", 0, t.junk);
    after := Act(v, s1, t);
  }

  lemma LeavesSlots(v: Habits, sys: System, t: Turn) returns (after: System)
    requires v.leaves && NobodyBlocked(sys) && 0 <= t.p < |sys.procs| && sys.procs[t.p].prod == 0
             && sys.procs[t.p].cons == 1
    requires sys.procs[t.p].stage == Leaving(2) && Alone(sys.server, t.p, false, false)
    ensures after == Act(v, Act(v, sys, t), t) && Vacant(after.server)
    ensures after == sys.(server := after.server, procs := sys.procs[t.p := sys.procs[t.p].(stage := Leaving(0))])
  {
    hide Serve, Act;
    LeaveStep(v, sys, t, Close(1), 1);
    CloseServed(sys.server, t.p, 1, t.junk);
    var s1 := Act(v, sys, t);
    LeaveStep(v, s1, t, Close(0), 0);
    CloseServed(s1.server, t.p, 0, t.junk);
    after := Act(v, s1, t);
  }

  lemma LeavesAll(v: Habits, sys: System, t: Turn) returns (after: System)
    requires v.leaves && NobodyBlocked(sys) && 0 <= t.p < |sys.procs| && sys.procs[t.p].prod == 0
             && sys.procs[t.p].cons == 1
    requires sys.procs[t.p].stage == Loop(PDone) && Alone(sys.server, t.p, true, true)
    ensures after == ActAll(v, sys, Times(t, 4)) && Vacant(after.server)
    ensures after == sys.(server := after.server, procs := sys.procs[t.p := sys.procs[t.p].(stage := Leaving(0))])
  {
    hide Act, ActAll, Times, Alone, Vacant, NobodyBlocked;
    var mid := LeavesNames(v, sys, t);
    after := LeavesSlots(v, mid, t);
    ThreeTurns(v, sys, t, Act(v, sys, t), mid, Act(v, mid, t), 4);
    NextTurn(v, Act(v, mid, t), t, 1);
    NoTurns(v, after, t);
    assert after.procs == sys.procs[t.p := sys.procs[t.p].(stage := Leaving(0))];
  }

  lemma VacantRoom(s: State)
    requires Vacant(s)
    ensures Used(s.sems, INITIAL_SEM) == 0
  {
    UsedOfFree(s.sems, INITIAL_SEM);
  }

  /** A producer that opens when no semaphore is in use gets a fresh pair. */
  lemma OpensAfresh(v: Habits, sys: System, t: Turn) returns (after: System)
    requires Vacant(sys.server) && 0 <= t.p < |sys.procs| && sys.procs[t.p] == Proc(true, Opens, 0, 0)
    ensures after == ActAll(v, sys, Times(t, 2)) && after == sys.(server := after.server, procs := after.procs)
    ensures CanProduce(after, t.p) && after.server.sems[0].count == BUFFER
  {
    hide Serve;
    Names();
    VacantRoom(sys.server);
    var s1 := Act(v, sys, t);
    OpenCreatesAt(sys.server, t.p, "sem_prod", BUFFER, 0, t.junk);
    assert !Full(sys.server) && Push(sys.server, [], t.p) == [t.p];
    assert s1.server.sems == sys.server.sems[0 := Sem(BUFFER, 1, [t.p], [], false)];
    assert s1.procs == sys.procs[t.p := Proc(true, OpensCons, 0, 0)];
    UsedUpdate(sys.server.sems, 0, s1.server.sems[0], INITIAL_SEM);
    after := Act(v, s1, t);
    hide Used;
    OpenCreatesAt(s1.server, t.p, "sem_cons", 0, 1, t.junk);
    assert after.procs == s1.procs[t.p := Proc(true, Loop(PWait), 0, 1)];
    hide Act;
    NextTurn(v, sys, t, 2);
    NextTurn(v, s1, t, 1);
    NoTurns(v, after, t);
  }

  const FIRST_TURN := Turn(FIRST_USER, false, 0)
  const END_TURN := Turn(FIRST_USER, true, 0)
  const SECOND_TURN := Turn(FIRST_USER + 1, false, 0)

  /** The first producer creates one element, meets the end of its input and leaves. */
  lemma OneAndLeave(v: Habits, sys: System) returns (after: System)
    requires v.leaves && CanProduce(sys, FIRST_USER) && NobodyBlocked(sys) && sys.server.sems[0].count == BUFFER
    requires Alone(sys.server, FIRST_USER, true, true)
    ensures after == ActAll(v, sys, Times(FIRST_TURN, 4) + [END_TURN] + Times(FIRST_TURN, 4)) && Vacant(after.server)
    ensures after == sys.(server := after.server, created := sys.created + 1,
                          procs := sys.procs[FIRST_USER := sys.procs[FIRST_USER].(stage := Leaving(0))])
  {
    hide Act, Times, ActAll;
    var p := FIRST_USER;
    var s1 := ProducerRound(v, sys, FIRST_TURN, 4);
    var s2 := Act(v, s1, FIRST_TURN);
    WaitGranted(v, s1, FIRST_TURN, 0);
    NextTurn(v, s1, FIRST_TURN, 1);
    NoTurns(v, s2, FIRST_TURN);
    var s3 := Act(v, s2, END_TURN);
    assert s3 == GoTo(s2, p, Loop(PDone)) by { ReadEnd(v, s2, END_TURN); }
    after := LeavesAll(v, s3, FIRST_TURN);
    OneTurn(v, s2, END_TURN);
    ActAllAppend(v, sys, Times(FIRST_TURN, 4), [END_TURN]);
    ActAllAppend(v, sys, Times(FIRST_TURN, 4) + [END_TURN], Times(FIRST_TURN, 4));
    assert after.procs == sys.procs[p := sys.procs[p].(stage := Leaving(0))];
  }

  lemma ReadEnd(v: Habits, sys: System, t: Turn)
    requires 0 <= t.p < |sys.procs| && sys.procs[t.p].stage == Loop(PRead) && t.eof
    ensures Act(v, sys, t) == GoTo(sys, t.p, Loop(PDone))
  {
    hide Ask;
  }

  lemma OneTurn(v: Habits, sys: System, t: Turn)
    ensures ActAll(v, sys, [t]) == Act(v, sys, t)
  {
    hide Act;
    assert [t][1..] == [] && ActAll(v, Act(v, sys, t), []) == Act(v, sys, t);
  }

  function SecondPair(): seq<Turn> {
    OpenTurns(1) + (Times(FIRST_TURN, 4) + [END_TURN] + Times(FIRST_TURN, 4)) + Times(SECOND_TURN, 2)
        + Times(SECOND_TURN, 45)
  }

  lemma OneOpened(start: System, sys: System, n: nat)
    requires Starting(start, n) && AllOpen(start, sys, 1) && n >= 2
             && start.procs[FIRST_USER] == Proc(true, Opens, 0, 0)
    ensures CanProduce(sys, FIRST_USER) && NobodyBlocked(sys) && sys.server.sems[0].count == BUFFER
    ensures Alone(sys.server, FIRST_USER, true, true)
  {
    OnlyOpener(sys.server.sems[0].openers);
    OnlyOpener(sys.server.sems[1].openers);
  }

  lemma OnlyOpener(v: seq<int>)
    requires |v| == 1 && forall q :: q in v <==> FIRST_USER <= q < FIRST_USER + 1
    ensures v == [FIRST_USER]
  {
    assert FIRST_USER in v;
  }

  lemma LeavingBreaks(v: Habits, start: System, n: nat)
    requires v.leaves && Starting(start, n) && n >= 2
    requires start.procs[FIRST_USER] == Proc(true, Opens, 0, 0)
             && start.procs[FIRST_USER + 1] == Proc(true, Opens, 0, 0)
    ensures !Bound(ActAll(v, start, SecondPair()))
  {
    var first := Times(FIRST_TURN, 4) + [END_TURN] + Times(FIRST_TURN, 4);
    var a := ActAll(v, start, OpenTurns(1));
    AllDoOpen(v, start, 1, n);
    OneOpened(start, a, n);
    var b := OneAndLeave(v, a);
    assert b.procs[FIRST_USER + 1] == start.procs[FIRST_USER + 1];
    hide ActAll, OpenTurns, Times, AllOpen, Starting, CanProduce, NobodyBlocked, Vacant, Alone;
    var c := OpensAfresh(v, b, SECOND_TURN);
    ProducerRounds(v, c, SECOND_TURN, 15);
    ActAllAppend(v, start, OpenTurns(1), first);
    ActAllAppend(v, start, OpenTurns(1) + first, Times(SECOND_TURN, 2));
    ActAllAppend(v, start, OpenTurns(1) + first + Times(SECOND_TURN, 2), Times(SECOND_TURN, 45));
  }

  // ---- One process alone ----

  /** How far a single process has got, and what that says of the counters and counts. */
  ghost predicate AloneBooks(sys: System, pc: Pc)
    requires |sys.server.sems| == INITIAL_SEM
  {
    var c0, c1 := sys.server.sems[0].count, sys.server.sems[1].count;
    match pc
    case PWait => c0 == BUFFER - sys.created && c1 == sys.created
    case PRead => sys.created < BUFFER && c0 == BUFFER - sys.created - 1 && c1 == sys.created
    case PPost => 1 <= sys.created && c0 == BUFFER - sys.created && c1 == sys.created - 1
    case PBlocked => true
    case PDone => true
    case CUse => false
    case CPost(eof) => eof && sys.created == 0 && c0 >= 0 && c1 == 0
    case CDone => true
    case CBlocked => true
    case _ => sys.created == 0 && c0 >= 0 && c1 == 0
  }

  ghost predicate OneProc(sys: System) {
    && |sys.server.sems| == INITIAL_SEM && |sys.procs| <= FIRST_USER + 1
    && (forall p | 0 <= p < |sys.procs| && p != FIRST_USER :: sys.procs[p].stage.Outside?)
    && sys.consumed == 0 && sys.created <= BUFFER
    && (|sys.procs| == FIRST_USER + 1 ==> OnePlace(sys, sys.procs[FIRST_USER]))
  }

  ghost predicate OnePlace(sys: System, proc: Proc)
    requires |sys.server.sems| == INITIAL_SEM
  {
    var s := sys.server;
    match proc.stage
    case Opens => Booted(s) && sys.created == 0
    case OpensCons => TwoSlots(s) && Live(s.sems[0]) && !Live(s.sems[1]) && s.sems[0].openers == [FIRST_USER]
        && s.sems[0].count == BUFFER
                      && proc.prod == 0 && sys.created == 0 && s.sems[0].blocked == []
    case Loop(pc) => proc.prod == 0 && proc.cons == 1 && FIRST_USER in s.sems[0].openers
        && FIRST_USER in s.sems[1].openers && AloneBooks(sys, pc)
    case _ => true
  }

  lemma OnlyItAsks(v: Habits, sys: System, t: Turn, call: Call, to: Proc)
    requires OneProc(sys) && t.p == FIRST_USER < |sys.procs| && !Blocked(to)
    ensures Ask(v, sys, t, call, to)
            == sys.(server := Serve(sys.server, Event(t.p, call, t.junk)).state, procs := sys.procs[t.p := to])
  {
    AskQuietly(v, sys, t, call, to);
  }

  lemma OneOpens(v: Habits, sys: System, t: Turn)
    requires OneProc(sys) && t.p == FIRST_USER < |sys.procs|
             && (sys.procs[t.p].stage.Opens? || sys.procs[t.p].stage.OpensCons?)
    ensures OneProc(Act(v, sys, t))
  {
    TwoSlotsUsed(sys.server);
    assert !Full(sys.server);
    OpenStep(v, sys, t);
    hide Act, Used, Full;
  }

  lemma OneWaits(v: Habits, sys: System, t: Turn)
    requires OneProc(sys) && t.p == FIRST_USER < |sys.procs|
             && (sys.procs[t.p].stage == Loop(PWait) || sys.procs[t.p].stage == Loop(CWait))
    ensures OneProc(Act(v, sys, t))
  {
    var h := Target(sys.procs[t.p]);
    if sys.server.sems[h].count > 0 {
      hide Act;
      WaitGranted(v, sys, t, h);
    } else {
      hide Act;
      WaitBlocks(v, sys, t, h);
    }
  }

  lemma WaitBlocks(v: Habits, sys: System, t: Turn, h: nat)
    requires |sys.server.sems| == INITIAL_SEM && h < INITIAL_SEM && 0 <= t.p < |sys.procs|
    requires (sys.procs[t.p].stage == Loop(PWait) || sys.procs[t.p].stage == Loop(CWait)) && Target(sys.procs[t.p]) == h
    requires t.p in sys.server.sems[h].openers && sys.server.sems[h].count <= 0
    ensures var sys', to := Act(v, sys, t),
            sys.procs[t.p].(stage := Loop(if sys.procs[t.p].stage.pc == PWait then PBlocked else CBlocked));
            && sys' == sys.(server := sys'.server, procs := sys.procs[t.p := to])
            && |sys'.server.sems| == INITIAL_SEM
            && forall k | 0 <= k < INITIAL_SEM :: sys'.server.sems[k].openers == sys.server.sems[k].openers
  {
    var to := sys.procs[t.p].(stage := Loop(if sys.procs[t.p].stage.pc == PWait then PBlocked else CBlocked));
    CallStep(sys.server, t.p, h, true, t.junk);
    HearFew(v, sys.procs[t.p := to], Serve(sys.server, Event(t.p, Call.Wait(h), t.junk)).replies);
    hide Serve, HearAll, Full;
  }

  lemma OnePosts(v: Habits, sys: System, t: Turn)
    requires OneProc(sys) && t.p == FIRST_USER < |sys.procs|
    requires sys.procs[t.p].stage.Loop? && (sys.procs[t.p].stage.pc.PPost? || sys.procs[t.p].stage.pc.CPost?)
    ensures OneProc(Act(v, sys, t))
  {
    var pc := sys.procs[t.p].stage.pc;
    var to := sys.procs[t.p].(stage := Loop(if pc.PPost? then PWait else CDone));
    PostBanked(v, sys, t, if pc.PPost? then 1 else 0, to);
    hide Ask;
  }

  /** A call made on the way out. */
  lemma OneGoes(v: Habits, sys: System, t: Turn, call: Call, left: nat)
    requires OneProc(sys) && t.p == FIRST_USER < |sys.procs|
    ensures OneProc(Ask(v, sys, t, call, sys.procs[t.p].(stage := Leaving(left))))
  {
    hide Serve;
    OnlyItAsks(v, sys, t, call, sys.procs[t.p].(stage := Leaving(left)));
    ServeSize(sys.server, Event(t.p, call, t.junk));
    hide Ask;
  }

  lemma OneLeaves(v: Habits, sys: System, t: Turn)
    requires OneProc(sys) && t.p == FIRST_USER < |sys.procs|
    requires sys.procs[t.p].stage == Loop(PDone) || sys.procs[t.p].stage == Loop(CDone) || sys.procs[t.p].stage.Leaving?
    ensures OneProc(Act(v, sys, t))
  {
    var proc := sys.procs[t.p];
    hide Ask, Serve, OneProc;
    match proc.stage {
      case Loop(_) => OneGoes(v, sys, t, Unlink("sem_cons"), 3);
      case Leaving(left) =>
        if left == 3 { OneGoes(v, sys, t, Unlink("sem_prod"), 2); }
        else if left == 2 { OneGoes(v, sys, t, Close(proc.cons), 1); }
        else if left == 1 { OneGoes(v, sys, t, Close(proc.prod), 0); }
    }
  }

  lemma ServeSize(s: State, e: Event)
    requires |s.sems| == INITIAL_SEM
    ensures |Serve(s, e).state.sems| == INITIAL_SEM
  {
    W.BlockedStep(s, e, 0);
  }

  lemma OneStep(v: Habits, sys: System, t: Turn)
    requires OneProc(sys)
    ensures OneProc(Act(v, sys, t))
  {
    if t.p == FIRST_USER < |sys.procs| {
      match sys.procs[t.p].stage {
        case Outside =>
        case Opens => OneOpens(v, sys, t);
        case OpensCons => OneOpens(v, sys, t);
        case Leaving(_) => OneLeaves(v, sys, t);
        case Loop(pc) =>
          if pc.PWait? || pc.CWait? { OneWaits(v, sys, t); }
          else if pc.PPost? || pc.CPost? { OnePosts(v, sys, t); }
          else if pc.PDone? || pc.CDone? { OneLeaves(v, sys, t); }
          else { hide Ask, Booted; }
      }
    }
  }

  lemma {:induction false} OneHolds(v: Habits, sys: System, ts: seq<Turn>)
    requires OneProc(sys)
    ensures Bound(ActAll(v, sys, ts))
    decreases |ts|
  {
    hide Act, OnePlace;
    if ts != [] {
      OneStep(v, sys, ts[0]);
      OneHolds(v, Act(v, sys, ts[0]), ts[1..]);
    }
  }

  // ---- Everybody opens before anybody starts ----

  predicate IsOpening(proc: Proc) { proc.stage.Opens? || proc.stage.OpensCons? }

  /** Each turn of os is an open. */
  predicate OpensOnly(v: Habits, sys: System, os: seq<Turn>)
    decreases |os|
  {
    os == [] || (0 <= os[0].p < |sys.procs| && IsOpening(sys.procs[os[0].p])
        && OpensOnly(v, Act(v, sys, os[0]), os[1..]))
  }

  ghost predicate NobodyOpens(sys: System) { forall p | 0 <= p < |sys.procs| :: !IsOpening(sys.procs[p]) }

  /** The turns os are opens, in whatever order, and nobody has one left to make. */
  ghost predicate OpensFirst(v: Habits, sys: System, os: seq<Turn>) {
    OpensOnly(v, sys, os) && NobodyOpens(ActAll(v, sys, os))
  }

  /** While they open, the loops see two semaphores that nobody has touched. */
  ghost predicate Entering(sys: System, n: nat, w: World) {
    && TwoSlots(sys.server) && Counted(sys, n) && Placed(sys) && WorldOf(sys) == w
    && w.prod.blocked == w.cons.blocked == []
  }

  lemma {:induction false} TwoEach(procs: seq<Proc>)
    ensures Sum(procs, Entries) <= 2 * Sum(procs, IsUser)
  {
    if procs != [] { TwoEach(procs[1..]); }
  }

  /** A process that still has an open to make holds one entry at most, so nineteen are taken at most. */
  lemma RoomToEnter(sys: System, p: nat, n: nat, w: World)
    requires Entering(sys, n, w) && n <= 10 && p < |sys.procs| && IsOpening(sys.procs[p])
    ensures !Full(sys.server)
  {
    var x := sys.procs[p].(stage := Outside);
    TwoSlotsUsed(sys.server);
    SumUpdate(sys.procs, p, x, Entries);
    SumUpdate(sys.procs, p, x, IsUser);
    TwoEach(sys.procs[p := x]);
    hide Sum, Used, Placed, Pcs;
  }

  lemma EnterStep(v: Habits, sys: System, t: Turn, n: nat, w: World)
    requires Entering(sys, n, w) && n <= 10 && 0 <= t.p < |sys.procs| && IsOpening(sys.procs[t.p])
    ensures Entering(Act(v, sys, t), n, w)
  {
    assert PlaceOk(sys, t.p);
    hide Act, Full, WorldOf, TwoSlots, Placed, Counted;
    RoomToEnter(sys, t.p, n, w);
    OpenStep(v, sys, t);
    OpenWorld(sys, Act(v, sys, t), t.p);
    OpenPlaces(sys, Act(v, sys, t), t.p, sys.procs[t.p].stage.Opens?);
    OpenCounts(sys, Act(v, sys, t), t.p, sys.procs[t.p].stage.Opens?, n);
  }

  lemma {:induction false} EnterAll(v: Habits, sys: System, os: seq<Turn>, n: nat, w: World)
    requires Entering(sys, n, w) && n <= 10 && OpensOnly(v, sys, os)
    ensures Entering(ActAll(v, sys, os), n, w) && |ActAll(v, sys, os).procs| == |sys.procs|
    decreases |os|
  {
    if os != [] {
      EnterStep(v, sys, os[0], n, w);
      OpenStep(v, sys, os[0]) by { assert PlaceOk(sys, os[0].p); }
      hide Act, Entering;
      EnterAll(v, Act(v, sys, os[0]), os[1..], n, w);
    }
  }

  lemma StartingEnters(sys: System, n: nat)
    requires Starting(sys, n)
    ensures Entering(sys, n, WorldOf(sys)) && Solvent(WorldOf(sys))
  {
    StartingIsSound(sys, n);
    var w := WorldOf(sys);
    NobodyAt(w.pc, PBlocked);
    NobodyAt(w.pc, CBlocked);
    NobodyAt(w.pc, PRead);
    NobodyAt(w.pc, CPost(false));
    NobodyAt(w.pc, CUse);
    NobodyAt(w.pc, PPost);
    NobodyAt(w.pc, PDone);
    hide ProdCons.At, Sum, Balanced, TwoSlots, Placed;
  }

  // ---- Loops and ends of processes that are all in ----

  predicate Gone(proc: Proc) { proc.stage.Outside? || proc.stage.Leaving? }

  ghost predicate AllInside(sys: System) {
    |sys.server.sems| == INITIAL_SEM && forall p | 0 <= p < |sys.procs| :: Gone(sys.procs[p]) || Inside(sys, p)
  }

  ghost predicate AllGone(sys: System) { forall p | 0 <= p < |sys.procs| :: Gone(sys.procs[p]) }

  lemma AllHaveEntered(sys: System, n: nat, w: World)
    requires Entering(sys, n, w) && NobodyOpens(sys)
    ensures AllInside(sys)
  {
    forall p | 0 <= p < |sys.procs| ensures Gone(sys.procs[p]) || Inside(sys, p) { assert PlaceOk(sys, p); }
  }

  /** A library that leaves handles alone makes no difference to who hears what. */
  lemma {:induction false} HearAlike(v: Habits, procs: seq<Proc>, replies: seq<Reply>)
    requires !v.stores
    ensures HearAll(v, procs, replies) == HearAll(PLAIN, procs, replies)
    decreases |replies|
  {
    if replies != [] {
      assert HearOne(v, procs, replies[0]) == HearOne(PLAIN, procs, replies[0]);
      HearAlike(v, HearOne(v, procs, replies[0]), replies[1..]);
    }
  }

  lemma AskAlike(v: Habits, sys: System, t: Turn, call: Call, to: Proc)
    requires !v.stores && 0 <= t.p < |sys.procs|
    ensures Ask(v, sys, t, call, to) == Ask(PLAIN, sys, t, call, to)
  {
    HearAlike(v, sys.procs[t.p := to], Serve(sys.server, Event(t.p, call, t.junk)).replies);
    hide Serve, HearAll;
  }

  predicate AtEnd(proc: Proc) { proc.stage == Loop(PDone) || proc.stage == Loop(CDone) }

  lemma LoopAlike(v: Habits, sys: System, t: Turn)
    requires !v.stores && 0 <= t.p < |sys.procs| && sys.procs[t.p].stage.Loop? && !(v.leaves && AtEnd(sys.procs[t.p]))
    ensures Act(v, sys, t) == Act(PLAIN, sys, t)
  {
    var proc := sys.procs[t.p];
    hide Ask;
    match proc.stage.pc {
      case PWait => AskAlike(v, sys, t, Call.Wait(proc.prod), proc.(stage := Loop(PBlocked)));
      case PPost => AskAlike(v, sys, t, Call.Post(proc.cons), proc.(stage := Loop(PWait)));
      case CWait => AskAlike(v, sys, t, Call.Wait(proc.cons), proc.(stage := Loop(CBlocked)));
      case CPost(eof) => AskAlike(v, sys, t, Call.Post(proc.prod), proc.(stage := Loop(if eof then CDone else CRead)));
      case _ =>
    }
  }

  /** An unlink or a close by p takes away no other entry, and leaves a semaphore that someone else has open as it
      is for him. */
  lemma LeaveServed(s: State, p: int, call: Call, junk: int, k: nat, q: int)
    requires (call.Unlink? || call.Close?) && k < INITIAL_SEM == |s.sems| && q != p && q in s.sems[k].openers
    ensures var s' := Serve(s, Event(p, call, junk)).state;
            && |s'.sems| == INITIAL_SEM && q in s'.sems[k].openers
            && CellOf(s'.sems[k]) == CellOf(s.sems[k]) && Live(s'.sems[k]) == Live(s.sems[k])
  {
    A.RemoveFirstKeepsOthers(s.sems[k].openers, p, q);
    hide RemoveFirst;
  }

  /** Only the caller hears of it. */
  lemma LeaveHeard(v: Habits, sys: System, t: Turn, call: Call, to: Proc)
    requires 0 <= t.p < |sys.procs| && (call.Unlink? || call.Close?) && !Blocked(to)
    ensures Ask(v, sys, t, call, to)
            == sys.(server := Serve(sys.server, Event(t.p, call, t.junk)).state, procs := sys.procs[t.p := to])
  {
    var e := Event(t.p, call, t.junk);
    W.RepliesShape(sys.server, e);
    HearFew(v, sys.procs[t.p := to], Serve(sys.server, e).replies);
    NotListening(v, sys.procs[t.p := to], Serve(sys.server, e).replies[0]);
    hide Serve, HearAll, HearOne;
  }

  /** The call with which t.p goes on leaving, if there is one. */
  ghost predicate Leaves(v: Habits, sys: System, t: Turn, call: Call, left: nat)
    requires 0 <= t.p < |sys.procs|
  {
    && (call.Unlink? || call.Close?) && (AtEnd(sys.procs[t.p]) || sys.procs[t.p].stage.Leaving?)
    && Act(v, sys, t) == Ask(v, sys, t, call, sys.procs[t.p].(stage := Leaving(left)))
  }

  lemma LeavingCall(v: Habits, sys: System, t: Turn)
    requires 0 <= t.p < |sys.procs| && ((v.leaves && AtEnd(sys.procs[t.p])) || sys.procs[t.p].stage.Leaving?)
    ensures Act(v, sys, t) == sys || exists call, left :: Leaves(v, sys, t, call, left)
  {
    hide Ask;
    var proc := sys.procs[t.p];
    match proc.stage {
      case Loop(_) => assert Leaves(v, sys, t, Unlink("sem_cons"), 3);
      case Leaving(left) =>
        if left == 3 { assert Leaves(v, sys, t, Unlink("sem_prod"), 2); }
        else if left == 2 { assert Leaves(v, sys, t, Close(proc.cons), 1); }
        else if left == 1 { assert Leaves(v, sys, t, Close(proc.prod), 0); }
    }
  }

  /** Whoever has ended its loop takes no unit any more, so the books balance wherever it stands. */
  lemma DoneStaysSolvent(w: World, p: nat)
    requires Solvent(w) && p < |w.pc| && (w.pc[p] == PDone || w.pc[p] == CDone)
    ensures Solvent(w.(pc := w.pc[p := PDone]))
  {
    CountUpdate(w.pc, p, PDone);
    hide Count;
  }

  /** One leaving call keeps the others in, and the semaphores as their loops see them. */
  lemma OthersStayInside(sys: System, sys': System, t: Turn, call: Call, left: nat, q: int)
    requires AllInside(sys) && 0 <= t.p < |sys.procs| && (call.Unlink? || call.Close?) && q != t.p && Inside(sys, q)
    requires sys' == sys.(server := Serve(sys.server, Event(t.p, call, t.junk)).state,
                          procs := sys.procs[t.p := sys.procs[t.p].(stage := Leaving(left))])
    ensures Inside(sys', q) && WorldOf(sys') == WorldOf(sys).(pc := WorldOf(sys).pc[t.p := PDone])
  {
    LeaveServed(sys.server, t.p, call, t.junk, 0, q);
    LeaveServed(sys.server, t.p, call, t.junk, 1, q);
    PcsUpdate(sys.procs, t.p, sys'.procs[t.p]);
    hide Serve, Pcs;
  }

  lemma LeaveStaysInside(v: Habits, sys: System, t: Turn, call: Call, left: nat)
    requires AllInside(sys) && 0 <= t.p < |sys.procs| && Leaves(v, sys, t, call, left) && Solvent(WorldOf(sys))
    ensures var sys' := Act(v, sys, t);
            && |sys'.procs| == |sys.procs| && sys' == sys.(server := sys'.server, procs := sys'.procs)
            && ((AllInside(sys') && Solvent(WorldOf(sys'))) || AllGone(sys'))
  {
    var sys' := Act(v, sys, t);
    LeaveHeard(v, sys, t, call, sys.procs[t.p].(stage := Leaving(left)));
    hide Act, Ask, Serve, Inside, Solvent, WorldOf;
    if q :| 0 <= q < |sys.procs| && q != t.p && !Gone(sys.procs[q]) {
      forall p | 0 <= p < |sys.procs| ensures Gone(sys'.procs[p]) || Inside(sys', p) {
        if p != t.p && !Gone(sys.procs[p]) { OthersStayInside(sys, sys', t, call, left, p); }
      }
      OthersStayInside(sys, sys', t, call, left, q);
      assert PcOf(sys.procs[t.p]) == WorldOf(sys).pc[t.p] by { assert WorldOf(sys).pc == Pcs(sys.procs); }
      DoneStaysSolvent(WorldOf(sys), t.p);
      assert |sys'.server.sems| == INITIAL_SEM by { assert Inside(sys', q); }
    }
  }

  lemma WorldSize(sys: System)
    requires |sys.server.sems| == INITIAL_SEM
    ensures |WorldOf(sys).pc| == |sys.procs|
  {}

  lemma LoopStaysInside(v: Habits, sys: System, t: Turn)
    requires !v.stores && AllInside(sys) && |sys.procs| <= 16 && Solvent(WorldOf(sys))
    requires 0 <= t.p < |sys.procs| && sys.procs[t.p].stage.Loop? && !(v.leaves && AtEnd(sys.procs[t.p]))
    ensures var sys' := Act(v, sys, t); AllInside(sys') && |sys'.procs| == |sys.procs| && Solvent(WorldOf(sys'))
  {
    var sys' := Act(v, sys, t);
    hide Act, Move, Play, WorldOf, Solvent, Inside;
    WorldSize(sys);
    LoopAlike(v, sys, t);
    StepIsMove(sys, t);
    PlayStaysSolvent(WorldOf(sys), [InWorld(sys, t)]);
    OnlyOne(WorldOf(sys), InWorld(sys, t));
    forall p | 0 <= p < |sys'.procs| ensures Gone(sys'.procs[p]) || Inside(sys', p) {
      assert SameProc(sys.procs[p], sys'.procs[p]);
      if !Gone(sys.procs[p]) { InsideStays(sys, sys', p); }
    }
  }

  lemma GoneStays(v: Habits, sys: System, t: Turn)
    requires AllGone(sys)
    ensures var sys' := Act(v, sys, t);
            AllGone(sys') && |sys'.procs| == |sys.procs| && sys' == sys.(server := sys'.server, procs := sys'.procs)
  {
    if 0 <= t.p < |sys.procs| && sys.procs[t.p].stage.Leaving? {
      LeavingCall(v, sys, t);
      if call, left :| Leaves(v, sys, t, call, left) {
        LeaveHeard(v, sys, t, call, sys.procs[t.p].(stage := Leaving(left)));
      }
      hide Act, Ask, Serve;
    }
  }

  lemma SolventBound(sys: System)
    requires |sys.procs| <= 16 && AllInside(sys) && Solvent(WorldOf(sys))
    ensures Bound(sys)
  {
    CensusFits(WorldOf(sys).pc);
    hide Count;
  }

  /** Everybody is in, or everybody has left with the bound kept. */
  ghost predicate Underway(sys: System) {
    |sys.procs| <= 16 && ((AllInside(sys) && Solvent(WorldOf(sys))) || (AllGone(sys) && Bound(sys)))
  }

  lemma StaysUnderway(v: Habits, sys: System, t: Turn)
    requires !v.stores && Underway(sys)
    ensures Underway(Act(v, sys, t))
  {
    hide Act, Solvent, WorldOf, Inside;
    if !AllInside(sys) || !Solvent(WorldOf(sys)) {
      GoneStays(v, sys, t);
    } else if !(0 <= t.p < |sys.procs|) || sys.procs[t.p].stage.Outside? {
      assert Act(v, sys, t) == sys by { ActIdle(v, sys, t); }
    } else if sys.procs[t.p].stage.Leaving? || (v.leaves && AtEnd(sys.procs[t.p])) {
      SolventBound(sys);
      LeavingCall(v, sys, t);
      if call, left :| Leaves(v, sys, t, call, left) { LeaveStaysInside(v, sys, t, call, left); }
    } else {
      InsideLoops(sys, t.p);
      LoopStaysInside(v, sys, t);
    }
  }

  lemma InsideLoops(sys: System, p: int)
    requires Inside(sys, p)
    ensures sys.procs[p].stage.Loop?
  {}

  lemma ActIdle(v: Habits, sys: System, t: Turn)
    requires !(0 <= t.p < |sys.procs|) || sys.procs[t.p].stage.Outside?
    ensures Act(v, sys, t) == sys
  {}

  /** Once all have opened, and got their nodes, they keep the bound to the end: waiters may be lost, replies go
      astray, and whoever is done may unlink the names and close. */
  lemma {:induction false} MembersKeepBound(v: Habits, sys: System, ts: seq<Turn>)
    requires !v.stores && Underway(sys)
    ensures Bound(ActAll(v, sys, ts))
    decreases |ts|
  {
    if ts == [] {
      if AllInside(sys) && Solvent(WorldOf(sys)) { SolventBound(sys); }
    } else {
      StaysUnderway(v, sys, ts[0]);
      hide Act, Underway;
      MembersKeepBound(v, Act(v, sys, ts[0]), ts[1..]);
    }
    hide Solvent, WorldOf, AllInside;
  }

  lemma TenOpenFirst(v: Habits, sys: System, n: nat, os: seq<Turn>, ts: seq<Turn>)
    requires !v.stores && Starting(sys, n) && n <= 10 && OpensFirst(v, sys, os)
    ensures Bound(ActAll(v, sys, os + ts))
  {
    var entered := ActAll(v, sys, os);
    StartingEnters(sys, n);
    EnterAll(v, sys, os, n, WorldOf(sys));
    AllHaveEntered(entered, n, WorldOf(sys));
    ActAllAppend(v, sys, os, ts);
    hide ActAll, OpensOnly, NobodyOpens, TwoSlots, Counted, Placed, Solvent, WorldOf, AllInside, Act;
    assert Underway(entered) by { assert WorldOf(entered) == WorldOf(sys); }
    MembersKeepBound(v, entered, ts);
  }

  lemma {:induction false} OpensAppend(v: Habits, sys: System, a: seq<Turn>, b: seq<Turn>)
    requires OpensOnly(v, sys, a) && OpensOnly(v, ActAll(v, sys, a), b)
    ensures OpensOnly(v, sys, a + b)
    decreases |a|
  {
    hide Act;
    if a == [] {
      assert a + b == b;
    } else {
      assert (a + b)[0] == a[0] && (a + b)[1..] == a[1..] + b;
      OpensAppend(v, Act(v, sys, a[0]), a[1..], b);
    }
  }

  lemma NextAreOpens(v: Habits, start: System, sys: System, m: nat, n: nat)
    requires Starting(start, n) && AllOpen(start, sys, m) && m < n
    ensures OpensOnly(v, sys, [Turn(FIRST_USER + m, false, 0), Turn(FIRST_USER + m, false, 0)])
  {
    var t := Turn(FIRST_USER + m, false, 0);
    assert sys.procs[t.p] == start.procs[t.p];
    OpenStep(v, sys, t);
    assert [t, t][1..] == [t] && [t][1..] == [] && OpensOnly(v, Act(v, Act(v, sys, t), t), []);
    hide Act, TwoSlots;
  }

  lemma OneMoreOpens(v: Habits, start: System, m: nat, n: nat)
    requires Starting(start, n) && m < n && OpensOnly(v, start, OpenTurns(m))
    ensures OpensOnly(v, start, OpenTurns(m + 1))
  {
    var two := [Turn(FIRST_USER + m, false, 0), Turn(FIRST_USER + m, false, 0)];
    assert OpenTurns(m + 1) == OpenTurns(m) + two;
    hide Act, ActAll, AllOpen, OpensOnly, Starting, OpenTurns;
    AllDoOpen(v, start, m, n);
    NextAreOpens(v, start, ActAll(v, start, OpenTurns(m)), m, n);
    OpensAppend(v, start, OpenTurns(m), two);
  }

  lemma {:induction false} TurnsAreOpens(v: Habits, start: System, m: nat, n: nat)
    requires Starting(start, n) && m <= n
    ensures OpensOnly(v, start, OpenTurns(m))
  {
    hide Starting, Act;
    if m > 0 {
      TurnsAreOpens(v, start, m - 1, n);
      OneMoreOpens(v, start, m - 1, n);
    }
  }

  lemma TurnsOpenFirst(v: Habits, start: System, n: nat)
    requires Starting(start, n)
    ensures OpensFirst(v, start, OpenTurns(n))
  {
    TurnsAreOpens(v, start, n, n);
    AllDoOpen(v, start, n, n);
    hide ActAll, OpenTurns, TwoSlots;
  }

  /** If all processes open the semaphores before any of them starts its loop, in whatever order they do, the bound
      holds in every run, ends included, if and only if there are ten of them at most; and if the library stores
      handles, one. */
  lemma OpenFirstIff(v: Habits, n: nat)
    ensures (forall sys, os, ts :: Starting(sys, n) && OpensFirst(v, sys, os) ==> Bound(ActAll(v, sys, os + ts)))
       <==> n <= if v.stores then 1 else 10
  {
    hide Starting, Bound, ActAll, OneProc, OpensFirst;
    if n <= if v.stores then 1 else 10 {
      forall sys, os, ts | Starting(sys, n) && OpensFirst(v, sys, os) ensures Bound(ActAll(v, sys, os + ts)) {
        if v.stores {
          StartsAsOne(sys, n);
          OneHolds(v, sys, os + ts);
        } else {
          TenOpenFirst(v, sys, n, os, ts);
        }
      }
    } else {
      var sys, ts := OpenFirstBreaker(v, n);
      assert Starting(sys, n) && OpensFirst(v, sys, OpenTurns(n)) && !Bound(ActAll(v, sys, OpenTurns(n) + ts));
    }
  }

  lemma OpenFirstBreaker(v: Habits, n: nat) returns (sys: System, ts: seq<Turn>)
    requires n > if v.stores then 1 else 10
    ensures Starting(sys, n) && OpensFirst(v, sys, OpenTurns(n)) && !Bound(ActAll(v, sys, OpenTurns(n) + ts))
  {
    var k := if v.stores then 1 else 0;
    InitialBooted();
    sys := Team(INITIAL, k, n);
    TeamStarts(INITIAL, k, n);
    TurnsOpenFirst(v, sys, n);
    ts := if v.stores then WrongHandle() else Times(Turn(FIRST_USER + 10, false, 0), 48);
    hide Starting, Bound, ActAll, Booted, OpensFirst, OpenTurns, Times, WrongHandle;
    if v.stores { StoringBreaks(v, sys, n, n); } else { EleventhBreaks(v, sys, n); }
  }

  // ---- How many processes the program bears ----

  /** One process as the code is written; seven if the library left handles alone and nobody left. */
  function Limit(v: Habits): nat { if v.stores || v.leaves then 1 else 7 }

  /** The bounded buffer of the program from boot: for all n processes, producers and consumers, in every
      interleaving of their opens, their loops and their ends, elements created and not yet consumed stay
      between 0 and 15 plus the finished consumers, if and only if n is at most the limit. */
  lemma BufferIff(v: Habits, n: nat)
    ensures (forall sys, ts :: Starting(sys, n) ==> Bound(ActAll(v, sys, ts))) <==> n <= Limit(v)
  {
    hide Starting, Bound, ActAll, OneProc;
    if n <= Limit(v) {
      forall sys, ts | Starting(sys, n) ensures Bound(ActAll(v, sys, ts)) {
        if n <= 1 {
          StartsAsOne(sys, n);
          OneHolds(v, sys, ts);
        } else {
          PlainHolds(sys, n, ts);
        }
      }
    } else {
      var sys, ts := Breaker(v, n);
      assert Starting(sys, n) && !Bound(ActAll(v, sys, ts));
    }
  }

  /** The program as the code is written, in particular. */
  lemma AsWrittenIff(n: nat)
    ensures (forall sys, ts :: Starting(sys, n) ==> Bound(ActAll(AS_WRITTEN, sys, ts))) <==> n <= 1
  {
    BufferIff(AS_WRITTEN, n);
  }

  lemma StartsAsOne(sys: System, n: nat)
    requires Starting(sys, n) && n <= 1
    ensures OneProc(sys)
  {}

  /** A run that breaks the bound with more. */
  lemma Breaker(v: Habits, n: nat) returns (sys: System, ts: seq<Turn>)
    requires n > Limit(v)
    ensures Starting(sys, n) && !Bound(ActAll(v, sys, ts))
  {
    InitialBooted();
    sys := Team(INITIAL, if v.stores then 1 else if v.leaves then 0 else 7, n);
    TeamStarts(INITIAL, if v.stores then 1 else if v.leaves then 0 else 7, n);
    hide Starting, Bound, ActAll, Booted;
    if v.stores {
      ts := OpenTurns(2) + WrongHandle();
      StoringBreaks(v, sys, n, 2);
    } else if v.leaves {
      ts := SecondPair();
      LeavingBreaks(v, sys, n);
    } else {
      ts := EightTurns();
      EightBreak(sys, n);
    }
  }
}
