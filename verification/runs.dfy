/** Runs of the server seen from one semaphore and from one process. */
module Runs {
  import opened PoolModel
  import opened NameTable
  import opened Machine
  import opened Invariants
  import C = Semaphore

  predicate LiveAt(s: State, k: nat) { k < |s.sems| && Live(s.sems[k]) }

  function CellOf(m: Sem): C.Cell { C.Cell(m.count, m.blocked) }

  /** What a request does to the count of slot k, if anything. */
  function ActsOn(s: State, e: Event, k: nat): seq<C.Act> {
    if e.call.Wait? && e.call.handle == k && Member(s, k, e.who) then [C.Wait(e.who, !Full(s))]
    else if e.call.TryWait? && e.call.handle == k && Member(s, k, e.who) then [C.Try(e.who)]
    else if e.call.Post? && e.call.handle == k && Member(s, k, e.who) then [C.Post(e.who, e.junk)]
    else []
  }

  function RunActs(s: State, es: seq<Event>, k: nat): seq<C.Act>
    decreases |es|
  {
    if es == [] then [] else ActsOn(s, es[0], k) + RunActs(Serve(s, es[0]).state, es[1..], k)
  }

  /** Slot k holds the same semaphore throughout: it is live after every prefix of the run. */
  predicate StaysLive(s: State, es: seq<Event>, k: nat)
    decreases |es|
  {
    && LiveAt(s, k)
    && (es == [] || StaysLive(Serve(s, es[0]).state, es[1..], k))
  }

  lemma {:induction false} OpenFromCell(s: State, parent: int, child: int, i: nat, k: nat)
    requires i <= |s.sems| && k < |s.sems|
    ensures CellOf(OpenFrom(s, parent, child, i).sems[k]) == CellOf(s.sems[k])
    decreases |s.sems| - i
  {
    if i < |s.sems| { OpenFromCell(OpenOne(s, parent, child, i), parent, child, i + 1, k); }
  }

  lemma {:induction false} CloseFromCell(s: State, p: int, i: nat, k: nat)
    requires i <= |s.sems| && k < |s.sems|
    ensures Live(CloseFrom(s, p, i).sems[k])
            ==> Live(s.sems[k]) && CellOf(CloseFrom(s, p, i).sems[k]) == CellOf(s.sems[k])
    decreases |s.sems| - i
  {
    if i < |s.sems| { CloseFromCell(DoClose(s, p, i).state, p, i + 1, k); }
  }

  /** One request moves slot k as the one-semaphore automaton says, and an operation on another
      slot, a name, or the process table does not move it at all. */
  lemma StepProjects(s: State, e: Event, k: nat)
    requires Inv(s) && LiveAt(s, k) && LiveAt(Serve(s, e).state, k)
    ensures CellOf(Serve(s, e).state.sems[k]) == C.After(CellOf(s.sems[k]), ActsOn(s, e, k))
  {
    ServeIsCore(s, e);
    if FromManager(e.call) {
      if e.who == MM_PROC_NR {
        match e.call {
          case Fork(parent, child) => OpenFromCell(s, parent, child, 0, k);
          case Exec(p) => CloseFromCell(s, p, 0, k);
          case Exit(p) => CloseFromCell(s, p, 0, k);
        }
      }
    } else if e.call.Wait? || e.call.TryWait? || e.call.Post? {
      CountingCallProjects(s, e, k);
    } else {
      OtherCallProjects(s, e, k);
    }
  }

  lemma CountingCallProjects(s: State, e: Event, k: nat)
    requires |s.sems| == INITIAL_SEM && k < |s.sems| && (e.call.Wait? || e.call.TryWait? || e.call.Post?)
    ensures CellOf(Operate(s, e).result.state.sems[k]) == C.After(CellOf(s.sems[k]), ActsOn(s, e, k))
  {}

  lemma OpenProjects(s: State, who: int, name: string, creat: bool, excl: bool, value: nat, k: nat)
    requires LiveAt(s, k)
    ensures var s' := DoOpen(s, who, name, creat, excl, value).state;
            k < |s'.sems| && CellOf(s'.sems[k]) == CellOf(s.sems[k])
  {
    hide Used, Clip;
  }

  lemma OtherCallProjects(s: State, e: Event, k: nat)
    requires Inv(s) && LiveAt(s, k) && !FromManager(e.call) && LiveAt(Operate(s, e).result.state, k)
    requires !e.call.Wait? && !e.call.TryWait? && !e.call.Post?
    ensures CellOf(Operate(s, e).result.state.sems[k]) == CellOf(s.sems[k])
  {
    hide SlotsOk, NamesOk, Used, Clip, RemoveFirst, DoOpen;
    match e.call {
      case Open(name, creat, excl, value) => OpenProjects(s, e.who, name, creat, excl, value, k);
      case _ =>
    }
  }

  /** Over any lawful run in which slot k stays the same semaphore, the slot does exactly what
      the one-semaphore automaton does on the requests addressed to it. */
  lemma {:induction false} RunProjects(s: State, es: seq<Event>, k: nat)
    requires Inv(s) && Lawful(s, es) && StaysLive(s, es, k)
    ensures LiveAt(Run(s, es).state, k)
    ensures CellOf(Run(s, es).state.sems[k]) == C.After(CellOf(s.sems[k]), RunActs(s, es, k))
    decreases |es|
  {
    hide Serve, SlotsOk, NamesOk, ActsOn;
    if es != [] {
      var s1 := Serve(s, es[0]).state;
      ServeKeepsInv(s, es[0]);
      StepProjects(s, es[0], k);
      RunProjects(s1, es[1..], k);
      AfterAppend(CellOf(s.sems[k]), ActsOn(s, es[0], k), RunActs(s1, es[1..], k));
    }
  }

  lemma {:induction false} RunAppend(s: State, a: seq<Event>, b: seq<Event>)
    ensures Run(s, a + b).state == Run(Run(s, a).state, b).state
    decreases |a|
  {
    hide Serve;
    if a == [] {
      assert a + b == b;
    } else {
      assert (a + b)[0] == a[0] && (a + b)[1..] == a[1..] + b;
      RunAppend(Serve(s, a[0]).state, a[1..], b);
    }
  }

  lemma {:induction false} AfterAppend(c: C.Cell, a: seq<C.Act>, b: seq<C.Act>)
    ensures C.After(c, a + b) == C.After(C.After(c, a), b)
    decreases |a|
  {
    if a == [] {
      assert a + b == b;
    } else {
      assert (a + b)[0] == a[0] && (a + b)[1..] == a[1..] + b;
      AfterAppend(C.Do(c, a[0]).0, a[1..], b);
    }
  }

  /** The server's counting invariant: from the moment slot k holds a semaphore of value v with
      no sleepers, for as long as it holds that semaphore. */
  lemma ServerCounting(s: State, es: seq<Event>, k: nat)
    requires Inv(s) && Lawful(s, es) && StaysLive(s, es, k)
    requires s.sems[k].count >= 0 && s.sems[k].blocked == []
    ensures LiveAt(Run(s, es).state, k)
    ensures var c, acts, end := CellOf(s.sems[k]), RunActs(s, es, k), Run(s, es).state.sems[k];
            var posts, takes, lost := C.Tally(c, acts, C.IsPost), C.Tally(c, acts, C.Takes), C.Tally(c, acts, C.IsLost);
            var strays, grants := C.Tally(c, acts, C.IsStray), C.Tally(c, acts, C.IsGrant);
            && end.count == s.sems[k].count + posts - takes
            && |end.blocked| == C.Max(0, -end.count) - (lost - strays)
            && strays <= lost
            && grants + strays == C.Min(s.sems[k].count + posts, takes)
  {
    hide Run, SlotsOk, NamesOk, RunActs, C.Tally, C.After;
    RunProjects(s, es, k);
    C.Counting(s.sems[k].count, RunActs(s, es, k));
  }

  /** No run of fewer than 2^31 - SEM_VALUE_MAX requests takes the count out of a 32-bit int. */
  lemma CountFitsInt(s: State, es: seq<Event>, k: nat)
    requires Inv(s) && Lawful(s, es) && StaysLive(s, es, k)
    requires 0 <= s.sems[k].count <= SEM_VALUE_MAX && |es| < 0x8000_0000 - SEM_VALUE_MAX
    ensures LiveAt(Run(s, es).state, k)
    ensures -0x8000_0000 <= Run(s, es).state.sems[k].count < 0x8000_0000
  {
    hide Run, SlotsOk, NamesOk, RunActs, C.Tally, C.After;
    var c, acts := CellOf(s.sems[k]), RunActs(s, es, k);
    RunProjects(s, es, k);
    C.Ledger(c, acts);
    ActsAreFew(s, es, k);
    TallyBound(c, acts, C.IsPost);
    TallyBound(c, acts, C.Takes);
  }

  lemma {:induction false} ActsAreFew(s: State, es: seq<Event>, k: nat)
    ensures |RunActs(s, es, k)| <= |es|
    decreases |es|
  {
    if es != [] { ActsAreFew(Serve(s, es[0]).state, es[1..], k); }
  }

  lemma {:induction false} TallyBound(c: C.Cell, acts: seq<C.Act>, what: (C.Act, C.Fate) -> bool)
    ensures C.Tally(c, acts, what) <= |acts|
    decreases |acts|
  {
    if acts != [] { TallyBound(C.Do(c, acts[0]).0, acts[1..], what); }
  }

  lemma WaitProjects(s: State, p: int, k: nat)
    requires LiveAt(s, k) && Member(s, k, p) && !Full(s)
    ensures var s1 := Serve(s, Event(p, Wait(k), 0)).state;
            LiveAt(s1, k) && CellOf(s1.sems[k]) == C.Do(CellOf(s.sems[k]), C.Wait(p, true)).0
  {}
}
