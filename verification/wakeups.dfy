/** Whom the server wakes, and when, as its clients see it: by the replies they get. The order of
    wake-ups, waiters that found no pool node, and who holds a semaphore. */
module Wakeups {
  import opened PoolModel
  import opened NameTable
  import opened Machine
  import opened Invariants
  import opened Runs
  import opened Lifecycle
  import opened Accounting
  import C = Semaphore

  // ---- One request ----

  /** The process a request wakes, if any. */
  function Woken(s: State, e: Event): seq<int> {
    if e.call.Post? && Member(s, e.call.handle, e.who) && s.sems[e.call.handle].count < 0
    then if s.sems[e.call.handle].blocked == [] then [e.junk] else [s.sems[e.call.handle].blocked[0]]
    else []
  }

  /** A wait that blocks its caller, with or without a node for it. */
  predicate Withheld(s: State, e: Event) {
    e.call.Wait? && Member(s, e.call.handle, e.who) && s.sems[e.call.handle].count <= 0
  }

  /** A post that owes a wake-up and finds nobody in the list: the reply goes to the process number its
      uninitialised local holds. */
  predicate Strays(s: State, e: Event) {
    && e.call.Post? && Member(s, e.call.handle, e.who)
    && s.sems[e.call.handle].count < 0 && s.sems[e.call.handle].blocked == []
  }

  /** The replies of one iteration, in order. */
  lemma RepliesShape(s: State, e: Event)
    ensures var replies, woken := Serve(s, e).replies, Woken(s, e);
            && |replies| == |woken| + (if Withheld(s, e) then 0 else 1)
            && (woken != [] ==> replies[0] == Reply(woken[0], Message(0, s.out.param1, s.out.param2), Ok))
            && (!Withheld(s, e) ==> replies[|woken|].to == e.who)
            && (e.call.Post? || (e.call.Wait? && !Withheld(s, e)) ==>
                  (replies[|woken|].result == Ok <==> Member(s, e.call.handle, e.who)))
            && (e.call.TryWait? ==>
                  (replies[|woken|].result == Ok <==>
                      Member(s, e.call.handle, e.who) && s.sems[e.call.handle].count > 0))
  {
    if e.call.Post? {
      var r := DoPost(s, e.who, e.call.handle, e.junk);
      assert r.woken == Woken(s, e);
      if r.woken != [] { assert Wakes(r.woken[1..], r.state.out, r.state.errno) == []; }
    } else if !FromManager(e.call) {
      EffectsOf(s, e);
      assert Wakes([], s.out, Ok) == [];
    }
  }

  /** How the blocked list of one slot can change. */
  ghost predicate BlockedMove(s: State, e: Event, h: int, b: seq<int>, b': seq<int>) {
    if Woken(s, e) != [] && e.call.handle == h && b != [] then b' == b[1..]
    else b' == b || b' == [] || (Withheld(s, e) && e.call.handle == h && b' == [e.who] + b)
  }

  lemma OpenBlocked(s: State, who: int, name: string, creat: bool, excl: bool, value: nat, h: nat)
    requires |s.sems| == INITIAL_SEM && h < INITIAL_SEM
    ensures var s' := DoOpen(s, who, name, creat, excl, value).state;
            |s'.sems| == INITIAL_SEM && (s'.sems[h].blocked == s.sems[h].blocked || s'.sems[h].blocked == [])
  {
    hide Used, Clip;
  }

  lemma CallBlocked(s: State, e: Event, h: nat)
    requires |s.sems| == INITIAL_SEM && h < INITIAL_SEM && !FromManager(e.call) && !e.call.Open?
    ensures var s' := Operate(s, e).result.state;
            |s'.sems| == INITIAL_SEM && BlockedMove(s, e, h, s.sems[h].blocked, s'.sems[h].blocked)
  {
    hide Used, Clip, RemoveFirst, DoOpen;
  }

  lemma BlockedStep(s: State, e: Event, h: nat)
    requires |s.sems| == INITIAL_SEM && h < INITIAL_SEM
    ensures |Serve(s, e).state.sems| == INITIAL_SEM
    ensures BlockedMove(s, e, h, s.sems[h].blocked, Serve(s, e).state.sems[h].blocked)
  {
    ServeIsCore(s, e);
    hide Serve, DoOpen, OpenFrom, CloseFrom, Withheld;
    match e.call {
      case Fork(parent, child) => OpenFromSlots(s, parent, child, 0);
      case Exec(p) => CloseFromSlots(s, p, 0);
      case Exit(p) => CloseFromSlots(s, p, 0);
      case Open(name, creat, excl, value) => OpenBlocked(s, e.who, name, creat, excl, value, h);
      case _ => CallBlocked(s, e, h);
    }
  }

  lemma RepliesCount(s: State, e: Event, p: int)
    ensures RepliesTo(Serve(s, e).replies, p)
         == (if Woken(s, e) != [] && Woken(s, e)[0] == p then 1 else 0)
             + (if e.who == p && !Withheld(s, e) then 1 else 0)
    ensures p in RepliedTo(Serve(s, e).replies) <==> RepliesTo(Serve(s, e).replies, p) > 0
  {
    RepliesShape(s, e);
    hide Serve, Withheld;
    var replies := Serve(s, e).replies;
    assert |Woken(s, e)| <= 1;
    if |replies| > 0 {
      assert RepliesTo(replies, p) == (if replies[0].to == p then 1 else 0) + RepliesTo(replies[1..], p);
    }
    if |replies| > 1 {
      assert RepliesTo(replies[1..], p) == (if replies[1].to == p then 1 else 0) + RepliesTo(replies[1..][1..], p);
    }
    assert p in RepliedTo(replies) <==> exists i :: 0 <= i < |replies| && replies[i].to == p;
  }

  // ---- A waiter the pool had no node for ----

  /** From now on p sends nothing until it gets a reply: it is blocked in its call. */
  predicate Patient(s: State, es: seq<Event>, p: int)
    decreases |es|
  {
    es == [] ||
    (es[0].who != p && (RepliesTo(Serve(s, es[0]).replies, p) > 0 || Patient(Serve(s, es[0]).state, es[1..], p)))
  }

  /** Some post of the run is answered to p by accident. */
  predicate StraysTo(s: State, es: seq<Event>, p: int)
    decreases |es|
  {
    es != [] && ((Strays(s, es[0]) && es[0].junk == p) || StraysTo(Serve(s, es[0]).state, es[1..], p))
  }

  /** A process that waits for a reply is patient: that is what the kernel guarantees. */
  lemma {:induction false} AllowedIsPatient(s: State, es: seq<Event>, owed: set<int>, p: int)
    requires RunAllowed(s, es, owed) && p in owed
    ensures Patient(s, es, p) && Lawful(s, es)
    decreases |es|
  {
    hide Serve, DestroysNamed;
    if es != [] {
      var s1, replies := Serve(s, es[0]).state, Serve(s, es[0]).replies;
      RepliesCount(s, es[0], p);
      AllowedIsLawful(s1, es[1..], StillOwed(owed, es[0], replies));
      if RepliesTo(replies, p) == 0 { AllowedIsPatient(s1, es[1..], StillOwed(owed, es[0], replies), p); }
    }
  }

  lemma {:induction false} AllowedIsLawful(s: State, es: seq<Event>, owed: set<int>)
    requires RunAllowed(s, es, owed)
    ensures Lawful(s, es)
    decreases |es|
  {
    hide Serve, DestroysNamed;
    if es != [] { AllowedIsLawful(Serve(s, es[0]).state, es[1..], StillOwed(owed, es[0], Serve(s, es[0]).replies)); }
  }

  lemma OthersMove(s: State, e: Event, h: int, b: seq<int>, b': seq<int>, p: int)
    requires BlockedMove(s, e, h, b, b') && p in b' && (e.who != p || !Withheld(s, e))
    ensures p in b
  {}

  /** One request of another process: p, asleep in slot k at most, falls asleep nowhere, and is answered
      if it is the head of slot k's list and that is posted, or by a stray. */
  lemma OthersStep(s: State, e: Event, p: int, k: int)
    requires |s.sems| == INITIAL_SEM && e.who != p && forall h :: Sleeps(s, h, p) ==> h == k
    ensures forall h :: Sleeps(Serve(s, e).state, h, p) ==> h == k && Sleeps(s, h, p)
    ensures RepliesTo(Serve(s, e).replies, p) ==
              if Woken(s, e) != [] && Woken(s, e)[0] == p then 1 else 0
    ensures Woken(s, e) != [] && Woken(s, e)[0] == p
            ==> (Strays(s, e) && e.junk == p) || (e.call.handle == k && Sleeps(s, k, p))
  {
    RepliesCount(s, e, p);
    hide Serve;
    forall h | Sleeps(Serve(s, e).state, h, p) ensures h == k && Sleeps(s, h, p) {
      if 0 <= h < INITIAL_SEM {
        BlockedStep(s, e, h);
        OthersMove(s, e, h, s.sems[h].blocked, Serve(s, e).state.sems[h].blocked, p);
        assert Sleeps(s, h, p);
      } else {
        BlockedStep(s, e, 0);
      }
    }
    if Woken(s, e) != [] && Woken(s, e)[0] == p && !Strays(s, e) { assert Sleeps(s, e.call.handle, p); }
  }

  /** A process that waits for a reply and sleeps nowhere gets one if and only if a stray brings it. */
  lemma {:induction false} SleeplessAnsweredIff(s: State, es: seq<Event>, p: int)
    requires |s.sems| == INITIAL_SEM && !SleepsSomewhere(s, p) && Patient(s, es, p)
    ensures RepliesTo(Run(s, es).replies, p) > 0 <==> StraysTo(s, es, p)
    decreases |es|
  {
    if es != [] {
      var first := Serve(s, es[0]);
      OthersStep(s, es[0], p, -1);
      BlockedStep(s, es[0], 0);
      hide Serve, Strays, Woken;
      RepliesToAppend(first.replies, Run(first.state, es[1..]).replies, p);
      if RepliesTo(first.replies, p) == 0 { SleeplessAnsweredIff(first.state, es[1..], p); }
    }
  }

  /** Sleepers are waiting for a reply, and each is in one list, once. Drops do not disturb this. */
  ghost predicate Tidy(s: State, owed: set<int>) {
    && (forall k | 0 <= k < |s.sems| :: Distinct(s.sems[k].blocked))
    && (forall k, p :: Sleeps(s, k, p) ==> p in owed)
    && (forall k, k', p :: Sleeps(s, k, p) && Sleeps(s, k', p) ==> k == k')
  }

  lemma OrderlyIsTidy(s: State, owed: set<int>)
    requires Orderly(s, owed)
    ensures Tidy(s, owed)
  {
    forall k | 0 <= k < |s.sems| ensures Distinct(s.sems[k].blocked) { assert SleepersOk(s.sems[k]); }
  }

  /** A wait that blocks while the pool is full is lost for good: over every run that follows, its caller
      gets a reply if and only if some post of another process, itself finding a sleeper missing, holds
      the caller's number by accident. No post is ever addressed to it. */
  lemma DroppedAnsweredIff(s: State, e: Event, es: seq<Event>, owed: set<int>)
    requires Inv(s) && Tidy(s, owed) && Allowed(s, e, owed) && Drops(s, e)
    requires RunAllowed(Serve(s, e).state, es, StillOwed(owed, e, Serve(s, e).replies))
    ensures RepliesTo(Serve(s, e).replies, e.who) == 0
    ensures RepliesTo(Run(Serve(s, e).state, es).replies, e.who) > 0 <==> StraysTo(Serve(s, e).state, es, e.who)
  {
    var s1, owed1 := Serve(s, e).state, StillOwed(owed, e, Serve(s, e).replies);
    assert s1.sems == s.sems[e.call.handle := s.sems[e.call.handle].(count := s.sems[e.call.handle].count - 1)];
    forall k ensures !Sleeps(s1, k, e.who) { assert !Sleeps(s, k, e.who); }
    RepliesCount(s, e, e.who);
    hide Serve, Run;
    AllowedIsPatient(s1, es, owed1, e.who);
    SleeplessAnsweredIff(s1, es, e.who);
  }

  /** And the accident does happen: right after a drop on a semaphore nobody else waits for, a post
      whose local holds the lost process's number is answered to it. */
  lemma StrayAnswersTheLost(s: State, p: int, q: int, h: int)
    requires |s.sems| == INITIAL_SEM && Drops(s, Event(p, Wait(h), 0)) && Member(s, h, q)
    requires s.sems[h].count == 0 && s.sems[h].blocked == []
    ensures var s1 := Serve(s, Event(p, Wait(h), 0)).state;
            var replies := Serve(s1, Event(q, Post(h), p)).replies;
            |replies| == 2 && replies[0].to == p && replies[0].result == Ok && replies[1].to == q
  {
    var s1 := Serve(s, Event(p, Wait(h), 0)).state;
    assert s1.sems[h] == s.sems[h].(count := -1);
    hide Serve;
    RepliesShape(s1, Event(q, Post(h), p));
  }

  // ---- Every request is answered once, or not ----

  /** A wake-up goes to p, which is owed nothing. */
  predicate Overpays(s: State, e: Event, owed: set<int>, p: int) {
    Woken(s, e) != [] && Woken(s, e)[0] == p && p !in owed
  }

  ghost function Overpaid(s: State, es: seq<Event>, owed: set<int>, p: int): nat
    decreases |es|
  {
    if es == [] then 0
    else (if Overpays(s, es[0], owed, p) then 1 else 0)
         + Overpaid(Serve(s, es[0]).state, es[1..], StillOwed(owed, es[0], Serve(s, es[0]).replies), p)
  }

  lemma StepPays(s: State, e: Event, owed: set<int>, p: int)
    requires e.who !in owed
    ensures RepliesTo(Serve(s, e).replies, p) + Pending(StillOwed(owed, e, Serve(s, e).replies), p)
         == (if e.who == p then 1 else 0) + Pending(owed, p) + (if Overpays(s, e, owed, p) then 1 else 0)
  {
    RepliesCount(s, e, p);
    OwedStep(s, e, owed, p);
    assert Withheld(s, e) ==> Woken(s, e) == [];
    hide Serve, Woken, Withheld, StillOwed;
  }

  lemma {:induction false} ReplyLedger(s: State, es: seq<Event>, owed: set<int>, p: int)
    requires RunAllowed(s, es, owed)
    ensures RepliesTo(Run(s, es).replies, p) + Pending(OwedAfter(s, es, owed), p)
         == RequestsFrom(es, p) + Pending(owed, p) + Overpaid(s, es, owed, p)
    decreases |es|
  {
    hide Serve, Overpays, StillOwed, Pending;
    if es != [] {
      var first := Serve(s, es[0]);
      StepPays(s, es[0], owed, p);
      ReplyLedger(first.state, es[1..], StillOwed(owed, es[0], first.replies), p);
      RepliesToAppend(first.replies, Run(first.state, es[1..]).replies, p);
    }
  }

  /** Over every run that the kernel allows, waiters lost or not: the replies sent to a process and the one it is
      still owed are its requests and the one it was owed at the start, if and only if no wake-up of the run
      went to it while it was owed nothing. */
  lemma AnsweredOnceIff(s: State, es: seq<Event>, owed: set<int>, p: int)
    requires RunAllowed(s, es, owed)
    ensures RepliesTo(Run(s, es).replies, p) + Pending(OwedAfter(s, es, owed), p)
            == RequestsFrom(es, p) + Pending(owed, p)
       <==> Overpaid(s, es, owed, p) == 0
  {
    ReplyLedger(s, es, owed, p);
  }

  // ---- The order of wake-ups ----

  lemma OneAct(s: State, e: Event, k: nat)
    ensures |ActsOn(s, e, k)| <= 1
  {}

  lemma StackStep(s: State, e: Event, k: nat, p: int)
    requires Inv(s) && LiveAt(s, k) && LiveAt(Serve(s, e).state, k) && e.who != p && !(Strays(s, e) && e.junk == p)
    requires forall h :: Sleeps(s, h, p) ==> h == k
    ensures forall h :: Sleeps(Serve(s, e).state, h, p) ==> h == k
    ensures var c, acts := CellOf(s.sems[k]), ActsOn(s, e, k);
            && |acts| <= 1 && CellOf(Serve(s, e).state.sems[k]) == (if acts == [] then c else C.Do(c, acts[0]).0)
            && (acts != [] && acts[0].Wait? ==> acts[0].p != p)
            && (RepliesTo(Serve(s, e).replies, p) == if acts != [] && C.Do(c, acts[0]).1 == C.Woke(p) then 1 else 0)
  {
    StepProjects(s, e, k);
    OthersStep(s, e, p, k);
    var c, acts := CellOf(s.sems[k]), ActsOn(s, e, k);
    if acts != [] { assert C.After(c, acts) == C.After(C.Do(c, acts[0]).0, []); }
    hide Serve, SlotsOk, NamesOk;
  }

  lemma PrefixRun(s: State, es: seq<Event>)
    requires |es| > 1
    ensures var first, n := Serve(s, es[0]), |es|;
            && es[1..][n - 2] == es[n - 1]
            && Run(s, es[..n - 1]).state == Run(first.state, es[1..][..n - 2]).state
            && Run(s, es[..n - 1]).replies == first.replies + Run(first.state, es[1..][..n - 2]).replies
  {
    hide Serve;
    assert es[..|es| - 1][0] == es[0] && es[..|es| - 1][1..] == es[1..][..|es| - 2];
  }

  /** The run ends with a request on slot k, the first post that finds the count at `level`. */
  predicate EndsAtReturn(s: State, es: seq<Event>, k: nat, level: int)
    requires k < |s.sems|
  {
    && es != [] && ActsOn(Run(s, es[..|es| - 1]).state, es[|es| - 1], k) != []
    && C.FirstReturn(CellOf(s.sems[k]), RunActs(s, es, k), level)
  }

  lemma {:induction false} LastActs(s: State, es: seq<Event>, k: nat)
    requires es != [] && ActsOn(Run(s, es[..|es| - 1]).state, es[|es| - 1], k) != []
    ensures RunActs(s, es, k) != []
    decreases |es|
  {
    hide Serve, ActsOn;
    if |es| > 1 {
      PrefixRun(s, es);
      LastActs(Serve(s, es[0]).state, es[1..], k);
    } else {
      assert es[..0] == [];
    }
  }

  /** What becomes of p, asleep in slot k below the later sleepers `above`, while nobody can answer it but
      a post on slot k; `level` is where its own wait left the count, `lost` how many waiters went missing
      since. */
  ghost predicate Under(s: State, k: nat, above: seq<int>, p: int, below: seq<int>, level: int, lost: nat) {
    && LiveAt(s, k) && level < 0 && s.sems[k].count == level - |above| - lost
    && s.sems[k].blocked == above + [p] + below
    && p !in above && forall h :: Sleeps(s, h, p) ==> h == k
  }

  /** The last step: the post that is the return. */
  lemma StackEnd(s: State, e: Event, k: nat, above: seq<int>, p: int, below: seq<int>, level: int, lost: nat)
    requires Inv(s) && Under(s, k, above, p, below, level, lost) && LiveAt(Serve(s, e).state, k) && e.who != p
    requires C.FirstReturn(CellOf(s.sems[k]), ActsOn(s, e, k), level) && |ActsOn(s, e, k)| == 1
    ensures lost == 0 && C.Roomy(CellOf(s.sems[k]), ActsOn(s, e, k)) && !Strays(s, e)
    ensures AnswersOnce(Serve(s, e).replies, p) && CellOf(Serve(s, e).state.sems[k]) == C.Cell(level + 1, below)
  {
    var c, acts := CellOf(s.sems[k]), ActsOn(s, e, k);
    assert acts[1..] == [] && acts[0].Post? && c.count == level && above == [];
    assert c.blocked == [p] + below && C.Do(c, acts[0]).1 == C.Woke(p) && c.blocked[1..] == below;
    assert C.Tally(c, acts, C.IsLost) == 0 + C.Tally(C.Do(c, acts[0]).0, [], C.IsLost);
    assert !Strays(s, e);
    StackStep(s, e, k, p);
    RepliesShape(s, e);
    hide Serve, SlotsOk, NamesOk;
  }

  /** p is answered here, first and once, and told that its wait succeeded. */
  predicate AnswersOnce(replies: seq<Reply>, p: int) {
    replies != [] && replies[0].to == p && replies[0].result == Ok && RepliesTo(replies, p) == 1
  }

  /** One earlier step: p sleeps on under the later sleepers, or it was popped early. */
  lemma StackOn(s: State, e: Event, k: nat, above: seq<int>, p: int, below: seq<int>, level: int, lost: nat)
    requires Inv(s) && Under(s, k, above, p, below, level, lost) && LiveAt(Serve(s, e).state, k)
    requires e.who != p && !(Strays(s, e) && e.junk == p)
    requires ActsOn(s, e, k) != [] ==> !(ActsOn(s, e, k)[0].Post? && s.sems[k].count == level)
    ensures RepliesTo(Serve(s, e).replies, p) > 0 ==> lost > 0 && ActsOn(s, e, k) != []
    ensures RepliesTo(Serve(s, e).replies, p) == 0 ==>
              var c, acts := CellOf(s.sems[k]), ActsOn(s, e, k);
              var above' := if acts == [] then above else C.AboveAfter(above, acts[0], C.Do(c, acts[0]).1);
              && Under(Serve(s, e).state, k, above', p, below, level, lost + Losses(s, e, k))
              && CellOf(Serve(s, e).state.sems[k]) == CellAfter(s, e, k)
  {
    StackStep(s, e, k, p);
    var c, acts := CellOf(s.sems[k]), ActsOn(s, e, k);
    if acts != [] {
      C.StepBelow(c, above, p, below, level, lost, acts[0]);
    }
    hide Serve, SlotsOk, NamesOk;
  }

  /** The requests of one iteration on slot k, at most one, and those of the rest of the run. */
  lemma ReturnAfter(c: C.Cell, acts: seq<C.Act>, rest: seq<C.Act>, level: int)
    requires |acts| <= 1 && rest != [] && C.FirstReturn(c, acts + rest, level)
    ensures acts != [] ==> !(acts[0].Post? && c.count == level)
    ensures var c1, lost := if acts == [] then c
            else C.Do(c, acts[0]).0, if acts != [] && C.Do(c, acts[0]).1.Lost? then 1 else 0;
            && C.FirstReturn(c1, rest, level)
            && C.Tally(c, acts + rest, C.IsLost) == lost + C.Tally(c1, rest, C.IsLost)
  {
    if acts == [] {
      assert acts + rest == rest;
    } else {
      assert (acts + rest)[0] == acts[0] && (acts + rest)[1..] == rest;
    }
  }

  /** While p waits: the slot stays the same semaphore, and the run ends with the return to p's level. */
  ghost predicate Vigil(s: State, es: seq<Event>, k: nat, p: int, level: int) {
    Lawful(s, es) && StaysLive(s, es, k) && Patient(s, es, p) && EndsAtReturn(s, es, k, level)
  }

  /** What one iteration does to the cell of slot k. */
  function CellAfter(s: State, e: Event, k: nat): C.Cell
    requires k < |s.sems|
  {
    if ActsOn(s, e, k) == [] then CellOf(s.sems[k]) else C.Do(CellOf(s.sems[k]), ActsOn(s, e, k)[0]).0
  }

  function Losses(s: State, e: Event, k: nat): nat
    requires k < |s.sems|
  {
    if ActsOn(s, e, k) != [] && C.Do(CellOf(s.sems[k]), ActsOn(s, e, k)[0]).1.Lost? then 1 else 0
  }

  lemma VigilStep(s: State, es: seq<Event>, k: nat, p: int, level: int)
    requires Inv(s) && LiveAt(s, k) && Vigil(s, es, k, p, level) && |es| > 1
    ensures var e, s1 := es[0], Serve(s, es[0]).state;
            && e.who != p && Inv(s1) && LiveAt(s1, k)
            && (ActsOn(s, e, k) != [] ==> !(ActsOn(s, e, k)[0].Post? && s.sems[k].count == level))
            && (RepliesTo(Serve(s, e).replies, p) == 0 && CellOf(s1.sems[k]) == CellAfter(s, e, k) ==>
                 Vigil(s1, es[1..], k, p, level))
            && C.Tally(CellOf(s.sems[k]), RunActs(s, es, k), C.IsLost)
               == Losses(s, e, k) + C.Tally(CellAfter(s, e, k), RunActs(s1, es[1..], k), C.IsLost)
  {
    hide Serve, SlotsOk, NamesOk, Strays, C.Do, C.Tally, C.FirstReturn, ActsOn, RepliesTo;
    var s1 := Serve(s, es[0]).state;
    ServeKeepsInv(s, es[0]);
    assert StaysLive(s1, es[1..], k);
    PrefixRun(s, es);
    LastActs(s1, es[1..], k);
    OneAct(s, es[0], k);
    ReturnAfter(CellOf(s.sems[k]), ActsOn(s, es[0], k), RunActs(s1, es[1..], k), level);
  }

  lemma VigilEnds(s: State, es: seq<Event>, k: nat, above: seq<int>, p: int, below: seq<int>, level: int, lost: nat)
    requires Inv(s) && Under(s, k, above, p, below, level, lost) && Vigil(s, es, k, p, level) && |es| == 1
    ensures lost == 0 && C.Roomy(CellOf(s.sems[k]), RunActs(s, es, k)) && es[..0] == [] && !StraysTo(s, es, p)
    ensures AnswersOnce(Serve(s, es[0]).replies, p)
    ensures LiveAt(Serve(s, es[0]).state, k) && CellOf(Serve(s, es[0]).state.sems[k]) == C.Cell(level + 1, below)
  {
    hide Serve, SlotsOk, NamesOk, Strays, AnswersOnce, C.Tally, C.FirstReturn, ActsOn, RepliesTo;
    OneAct(s, es[0], k);
    assert es[..0] == [] && RunActs(s, es, k) == ActsOn(s, es[0], k) + [] == ActsOn(s, es[0], k);
    assert StaysLive(Serve(s, es[0]).state, es[1..], k);
    StackEnd(s, es[0], k, above, p, below, level, lost);
    assert !StraysTo(Serve(s, es[0]).state, es[1..], p);
  }

  lemma StrayWakes(s: State, e: Event)
    requires Strays(s, e)
    ensures Woken(s, e) == [e.junk]
  {}

  lemma {:induction false} StackRun(s: State, es: seq<Event>, k: nat, above: seq<int>, p: int, below: seq<int>,
      level: int, lost: nat)
    requires Inv(s) && Under(s, k, above, p, below, level, lost) && Vigil(s, es, k, p, level) && es != []
    ensures RepliesTo(Run(s, es[..|es| - 1]).replies, p) == 0
       <==> lost == 0 && C.Roomy(CellOf(s.sems[k]), RunActs(s, es, k)) && !StraysTo(s, es, p)
    ensures lost == 0 && C.Roomy(CellOf(s.sems[k]), RunActs(s, es, k)) && !StraysTo(s, es, p) ==>
              && AnswersOnce(Serve(Run(s, es[..|es| - 1]).state, es[|es| - 1]).replies, p)
              && LiveAt(Run(s, es).state, k) && CellOf(Run(s, es).state.sems[k]) == C.Cell(level + 1, below)
    decreases |es|
  {
    hide Serve, SlotsOk, NamesOk, Strays, AnswersOnce, C.Do, C.Tally, ActsOn, C.AboveAfter, RunActs, Vigil;
    var e, first := es[0], Serve(s, es[0]);
    if |es| == 1 {
      VigilEnds(s, es, k, above, p, below, level, lost);
    } else {
      VigilStep(s, es, k, p, level);
      PrefixRun(s, es);
      RepliesToAppend(first.replies, Run(first.state, es[1..][..|es| - 2]).replies, p);
      if Strays(s, e) && e.junk == p {
        RepliesCount(s, e, p);
        StrayWakes(s, e);
      } else {
        StackOn(s, e, k, above, p, below, level, lost);
      }
      if RepliesTo(first.replies, p) == 0 {
        var acts := ActsOn(s, e, k);
        StackRun(first.state, es[1..], k,
                 if acts == [] then above else C.AboveAfter(above, acts[0], C.Do(CellOf(s.sems[k]), acts[0]).1),
                 p, below, level, lost + Losses(s, e, k));
      }
    }
  }

  lemma FallsAsleep(s: State, p: int, k: nat)
    requires Inv(s) && LiveAt(s, k) && Member(s, k, p) && s.sems[k].count <= 0 && !Full(s) && !SleepsSomewhere(s, p)
    ensures var s1 := Serve(s, Event(p, Wait(k), 0)).state;
            Inv(s1) && Under(s1, k, [], p, s.sems[k].blocked, s.sems[k].count - 1, 0)
            && CellOf(s1.sems[k]) == C.Do(CellOf(s.sems[k]), C.Wait(p, true)).0
  {
    var e, s1 := Event(p, Wait(k), 0), Serve(s, Event(p, Wait(k), 0)).state;
    ServeKeepsInv(s, e);
    WaitProjects(s, p, k);
    forall h | Sleeps(s1, h, p) ensures h == k {
      assert !Sleeps(s, h, p);
      if 0 <= h < INITIAL_SEM { BlockedStep(s, e, h); }
    }
    hide Serve, SlotsOk, NamesOk;
    assert s1.sems[k].blocked == [] + [p] + s.sems[k].blocked;
  }

  /** The stack discipline of wake-ups, as the clients see it. p falls asleep on slot k; the run that
      follows ends with the first post that finds the count where p left it. p gets no reply before that
      post if and only if no waiter of slot k was lost meanwhile and no stray reply reached p. And then that
      post answers p, first and once, and leaves the slot as p found it: everyone who fell asleep after p has
      gone, everyone before p is still there. */
  lemma ServerStack(s: State, p: int, k: nat, es: seq<Event>)
    requires Inv(s) && LiveAt(s, k) && Member(s, k, p) && s.sems[k].count <= 0 && !Full(s) && !SleepsSomewhere(s, p)
    requires es != [] && Vigil(Serve(s, Event(p, Wait(k), 0)).state, es, k, p, s.sems[k].count - 1)
    ensures var s1 := Serve(s, Event(p, Wait(k), 0)).state;
            LiveAt(s1, k) &&
            (RepliesTo(Run(s1, es[..|es| - 1]).replies, p) == 0
             <==> C.Roomy(CellOf(s1.sems[k]), RunActs(s1, es, k)) && !StraysTo(s1, es, p))
    ensures var s1 := Serve(s, Event(p, Wait(k), 0)).state;
            C.Roomy(CellOf(s1.sems[k]), RunActs(s1, es, k)) && !StraysTo(s1, es, p) ==>
              && AnswersOnce(Serve(Run(s1, es[..|es| - 1]).state, es[|es| - 1]).replies, p)
              && LiveAt(Run(s1, es).state, k) && CellOf(Run(s1, es).state.sems[k]) == CellOf(s.sems[k])
  {
    FallsAsleep(s, p, k);
    hide Serve, SlotsOk, NamesOk, Vigil, Run, RunActs, AnswersOnce, C.Tally, Under, StraysTo;
    StackRun(Serve(s, Event(p, Wait(k), 0)).state, es, k, [], p, s.sems[k].blocked, s.sems[k].count - 1, 0);
  }

  // ---- Who holds a semaphore ----

  /** What can be said of slot k from the requests and replies alone: who has asked for it and waits for
      the reply, and who has been told that its wait succeeded and has not posted since. */
  datatype View = View(waiting: set<int>, held: multiset<int>)

  const NOBODY := View({}, multiset{})

  /** A reply that says a wait on slot k succeeded. */
  predicate Grants(waiting: set<int>, e: Event, k: int, r: Reply) {
    r.result == Ok && if r.to == e.who then e.call == Wait(k) || e.call == TryWait(k) else r.to in waiting
  }

  function GrantOf(waiting: set<int>, e: Event, k: int, r: Reply): multiset<int> {
    if Grants(waiting, e, k, r) then multiset{r.to} else multiset{}
  }

  function Granted(waiting: set<int>, e: Event, k: int, replies: seq<Reply>): multiset<int> {
    if replies == [] then multiset{} else GrantOf(waiting, e, k, replies[0]) + Granted(waiting, e, k, replies[1..])
  }

  /** A post on slot k that succeeded. */
  predicate Releases(e: Event, k: int, replies: seq<Reply>) {
    e.call == Post(k) && replies != [] && replies[|replies| - 1].result == Ok
  }

  ghost function Observe(v: View, e: Event, k: int, replies: seq<Reply>): View {
    View(v.waiting + (if e.call == Wait(k) then {e.who} else {}) - RepliedTo(replies),
         (if Releases(e, k, replies) then v.held - multiset{e.who} else v.held) + Granted(v.waiting, e, k, replies))
  }

  /** The server, the view of slot k, and the processes that wait for a reply to anything. */
  datatype Watch = Watch(state: State, view: View, owed: set<int>)

  ghost function Next(w: Watch, e: Event, k: int): Watch {
    var step := Serve(w.state, e);
    Watch(step.state, Observe(w.view, e, k, step.replies), StillOwed(w.owed, e, step.replies))
  }

  ghost function Watched(w: Watch, es: seq<Event>, k: int): Watch
    decreases |es|
  {
    if es == [] then w else Watched(Next(w, es[0], k), es[1..], k)
  }

  lemma {:induction false} WatchedAppend(w: Watch, a: seq<Event>, b: seq<Event>, k: nat)
    ensures Watched(w, a + b, k) == Watched(Watched(w, a, k), b, k)
    ensures FairRun(w, a + b, k) <==> FairRun(w, a, k) && FairRun(Watched(w, a, k), b, k)
    decreases |a|
  {
    hide Next, Fair;
    if a == [] {
      assert a + b == b;
    } else {
      assert (a + b)[0] == a[0] && (a + b)[1..] == a[1..] + b;
      WatchedAppend(Next(w, a[0], k), a[1..], b, k);
    }
  }

  /** A fair run is one that the run theorems of `Runs` and `Accounting` speak of. */
  lemma {:induction false} FairRunIs(w: Watch, es: seq<Event>, k: nat)
    requires FairRun(w, es, k) && LiveAt(w.state, k)
    ensures RunAllowed(w.state, es, w.owed) && StaysLive(w.state, es, k)
    ensures Watched(w, es, k).state == Run(w.state, es).state
            && Watched(w, es, k).owed == OwedAfter(w.state, es, w.owed)
    decreases |es|
  {
    hide Serve, Allowed, StillOwed, Observe;
    if es != [] { FairRunIs(Next(w, es[0], k), es[1..], k); }
  }

  /** What is asked of one request: the kernel's guarantee, that slot k stays the same semaphore, and that
      whoever posts it has been told that it holds it. */
  ghost predicate Fair(w: Watch, e: Event, k: nat) {
    && Allowed(w.state, e, w.owed) && LiveAt(Serve(w.state, e).state, k)
    && (Releases(e, k, Serve(w.state, e).replies) ==> e.who in w.view.held)
  }

  ghost predicate FairRun(w: Watch, es: seq<Event>, k: nat)
    decreases |es|
  {
    es == [] || (Fair(w, es[0], k) && FairRun(Next(w, es[0], k), es[1..], k))
  }

  /** No reply reaches by accident a process that waits for one. */
  ghost predicate StraysMiss(w: Watch, es: seq<Event>, k: int)
    decreases |es|
  {
    es == [] || (!(Strays(w.state, es[0]) && es[0].junk in w.owed) && StraysMiss(Next(w, es[0], k), es[1..], k))
  }

  // ---- The view is what the one-semaphore automaton says ----

  /** Those asleep in slot k have asked for it, and those who have asked sleep nowhere else. */
  ghost predicate ViewOk(s: State, k: nat, v: View, owed: set<int>) {
    && LiveAt(s, k)
    && (forall q | q in s.sems[k].blocked :: q in v.waiting)
    && (forall q | q in v.waiting :: q in owed)
    && (forall q, h :: q in v.waiting && Sleeps(s, h, q) ==> h == k)
  }

  lemma TidyStep(s: State, e: Event, owed: set<int>)
    requires Inv(s) && Tidy(s, owed) && Allowed(s, e, owed) && !(Strays(s, e) && e.junk in owed)
    ensures Tidy(Serve(s, e).state, StillOwed(owed, e, Serve(s, e).replies))
  {
    var s1, owed1 := Serve(s, e).state, StillOwed(owed, e, Serve(s, e).replies);
    BlockedStep(s, e, 0);
    hide Serve, NamesOk;
    forall h | 0 <= h < |s1.sems| ensures Distinct(s1.sems[h].blocked) {
      SlotTidy(s, e, owed, h, 0);
    }
    forall h, q | Sleeps(s1, h, q)
      ensures q in owed1 && (Sleeps(s, h, q) || (q == e.who && Withheld(s, e) && e.call.handle == h))
    {
      SlotTidy(s, e, owed, h, q);
    }
    forall h, h', q | Sleeps(s1, h, q) && Sleeps(s1, h', q) ensures h == h' {
      if Sleeps(s, h, q) || Sleeps(s, h', q) { assert q in owed; }
    }
  }

  lemma SlotTidy(s: State, e: Event, owed: set<int>, h: int, q: int)
    requires Inv(s) && Tidy(s, owed) && Allowed(s, e, owed) && !(Strays(s, e) && e.junk in owed) && 0 <= h < INITIAL_SEM
    ensures var s1, owed1 := Serve(s, e).state, StillOwed(owed, e, Serve(s, e).replies);
            && |s1.sems| == INITIAL_SEM && Distinct(s1.sems[h].blocked)
            && (Sleeps(s1, h, q) ==>
                 q in owed1 && (Sleeps(s, h, q) || (q == e.who && Withheld(s, e) && e.call.handle == h)))
  {
    BlockedStep(s, e, h);
    OwedStep(s, e, owed, q);
    var b, b' := s.sems[h].blocked, Serve(s, e).state.sems[h].blocked;
    hide Serve, NamesOk, StillOwed, BlockedMove;
    assert !Sleeps(s, h, e.who) && e.who !in b;
    DistinctMove(s, e, h, b, b', q);
    if Sleeps(s, h, q) && Woken(s, e) != [] && Woken(s, e)[0] == q { WokenFrom(s, e, owed, h, q); }
  }

  /** A sleeper that is woken was the head of its own list. */
  lemma WokenFrom(s: State, e: Event, owed: set<int>, h: int, q: int)
    requires Inv(s) && Tidy(s, owed) && Sleeps(s, h, q) && Woken(s, e) != [] && Woken(s, e)[0] == q
             && !(Strays(s, e) && e.junk in owed)
    ensures e.call.handle == h && s.sems[h].blocked[0] == q
  {
    assert q in owed;
    assert Sleeps(s, e.call.handle, q);
  }

  lemma OwedStep(s: State, e: Event, owed: set<int>, q: int)
    ensures q in StillOwed(owed, e, Serve(s, e).replies)
       <==> (q in owed || q == e.who) && !(Woken(s, e) != [] && Woken(s, e)[0] == q) && !(q == e.who && !Withheld(s, e))
  {
    RepliesCount(s, e, q);
    hide Serve, Woken, Withheld;
  }

  lemma DistinctMove(s: State, e: Event, h: int, b: seq<int>, b': seq<int>, q: int)
    requires BlockedMove(s, e, h, b, b') && Distinct(b) && e.who !in b
    ensures Distinct(b')
    ensures q in b' ==> q in b || (q == e.who && Withheld(s, e) && e.call.handle == h)
    ensures q in b' && Woken(s, e) != [] && e.call.handle == h && b != [] ==> q != b[0]
  {}

  lemma ViewStaysOk(w: Watch, e: Event, k: nat)
    requires Inv(w.state) && Tidy(w.state, w.owed) && ViewOk(w.state, k, w.view, w.owed)
    requires Allowed(w.state, e, w.owed) && LiveAt(Serve(w.state, e).state, k)
             && !(Strays(w.state, e) && e.junk in w.owed)
    ensures ViewOk(Serve(w.state, e).state, k, Next(w, e, k).view, Next(w, e, k).owed)
  {
    var s, s1, v1, owed1 := w.state, Serve(w.state, e).state, Next(w, e, k).view, Next(w, e, k).owed;
    hide Serve, NamesOk, Granted, Releases;
    assert v1.waiting == w.view.waiting + (if e.call == Wait(k) then {e.who} else {}) - RepliedTo(Serve(s, e).replies);
    forall q | q in s1.sems[k].blocked ensures q in v1.waiting {
      SlotTidy(s, e, w.owed, k, q);
      assert Sleeps(s1, k, q);
      if Sleeps(s, k, q) { assert q in w.view.waiting; }
    }
    forall q, h | q in v1.waiting && Sleeps(s1, h, q) ensures h == k {
      BlockedStep(s, e, 0);
      SlotTidy(s, e, w.owed, h, q);
    }
  }

  /** What the automaton grants. */
  function Grant(c: C.Cell, acts: seq<C.Act>): multiset<int> {
    if acts == [] then multiset{}
    else var fate := C.Do(c, acts[0]).1; if fate.Granted? || fate.Woke? then multiset{fate.p} else multiset{}
  }

  lemma GrantedFew(waiting: set<int>, e: Event, k: int, replies: seq<Reply>)
    ensures |replies| == 0 ==> Granted(waiting, e, k, replies) == multiset{}
    ensures |replies| == 1 ==> Granted(waiting, e, k, replies) == GrantOf(waiting, e, k, replies[0])
    ensures |replies| == 2 ==>
              Granted(waiting, e, k, replies)
              == GrantOf(waiting, e, k, replies[0]) + GrantOf(waiting, e, k, replies[1])
  {
    if |replies| == 2 { assert Granted(waiting, e, k, replies[1..]) == GrantOf(waiting, e, k, replies[1..][0]); }
  }

  /** Whether the process that a post wakes is known to wait for slot k. */
  lemma WokenWaits(w: Watch, e: Event, k: nat)
    requires Inv(w.state) && Tidy(w.state, w.owed) && ViewOk(w.state, k, w.view, w.owed) && e.call.Post?
    requires e.who !in w.owed && !(Strays(w.state, e) && e.junk in w.owed) && Woken(w.state, e) != []
    ensures var q := Woken(w.state, e)[0];
            && (q in w.view.waiting <==> !Strays(w.state, e) && e.call.handle == k)
            && (!Strays(w.state, e) ==> q != e.who)
  {
    hide SlotsOk, NamesOk;
    var q := Woken(w.state, e)[0];
    if Strays(w.state, e) {
      assert q == e.junk;
    } else {
      assert Sleeps(w.state, e.call.handle, q);
      assert q in w.owed;
    }
  }

  /** The grants among the replies of a post: at most the woken process, if it waits. */
  lemma PostGranted(waiting: set<int>, e: Event, k: int, replies: seq<Reply>, woken: seq<int>)
    requires e.call.Post? && |woken| <= 1 && |replies| == |woken| + 1 && replies[|woken|].to == e.who
    requires woken != [] ==> replies[0].to == woken[0] && replies[0].result == Ok
    ensures Granted(waiting, e, k, replies)
         == if woken != [] && woken[0] in waiting && woken[0] != e.who then multiset{woken[0]} else multiset{}
  {
    GrantedFew(waiting, e, k, replies);
    hide Granted;
  }

  lemma PostGrant(s: State, e: Event, k: nat)
    requires k < |s.sems| == INITIAL_SEM && e.call.Post?
    ensures Grant(CellOf(s.sems[k]), ActsOn(s, e, k))
         == if Woken(s, e) != [] && !Strays(s, e) && e.call.handle == k then multiset{Woken(s, e)[0]} else multiset{}
  {}

  lemma PostGrants(w: Watch, e: Event, k: nat)
    requires Inv(w.state) && Tidy(w.state, w.owed) && ViewOk(w.state, k, w.view, w.owed) && e.call.Post?
    requires e.who !in w.owed && !(Strays(w.state, e) && e.junk in w.owed)
    ensures Granted(w.view.waiting, e, k, Serve(w.state, e).replies)
            == Grant(CellOf(w.state.sems[k]), ActsOn(w.state, e, k))
  {
    RepliesShape(w.state, e);
    if Woken(w.state, e) != [] { WokenWaits(w, e, k); }
    hide Serve, SlotsOk, NamesOk, Granted, Grant, Tidy;
    PostGrant(w.state, e, k);
    PostGranted(w.view.waiting, e, k, Serve(w.state, e).replies, Woken(w.state, e));
  }

  lemma OwnGrants(s: State, e: Event, k: nat, waiting: set<int>)
    requires k < |s.sems| == INITIAL_SEM && !e.call.Post?
    ensures Granted(waiting, e, k, Serve(s, e).replies) == Grant(CellOf(s.sems[k]), ActsOn(s, e, k))
  {
    if e.call.Wait? || e.call.TryWait? { WaitGrants(s, e, k, waiting); } else { OthersGrantNothing(s, e, k, waiting); }
  }

  lemma WaitGrant(s: State, e: Event, k: nat)
    requires k < |s.sems| == INITIAL_SEM && (e.call.Wait? || e.call.TryWait?)
    ensures Grant(CellOf(s.sems[k]), ActsOn(s, e, k))
         == if e.call.handle == k && Member(s, k, e.who) && s.sems[k].count > 0 then multiset{e.who} else multiset{}
  {}

  lemma WaitGrants(s: State, e: Event, k: nat, waiting: set<int>)
    requires k < |s.sems| == INITIAL_SEM && (e.call.Wait? || e.call.TryWait?)
    ensures Granted(waiting, e, k, Serve(s, e).replies) == Grant(CellOf(s.sems[k]), ActsOn(s, e, k))
  {
    var replies := Serve(s, e).replies;
    RepliesShape(s, e);
    GrantedFew(waiting, e, k, replies);
    WaitGrant(s, e, k);
    assert Woken(s, e) == [];
    hide Serve, Granted, Woken, Grant, ActsOn, CellOf;
    if !Withheld(s, e) { assert replies[0].to == e.who; }
  }

  lemma OthersGrantNothing(s: State, e: Event, k: nat, waiting: set<int>)
    requires k < |s.sems| == INITIAL_SEM && !e.call.Post? && !e.call.Wait? && !e.call.TryWait?
    ensures Granted(waiting, e, k, Serve(s, e).replies) == Grant(CellOf(s.sems[k]), ActsOn(s, e, k))
  {
    var replies := Serve(s, e).replies;
    RepliesShape(s, e);
    GrantedFew(waiting, e, k, replies);
    assert Woken(s, e) == [];
    hide Serve, Granted, Woken;
    assert ActsOn(s, e, k) == [] && !Grants(waiting, e, k, replies[0]);
  }

  /** A request other than a wait or a post changes nobody's standing. */
  lemma PlainRequest(w: Watch, e: Event, k: nat)
    requires !e.call.Wait? && !e.call.TryWait? && !e.call.Post? && e.who !in w.owed && e.who !in w.view.waiting
    ensures Next(w, e, k).view == w.view && Next(w, e, k).owed == w.owed && !Releases(e, k, Serve(w.state, e).replies)
  {
    var replies := Serve(w.state, e).replies;
    RepliesShape(w.state, e);
    GrantedFew(w.view.waiting, e, k, replies);
    assert Woken(w.state, e) == [];
    hide Serve, Granted, Woken;
    assert RepliedTo(replies) == {e.who} by { assert replies == [replies[0]]; }
  }

  /** A reply grants slot k exactly when the automaton of slot k grants or wakes. */
  lemma GrantedStep(w: Watch, e: Event, k: nat)
    requires Inv(w.state) && Tidy(w.state, w.owed) && ViewOk(w.state, k, w.view, w.owed)
    requires e.who !in w.owed && !(Strays(w.state, e) && e.junk in w.owed)
    ensures Granted(w.view.waiting, e, k, Serve(w.state, e).replies)
            == Grant(CellOf(w.state.sems[k]), ActsOn(w.state, e, k))
  {
    if e.call.Post? {
      PostGrants(w, e, k);
    } else {
      OwnGrants(w.state, e, k, w.view.waiting);
    }
  }

  lemma ReleasedStep(s: State, e: Event, k: nat)
    requires k < |s.sems| == INITIAL_SEM
    ensures Releases(e, k, Serve(s, e).replies) <==> ActsOn(s, e, k) != [] && ActsOn(s, e, k)[0].Post?
    ensures Releases(e, k, Serve(s, e).replies) ==> ActsOn(s, e, k)[0].from == e.who
  {
    RepliesShape(s, e);
    hide Serve;
  }

  lemma ViewStep(w: Watch, e: Event, k: nat)
    requires Inv(w.state) && Tidy(w.state, w.owed) && ViewOk(w.state, k, w.view, w.owed)
    requires Fair(w, e, k) && !(Strays(w.state, e) && e.junk in w.owed)
    ensures var w1 := Next(w, e, k); Inv(w1.state) && Tidy(w1.state, w1.owed) && ViewOk(w1.state, k, w1.view, w1.owed)
    ensures var c, acts := CellOf(w.state.sems[k]), ActsOn(w.state, e, k);
            && |acts| <= 1 && CellOf(Next(w, e, k).state.sems[k]) == C.After(c, acts)
            && Next(w, e, k).view.held == C.Holders(c, acts, w.view.held) && C.Disciplined(c, acts, w.view.held)
  {
    var s, c, acts := w.state, CellOf(w.state.sems[k]), ActsOn(w.state, e, k);
    ServeKeepsInv(s, e);
    TidyStep(s, e, w.owed);
    ViewStaysOk(w, e, k);
    StepProjects(s, e, k);
    GrantedStep(w, e, k);
    ReleasedStep(s, e, k);
    OneAct(s, e, k);
    hide Serve, SlotsOk, NamesOk, Tidy, ViewOk, Granted, Releases, ActsOn, Allowed, C.Do, C.After, StillOwed;
    if acts == [] {
      assert Next(w, e, k).view.held == w.view.held;
    } else {
      assert acts[1..] == [] && C.Holders(c, acts, w.view.held) == C.Transfer(w.view.held, acts[0], C.Do(c, acts[0]).1);
    }
  }

  lemma {:induction false} HoldersAppend(c: C.Cell, a: seq<C.Act>, b: seq<C.Act>, held: multiset<int>)
    ensures C.Holders(c, a + b, held) == C.Holders(C.After(c, a), b, C.Holders(c, a, held))
    ensures C.Disciplined(c, a + b, held)
            <==> C.Disciplined(c, a, held) && C.Disciplined(C.After(c, a), b, C.Holders(c, a, held))
    decreases |a|
  {
    if a == [] {
      assert a + b == b;
    } else {
      assert (a + b)[0] == a[0] && (a + b)[1..] == a[1..] + b;
      HoldersAppend(C.Do(c, a[0]).0, a[1..], b, C.Transfer(held, a[0], C.Do(c, a[0]).1));
    }
  }

  /** The holders that the replies announce are those of the one-semaphore automaton, after every run in
      which no reply reaches a waiting process by accident. */
  lemma {:induction false} ViewIsHolders(w: Watch, es: seq<Event>, k: nat)
    requires Inv(w.state) && Tidy(w.state, w.owed) && ViewOk(w.state, k, w.view, w.owed)
    requires FairRun(w, es, k) && StraysMiss(w, es, k)
    ensures LiveAt(Watched(w, es, k).state, k)
    ensures var c, acts := CellOf(w.state.sems[k]), RunActs(w.state, es, k);
            && CellOf(Watched(w, es, k).state.sems[k]) == C.After(c, acts)
            && Watched(w, es, k).view.held == C.Holders(c, acts, w.view.held) && C.Disciplined(c, acts, w.view.held)
    decreases |es|
  {
    if es != [] {
      ViewStep(w, es[0], k);
      hide Serve, Inv, Tidy, Fair, Strays, ActsOn, Observe, C.Do;
      var c, acts, w1 := CellOf(w.state.sems[k]), ActsOn(w.state, es[0], k), Next(w, es[0], k);
      var rest := RunActs(w1.state, es[1..], k);
      assert RunActs(w.state, es, k) == acts + rest;
      ViewIsHolders(w1, es[1..], k);
      AfterAppend(c, acts, rest);
      HoldersAppend(c, acts, rest, w.view.held);
    }
  }

  /** A semaphore of value v that nobody holds or waits for. */
  ghost predicate Untaken(w: Watch, k: nat, v: nat) {
    LiveAt(w.state, k) && w.state.sems[k].count == v && w.state.sems[k].blocked == [] && w.view == NOBODY
  }

  // ---- The exact ledger of holders ----

  /** A post on another slot wakes, by accident, a process that waits for slot k. */
  predicate Misleads(w: Watch, e: Event, k: int) {
    Woken(w.state, e) != [] && e.call.handle != k && Woken(w.state, e)[0] in w.view.waiting
  }

  /** A post on slot k owes a wake-up and wakes nobody who waits for slot k. */
  predicate Wastes(w: Watch, e: Event, k: int) {
    Woken(w.state, e) != [] && e.call.handle == k && Woken(w.state, e)[0] !in w.view.waiting
  }

  ghost function Misled(w: Watch, es: seq<Event>, k: int): nat
    decreases |es|
  {
    if es == [] then 0 else (if Misleads(w, es[0], k) then 1 else 0) + Misled(Next(w, es[0], k), es[1..], k)
  }

  ghost function Wasted(w: Watch, es: seq<Event>, k: int): nat
    decreases |es|
  {
    if es == [] then 0 else (if Wastes(w, es[0], k) then 1 else 0) + Wasted(Next(w, es[0], k), es[1..], k)
  }

  /** Whoever waits for slot k waits for a reply. */
  ghost predicate WaitersOwed(w: Watch) { forall q | q in w.view.waiting :: q in w.owed }

  lemma WaitersStayOwed(w: Watch, e: Event, k: int)
    requires WaitersOwed(w)
    ensures WaitersOwed(Next(w, e, k))
  {
    hide Serve, Granted, Releases;
  }

  /** Who holds slot k after a post: its sender no more, if it posted k; the process it wakes, if that waits
      for k. */
  lemma HeldAfterPost(w: Watch, e: Event, k: nat)
    requires |w.state.sems| == INITIAL_SEM && k < INITIAL_SEM && e.call.Post? && e.who !in w.view.waiting
    ensures var woken := Woken(w.state, e);
            Next(w, e, k).view.held
                == (if ActsOn(w.state, e, k) != [] then w.view.held - multiset{e.who} else w.view.held)
                                       + (if woken != [] && woken[0] in w.view.waiting then multiset{woken[0]}
                                           else multiset{})
  {
    RepliesShape(w.state, e);
    ReleasedStep(w.state, e, k);
    ActsOfPost(w.state, e, k);
    hide Serve, Granted, Releases, ActsOn, Woken, Withheld;
    PostGranted(w.view.waiting, e, k, Serve(w.state, e).replies, Woken(w.state, e));
  }

  /** A post on slot k raises its count, and owes a wake-up exactly when the count was negative. */
  lemma ActsOfPost(s: State, e: Event, k: nat)
    requires k < |s.sems| == INITIAL_SEM && e.call.Post?
    ensures |Woken(s, e)| <= 1 && !Withheld(s, e)
    ensures var c, acts := CellOf(s.sems[k]), ActsOn(s, e, k);
            if acts == [] then C.After(c, acts) == c && (e.call.handle == k ==> Woken(s, e) == [])
            else
              && acts[0].Post? && e.call.handle == k && C.After(c, acts).count == c.count + 1
              && (Woken(s, e) != [] <==> c.count < 0)
  {
    var c, acts := CellOf(s.sems[k]), ActsOn(s, e, k);
    if acts != [] { assert C.After(c, acts) == C.After(C.Do(c, acts[0]).0, []); }
  }

  /** The ledger of one post. */
  lemma PostLedger(w: Watch, e: Event, k: nat)
    requires |w.state.sems| == INITIAL_SEM && k < INITIAL_SEM && e.call.Post? && WaitersOwed(w) && e.who !in w.owed
    requires ActsOn(w.state, e, k) != [] ==> e.who in w.view.held
    ensures var held, held', c := w.view.held, Next(w, e, k).view.held, CellOf(w.state.sems[k]);
            |held'| + C.Max(C.After(c, ActsOn(w.state, e, k)).count, 0) + (if Wastes(w, e, k) then 1 else 0)
            == |held| + C.Max(c.count, 0) + (if Misleads(w, e, k) then 1 else 0)
  {
    HeldAfterPost(w, e, k);
    ActsOfPost(w.state, e, k);
    hide Next, Woken, ActsOn, C.After;
  }

  /** The ledger of any other request. */
  lemma OwnLedger(w: Watch, e: Event, k: nat)
    requires |w.state.sems| == INITIAL_SEM && k < INITIAL_SEM && !e.call.Post?
    ensures var held, held', c := w.view.held, Next(w, e, k).view.held, CellOf(w.state.sems[k]);
            |held'| + C.Max(C.After(c, ActsOn(w.state, e, k)).count, 0) == |held| + C.Max(c.count, 0)
    ensures !Misleads(w, e, k) && !Wastes(w, e, k)
  {
    var s, c, acts := w.state, CellOf(w.state.sems[k]), ActsOn(w.state, e, k);
    OwnGrants(s, e, k, w.view.waiting);
    ReleasedStep(s, e, k);
    if acts != [] { assert C.After(c, acts) == C.After(C.Do(c, acts[0]).0, []); }
    hide Serve, Granted, Releases, C.After;
  }

  lemma LedgerStep(w: Watch, e: Event, k: nat)
    requires Inv(w.state) && LiveAt(w.state, k) && Fair(w, e, k) && WaitersOwed(w)
    ensures var w' := Next(w, e, k);
            && Inv(w'.state) && LiveAt(w'.state, k) && WaitersOwed(w')
            && |w'.view.held| + C.Max(w'.state.sems[k].count, 0) + (if Wastes(w, e, k) then 1 else 0)
               == |w.view.held| + C.Max(w.state.sems[k].count, 0) + (if Misleads(w, e, k) then 1 else 0)
  {
    SizeOk(w.state);
    ServeKeepsInv(w.state, e);
    StepProjects(w.state, e, k);
    WaitersStayOwed(w, e, k);
    ReleasedStep(w.state, e, k);
    OneAct(w.state, e, k);
    assert CellOf(Next(w, e, k).state.sems[k]) == C.After(CellOf(w.state.sems[k]), ActsOn(w.state, e, k));
    if e.call.Post? { PostLedger(w, e, k); } else { OwnLedger(w, e, k); }
    hide Serve, Inv, Observe, C.After, Wastes, Misleads, ActsOn;
  }

  lemma {:induction false} HoldersLedger(w: Watch, es: seq<Event>, k: nat)
    requires Inv(w.state) && LiveAt(w.state, k) && FairRun(w, es, k) && WaitersOwed(w)
    ensures var end := Watched(w, es, k);
            && LiveAt(end.state, k)
            && |end.view.held| + C.Max(end.state.sems[k].count, 0) + Wasted(w, es, k)
               == |w.view.held| + C.Max(w.state.sems[k].count, 0) + Misled(w, es, k)
    decreases |es|
  {
    hide Next, Fair, Inv, WaitersOwed, Wastes, Misleads;
    if es != [] {
      LedgerStep(w, es[0], k);
      HoldersLedger(Next(w, es[0], k), es[1..], k);
    }
  }

  /** Mutual exclusion on the server, exactly. Over every run in which slot k stays the same semaphore and only
      those who were told that they hold it post it, with waiters lost and replies gone astray as they may: those
      who were told and have not posted, the count, and the posts whose wake-up was wasted make up v and the
      accidental wake-ups. So at most v hold the semaphore if and only if the accidents that let a waiter in
      are no more than the wasted wake-ups and the count together. */
  lemma MutualExclusionIff(w: Watch, es: seq<Event>, k: nat, v: nat)
    requires Inv(w.state) && Untaken(w, k, v) && FairRun(w, es, k)
    ensures LiveAt(Run(w.state, es).state, k)
    ensures var held, count := Watched(w, es, k).view.held, Run(w.state, es).state.sems[k].count;
            && |held| + C.Max(count, 0) + Wasted(w, es, k) == v + Misled(w, es, k)
            && (|held| <= v <==> Misled(w, es, k) <= Wasted(w, es, k) + C.Max(count, 0))
  {
    HoldersLedger(w, es, k);
    FairRunIs(w, es, k);
  }

  /** A stray that misses everyone who waits lets nobody in. */
  lemma {:induction false} NoneMisled(w: Watch, es: seq<Event>, k: nat)
    requires Inv(w.state) && Tidy(w.state, w.owed) && ViewOk(w.state, k, w.view, w.owed)
    requires FairRun(w, es, k) && StraysMiss(w, es, k)
    ensures Misled(w, es, k) == 0
    decreases |es|
  {
    if es != [] {
      ViewStep(w, es[0], k);
      if Woken(w.state, es[0]) != [] { WokenWaits(w, es[0], k); }
      hide Next, Inv, Tidy, ViewOk, Woken, Strays;
      NoneMisled(Next(w, es[0], k), es[1..], k);
    }
  }

  /** In particular at most v hold it as long as no reply reaches a waiting process by accident. */
  lemma MutualExclusion(w: Watch, es: seq<Event>, k: nat, v: nat)
    requires Inv(w.state) && Tidy(w.state, w.owed) && Untaken(w, k, v)
    requires FairRun(w, es, k) && StraysMiss(w, es, k)
    ensures |Watched(w, es, k).view.held| <= v
  {
    NoneMisled(w, es, k);
    MutualExclusionIff(w, es, k, v);
  }

  /** Without a dropped waiter no post finds a sleeper missing, so none is answered by accident. */
  lemma {:induction false} NoDropsNoStrays(w: Watch, es: seq<Event>, k: nat)
    requires Inv(w.state) && Orderly(w.state, w.owed) && Accounted(w.state, w.owed)
    requires FairRun(w, es, k) && NoDrops(w.state, es) && LiveAt(w.state, k)
    ensures StraysMiss(w, es, k) && C.Roomy(CellOf(w.state.sems[k]), RunActs(w.state, es, k))
    decreases |es|
  {
    if es != [] {
      var s, e, w1 := w.state, es[0], Next(w, es[0], k);
      StepAccounted(s, e, w.owed);
      OrderlyPost(s, e, w.owed);
      StepProjects(s, e, k);
      OneAct(s, e, k);
      NotLost(s, e, k);
      hide Serve, Inv, Orderly, Accounted, Drops, Strays, ActsOn, Observe, C.Do, Allowed;
      NoDropsNoStrays(w1, es[1..], k);
      var c, acts, rest := CellOf(s.sems[k]), ActsOn(s, e, k), RunActs(w1.state, es[1..], k);
      TallyAppend(c, acts, rest);
    }
  }

  lemma OrderlyPost(s: State, e: Event, owed: set<int>)
    requires Inv(s) && Orderly(s, owed)
    ensures !Strays(s, e)
  {
    if Strays(s, e) {
      MembersAreLive(s, e.call.handle, e.who);
      SleepersAt(s, owed, e.call.handle);
    }
  }

  lemma NotLost(s: State, e: Event, k: nat)
    requires k < |s.sems| && !Drops(s, e)
    ensures C.Tally(CellOf(s.sems[k]), ActsOn(s, e, k), C.IsLost) == 0
  {}

  lemma TallyAppend(c: C.Cell, a: seq<C.Act>, b: seq<C.Act>)
    requires |a| <= 1
    ensures C.Tally(c, a + b, C.IsLost) == C.Tally(c, a, C.IsLost) + C.Tally(C.After(c, a), b, C.IsLost)
  {
    if a == [] { assert a + b == b; } else { assert (a + b)[0] == a[0] && (a + b)[1..] == b && a[1..] == []; }
  }

  /** And then no unit is wasted: those who hold slot k and the count make up v exactly, so that a process
      is kept asleep only while v others hold the semaphore. */
  lemma NobodySleepsInVain(w: Watch, es: seq<Event>, k: nat, v: nat)
    requires Inv(w.state) && Orderly(w.state, w.owed) && Accounted(w.state, w.owed) && Untaken(w, k, v)
    requires FairRun(w, es, k) && NoDrops(w.state, es)
    ensures LiveAt(Watched(w, es, k).state, k)
    ensures var end := Watched(w, es, k);
            && |end.view.held| + C.Max(end.state.sems[k].count, 0) == v
            && (end.state.sems[k].blocked != [] ==> |end.view.held| == v)
  {
    OrderlyIsTidy(w.state, w.owed);
    NoDropsNoStrays(w, es, k);
    ViewIsHolders(w, es, k);
    var c, acts := CellOf(w.state.sems[k]), RunActs(w.state, es, k);
    hide Watched, RunActs, SlotsOk, NamesOk, Tidy, C.Holders, C.Disciplined, C.After, C.Tally, Orderly, Accounted;
    C.HoldersExact(c, acts, multiset{}, v);
    C.Ledger(c, acts);
    C.Counting(v, acts);
  }
}
