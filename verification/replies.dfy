/** What every request is answered and what it leaves behind, said from the state before it: which calls
    succeed, with what error the others fail, what the fields of the answer hold, and what a semaphore that
    was made, read or destroyed is worth over a run. */
module Replies {
  import opened PoolModel
  import opened NameTable
  import opened Machine
  import opened Invariants
  import opened Runs
  import opened Lifecycle
  import W = Wakeups
  import C = Semaphore

  // ---- Success and failure ----

  /** k is the free slot with the lowest number. */
  ghost predicate Lowest(s: State, k: int) {
    0 <= k < |s.sems| && !Live(s.sems[k]) && forall j | 0 <= j < k :: Live(s.sems[j])
  }

  ghost predicate SlotFree(s: State) { exists k :: 0 <= k < |s.sems| && !Live(s.sems[k]) }

  predicate Bound(s: State, name: string) { Clip(name) in s.names }

  predicate BoundMember(s: State, name: string, p: int) { Bound(s, name) && Member(s, s.names[Clip(name)], p) }

  /** What a request needs to succeed. */
  ghost predicate Admitted(s: State, e: Event)
    requires !FromManager(e.call)
  {
    match e.call
    case Open(name, creat, excl, value) =>
      !excl && |name| <= PATH_MAX && (Bound(s, name) || (creat && value <= SEM_VALUE_MAX && SlotFree(s)))
    case Init(_, value) => s.errno == Ok && value <= SEM_VALUE_MAX && SlotFree(s)
    case Unlink(name) => |name| <= PATH_MAX && BoundMember(s, name, e.who)
    case Close(h) => Member(s, h, e.who)
    case Wait(h) => Member(s, h, e.who)
    case Post(h) => Member(s, h, e.who)
    case GetValue(h, _) => Member(s, h, e.who)
    case TryWait(h) => Member(s, h, e.who) && s.sems[h].count > 0
    case Destroy(h) => Member(s, h, e.who) && s.sems[h].blocked == []
  }

  /** The answer to the caller; a wake-up that the request causes goes out before it. */
  function Own(s: State, e: Event): Reply
    requires Serve(s, e).replies != []
  {
    Serve(s, e).replies[|Serve(s, e).replies| - 1]
  }

  /** The answer is built from the operation's outcome. */
  lemma OwnIs(s: State, e: Event)
    requires !FromManager(e.call)
    ensures var o, step := Operate(s, e), Serve(s, e);
            && (o.result.withheld <==> step.replies == [])
            && (o.result.withheld <==> W.Withheld(s, e))
            && step.state.errno == o.result.state.errno && step.state.sems == o.result.state.sems
            && step.state.names == o.result.state.names
            && step.state.out == Answer(s.out, o.result.ret, o.param1, o.param2, o.params)
            && (!o.result.withheld ==>
                  Own(s, e) == Reply(e.who, step.state.out, if o.result.ret == -1 then o.result.state.errno else Ok))
  {
    EffectsOf(s, e);
    W.RepliesShape(s, e);
    hide DoOpen, DoInit, Create;
  }

  /** Every answer says whether the request was admitted: -1 if it was not, and otherwise 0 or, from an open,
      the slot of the name or the lowest free one. */
  lemma AnswerIff(s: State, e: Event)
    requires Inv(s) && !FromManager(e.call)
    ensures Serve(s, e).replies == [] <==> W.Withheld(s, e)
    ensures !W.Withheld(s, e) ==> Own(s, e).to == e.who && (Own(s, e).body.rta == -1 <==> !Admitted(s, e))
    ensures !W.Withheld(s, e) && Admitted(s, e) ==>
              if e.call.Open? then
                if Bound(s, e.call.name) then Own(s, e).body.rta == s.names[Clip(e.call.name)]
                else Lowest(s, Own(s, e).body.rta)
              else Own(s, e).body.rta == 0
  {
    OwnIs(s, e);
    if e.call.Open? {
      OpenAnswer(s, e.who, e.call.name, e.call.creat, e.call.excl, e.call.value);
    } else if e.call.Init? {
      InitAnswer(s, e.who, e.call.handle, e.call.value);
    }
    hide SlotsOk, NamesOk, Serve, DoOpen, DoInit, Lowest, SlotFree, RemoveFirst, Used;
  }

  lemma OpenAnswer(s: State, who: int, name: string, creat: bool, excl: bool, value: nat)
    requires Inv(s)
    ensures var r := DoOpen(s, who, name, creat, excl, value);
            && (r.ret != -1 <==>
                  && !excl && |name| <= PATH_MAX
                  && (Bound(s, name) || (creat && value <= SEM_VALUE_MAX && SlotFree(s))))
            && (r.ret != -1 ==> if Bound(s, name) then r.ret == s.names[Clip(name)] else Lowest(s, r.ret))
  {
    if Bound(s, name) { NamedIsLive(s, Clip(name)); }
    hide SlotsOk, NamesOk, Used, Clip;
  }

  lemma InitAnswer(s: State, who: int, h: int, value: nat)
    requires |s.sems| == INITIAL_SEM
    ensures var (r, fd) := DoInit(s, who, h, value);
            && (r.ret == 0 <==> s.errno == Ok && value <= SEM_VALUE_MAX && SlotFree(s))
            && (r.ret == 0 || r.ret == -1)
            && (if r.ret == 0 then Lowest(s, fd) else fd == h)
            && (r.ret == 0 ==>
                  r.state.sems == s.sems[fd := Sem(value, 1, if Full(s) then [] else [who], [], true)])
            && r.state.names == s.names
  {
    hide Used;
    assert [who] + [] == [who];
  }

  // ---- The error ----

  /** A reason to refuse a request, and the error that goes with it. */
  datatype Reason = Reason(applies: bool, error: Errno)

  /** The reasons, in the order in which they count. O_EXCL is refused in silence, and sem_init reports an
      error that an earlier request has left. */
  ghost function Reasons(s: State, e: Event): seq<Reason>
    requires !FromManager(e.call)
  {
    match e.call
    case Open(name, creat, excl, value) =>
      [Reason(!Bound(s, name) && !creat, ENOENT), Reason(|name| > PATH_MAX, ENAMETOOLONG),
       Reason(Bound(s, name) && creat && excl, EEXIST), Reason(excl, Ok),
       Reason(!Bound(s, name) && !SlotFree(s), ENOSPC), Reason(!Bound(s, name) && value > SEM_VALUE_MAX, EINVAL)]
    case Init(_, value) =>
      [Reason(!SlotFree(s), ENOSPC), Reason(s.errno != Ok, s.errno), Reason(value > SEM_VALUE_MAX, EINVAL)]
    case Unlink(name) =>
      [Reason(|name| > PATH_MAX, ENAMETOOLONG), Reason(!Bound(s, name), ENOENT),
       Reason(!BoundMember(s, name, e.who), EACCES)]
    case TryWait(h) =>
      [Reason(!Member(s, h, e.who), EINVAL), Reason(Member(s, h, e.who) && s.sems[h].count <= 0, EAGAIN)]
    case Destroy(h) =>
      [Reason(!Member(s, h, e.who), EINVAL), Reason(Member(s, h, e.who) && s.sems[h].blocked != [], EBUSY)]
    case Close(h) => [Reason(!Member(s, h, e.who), EINVAL)]
    case Wait(h) => [Reason(!Member(s, h, e.who), EINVAL)]
    case Post(h) => [Reason(!Member(s, h, e.who), EINVAL)]
    case GetValue(h, _) => [Reason(!Member(s, h, e.who), EINVAL)]
  }

  /** The first reason that applies. */
  ghost predicate First(rs: seq<Reason>, i: int) {
    0 <= i < |rs| && rs[i].applies && forall j | 0 <= j < i :: !rs[j].applies
  }

  /** A request is admitted when no reason applies, and then it is answered Ok; otherwise with the error of the
      first reason that does. */
  lemma ErrorIs(s: State, e: Event)
    requires Inv(s) && !FromManager(e.call) && !W.Withheld(s, e)
    ensures Admitted(s, e) <==> forall i | 0 <= i < |Reasons(s, e)| :: !Reasons(s, e)[i].applies
    ensures Admitted(s, e) ==> Own(s, e).result == Ok
    ensures forall i | First(Reasons(s, e), i) :: Own(s, e).result == Reasons(s, e)[i].error
  {
    OwnIs(s, e);
    if e.call.Open? {
      OpenError(s, e);
    } else if e.call.Init? {
      InitError(s, e);
    } else {
      CallError(s, e);
    }
    hide SlotsOk, NamesOk, Serve, Operate, Admitted, Reasons;
  }

  lemma OpenError(s: State, e: Event)
    requires Inv(s) && e.call.Open?
    ensures var r := Operate(s, e).result;
            && (Admitted(s, e) <==> forall i | 0 <= i < |Reasons(s, e)| :: !Reasons(s, e)[i].applies)
            && (Admitted(s, e) ==> r.ret != -1)
            && forall i | First(Reasons(s, e), i) :: r.ret == -1 && r.state.errno == Reasons(s, e)[i].error
  {
    var rs := Reasons(s, e);
    if Bound(s, e.call.name) { NamedIsLive(s, Clip(e.call.name)); }
    assert rs[0].error == ENOENT && rs[1].error == ENAMETOOLONG && rs[2].error == EEXIST;
    assert rs[3].error == Ok && rs[4].error == ENOSPC && rs[5].error == EINVAL;
    hide SlotsOk, NamesOk, Used, Clip;
  }

  lemma InitError(s: State, e: Event)
    requires |s.sems| == INITIAL_SEM && e.call.Init?
    ensures var r := Operate(s, e).result;
            && (Admitted(s, e) <==> forall i | 0 <= i < |Reasons(s, e)| :: !Reasons(s, e)[i].applies)
            && (Admitted(s, e) ==> r.ret != -1)
            && forall i | First(Reasons(s, e), i) :: r.ret == -1 && r.state.errno == Reasons(s, e)[i].error
  {
    var rs := Reasons(s, e);
    assert rs[0].error == ENOSPC && rs[1].error == s.errno && rs[2].error == EINVAL;
    hide Used;
  }

  lemma CallError(s: State, e: Event)
    requires Inv(s) && !FromManager(e.call) && !e.call.Open? && !e.call.Init?
    ensures var r := Operate(s, e).result;
            && (Admitted(s, e) <==> forall i | 0 <= i < |Reasons(s, e)| :: !Reasons(s, e)[i].applies)
            && (Admitted(s, e) ==> r.ret != -1)
            && forall i | First(Reasons(s, e), i) :: r.ret == -1 && r.state.errno == Reasons(s, e)[i].error
  {
    var rs := Reasons(s, e);
    if e.call.Unlink? {
      assert rs[0].error == ENAMETOOLONG && rs[1].error == ENOENT && rs[2].error == EACCES;
    } else if e.call.TryWait? {
      assert rs[0].error == EINVAL && rs[1].error == EAGAIN;
    } else if e.call.Destroy? {
      assert rs[0].error == EINVAL && rs[1].error == EBUSY;
    } else {
      assert rs[0].error == EINVAL;
    }
    hide SlotsOk, NamesOk, Used, Clip, RemoveFirst;
  }

  /** Only a post causes a second message. */
  lemma AnsweredAlone(s: State, e: Event)
    requires !FromManager(e.call) && !e.call.Post? && !W.Withheld(s, e)
    ensures Serve(s, e).replies != [] && Serve(s, e).replies == [Own(s, e)] && Own(s, e).to == e.who
  {
    W.RepliesShape(s, e);
    assert W.Woken(s, e) == [];
    hide Serve;
  }

  lemma UnlinkReasons(s: State, e: Event)
    requires e.call.Unlink?
    ensures var rs := Reasons(s, e);
            && (First(rs, 0) || First(rs, 1) || First(rs, 2) || Admitted(s, e))
            && (First(rs, 0) <==> |e.call.name| > PATH_MAX) && rs[0].error == ENAMETOOLONG
            && (First(rs, 1) <==> |e.call.name| <= PATH_MAX && !Bound(s, e.call.name)) && rs[1].error == ENOENT
            && (First(rs, 2) <==>
                  |e.call.name| <= PATH_MAX && Bound(s, e.call.name) && !BoundMember(s, e.call.name, e.who))
            && rs[2].error == EACCES
  {
    hide Clip, Member;
    assert Admitted(s, e) <==> |e.call.name| <= PATH_MAX && BoundMember(s, e.call.name, e.who);
  }

  /** In particular sem_unlink: the four answers, each with its exact condition. */
  lemma UnlinkErrorIff(s: State, p: int, name: string, junk: int)
    requires Inv(s)
    ensures var e := Event(p, Unlink(name), junk);
            && Serve(s, e).replies != [] && Serve(s, e).replies == [Own(s, e)] && Own(s, e).to == p
            && (Own(s, e).result == ENAMETOOLONG <==> |name| > PATH_MAX)
            && (Own(s, e).result == ENOENT <==> |name| <= PATH_MAX && !Bound(s, name))
            && (Own(s, e).result == EACCES <==> |name| <= PATH_MAX && Bound(s, name) && !BoundMember(s, name, p))
            && (Own(s, e).result == Ok <==> |name| <= PATH_MAX && BoundMember(s, name, p))
  {
    var e := Event(p, Unlink(name), junk);
    AnsweredAlone(s, e);
    ErrorIs(s, e);
    UnlinkReasons(s, e);
    assert Admitted(s, e) <==> |name| <= PATH_MAX && BoundMember(s, name, p);
    assert BoundMember(s, name, p) ==> Bound(s, name);
    hide SlotsOk, NamesOk, Serve, Bound, BoundMember, Reasons, First;
  }

  /** The requests that start by clearing errno. */
  predicate Clears(call: Call) { call.Open? || call.Wait? || call.TryWait? || call.Post? }

  /** errno after a request: the error of a refusal, otherwise Ok if the request clears it, otherwise as before. */
  lemma ErrnoAfter(s: State, e: Event)
    requires Inv(s) && !FromManager(e.call)
    ensures Serve(s, e).state.errno
            == if !W.Withheld(s, e) && !Admitted(s, e) then Own(s, e).result
               else if Clears(e.call) then Ok else s.errno
  {
    OwnIs(s, e);
    AnswerIff(s, e);
    if e.call.Open? { OpenErrno(s, e.who, e.call.name, e.call.creat, e.call.excl, e.call.value); }
    hide SlotsOk, NamesOk, Serve, Admitted, DoOpen, Clip, RemoveFirst, Used;
  }

  lemma OpenErrno(s: State, who: int, name: string, creat: bool, excl: bool, value: nat)
    ensures var r := DoOpen(s, who, name, creat, excl, value); r.ret != -1 ==> r.state.errno == Ok
  {
    hide Used, Clip;
  }

  // ---- The other fields ----

  /** The two other fields of the answer: the handle, which an admitted init has found and every other call but
      open and unlink was sent; and for getvalue the count, or the value that was sent. What a call does not
      answer with is left from earlier answers. The message keeps the fields for whoever is woken next. */
  lemma FieldsAre(s: State, e: Event)
    requires Inv(s) && !FromManager(e.call)
    ensures var out := Serve(s, e).state.out;
            && (!W.Withheld(s, e) ==> Own(s, e).body == out)
            && (e.call.Open? || e.call.Unlink? ==> out.param1 == s.out.param1)
            && (e.call.Init? ==> if Admitted(s, e) then Lowest(s, out.param1) else out.param1 == e.call.handle)
            && (!e.call.Open? && !e.call.Unlink? && !e.call.Init? ==> out.param1 == e.call.handle)
            && (!e.call.GetValue? ==> out.param2 == s.out.param2)
            && (e.call.GetValue? ==>
                  out.param2 == if Admitted(s, e) then s.sems[e.call.handle].count else e.call.current)
  {
    OwnIs(s, e);
    if e.call.Init? { InitAnswer(s, e.who, e.call.handle, e.call.value); }
    hide SlotsOk, NamesOk, Serve, DoOpen, DoInit, Lowest, SlotFree, RemoveFirst, Used;
  }

  /** The memory manager is answered Ok, anyone else who sends one of its requests EGENERIC, with no effect; the
      message stays as it is. */
  lemma ManagerAnswer(s: State, e: Event)
    requires |s.sems| == INITIAL_SEM && FromManager(e.call)
    ensures Serve(s, e).replies == [Reply(e.who, s.out, if e.who == MM_PROC_NR then Ok else EGENERIC)]
    ensures Serve(s, e).state.out == s.out && (e.who != MM_PROC_NR ==> Serve(s, e).state == s)
  {
    match e.call {
      case Fork(parent, child) => OpenFromSlots(s, parent, child, 0);
      case Exec(p) => CloseFromSlots(s, p, 0);
      case Exit(p) => CloseFromSlots(s, p, 0);
    }
    hide OpenFrom, CloseFrom;
  }

  // ---- What is left behind ----

  /** A refused request leaves every live semaphore and every name as it was, and makes none. */
  lemma RefusedIsClean(s: State, e: Event)
    requires Inv(s) && !FromManager(e.call) && !Admitted(s, e)
    ensures var s' := Serve(s, e).state;
            && |s'.sems| == |s.sems| && s'.names == s.names
            && forall k | 0 <= k < |s.sems| :: if Live(s.sems[k]) then s'.sems[k] == s.sems[k] else !Live(s'.sems[k])
  {
    OwnIs(s, e);
    AnswerIff(s, e);
    FailureIsClean(s, e);
    hide Serve, Operate, SlotsOk, NamesOk, Admitted;
  }

  /** A request that makes a semaphore: an init, or an open of a new name. */
  ghost predicate Makes(s: State, e: Event) {
    !FromManager(e.call) && Admitted(s, e) && (e.call.Init? || (e.call.Open? && !Bound(s, e.call.name)))
  }

  /** The slot it is answered with. */
  function NewSlot(s: State, e: Event): int
    requires Serve(s, e).replies != []
  {
    if e.call.Open? then Own(s, e).body.rta else Own(s, e).body.param1
  }

  /** The semaphore it makes has the value that was asked for, its maker for only member if the pool has a node,
      and a name or, from init, none; it is put in the lowest free slot, and no other slot changes. */
  lemma MakesOne(s: State, e: Event)
    requires Inv(s) && Makes(s, e)
    ensures var s' := Serve(s, e).state;
            && Serve(s, e).replies != [] && Lowest(s, NewSlot(s, e))
            && s'.sems == s.sems[NewSlot(s, e) :=
                 Sem(e.call.value, 1, if Full(s) then [] else [e.who], [], e.call.Init?)]
            && s'.names == if e.call.Init? then s.names else s.names[Clip(e.call.name) := NewSlot(s, e)]
  {
    OwnIs(s, e);
    if e.call.Init? {
      InitAnswer(s, e.who, e.call.handle, e.call.value);
    } else {
      OpenMakes(s, e.who, e.call.name, e.call.creat, e.call.excl, e.call.value);
    }
    hide SlotsOk, NamesOk, Serve, DoOpen, DoInit, Lowest, SlotFree, Full, Clip;
  }

  lemma OpenMakes(s: State, who: int, name: string, creat: bool, excl: bool, value: nat)
    requires Inv(s) && !Bound(s, name) && DoOpen(s, who, name, creat, excl, value).ret != -1
    ensures var r := DoOpen(s, who, name, creat, excl, value);
            && Lowest(s, r.ret) && r.state.names == s.names[Clip(name) := r.ret]
            && r.state.sems == s.sems[r.ret := Sem(value, 1, if Full(s) then [] else [who], [], false)]
  {
    NamesFit(s);
    assert [who] + [] == [who];
    hide SlotsOk, NamesOk, Used, Clip;
  }

  /** A destroy that is answered 0 has freed the slot and emptied its lists, and changed no other slot and no
      name. */
  lemma DestroyFrees(s: State, e: Event)
    requires Inv(s) && e.call.Destroy? && Admitted(s, e)
    ensures var s', h := Serve(s, e).state, e.call.handle;
            && |s'.sems| == |s.sems| && s'.names == s.names
            && !Live(s'.sems[h]) && s'.sems[h].openers == s'.sems[h].blocked == []
            && forall k | 0 <= k < |s.sems| && k != h :: s'.sems[k] == s.sems[k]
  {
    OwnIs(s, e);
    hide SlotsOk, NamesOk, Serve;
  }

  /** An unlink that is answered 0 has unbound the name, and no other, and marked its slot, and changed nothing
      else. */
  lemma UnlinkUnbinds(s: State, e: Event)
    requires Inv(s) && e.call.Unlink? && Admitted(s, e)
    ensures var s', fd := Serve(s, e).state, s.names[Clip(e.call.name)];
            && s'.names == s.names - {Clip(e.call.name)}
            && s'.sems == s.sems[fd := s.sems[fd].(unlinked := true)]
  {
    OwnIs(s, e);
    hide SlotsOk, NamesOk, Serve, Clip;
  }

  /** A wait, trywait or post by a member touches nothing but the count and the sleepers of its slot, which
      `Runs.RunProjects` describes; getvalue touches nothing at all. */
  lemma CountingTouches(s: State, e: Event)
    requires Inv(s) && (e.call.Wait? || e.call.TryWait? || e.call.Post? || e.call.GetValue?) && Admitted(s, e)
    ensures var s', h := Serve(s, e).state, e.call.handle;
            && s'.names == s.names && |s'.sems| == |s.sems|
            && (e.call.GetValue? ==> s'.sems == s.sems)
            && s'.sems == s.sems[h := s.sems[h].(count := s'.sems[h].count, blocked := s'.sems[h].blocked)]
  {
    OwnIs(s, e);
    hide SlotsOk, NamesOk, Serve, Used;
  }

  /** A close by a member takes one entry of it off the openers, and touches nothing else, unless the semaphore has
      no name and that was the last entry: then the slot is freed. */
  lemma CloseTouches(s: State, e: Event)
    requires Inv(s) && e.call.Close? && Admitted(s, e)
    ensures var s', h := Serve(s, e).state, e.call.handle;
            && s'.names == s.names && |s'.sems| == |s.sems|
            && (forall k | 0 <= k < |s.sems| && k != h :: s'.sems[k] == s.sems[k])
            && if s.sems[h].unlinked && s.sems[h].openers == [e.who] then !Live(s'.sems[h])
               else s'.sems[h] == s.sems[h].(openers := s'.sems[h].openers)
                    && multiset(s'.sems[h].openers) == multiset(s.sems[h].openers) - multiset{e.who}
  {
    OwnIs(s, e);
    SizeOk(s);
    CloseReleasesIff(s, e.who, e.call.handle);
    CloseOneSlot(s, e.who, e.call.handle);
    CloseKeepsRest(s.sems[e.call.handle], e.who);
    hide SlotsOk, NamesOk, Serve, RemoveFirst, DoClose, CloseSlot;
  }

  lemma CloseKeepsRest(m: Sem, p: int)
    requires SlotOk(m) && p in m.openers
    ensures if m.unlinked && m.openers == [p] then !Live(CloseSlot(m, p))
            else CloseSlot(m, p) == m.(openers := CloseSlot(m, p).openers)
  {
    RemoveFirstSize(m.openers, p);
    hide RemoveFirst;
  }

  // ---- Values over runs ----

  /** The value of slot k at the start of a run, plus the posts of the run, less what it takes. */
  function Worth(s: State, es: seq<Event>, k: nat): int
    requires k < |s.sems|
  {
    var c, acts := CellOf(s.sems[k]), RunActs(s, es, k);
    c.count + C.Tally(c, acts, C.IsPost) - C.Tally(c, acts, C.Takes)
  }

  /** Over any lawful run in which slot k stays the same semaphore that is its count. */
  lemma CountOver(s: State, es: seq<Event>, k: nat)
    requires Inv(s) && Lawful(s, es) && StaysLive(s, es, k)
    ensures LiveAt(Run(s, es).state, k)
    ensures Run(s, es).state.sems[k].count == Worth(s, es, k)
  {
    RunProjects(s, es, k);
    C.Ledger(CellOf(s.sems[k]), RunActs(s, es, k));
    hide Run, RunActs, C.Tally, C.After, SlotsOk, NamesOk;
  }

  /** What a semaphore was made with counts from then on. */
  lemma MadeWithValue(s: State, e: Event, es: seq<Event>)
    requires Inv(s) && Makes(s, e) && Lawful(Serve(s, e).state, es)
    ensures Serve(s, e).replies != [] && Lowest(s, NewSlot(s, e))
    ensures var s1, k := Serve(s, e).state, NewSlot(s, e);
            && LiveAt(s1, k)
            && (StaysLive(s1, es, k) ==>
                  var c, acts := C.Cell(e.call.value, []), RunActs(s1, es, k);
                  && LiveAt(Run(s1, es).state, k)
                  && Run(s1, es).state.sems[k].count
                     == e.call.value + C.Tally(c, acts, C.IsPost) - C.Tally(c, acts, C.Takes))
  {
    MakesOne(s, e);
    ServeKeepsInv(s, e);
    var s1, k := Serve(s, e).state, NewSlot(s, e);
    assert CellOf(s1.sems[k]) == C.Cell(e.call.value, []);
    hide Serve, SlotsOk, NamesOk, Makes;
    if StaysLive(s1, es, k) { CountOver(s1, es, k); }
  }

  /** What getvalue answers, after any lawful run in which the slot stays the same semaphore: a member is told the
      value at the start plus the posts less what was taken, a stranger only what it sent. */
  lemma GetValueTells(s: State, es: seq<Event>, k: nat, p: int, current: int, junk: int)
    requires Inv(s) && Lawful(s, es) && StaysLive(s, es, k)
    ensures var t := Run(s, es).state;
            Serve(t, Event(p, GetValue(k, current), junk)).replies
            == [if Member(t, k, p) then Reply(p, Message(0, k, Worth(s, es, k)), Ok)
                else Reply(p, Message(-1, k, current), EINVAL)]
  {
    var t := Run(s, es).state;
    RunKeepsInv(s, es);
    CountOver(s, es, k);
    hide Serve, Run, Worth, SlotsOk, NamesOk, Lawful, StaysLive;
    GetValueAnswer(t, p, k, current, junk);
  }

  lemma GetValueAnswer(s: State, p: int, h: int, current: int, junk: int)
    requires Inv(s)
    ensures Serve(s, Event(p, GetValue(h, current), junk)).replies
            == [if Member(s, h, p) then Reply(p, Message(0, h, s.sems[h].count), Ok)
                else Reply(p, Message(-1, h, current), EINVAL)]
  {
    var e := Event(p, GetValue(h, current), junk);
    AnsweredAlone(s, e);
    AnswerIff(s, e);
    FieldsAre(s, e);
    ErrorIs(s, e);
    assert First(Reasons(s, e), 0) <==> !Member(s, h, p);
    hide SlotsOk, NamesOk, Serve;
  }
}
