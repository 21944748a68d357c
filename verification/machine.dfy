/** The semaphore server as a state machine on values: ten slots, the name map, errno and the
    outgoing message. One event is one request of the main loop. */
module Machine {
  import opened PoolModel
  import opened NameTable

  const INITIAL_SEM := 10
  const SEM_VALUE_MAX := 35000
  const PATH_MAX := 255
  const MM_PROC_NR := 0

  datatype Errno = Ok | ENOENT | ENAMETOOLONG | EEXIST | EINVAL | ENOSPC | EACCES | EBUSY | EAGAIN | EGENERIC

  /** A slot of sem_array; refCount is 0 when the slot is free. */
  datatype Sem = Sem(count: int, refCount: nat, openers: seq<int>, blocked: seq<int>, unlinked: bool)

  /** The fields of the global reply message that `answer` fills. */
  datatype Message = Message(rta: int, param1: int, param2: int)

  datatype State = State(sems: seq<Sem>, names: map<string, int>, errno: Errno, out: Message)

  datatype Reply = Reply(to: int, body: Message, result: Errno)

  datatype Call =
    | Open(name: string, creat: bool, excl: bool, value: nat)
    | Close(handle: int)
    | Init(handle: int, value: nat)
    | Wait(handle: int)
    | Post(handle: int)
    | Unlink(name: string)
    | GetValue(handle: int, current: int)
    | TryWait(handle: int)
    | Destroy(handle: int)
    | Fork(parent: int, child: int)
    | Exec(proc: int)
    | Exit(proc: int)

  /** A request and who sent it; `junk` is what the stack holds in sem_post's `proc`. */
  datatype Event = Event(who: int, call: Call, junk: int)

  /** What one operation leaves behind: its return value, the processes it woke, and whether
      the caller's reply is withheld. */
  datatype Result = Result(state: State, ret: int, woken: seq<int>, withheld: bool)

  // ---- Slots ----

  predicate Live(m: Sem) { m.refCount != 0 }

  predicate IsHandle(h: int) { 0 <= h < INITIAL_SEM }

  /** The test at the head of every operation on a handle. */
  predicate Member(s: State, h: int, p: int) {
    IsHandle(h) && h < |s.sems| && p in s.sems[h].openers
  }

  /** Pool nodes held by the first n slots. */
  function Used(sems: seq<Sem>, n: nat): nat
    requires n <= |sems|
  {
    if n == 0 then 0 else Used(sems, n - 1) + |sems[n - 1].openers| + |sems[n - 1].blocked|
  }

  predicate Full(s: State) { Used(s.sems, |s.sems|) >= MAX_NODES }

  /** ListInsert on an unsorted list, its LIST_NO_MEM answer ignored by every caller. */
  function Push(s: State, list: seq<int>, p: int): seq<int> {
    if Full(s) then list else [p] + list
  }

  function FirstFree(sems: seq<Sem>, i: nat): (r: nat)
    requires i <= |sems|
    ensures i <= r <= |sems|
    ensures forall k | i <= k < r :: Live(sems[k])
    ensures r < |sems| ==> !Live(sems[r])
    decreases |sems| - i
  {
    if i == |sems| || !Live(sems[i]) then i else FirstFree(sems, i + 1)
  }

  // ---- Operations ----

  function Create(s: State, who: int, handle: int, value: nat): (Result, int) {
    var i := FirstFree(s.sems, 0);
    if i == |s.sems| then (Result(s.(errno := ENOSPC), -1, [], false), handle)
    else if s.errno != Ok then (Result(s, -1, [], false), handle)
    else if value > SEM_VALUE_MAX then
      (Result(s.(errno := EINVAL, sems := s.sems[i := s.sems[i].(count := value)]), -1, [], false), handle)
    else (Result(s.(sems := s.sems[i := Sem(value, 1, Push(s, [], who), [], false)]), 0, [], false), i)
  }

  /** Returns the handle, -1 for SEM_FAILED. */
  function DoOpen(s: State, who: int, name: string, creat: bool, excl: bool, value: nat): Result
  {
    var s0, key := s.(errno := Ok), Clip(name);
    if key !in s.names && !creat then Result(s0.(errno := ENOENT), -1, [], false)
    else if |name| > PATH_MAX then Result(s0.(errno := ENAMETOOLONG), -1, [], false)
    else if key in s.names && creat && excl then Result(s0.(errno := EEXIST), -1, [], false)
    else if key in s.names && !excl then
      var fd := s.names[key];
      if !(0 <= fd < |s.sems|) then Result(s0, -1, [], false) // never: names bind slot numbers
      else
        var m := s.sems[fd];
        Result(s0.(sems := s.sems[fd := m.(refCount := m.refCount + 1, openers := Push(s, m.openers, who))]),
               fd, [], false)
    else if key !in s.names && creat && !excl then
      var (r, fd) := Create(s0, who, -1, value);
      if r.ret == -1 then r
      else Result(r.state.(names := if |s.names| == MAX_HASH_ELEM then s.names else s.names[key := fd]), fd, [], false)
    else Result(s0, -1, [], false)
  }

  /** Returns 0 or -1 and the handle, which is left alone on failure. */
  function DoInit(s: State, who: int, handle: int, value: nat): (Result, int) {
    var (r, fd) := Create(s, who, handle, value);
    if r.ret == -1 || !(0 <= fd < |s.sems|) then (r, handle)
    else (r.(state := r.state.(sems := r.state.sems[fd := r.state.sems[fd].(unlinked := true)])), fd)
  }

  function Fail(s: State, e: Errno): Result {
    Result(s.(errno := e), -1, [], false)
  }

  function DoDestroy(s: State, who: int, h: int): Result {
    if !Member(s, h, who) then Fail(s, EINVAL)
    else if s.sems[h].blocked != [] then Fail(s, EBUSY)
    else Result(s.(sems := s.sems[h := s.sems[h].(refCount := 0, openers := [], blocked := [])]), 0, [], false)
  }

  function DoUnlink(s: State, who: int, name: string): Result {
    var key := Clip(name);
    if |name| > PATH_MAX then Fail(s, ENAMETOOLONG)
    else if key !in s.names then Fail(s, ENOENT)
    else if !Member(s, s.names[key], who) then Fail(s, EACCES)
    else
      var fd := s.names[key];
      Result(s.(sems := s.sems[fd := s.sems[fd].(unlinked := true)], names := s.names - {key}), 0, [], false)
  }

  function DoClose(s: State, who: int, h: int): Result {
    if !Member(s, h, who) then Fail(s, EINVAL)
    else
      var rest := RemoveFirst(s.sems[h].openers, who);
      var m := s.sems[h].(openers := rest);
      var m' := if m.unlinked && rest == [] then m.(refCount := 0, blocked := []) else m;
      Result(s.(sems := s.sems[h := m']), 0, [], false)
  }

  function DoWait(s: State, who: int, h: int): Result {
    if !Member(s, h, who) then Fail(s, EINVAL)
    else
      var m := s.sems[h];
      var blocks := m.count <= 0;
      var m' := m.(count := m.count - 1, blocked := if blocks then Push(s, m.blocked, who) else m.blocked);
      Result(s.(errno := Ok, sems := s.sems[h := m']), 0, [], blocks)
  }

  function DoTryWait(s: State, who: int, h: int): Result {
    if !Member(s, h, who) then Fail(s, EINVAL)
    else if s.sems[h].count <= 0 then Fail(s, EAGAIN)
    else Result(s.(errno := Ok, sems := s.sems[h := s.sems[h].(count := s.sems[h].count - 1)]), 0, [], false)
  }

  function DoPost(s: State, who: int, h: int, junk: int): Result {
    if !Member(s, h, who) then Fail(s, EINVAL)
    else
      var m := s.sems[h];
      var wakes := m.count < 0;
      var m' := m.(count := m.count + 1, blocked := if wakes && m.blocked != [] then m.blocked[1..] else m.blocked);
      var woken := if !wakes then [] else if m.blocked == [] then [junk] else [m.blocked[0]];
      Result(s.(errno := Ok, sems := s.sems[h := m']), 0, woken, false)
  }

  /** Returns 0 or -1 and the value read, `current` on failure. */
  function DoGetValue(s: State, who: int, h: int, current: int): (Result, int) {
    if !Member(s, h, who) then (Fail(s, EINVAL), current)
    else (Result(s, 0, [], false), s.sems[h].count)
  }

  /** sem_open_all from slot i on: the child joins every slot its parent is in. */
  function OpenFrom(s: State, parent: int, child: int, i: nat): (s': State)
    requires i <= |s.sems|
    ensures |s'.sems| == |s.sems|
    decreases |s.sems| - i
  {
    if i == |s.sems| then s else OpenFrom(OpenOne(s, parent, child, i), parent, child, i + 1)
  }

  function OpenOne(s: State, parent: int, child: int, i: nat): State
    requires i < |s.sems|
  {
    var m := s.sems[i];
    if parent in m.openers
    then s.(sems := s.sems[i := m.(refCount := m.refCount + 1, openers := Push(s, m.openers, child))])
    else s
  }

  function DoOpenAll(s: State, parent: int, child: int): State {
    OpenFrom(s, parent, child, 0)
  }

  /** sem_close_all from slot i on: one sem_close per slot on behalf of p. */
  function CloseFrom(s: State, p: int, i: nat): (s': State)
    requires i <= |s.sems|
    ensures |s'.sems| == |s.sems|
    decreases |s.sems| - i
  {
    if i == |s.sems| then s else CloseFrom(DoClose(s, p, i).state, p, i + 1)
  }

  function DoCloseAll(s: State, p: int): State {
    CloseFrom(s, p, 0)
  }

  // ---- Dispatch and reply ----

  /** `answer`: fills as many fields of the outgoing message as there are values to return. */
  function Answer(out: Message, rta: int, param1: int, param2: int, params: nat): Message {
    Message(rta, if params >= 2 then param1 else out.param1, if params >= 3 then param2 else out.param2)
  }

  datatype Step = Step(state: State, replies: seq<Reply>)

  /** sem_wake: one reply per woken process, sent from inside the operation. */
  function Wakes(woken: seq<int>, out: Message, e: Errno): seq<Reply> {
    if woken == [] then [] else [Reply(woken[0], Answer(out, 0, 0, 0, 1), e)] + Wakes(woken[1..], out, e)
  }

  /** semaphore_entry after the operation returned r, then main's reply unless it is withheld. */
  function Finish(who: int, r: Result, param1: int, param2: int, params: nat): Step {
    var out := Answer(r.state.out, r.ret, param1, param2, params);
    var result := if r.ret == -1 then r.state.errno else Ok;
    Step(r.state.(out := out),
         Wakes(r.woken, r.state.out, r.state.errno) + (if r.withheld then [] else [Reply(who, out, result)]))
  }

  datatype Outcome = Outcome(result: Result, param1: int, param2: int, params: nat)

  predicate FromManager(call: Call) { call.Fork? || call.Exec? || call.Exit? }

  /** semaphore_entry: the operation asked for and the values to answer with. */
  function Operate(s: State, e: Event): Outcome
    requires !FromManager(e.call)
  {
    match e.call
    case Open(name, creat, excl, value) => Outcome(DoOpen(s, e.who, name, creat, excl, value), 0, 0, 1)
    case Close(h) => Outcome(DoClose(s, e.who, h), h, 0, 2)
    case Init(h, value) => var (r, fd) := DoInit(s, e.who, h, value); Outcome(r, fd, 0, 2)
    case Wait(h) => Outcome(DoWait(s, e.who, h), h, 0, 2)
    case Post(h) => Outcome(DoPost(s, e.who, h, e.junk), h, 0, 2)
    case Unlink(name) => Outcome(DoUnlink(s, e.who, name), 0, 0, 1)
    case GetValue(h, current) => var (r, v) := DoGetValue(s, e.who, h, current); Outcome(r, h, v, 3)
    case TryWait(h) => Outcome(DoTryWait(s, e.who, h), h, 0, 2)
    case Destroy(h) => Outcome(DoDestroy(s, e.who, h), h, 0, 2)
  }

  /** do_fork, do_exec and do_exit, as far as semaphores go. */
  function Manage(s: State, call: Call): State
    requires FromManager(call)
  {
    match call
    case Fork(parent, child) => DoOpenAll(s, parent, child)
    case Exec(p) => DoCloseAll(s, p)
    case Exit(p) => DoCloseAll(s, p)
  }

  /** One iteration of the main loop. */
  function Serve(s: State, e: Event): Step {
    if FromManager(e.call) then
      if e.who != MM_PROC_NR then Step(s, [Reply(e.who, s.out, EGENERIC)])
      else var s' := Manage(s, e.call); Step(s', [Reply(e.who, s'.out, Ok)])
    else
      var o := Operate(s, e);
      Finish(e.who, o.result, o.param1, o.param2, o.params)
  }

  /** A run of the main loop. */
  function Run(s: State, es: seq<Event>): Step
    decreases |es|
  {
    if es == [] then Step(s, [])
    else
      var first := Serve(s, es[0]);
      var rest := Run(first.state, es[1..]);
      Step(rest.state, first.replies + rest.replies)
  }

  const FREE_SEM := Sem(0, 0, [], [], false)
  const INITIAL := State(seq(INITIAL_SEM, _ => FREE_SEM), map[], Ok, Message(0, 0, 0))
}
