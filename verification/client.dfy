/** The producers and consumers of the example program: any number of processes sharing the two
    semaphores sem_prod (initially 15) and sem_cons (initially 0). */
module ProdCons {
  import opened Semaphore
  import L = PoolModel

  /** Where a process stands in its loop. */
  datatype Pc =
    | PWait | PBlocked | PRead | PPost | PDone
    | CStart | CRead | CWait | CBlocked | CUse | CPost(eof: bool) | CDone

  datatype World = World(prod: Cell, cons: Cell, pc: seq<Pc>, created: nat, consumed: nat, finished: nat)

  /** Who moves, whether getchar (or, at CStart, the uninitialised c) gives EOF, whether the pool has
      a node should the mover fall asleep, and what sem_post's local holds. */
  datatype Choice = Choice(p: int, eof: bool, room: bool, junk: int)

  const BUFFER := 15

  /** A reply arrives at a process blocked in sem_wait; any other process is not listening. */
  function Deliver(pc: seq<Pc>, fate: Fate): seq<Pc> {
    if !(fate.Woke? || fate.Stray?) || !(0 <= fate.p < |pc|) then pc
    else match pc[fate.p]
      case PBlocked => pc[fate.p := PRead]
      case CBlocked => pc[fate.p := CUse]
      case _ => pc
  }

  function Move(w: World, c: Choice): World {
    if !(0 <= c.p < |w.pc|) then w
    else match w.pc[c.p]
      case PWait =>
        var (prod, fate) := Do(w.prod, Wait(c.p, c.room));
        w.(prod := prod, pc := w.pc[c.p := if fate.Granted? then PRead else PBlocked])
      case PRead =>
        if c.eof then w.(pc := w.pc[c.p := PDone]) else w.(pc := w.pc[c.p := PPost], created := w.created + 1)
      case PPost =>
        var (cons, fate) := Do(w.cons, Post(c.p, c.junk));
        w.(cons := cons, pc := Deliver(w.pc[c.p := PWait], fate))
      case CStart =>
        if c.eof then w.(pc := w.pc[c.p := CDone], finished := w.finished + 1) else w.(pc := w.pc[c.p := CRead])
      case CRead =>
        w.(pc := w.pc[c.p := if c.eof then CPost(true) else CWait])
      case CWait =>
        var (cons, fate) := Do(w.cons, Wait(c.p, c.room));
        w.(cons := cons, pc := w.pc[c.p := if fate.Granted? then CUse else CBlocked])
      case CUse =>
        w.(pc := w.pc[c.p := CPost(false)], consumed := w.consumed + 1)
      case CPost(eof) =>
        var (prod, fate) := Do(w.prod, Post(c.p, c.junk));
        w.(prod := prod, pc := Deliver(w.pc[c.p := if eof then CDone else CRead], fate),
           finished := if eof then w.finished + 1 else w.finished)
      case _ => w
  }

  function Play(w: World, cs: seq<Choice>): World
    decreases |cs|
  {
    if cs == [] then w else Play(Move(w, cs[0]), cs[1..])
  }

  ghost predicate Opening(w: World) {
    && w.prod == Cell(BUFFER, []) && w.cons == Cell(0, []) && w.created == w.consumed == w.finished == 0
    && forall p | 0 <= p < |w.pc| :: w.pc[p] == PWait || w.pc[p] == CStart
  }

  /** 0 <= created - consumed <= 15, give or take what finished consumers posted. */
  predicate Bounded(w: World) { 0 <= w.created - w.consumed <= BUFFER + w.finished }

  /** How many processes stand at k. */
  function At(pc: seq<Pc>, k: Pc): nat {
    if pc == [] then 0 else (if pc[0] == k then 1 else 0) + At(pc[1..], k)
  }

  lemma {:induction false} AtUpdate(pc: seq<Pc>, p: nat, to: Pc, k: Pc)
    requires p < |pc|
    ensures At(pc[p := to], k) == At(pc, k) - (if pc[p] == k then 1 else 0) + (if to == k then 1 else 0)
  {
    if p > 0 {
      assert pc[p := to][1..] == pc[1..][p - 1 := to];
      AtUpdate(pc[1..], p - 1, to, k);
    }
  }

  /** The sleepers of a semaphore are distinct processes blocked on it. */
  ghost predicate Asleep(c: Cell, pc: seq<Pc>, k: Pc) {
    && (forall p | p in c.blocked :: 0 <= p < |pc| && pc[p] == k)
    && (forall i, j | 0 <= i < j < |c.blocked| :: c.blocked[i] != c.blocked[j])
    && Missing(c) == 0
  }

  /** Tokens of sem_prod are never more than 15 plus what consumers gave back; tokens of sem_cons
      never more than what producers put in. */
  ghost predicate Balanced(w: World) {
    && Asleep(w.prod, w.pc, PBlocked) && Asleep(w.cons, w.pc, CBlocked)
    && Max(w.prod.count, 0) + At(w.pc, PRead) + w.created + At(w.pc, CPost(false)) <= BUFFER + w.consumed + w.finished
    && Max(w.cons.count, 0) + At(w.pc, CUse) + w.consumed + At(w.pc, PPost) <= w.created
  }

  lemma {:induction false} NobodyAt(pc: seq<Pc>, k: Pc)
    requires forall p | 0 <= p < |pc| :: pc[p] != k
    ensures At(pc, k) == 0
  {
    if pc != [] { NobodyAt(pc[1..], k); }
  }

  lemma AllAtUpdate(pc: seq<Pc>, p: int, to: Pc)
    requires 0 <= p < |pc|
    ensures forall k {:trigger At(pc[p := to], k)} | k in {PRead, CPost(false), CUse, PPost} ::
              At(pc[p := to], k) == At(pc, k) - (if pc[p] == k then 1 else 0) + (if to == k then 1 else 0)
  {
    forall k | k in {PRead, CPost(false), CUse, PPost}
      ensures At(pc[p := to], k) == At(pc, k) - (if pc[p] == k then 1 else 0) + (if to == k then 1 else 0)
    {
      AtUpdate(pc, p, to, k);
    }
  }

  /** Every move with room in the pool keeps the balance. */
  lemma MoveKeepsBalance(w: World, c: Choice)
    requires Balanced(w) && (0 <= c.p < |w.pc| && (w.pc[c.p] == PWait || w.pc[c.p] == CWait) ==> c.room)
    ensures Balanced(Move(w, c))
  {
    hide Balanced, Move;
    if !(0 <= c.p < |w.pc|) {
      StayKeeps(w, c);
    } else {
      match w.pc[c.p] {
        case PPost => PostKeepsCons(w, c);
        case CPost(_) => PostKeepsProd(w, c);
        case PWait => WaitKeepsProd(w, c);
        case CWait => WaitKeepsCons(w, c);
        case _ => LocalKeeps(w, c);
      }
    }
  }

  lemma StayKeeps(w: World, c: Choice)
    requires Balanced(w) && !(0 <= c.p < |w.pc|)
    ensures Balanced(Move(w, c))
  {}

  /** A process that is not asleep on c, moving to a place where nobody sleeps, disturbs no sleeper. */
  lemma AsleepFrame(c: Cell, pc: seq<Pc>, k: Pc, p: nat, to: Pc)
    requires Asleep(c, pc, k) && p < |pc| && pc[p] != k
    ensures Asleep(c, pc[p := to], k)
  {}

  lemma LocalKeeps(w: World, c: Choice)
    requires Balanced(w) && 0 <= c.p < |w.pc|
    requires !w.pc[c.p].PPost? && !w.pc[c.p].CPost? && !w.pc[c.p].PWait? && !w.pc[c.p].CWait?
    ensures Balanced(Move(w, c))
  {
    hide At, Asleep;
    AllAtUpdate(w.pc, c.p, Move(w, c).pc[c.p]);
    if !w.pc[c.p].PBlocked? && !w.pc[c.p].CBlocked? {
      AsleepFrame(w.prod, w.pc, PBlocked, c.p, Move(w, c).pc[c.p]);
      AsleepFrame(w.cons, w.pc, CBlocked, c.p, Move(w, c).pc[c.p]);
    }
  }

  lemma WaitKeepsProd(w: World, c: Choice)
    requires Balanced(w) && 0 <= c.p < |w.pc| && w.pc[c.p] == PWait && c.room
    ensures Balanced(Move(w, c))
  {
    hide At;
    AllAtUpdate(w.pc, c.p, Move(w, c).pc[c.p]);
  }

  lemma WaitKeepsCons(w: World, c: Choice)
    requires Balanced(w) && 0 <= c.p < |w.pc| && w.pc[c.p] == CWait && c.room
    ensures Balanced(Move(w, c))
  {
    hide At;
    AllAtUpdate(w.pc, c.p, Move(w, c).pc[c.p]);
  }

  /** A post leaves the remaining sleepers asleep, and the woken process, if any, was one of them. */
  lemma AsleepAfterPost(c: Cell, pc: seq<Pc>, k: Pc, from: int, junk: int, to: Pc)
    requires Asleep(c, pc, k)
    ensures var (c', fate) := Do(c, Post(from, junk));
            && (fate.Banked? || fate.Woke?)
            && (fate.Banked? ==> Asleep(c', pc, k))
            && (fate.Woke? ==> 0 <= fate.p < |pc| && pc[fate.p] == k && Asleep(c', pc[fate.p := to], k))
  {
    var (c', fate) := Do(c, Post(from, junk));
    if fate.Woke? {
      assert fate.p in c.blocked;
      forall p | p in c'.blocked ensures 0 <= p < |pc| && pc[fate.p := to][p] == k {
        var i :| 0 <= i < |c'.blocked| && c'.blocked[i] == p;
        assert c.blocked[i + 1] == p && c.blocked[i + 1] in c.blocked && c.blocked[0] != c.blocked[i + 1];
      }
    }
  }

  lemma PostKeepsCons(w: World, c: Choice)
    requires Balanced(w) && 0 <= c.p < |w.pc| && w.pc[c.p] == PPost
    ensures Balanced(Move(w, c))
  {
    hide At, Asleep;
    var pc1, fate := w.pc[c.p := PWait], Do(w.cons, Post(c.p, c.junk)).1;
    AllAtUpdate(w.pc, c.p, PWait);
    AsleepFrame(w.prod, w.pc, PBlocked, c.p, PWait);
    AsleepFrame(w.cons, w.pc, CBlocked, c.p, PWait);
    AsleepAfterPost(w.cons, pc1, CBlocked, c.p, c.junk, CUse);
    if fate.Woke? {
      AllAtUpdate(pc1, fate.p, CUse);
      AsleepFrame(w.prod, pc1, PBlocked, fate.p, CUse);
    }
  }

  lemma PostKeepsProd(w: World, c: Choice)
    requires Balanced(w) && 0 <= c.p < |w.pc| && w.pc[c.p].CPost?
    ensures Balanced(Move(w, c))
  {
    hide At, Asleep;
    var to := if w.pc[c.p].eof then CDone else CRead;
    var pc1, fate := w.pc[c.p := to], Do(w.prod, Post(c.p, c.junk)).1;
    AllAtUpdate(w.pc, c.p, to);
    AsleepFrame(w.prod, w.pc, PBlocked, c.p, to);
    AsleepFrame(w.cons, w.pc, CBlocked, c.p, to);
    AsleepAfterPost(w.prod, pc1, PBlocked, c.p, c.junk, PRead);
    if fate.Woke? {
      AllAtUpdate(pc1, fate.p, PRead);
      AsleepFrame(w.cons, pc1, CBlocked, fate.p, PRead);
    }
  }

  // ---- A pool large enough ----

  /** The pool behind the run has `nodes` nodes: two per process for its two open semaphores, one per
      sleeper. */
  predicate HasRoom(w: World, nodes: nat) { 2 * |w.pc| + |w.prod.blocked| + |w.cons.blocked| < nodes }

  predicate InPool(w: World, cs: seq<Choice>, nodes: nat)
    decreases |cs|
  {
    cs == [] || ((cs[0].room <==> HasRoom(w, nodes)) && InPool(Move(w, cs[0]), cs[1..], nodes))
  }

  /** Distinct processes that stand at k are no more than there are. */
  lemma {:induction false} SleepersFit(b: seq<int>, pc: seq<Pc>, k: Pc)
    requires k != PDone && forall i, j | 0 <= i < j < |b| :: b[i] != b[j]
    requires forall p | p in b :: 0 <= p < |pc| && pc[p] == k
    ensures |b| <= At(pc, k)
    decreases |b|
  {
    if b != [] {
      var p := b[0];
      assert p in b;
      AtUpdate(pc, p, PDone, k);
      forall q | q in b[1..] ensures 0 <= q < |pc| && pc[p := PDone][q] == k {
        var j :| 0 <= j < |b[1..]| && b[1..][j] == q;
        assert b[j + 1] == q && q in b;
      }
      SleepersFit(b[1..], pc[p := PDone], k);
    }
  }

  lemma {:induction false} AtMost(pc: seq<Pc>)
    ensures At(pc, PBlocked) + At(pc, CBlocked) + At(pc, PRead) + At(pc, PPost) + At(pc, PDone) + At(pc, CUse)
            + At(pc, CPost(false))
         <= |pc|
    ensures At(pc, PBlocked) + At(pc, CBlocked) + At(pc, PWait) + At(pc, CWait) <= |pc|
  {
    if pc != [] { AtMost(pc[1..]); }
  }

  lemma {:induction false} Somebody(pc: seq<Pc>, p: nat)
    requires p < |pc|
    ensures At(pc, pc[p]) > 0
  {
    if p > 0 { Somebody(pc[1..], p - 1); }
  }

  /** A process about to wait is not asleep, so with three nodes per process it finds a free one. */
  lemma WaiterHasRoom(w: World, p: nat, nodes: nat)
    requires Balanced(w) && p < |w.pc| && (w.pc[p] == PWait || w.pc[p] == CWait) && 3 * |w.pc| <= nodes
    ensures HasRoom(w, nodes)
  {
    SleepersFit(w.prod.blocked, w.pc, PBlocked);
    SleepersFit(w.cons.blocked, w.pc, CBlocked);
    AtMost(w.pc);
    Somebody(w.pc, p);
    hide At;
  }

  lemma MoveSize(w: World, c: Choice)
    ensures |Move(w, c).pc| == |w.pc|
  {}

  lemma {:induction false} PlayKeepsBalance(w: World, cs: seq<Choice>, nodes: nat)
    requires Balanced(w) && 3 * |w.pc| <= nodes && InPool(w, cs, nodes)
    ensures Balanced(Play(w, cs))
    decreases |cs|
  {
    hide Balanced, Move, HasRoom;
    if cs != [] {
      var c := cs[0];
      if 0 <= c.p < |w.pc| && (w.pc[c.p] == PWait || w.pc[c.p] == CWait) { WaiterHasRoom(w, c.p, nodes); }
      MoveKeepsBalance(w, c);
      MoveSize(w, c);
      PlayKeepsBalance(Move(w, c), cs[1..], nodes);
    }
  }

  /** The bounded buffer in a pool with three nodes per process, for any number of producers and
      consumers and in every interleaving. */
  lemma BoundedBufferInPool(w: World, cs: seq<Choice>, nodes: nat)
    requires Opening(w) && 3 * |w.pc| <= nodes && InPool(w, cs, nodes)
    ensures Bounded(Play(w, cs)) && Balanced(Play(w, cs))
  {
    NobodyAt(w.pc, PRead);
    NobodyAt(w.pc, CPost(false));
    NobodyAt(w.pc, CUse);
    NobodyAt(w.pc, PPost);
    PlayKeepsBalance(w, cs, nodes);
  }

  // ---- What the counters count ----

  /** The consumers that have finished are those that stand at the end of their loop. */
  predicate FinishedOk(w: World) { w.finished == At(w.pc, CDone) }

  lemma DeliverAt(pc: seq<Pc>, fate: Fate)
    ensures At(Deliver(pc, fate), CDone) == At(pc, CDone)
  {
    if (fate.Woke? || fate.Stray?) && 0 <= fate.p < |pc| {
      AtUpdate(pc, fate.p, PRead, CDone);
      AtUpdate(pc, fate.p, CUse, CDone);
    }
    hide At;
  }

  lemma MoveKeepsFinished(w: World, c: Choice)
    requires FinishedOk(w)
    ensures FinishedOk(Move(w, c))
  {
    if 0 <= c.p < |w.pc| {
      match w.pc[c.p] {
        case PPost =>
          AtUpdate(w.pc, c.p, PWait, CDone);
          DeliverAt(w.pc[c.p := PWait], Do(w.cons, Post(c.p, c.junk)).1);
        case CPost(eof) =>
          var to := if eof then CDone else CRead;
          AtUpdate(w.pc, c.p, to, CDone);
          DeliverAt(w.pc[c.p := to], Do(w.prod, Post(c.p, c.junk)).1);
        case _ => AtUpdate(w.pc, c.p, Move(w, c).pc[c.p], CDone);
      }
    }
    hide At, Deliver, Do;
  }

  lemma {:induction false} PlayKeepsFinished(w: World, cs: seq<Choice>)
    requires FinishedOk(w)
    ensures FinishedOk(Play(w, cs))
    decreases |cs|
  {
    hide FinishedOk, Move;
    if cs != [] {
      MoveKeepsFinished(w, cs[0]);
      PlayKeepsFinished(Move(w, cs[0]), cs[1..]);
    }
  }

  /** In every interleaving, `finished` is the number of consumers that have come to the end of their input. */
  lemma FinishedAreDone(w: World, cs: seq<Choice>)
    requires Opening(w)
    ensures Play(w, cs).finished == At(Play(w, cs).pc, CDone)
  {
    NobodyAt(w.pc, CDone);
    PlayKeepsFinished(w, cs);
    hide At, Play;
  }

  // ---- Any pool ----

  /** How many processes stand at the places that matter. */
  datatype Census = Census(pBlocked: int, cBlocked: int, pRead: int, pPost: int, pDone: int, cUse: int, cPost: int)

  function Count(pc: seq<Pc>): Census {
    Census(At(pc, PBlocked), At(pc, CBlocked), At(pc, PRead), At(pc, PPost), At(pc, PDone), At(pc, CUse),
        At(pc, CPost(false)))
  }

  function Bit(b: bool): int { if b then 1 else 0 }

  /** The census after one process has gone from one place to another. */
  function Gone(n: Census, from: Pc, to: Pc): Census {
    Census(n.pBlocked - Bit(from == PBlocked) + Bit(to == PBlocked),
           n.cBlocked - Bit(from == CBlocked) + Bit(to == CBlocked),
           n.pRead - Bit(from == PRead) + Bit(to == PRead), n.pPost - Bit(from == PPost) + Bit(to == PPost),
           n.pDone - Bit(from == PDone) + Bit(to == PDone), n.cUse - Bit(from == CUse) + Bit(to == CUse),
           n.cPost - Bit(from == CPost(false)) + Bit(to == CPost(false)))
  }

  lemma CountUpdate(pc: seq<Pc>, p: nat, to: Pc)
    requires p < |pc|
    ensures Count(pc[p := to]) == Gone(Count(pc), pc[p], to)
  {
    AtUpdate(pc, p, to, PBlocked);
    AtUpdate(pc, p, to, CBlocked);
    AtUpdate(pc, p, to, PRead);
    AtUpdate(pc, p, to, PPost);
    AtUpdate(pc, p, to, PDone);
    AtUpdate(pc, p, to, CUse);
    AtUpdate(pc, p, to, CPost(false));
    hide At;
  }

  /** Those blocked on a semaphore have taken a unit from its count and not passed, so the units not handed
      out are the count plus the blocked. A stray reply only moves a unit from one semaphore to the other:
      the books balance whatever waiters were lost and whoever was woken by accident. */
  predicate Books(prod: int, cons: int, n: Census, created: int, consumed: int, finished: int) {
    && prod + n.pBlocked >= 0 && cons + n.cBlocked >= 0
    && prod + n.pBlocked + n.pRead + created + n.cPost <= BUFFER + consumed + finished
    && cons + n.cBlocked + n.cUse + consumed + n.pPost <= created
    && prod + n.pBlocked + cons + n.cBlocked + n.pRead + n.pPost + n.pDone + n.cUse + n.cPost >= BUFFER
  }

  predicate Solvent(w: World) {
    Books(w.prod.count, w.cons.count, Count(w.pc), w.created, w.consumed, w.finished)
  }

  predicate Sound(n: Census, size: nat) {
    && n.pBlocked >= 0 && n.cBlocked >= 0 && n.pRead >= 0 && n.pPost >= 0 && n.pDone >= 0 && n.cUse >= 0 && n.cPost >= 0
    && n.pBlocked + n.cBlocked + n.pRead + n.pPost + n.pDone + n.cUse + n.cPost <= size
  }

  lemma CensusFits(pc: seq<Pc>)
    ensures Sound(Count(pc), |pc|)
  {
    AtMost(pc);
  }

  lemma PWaitStaysSolvent(w: World, c: Choice)
    requires Solvent(w) && 0 <= c.p < |w.pc| && w.pc[c.p] == PWait
    ensures Solvent(Move(w, c))
  {
    hide Count;
    var w1, to := Move(w, c), if w.prod.count > 0 then PRead else PBlocked;
    assert w1 == w.(prod := w.prod.(count := w.prod.count - 1, blocked := w1.prod.blocked), pc := w.pc[c.p := to]);
    hide Move, Do;
    CensusFits(w.pc);
    CountUpdate(w.pc, c.p, to);
  }

  lemma CWaitStaysSolvent(w: World, c: Choice)
    requires Solvent(w) && 0 <= c.p < |w.pc| && w.pc[c.p] == CWait
    ensures Solvent(Move(w, c))
  {
    hide Count;
    var w1, to := Move(w, c), if w.cons.count > 0 then CUse else CBlocked;
    assert w1 == w.(cons := w.cons.(count := w.cons.count - 1, blocked := w1.cons.blocked), pc := w.pc[c.p := to]);
    hide Move, Do;
    CensusFits(w.pc);
    CountUpdate(w.pc, c.p, to);
  }

  lemma LocalStaysSolvent(w: World, c: Choice)
    requires Solvent(w) && 0 <= c.p < |w.pc|
    requires !w.pc[c.p].PPost? && !w.pc[c.p].CPost? && !w.pc[c.p].PWait? && !w.pc[c.p].CWait?
    ensures Solvent(Move(w, c))
  {
    hide Count, Do;
    var w1 := Move(w, c);
    assert w1.prod == w.prod && w1.cons == w.cons && w1.pc == w.pc[c.p := w1.pc[c.p]];
    CountUpdate(w.pc, c.p, w1.pc[c.p]);
  }

  /** The census after a reply, if `heard`: nobody was listening, or a process asleep on one of the two. */
  predicate AfterReply(n: Census, n': Census, heard: bool) {
    || n' == n
    || (heard && n' == n.(pBlocked := n.pBlocked - 1, pRead := n.pRead + 1))
    || (heard && n' == n.(cBlocked := n.cBlocked - 1, cUse := n.cUse + 1))
  }

  lemma DeliverCount(pc: seq<Pc>, fate: Fate)
    ensures |Deliver(pc, fate)| == |pc|
    ensures AfterReply(Count(pc), Count(Deliver(pc, fate)), fate.Woke? || fate.Stray?)
  {
    hide Count;
    if (fate.Woke? || fate.Stray?) && 0 <= fate.p < |pc| {
      CountUpdate(pc, fate.p, PRead);
      CountUpdate(pc, fate.p, CUse);
    }
  }

  /** A post of sem_cons by a producer: were it answered to a producer asleep on sem_prod when sem_prod has
      no unit, the books would show sixteen others elsewhere. */
  lemma PPostBooks(prod: int, cons: int, n: Census, n': Census, created: int, consumed: int, finished: int)
    requires Books(prod, cons, n, created, consumed, finished) && Sound(n, 16) && Sound(n', 16)
    requires AfterReply(n.(pPost := n.pPost - 1), n', cons < 0)
    ensures Books(prod, cons + 1, n', created, consumed, finished)
  {}

  /** A post of sem_prod by a consumer, at the end of the file or after a character. */
  lemma CPostBooks(prod: int, cons: int, n: Census, n': Census, created: int, consumed: int, finished: int, eof: bool)
    requires Books(prod, cons, n, created, consumed, finished) && Sound(n, 16) && Sound(n', 16)
    requires AfterReply(n.(cPost := n.cPost - Bit(!eof)), n', prod < 0)
    ensures Books(prod + 1, cons, n', created, consumed, finished + Bit(eof))
  {}

  lemma PPostGone(n: Census)
    ensures Gone(n, PPost, PWait) == n.(pPost := n.pPost - 1)
  {}

  lemma CPostGone(n: Census, eof: bool)
    ensures Gone(n, CPost(eof), if eof then CDone else CRead) == n.(cPost := n.cPost - Bit(!eof))
  {}

  lemma PPostStaysSolvent(w: World, c: Choice)
    requires Solvent(w) && |w.pc| <= 16 && 0 <= c.p < |w.pc| && w.pc[c.p] == PPost
    ensures Solvent(Move(w, c))
  {
    hide Count, Books, AfterReply, Gone, Sound;
    var pc1, fate, w1 := w.pc[c.p := PWait], Do(w.cons, Post(c.p, c.junk)).1, Move(w, c);
    assert w1 == w.(cons := w.cons.(count := w.cons.count + 1, blocked := w1.cons.blocked), pc := Deliver(pc1, fate));
    assert fate.Woke? || fate.Stray? <==> w.cons.count < 0;
    hide Deliver, Move, Do;
    CountUpdate(w.pc, c.p, PWait);
    PPostGone(Count(w.pc));
    DeliverCount(pc1, fate);
    CensusFits(w.pc);
    CensusFits(w1.pc);
    SoundMore(Count(w.pc), |w.pc|, 16);
    SoundMore(Count(w1.pc), |w1.pc|, 16);
    PPostBooks(w.prod.count, w.cons.count, Count(w.pc), Count(w1.pc), w.created, w.consumed, w.finished);
  }

  lemma SoundMore(n: Census, a: nat, b: nat)
    requires Sound(n, a) && a <= b
    ensures Sound(n, b)
  {}

  lemma CPostStaysSolvent(w: World, c: Choice)
    requires Solvent(w) && |w.pc| <= 16 && 0 <= c.p < |w.pc| && w.pc[c.p].CPost?
    ensures Solvent(Move(w, c))
  {
    hide Count, Books, AfterReply, Gone, Sound;
    var eof := w.pc[c.p].eof;
    var pc1, fate, w1 := w.pc[c.p := if eof then CDone else CRead], Do(w.prod, Post(c.p, c.junk)).1, Move(w, c);
    assert w1 == w.(prod := w.prod.(count := w.prod.count + 1, blocked := w1.prod.blocked), pc := Deliver(pc1, fate),
        finished := w.finished + Bit(eof));
    assert fate.Woke? || fate.Stray? <==> w.prod.count < 0;
    hide Deliver, Move, Do, Bit;
    CountUpdate(w.pc, c.p, if eof then CDone else CRead);
    CPostGone(Count(w.pc), eof);
    DeliverCount(pc1, fate);
    CensusFits(w.pc);
    CensusFits(w1.pc);
    SoundMore(Count(w.pc), |w.pc|, 16);
    SoundMore(Count(w1.pc), |w1.pc|, 16);
    CPostBooks(w.prod.count, w.cons.count, Count(w.pc), Count(w1.pc), w.created, w.consumed, w.finished, eof);
  }

  lemma {:induction false} PlayStaysSolvent(w: World, cs: seq<Choice>)
    requires Solvent(w) && |w.pc| <= 16
    ensures Solvent(Play(w, cs))
    decreases |cs|
  {
    hide Solvent, Move;
    if cs != [] {
      var c := cs[0];
      MoveSize(w, c);
      if !(0 <= c.p < |w.pc|) { Idle(w, c); }
      else if w.pc[c.p].PPost? { PPostStaysSolvent(w, c); }
      else if w.pc[c.p].CPost? { CPostStaysSolvent(w, c); }
      else if w.pc[c.p].PWait? { PWaitStaysSolvent(w, c); }
      else if w.pc[c.p].CWait? { CWaitStaysSolvent(w, c); }
      else { LocalStaysSolvent(w, c); }
      PlayStaysSolvent(Move(w, c), cs[1..]);
    }
  }

  lemma Idle(w: World, c: Choice)
    requires !(0 <= c.p < |w.pc|)
    ensures Move(w, c) == w
  {}

  lemma OpeningSolvent(w: World)
    requires Opening(w)
    ensures Solvent(w)
  {
    NobodyAt(w.pc, PBlocked);
    NobodyAt(w.pc, CBlocked);
    NobodyAt(w.pc, PRead);
    NobodyAt(w.pc, CPost(false));
    NobodyAt(w.pc, CUse);
    NobodyAt(w.pc, PPost);
  }

  /** The bounded buffer for up to sixteen processes, in every interleaving, whatever the pool holds:
      waiters may be lost and replies may stray, the bound stands. */
  lemma BoundedBuffer(w: World, cs: seq<Choice>)
    requires Opening(w) && |w.pc| <= 16
    ensures Bounded(Play(w, cs))
  {
    OpeningSolvent(w);
    PlayStaysSolvent(w, cs);
  }

  // ---- Runs that meet and break the bound ----

  lemma {:induction false} PlayAppend(w: World, a: seq<Choice>, b: seq<Choice>)
    ensures Play(w, a + b) == Play(Play(w, a), b)
    decreases |a|
  {
    hide Move;
    if a == [] {
      assert a + b == b;
    } else {
      assert (a + b)[0] == a[0] && (a + b)[1..] == a[1..] + b;
      PlayAppend(Move(w, a[0]), a[1..], b);
    }
  }

  predicate AllRoom(cs: seq<Choice>) { forall i | 0 <= i < |cs| :: cs[i].room }

  predicate NoRoom(cs: seq<Choice>) { forall i | 0 <= i < |cs| :: !cs[i].room }

  /** n times the same choice. */
  function Again(c: Choice, n: nat): seq<Choice> {
    if n == 0 then [] else [c] + Again(c, n - 1)
  }

  lemma {:induction false} AgainAppend(c: Choice, m: nat, n: nat)
    ensures Again(c, m + n) == Again(c, m) + Again(c, n)
  {
    if m > 0 { AgainAppend(c, m - 1, n); }
  }

  /** Going on after a move. */
  lemma OneOf(w: World, c: Choice, n: nat)
    requires n > 0
    ensures Play(w, Again(c, n)) == Play(Move(w, c), Again(c, n - 1))
  {
    hide Move;
  }

  /** One round of producer p: wait, read a character, post. */
  lemma OneRound(w: World, c: Choice)
    requires 0 <= c.p < |w.pc| && w.pc[c.p] == PWait && !c.eof && w.prod.count > 0 && w.cons.count >= 0
    ensures Play(w, Again(c, 3))
            == w.(prod := w.prod.(count := w.prod.count - 1), cons := w.cons.(count := w.cons.count + 1),
            created := w.created + 1)
  {
    var p := c.p;
    var w1 := w.(prod := w.prod.(count := w.prod.count - 1), pc := w.pc[p := PRead]);
    var w2 := w1.(created := w.created + 1, pc := w.pc[p := PPost]);
    var w3 := w2.(cons := w.cons.(count := w.cons.count + 1), pc := w.pc);
    hide Play, Again;
    assert w1.pc[p := PPost] == w2.pc && w2.pc[p := PWait] == w.pc;
    ThreeTimes(w, c, w1, w2, w3);
  }

  lemma ThreeTimes(w: World, c: Choice, w1: World, w2: World, w3: World)
    requires Move(w, c) == w1 && Move(w1, c) == w2 && Move(w2, c) == w3
    ensures Play(w, Again(c, 3)) == w3
  {
    OneOf(w, c, 3);
    OneOf(w1, c, 2);
    OneOf(w2, c, 1);
    hide Move;
  }

  lemma {:induction false} ManyRounds(w: World, c: Choice, n: nat)
    requires 0 <= c.p < |w.pc| && w.pc[c.p] == PWait && !c.eof && w.prod.count >= n && w.cons.count >= 0
    ensures Play(w, Again(c, 3 * n))
            == w.(prod := w.prod.(count := w.prod.count - n), cons := w.cons.(count := w.cons.count + n),
            created := w.created + n)
    decreases n
  {
    hide Move, Play, Again;
    if n > 0 {
      OneRound(w, c);
      AgainAppend(c, 3, 3 * (n - 1));
      PlayAppend(w, Again(c, 3), Again(c, 3 * (n - 1)));
      ManyRounds(Play(w, Again(c, 3)), c, n - 1);
    } else {
      Nothing(w, c);
    }
  }

  lemma Nothing(w: World, c: Choice)
    ensures Play(w, Again(c, 0)) == w
  {}

  const TWO := World(Cell(BUFFER, []), Cell(0, []), [PWait, CStart], 0, 0, 0)

  /** The consumer, process 1, meets EOF at its first character and still posts sem_prod. */
  const GIVE_UP := [Choice(1, false, true, 0), Choice(1, true, true, 0), Choice(1, true, true, 0)]

  const WRITE := Choice(0, false, true, 0)

  lemma ConsumerGivesUp()
    ensures var w := Play(TWO, GIVE_UP);
            && w.prod == Cell(16, []) && w.cons == Cell(0, []) && w.created == w.consumed == 0 && w.finished == 1
            && |w.pc| == 2 && w.pc[0] == PWait
  {}

  /** Two processes never leave the pool of the server without room. */
  lemma {:induction false} TwoHaveRoom(w: World, cs: seq<Choice>, nodes: nat)
    requires Balanced(w) && 3 * |w.pc| < nodes && AllRoom(cs)
    ensures InPool(w, cs, nodes)
    decreases |cs|
  {
    hide Balanced, Move;
    if cs != [] {
      SleepersAreFew(w);
      MoveKeepsBalance(w, cs[0]);
      MoveSize(w, cs[0]);
      TwoHaveRoom(Move(w, cs[0]), cs[1..], nodes);
    }
  }

  lemma SleepersAreFew(w: World)
    requires Balanced(w)
    ensures |w.prod.blocked| + |w.cons.blocked| <= |w.pc|
  {
    SleepersFit(w.prod.blocked, w.pc, PBlocked);
    SleepersFit(w.cons.blocked, w.pc, CBlocked);
    AtMost(w.pc);
    hide At;
  }

  /** The bound cannot be tightened: after one consumer has given up, a producer creates sixteen
      elements that nobody consumes. */
  lemma BoundIsTight()
    ensures Opening(TWO) && InPool(TWO, GIVE_UP + Again(WRITE, 48), L.MAX_NODES)
    ensures var end := Play(TWO, GIVE_UP + Again(WRITE, 48)); end.created - end.consumed == 16 && end.finished == 1
  {
    hide Again, Play, InPool;
    ConsumerGivesUp();
    PlayAppend(TWO, GIVE_UP, Again(WRITE, 48));
    ManyRounds(Play(TWO, GIVE_UP), WRITE, 16);
    AgainRooms(WRITE, 48);
    assert AllRoom(GIVE_UP + Again(WRITE, 48));
    TwoHaveRoom(TWO, GIVE_UP + Again(WRITE, 48), L.MAX_NODES);
  }

  // ---- Seventeen processes ----

  /** Fifteen producers and at least two consumers. */
  function Crowd(n: nat): World
    requires n >= 17
  {
    World(Cell(BUFFER, []), Cell(0, []), seq(n, i => if i < 15 then PWait else CStart), 0, 0, 0)
  }

  /** n producers wait, each finding no node. */
  function Losers(n: nat): seq<Choice> {
    if n == 0 then [] else Losers(n - 1) + [Choice(n - 1, false, false, 0)]
  }

  lemma {:induction false} AllLost(w: World, n: nat)
    requires n <= |w.pc| && w.prod.count <= 0 && forall i | 0 <= i < n :: w.pc[i] == PWait
    ensures var end := Play(w, Losers(n));
            && end == w.(prod := w.prod.(count := w.prod.count - n), pc := end.pc) && |end.pc| == |w.pc|
            && forall i | 0 <= i < |w.pc| :: end.pc[i] == if i < n then PBlocked else w.pc[i]
  {
    if n > 0 {
      var c := Choice(n - 1, false, false, 0);
      AllLost(w, n - 1);
      PlayAppend(w, Losers(n - 1), [c]);
      OnlyOne(Play(w, Losers(n - 1)), c);
      hide Play, Losers;
    }
  }

  lemma OnlyOne(w: World, c: Choice)
    ensures Play(w, [c]) == Move(w, c)
  {
    hide Move;
    assert [c][1..] == [] && Play(Move(w, c), []) == Move(w, c);
  }

  /** A consumer reads, waits, consumes and posts; its post finds a producer missing and goes nowhere. */
  lemma OneMeal(w: World, c: Choice)
    requires 0 <= c.p < |w.pc| && w.pc[c.p] == CRead && !c.eof && c.junk == -1
    requires w.cons.count > 0 && w.prod.count < 0 && w.prod.blocked == []
    ensures Play(w, Again(c, 4))
            == w.(cons := w.cons.(count := w.cons.count - 1), prod := w.prod.(count := w.prod.count + 1),
            consumed := w.consumed + 1)
  {
    var p := c.p;
    var w1 := w.(pc := w.pc[p := CWait]);
    var w2 := w1.(cons := w.cons.(count := w.cons.count - 1), pc := w.pc[p := CUse]);
    var w3 := w2.(consumed := w.consumed + 1, pc := w.pc[p := CPost(false)]);
    var w4 := w3.(prod := w.prod.(count := w.prod.count + 1), pc := w.pc);
    assert w1.pc[p := CUse] == w2.pc && w2.pc[p := CPost(false)] == w3.pc && w3.pc[p := CRead] == w.pc;
    assert Move(w, c) == w1 && Move(w1, c) == w2 && Move(w2, c) == w3 && Move(w3, c) == w4;
    hide Move, Play, Again;
    OneOf(w, c, 4);
    ThreeTimes(w1, c, w2, w3, w4);
  }

  lemma {:induction false} ManyMeals(w: World, c: Choice, n: nat)
    requires 0 <= c.p < |w.pc| && w.pc[c.p] == CRead && !c.eof && c.junk == -1
    requires w.cons.count >= n && w.prod.count + n <= 0 && w.prod.blocked == []
    ensures Play(w, Again(c, 4 * n))
            == w.(cons := w.cons.(count := w.cons.count - n), prod := w.prod.(count := w.prod.count + n),
            consumed := w.consumed + n)
    decreases n
  {
    hide Move, Play, Again;
    if n > 0 {
      OneMeal(w, c);
      AgainAppend(c, 4, 4 * (n - 1));
      PlayAppend(w, Again(c, 4), Again(c, 4 * (n - 1)));
      ManyMeals(Play(w, Again(c, 4)), c, n - 1);
    } else {
      Nothing(w, c);
    }
  }

  const FILL := Choice(0, false, false, 0)
  const EAT := Choice(15, false, false, -1)
  const STARVE := Choice(16, false, false, 0)

  /** Consumer 15 eats a fifteenth time, up to its post. */
  lemma LastMeal(w: World)
    requires |w.pc| >= 17 && w.pc[15] == CRead && w.cons == Cell(1, [])
    ensures Play(w, Again(EAT, 3))
            == w.(cons := Cell(0, []), consumed := w.consumed + 1, pc := w.pc[15 := CPost(false)])
  {
    var w1 := w.(pc := w.pc[15 := CWait]);
    var w2 := w1.(cons := Cell(0, []), pc := w1.pc[15 := CUse]);
    var w3 := w2.(consumed := w.consumed + 1, pc := w2.pc[15 := CPost(false)]);
    assert Move(w, EAT) == w1 && Move(w1, EAT) == w2 && Move(w2, EAT) == w3;
    assert w3.pc == w.pc[15 := CPost(false)];
    hide Move, Play, Again;
    ThreeTimes(w, EAT, w1, w2, w3);
  }

  /** Consumer 16 waits in vain for a sixteenth element. */
  lemma NothingLeft(w: World)
    requires |w.pc| >= 17 && w.pc[16] == CStart && w.cons == Cell(0, [])
    ensures Play(w, Again(STARVE, 3)) == w.(cons := Cell(-1, []), pc := w.pc[16 := CBlocked])
  {
    var w1 := w.(pc := w.pc[16 := CRead]);
    var w2 := w1.(pc := w1.pc[16 := CWait]);
    var w3 := w2.(cons := Cell(-1, []), pc := w2.pc[16 := CBlocked]);
    assert Move(w, STARVE) == w1 && Move(w1, STARVE) == w2 && Move(w2, STARVE) == w3;
    assert w3.pc == w.pc[16 := CBlocked];
    hide Move, Play, Again;
    ThreeTimes(w, STARVE, w1, w2, w3);
  }

  const TO_THE_WRONG_ONE := [Choice(15, false, false, 16), STARVE]

  /** The post of 15 is answered to 16, which consumes. */
  lemma WronglyFed(w: World)
    requires |w.pc| >= 17 && w.pc[15] == CPost(false) && w.pc[16] == CBlocked && w.prod == Cell(-1, [])
    ensures Play(w, TO_THE_WRONG_ONE).consumed == w.consumed + 1 && Play(w, TO_THE_WRONG_ONE).created == w.created
  {
    var w1 := Move(w, TO_THE_WRONG_ONE[0]);
    assert w1.pc[16] == CUse && w1.consumed == w.consumed && |w1.pc| == |w.pc| && w1.created == w.created;
    assert Move(w1, STARVE).consumed == w.consumed + 1 && Move(w1, STARVE).created == w.created;
    hide Move;
    OnlyOne(w1, STARVE);
    assert TO_THE_WRONG_ONE[1..] == [STARVE];
  }

  lemma TheSixteenthMeal(w: World)
    requires |w.pc| >= 17 && w.pc[15] == CRead && w.pc[16] == CStart && w.prod == Cell(-1, []) && w.cons == Cell(1, [])
    ensures var end := Play(w, Again(EAT, 3) + Again(STARVE, 3) + TO_THE_WRONG_ONE);
            end.consumed == w.consumed + 2 && end.created == w.created
  {
    hide Move, Play, Again;
    LastMeal(w);
    NothingLeft(Play(w, Again(EAT, 3)));
    PlayAppend(w, Again(EAT, 3), Again(STARVE, 3));
    WronglyFed(Play(w, Again(EAT, 3) + Again(STARVE, 3)));
    PlayAppend(w, Again(EAT, 3) + Again(STARVE, 3), TO_THE_WRONG_ONE);
  }

  function Spree(): seq<Choice> {
    Again(FILL, 45) + Losers(15) + [EAT] + Again(EAT, 56) + (Again(EAT, 3) + Again(STARVE, 3) + TO_THE_WRONG_ONE)
  }

  /** A pool just large enough for all of them to open both semaphores never has room for a sleeper. */
  lemma {:induction false} NeverRoom(w: World, cs: seq<Choice>, nodes: nat)
    requires nodes <= 2 * |w.pc| && NoRoom(cs)
    ensures InPool(w, cs, nodes)
    decreases |cs|
  {
    hide Move;
    if cs != [] {
      MoveSize(w, cs[0]);
      NeverRoom(Move(w, cs[0]), cs[1..], nodes);
    }
  }

  lemma {:induction false} AgainRooms(c: Choice, n: nat)
    ensures if c.room then AllRoom(Again(c, n)) else NoRoom(Again(c, n))
  {
    if n > 0 { AgainRooms(c, n - 1); }
  }

  lemma {:induction false} LoserRooms(n: nat)
    ensures NoRoom(Losers(n))
  {
    if n > 0 { LoserRooms(n - 1); }
  }

  lemma NoRoomAppend(a: seq<Choice>, b: seq<Choice>)
    requires NoRoom(a) && NoRoom(b)
    ensures NoRoom(a + b)
  {}

  lemma SpreeRooms()
    ensures NoRoom(Spree())
  {
    AgainRooms(FILL, 45);
    LoserRooms(15);
    AgainRooms(EAT, 56);
    AgainRooms(EAT, 3);
    AgainRooms(STARVE, 3);
    assert NoRoom([EAT]) && NoRoom(TO_THE_WRONG_ONE);
    hide Again, Losers, NoRoom;
    NoRoomAppend(Again(EAT, 3), Again(STARVE, 3));
    NoRoomAppend(Again(EAT, 3) + Again(STARVE, 3), TO_THE_WRONG_ONE);
    NoRoomAppend(Again(FILL, 45), Losers(15));
    NoRoomAppend(Again(FILL, 45) + Losers(15), [EAT]);
    NoRoomAppend(Again(FILL, 45) + Losers(15) + [EAT], Again(EAT, 56));
    NoRoomAppend(Again(FILL, 45) + Losers(15) + [EAT] + Again(EAT, 56), Again(EAT, 3) + Again(STARVE, 3)
        + TO_THE_WRONG_ONE);
  }

  /** With seventeen processes or more, in a pool that just lets them open the semaphores, the bound fails:
      fifteen producers are lost on sem_prod, fifteen elements are consumed, and the last post is answered to
      a consumer that waits for a sixteenth. */
  lemma SpreeBreaksTheBound(n: nat)
    requires n >= 17
    ensures Opening(Crowd(n)) && InPool(Crowd(n), Spree(), 2 * n)
    ensures Play(Crowd(n), Spree()).consumed == 16 && Play(Crowd(n), Spree()).created == 15
  {
    hide Play, Again, Losers, InPool;
    var w := Crowd(n);
    SpreeRooms();
    NeverRoom(w, Spree(), 2 * n);
    ManyRounds(w, FILL, 15);
    var w1 := Play(w, Again(FILL, 45));
    AllLost(w1, 15);
    var w2 := Play(w1, Losers(15));
    OnlyOne(w2, EAT);
    var w3 := Play(w2, [EAT]);
    assert w3 == w2.(pc := w2.pc[15 := CRead]);
    ManyMeals(w3, EAT, 14);
    TheSixteenthMeal(Play(w3, Again(EAT, 56)));
    PlayAppend(w, Again(FILL, 45), Losers(15));
    PlayAppend(w, Again(FILL, 45) + Losers(15), [EAT]);
    PlayAppend(w, Again(FILL, 45) + Losers(15) + [EAT], Again(EAT, 56));
    PlayAppend(w, Again(FILL, 45) + Losers(15) + [EAT] + Again(EAT, 56), Again(EAT, 3) + Again(STARVE, 3)
        + TO_THE_WRONG_ONE);
  }

  /** The bounded buffer of n processes that are all in both semaphores, in every interleaving and whatever
      becomes of their waits and of stray replies, if and only if there are at most sixteen of them. How many
      the server lets in is a matter of its pool: `BufferServer`. */
  lemma BoundedBufferIff(n: nat)
    ensures (forall w, cs :: Opening(w) && |w.pc| == n ==> Bounded(Play(w, cs))) <==> n <= 16
  {
    if n <= 16 {
      forall w, cs | Opening(w) && |w.pc| == n ensures Bounded(Play(w, cs)) { BoundedBuffer(w, cs); }
    } else {
      SpreeBreaksTheBound(n);
      assert Opening(Crowd(n)) && |Crowd(n).pc| == n && !Bounded(Play(Crowd(n), Spree()));
    }
  }
}
