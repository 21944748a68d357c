/** One semaphore on its own: its count and its list of sleepers, and what happens to each
    process that waits, tries or posts. The server projects onto this automaton slot by slot. */
module Semaphore {
  datatype Cell = Cell(count: int, blocked: seq<int>)

  /** `room` says whether the pool had a node for the sleeper; `junk` is the uninitialised local
      that sem_post wakes when the list is empty. */
  datatype Act = Wait(p: int, room: bool) | Try(p: int) | Post(from: int, junk: int)

  datatype Fate = Granted(p: int) | Queued | Lost | Refused | Banked | Woke(p: int) | Stray(p: int)

  function Do(c: Cell, a: Act): (Cell, Fate) {
    match a
    case Wait(p, room) =>
      if c.count > 0 then (c.(count := c.count - 1), Granted(p))
      else if room then (Cell(c.count - 1, [p] + c.blocked), Queued)
      else (c.(count := c.count - 1), Lost)
    case Try(p) =>
      if c.count > 0 then (c.(count := c.count - 1), Granted(p)) else (c, Refused)
    case Post(_, junk) =>
      if c.count >= 0 then (c.(count := c.count + 1), Banked)
      else if c.blocked == [] then (c.(count := c.count + 1), Stray(junk))
      else (Cell(c.count + 1, c.blocked[1..]), Woke(c.blocked[0]))
  }

  function After(c: Cell, acts: seq<Act>): Cell
    decreases |acts|
  {
    if acts == [] then c else After(Do(c, acts[0]).0, acts[1..])
  }

  /** How many steps of a run satisfy `what`. */
  function Tally(c: Cell, acts: seq<Act>, what: (Act, Fate) -> bool): nat
    decreases |acts|
  {
    if acts == [] then 0
    else
      var (c', fate) := Do(c, acts[0]);
      (if what(acts[0], fate) then 1 else 0) + Tally(c', acts[1..], what)
  }

  predicate IsPost(a: Act, f: Fate) { a.Post? }
  predicate Takes(a: Act, f: Fate) { a.Wait? || (a.Try? && f.Granted?) }
  predicate IsGrant(a: Act, f: Fate) { f.Granted? || f.Woke? }
  predicate IsLost(a: Act, f: Fate) { f.Lost? }
  predicate IsStray(a: Act, f: Fate) { f.Stray? }

  function Max(a: int, b: int): int { if a < b then b else a }
  function Min(a: int, b: int): int { if a < b then a else b }

  /** Sleepers that the count speaks of and the list does not hold. */
  function Missing(c: Cell): int { Max(0, -c.count) - |c.blocked| }

  /** The ledger of one action. */
  lemma LedgerStep(c: Cell, a: Act)
    ensures var (c', fate) := Do(c, a);
            && c'.count == c.count + (if IsPost(a, fate) then 1 else 0) - (if Takes(a, fate) then 1 else 0)
            && Missing(c') == Missing(c) + (if IsLost(a, fate) then 1 else 0) - (if IsStray(a, fate) then 1 else 0)
            && (if IsGrant(a, fate) then 1 else 0)
               == (if Takes(a, fate) then 1 else 0) - (if IsLost(a, fate) then 1 else 0) - (|c'.blocked| - |c.blocked|)
  {}

  /** The ledger of any run, from any state. */
  lemma {:induction false} Ledger(c: Cell, acts: seq<Act>)
    ensures After(c, acts).count == c.count + Tally(c, acts, IsPost) - Tally(c, acts, Takes)
    ensures Missing(After(c, acts)) == Missing(c) + Tally(c, acts, IsLost) - Tally(c, acts, IsStray)
    ensures Tally(c, acts, IsGrant)
            == Tally(c, acts, Takes) - Tally(c, acts, IsLost) - (|After(c, acts).blocked| - |c.blocked|)
    decreases |acts|
  {
    if acts != [] {
      LedgerStep(c, acts[0]);
      Ledger(Do(c, acts[0]).0, acts[1..]);
      hide Do, Missing, IsPost, Takes, IsLost, IsStray, IsGrant;
    }
  }

  lemma {:induction false} MissingStays(c: Cell, acts: seq<Act>)
    requires Missing(c) >= 0
    ensures Missing(After(c, acts)) >= 0
    decreases |acts|
  {
    if acts != [] { MissingStays(Do(c, acts[0]).0, acts[1..]); }
  }

  /** The counting invariant of a semaphore created with value v, over every run: the count is
      v + posts - takes; sleepers are max(0, -count) less the lost ones still unaccounted for;
      grants and stray wakes together are min(v + posts, takes). */
  lemma Counting(v: nat, acts: seq<Act>)
    ensures var c := Cell(v, []);
            var end, posts, takes := After(c, acts), Tally(c, acts, IsPost), Tally(c, acts, Takes);
            var grants, lost, strays := Tally(c, acts, IsGrant), Tally(c, acts, IsLost), Tally(c, acts, IsStray);
            && end.count == v + posts - takes
            && |end.blocked| == Max(0, -end.count) - (lost - strays)
            && strays <= lost
            && grants + strays == Min(v + posts, takes)
  {
    Ledger(Cell(v, []), acts);
    MissingStays(Cell(v, []), acts);
  }

  predicate Roomy(c: Cell, acts: seq<Act>) { Tally(c, acts, IsLost) == 0 }

  /** Sleepers are max(0, -count) after every prefix of a run precisely when the run loses no waiter. */
  lemma {:induction false} SleepersMatchIff(c: Cell, acts: seq<Act>)
    requires Missing(c) == 0
    ensures (forall i | 0 <= i <= |acts| :: Missing(After(c, acts[..i])) == 0) <==> Roomy(c, acts)
    decreases |acts|
  {
    if acts != [] {
      var (c', fate) := Do(c, acts[0]);
      assert acts[..1] == [acts[0]] && After(c, acts[..1]) == c';
      forall i | 1 <= i <= |acts| ensures After(c, acts[..i]) == After(c', acts[1..][..i - 1]) {
        assert acts[..i][0] == acts[0] && acts[..i][1..] == acts[1..][..i - 1];
      }
      if fate.Lost? {
        assert Missing(After(c, acts[..1])) == 1;
      } else {
        SleepersMatchIff(c', acts[1..]);
        if Roomy(c', acts[1..]) {
          forall i | 0 <= i <= |acts| ensures Missing(After(c, acts[..i])) == 0 {
            if i > 0 { assert Missing(After(c', acts[1..][..i - 1])) == 0; }
          }
        } else {
          var i :| 0 <= i <= |acts[1..]| && Missing(After(c', acts[1..][..i])) != 0;
          assert Missing(After(c, acts[..i + 1])) != 0;
        }
      }
    }
  }

  // ---- Wake-ups match sleeps like parentheses ----

  /** The first post that finds the count where the sleeper's own wait left it. */
  predicate FirstReturn(c: Cell, acts: seq<Act>, level: int)
    decreases |acts|
  {
    acts != [] &&
    if |acts| == 1 then acts[0].Post? && c.count == level
    else !(acts[0].Post? && c.count == level) && FirstReturn(Do(c, acts[0]).0, acts[1..], level)
  }

  /** The sleepers that joined after p, once act a has been done. */
  function AboveAfter(above: seq<int>, a: Act, fate: Fate): seq<int> {
    match fate
    case Queued => if a.Wait? then [a.p] + above else above
    case Woke(_) => if above != [] then above[1..] else above
    case _ => above
  }

  /** One step that is not the return keeps p asleep, with the same sleepers below. */
  lemma StepAbove(c: Cell, above: seq<int>, p: int, below: seq<int>, level: int, a: Act)
    requires level < 0 && c.count == level - |above| && c.blocked == above + [p] + below
    requires !Do(c, a).1.Lost? && !(a.Post? && c.count == level)
    ensures var (c', fate) := Do(c, a);
            var above' := AboveAfter(above, a, fate);
            c'.count == level - |above'| && c'.blocked == above' + [p] + below
  {}

  /** With p asleep above `below` and only later sleepers above p, a run that ends with the first
      return to p's level wakes p in its last step and leaves `below` alone. */
  lemma {:induction false} WakesOnReturn(c: Cell, above: seq<int>, p: int, below: seq<int>, level: int, acts: seq<Act>)
    requires level < 0 && c.count == level - |above| && c.blocked == above + [p] + below
    requires FirstReturn(c, acts, level) && Roomy(c, acts)
    ensures After(c, acts) == Cell(level + 1, below)
    ensures Do(After(c, acts[..|acts| - 1]), acts[|acts| - 1]).1 == Woke(p)
    decreases |acts|
  {
    if |acts| == 1 {
      assert After(c, acts) == After(Do(c, acts[0]).0, []);
      assert acts[..0] == [] && c.blocked[1..] == below;
    } else {
      var (c', fate) := Do(c, acts[0]);
      StepAbove(c, above, p, below, level, acts[0]);
      WakesOnReturn(c', AboveAfter(above, acts[0], fate), p, below, level, acts[1..]);
      assert acts[..|acts| - 1][0] == acts[0] && acts[..|acts| - 1][1..] == acts[1..][..|acts| - 2];
    }
  }

  /** Until then p sleeps on, with the same sleepers below. */
  lemma {:induction false} SleepsUntilReturn(c: Cell, above: seq<int>, p: int, below: seq<int>, level: int,
      acts: seq<Act>, i: nat)
    requires level < 0 && c.count == level - |above| && c.blocked == above + [p] + below
    requires FirstReturn(c, acts, level) && Roomy(c, acts) && i < |acts|
    ensures EndsWith(After(c, acts[..i]).blocked, [p] + below)
    decreases |acts|
  {
    if i == 0 {
      assert acts[..0] == [] && c.blocked[|above|..] == [p] + below;
    } else {
      var (c', fate) := Do(c, acts[0]);
      StepAbove(c, above, p, below, level, acts[0]);
      SleepsUntilReturn(c', AboveAfter(above, acts[0], fate), p, below, level, acts[1..], i - 1);
      assert acts[..i][0] == acts[0] && acts[..i][1..] == acts[1..][..i - 1];
    }
  }

  predicate EndsWith(s: seq<int>, t: seq<int>) {
    |t| <= |s| && s[|s| - |t|..] == t
  }

  /** One step with some waiters lost: p is still there, or it was popped early. */
  lemma StepBelow(c: Cell, above: seq<int>, p: int, below: seq<int>, level: int, lost: nat, a: Act)
    requires level < 0 && c.count == level - |above| - lost && c.blocked == above + [p] + below
    requires !(a.Post? && c.count == level)
    ensures var (c', fate) := Do(c, a);
            if fate.Woke? && above == [] then c'.blocked == below
            else var above', lost' := AboveAfter(above, a, fate), if fate.Lost? then lost + 1 else lost;
                 c'.count == level - |above'| - lost' && c'.blocked == above' + [p] + below
  {}

  lemma Shorter(below: seq<int>, p: int)
    ensures !EndsWith(below, [p] + below)
  {}

  /** Conversely, each lost waiter among those after p makes a post pop one sleeper too many, so that
      p is gone before the count is back at its level. */
  lemma {:induction false} LossWakesEarly(c: Cell, above: seq<int>, p: int, below: seq<int>, level: int, lost: nat,
      acts: seq<Act>)
    requires level < 0 && c.count == level - |above| - lost && c.blocked == above + [p] + below
    requires FirstReturn(c, acts, level) && (lost > 0 || !Roomy(c, acts))
    ensures exists i :: 0 <= i < |acts| && !EndsWith(After(c, acts[..i]).blocked, [p] + below)
    decreases |acts|
  {
    var (c', fate) := Do(c, acts[0]);
    assert Tally(c, acts, IsLost) == (if fate.Lost? then 1 else 0) + Tally(c', acts[1..], IsLost);
    if |acts| > 1 {
      StepBelow(c, above, p, below, level, lost, acts[0]);
      assert FirstReturn(c', acts[1..], level);
      hide Do, EndsWith, FirstReturn, Tally;
      var i: nat;
      if fate.Woke? && above == [] {
        i := 0;
        assert acts[1..][..0] == [];
        Shorter(below, p);
      } else {
        LossWakesEarly(c', AboveAfter(above, acts[0], fate), p, below, level,
                       if fate.Lost? then lost + 1 else lost, acts[1..]);
        i :| i < |acts[1..]| && !EndsWith(After(c', acts[1..][..i]).blocked, [p] + below);
      }
      assert acts[..i + 1][0] == acts[0] && acts[..i + 1][1..] == acts[1..][..i];
      assert !EndsWith(After(c, acts[..i + 1]).blocked, [p] + below);
    }
  }

  /** The wake-up discipline. A process falls asleep as the count goes from n to n - 1; consider what
      follows up to the first post that raises the count from n - 1 to n. The process sleeps through
      all of it, with the earlier sleepers untouched, if and only if no waiter was lost meanwhile; and
      then that post wakes it and leaves the semaphore as the process found it. */
  lemma SleepUntilReturn(c: Cell, p: int, acts: seq<Act>)
    requires c.count <= 0
    requires var c' := Do(c, Wait(p, true)).0; FirstReturn(c', acts, c'.count)
    ensures var c' := Do(c, Wait(p, true)).0;
            (forall i | 0 <= i < |acts| :: EndsWith(After(c', acts[..i]).blocked, [p] + c.blocked)) <==> Roomy(c', acts)
    ensures var c' := Do(c, Wait(p, true)).0;
            Roomy(c', acts) ==> Do(After(c', acts[..|acts| - 1]), acts[|acts| - 1]).1 == Woke(p) && After(c', acts) == c
  {
    var c' := Do(c, Wait(p, true)).0;
    assert c'.blocked == [] + [p] + c.blocked;
    if Roomy(c', acts) {
      WakesOnReturn(c', [], p, c.blocked, c'.count, acts);
      forall i | 0 <= i < |acts| ensures EndsWith(After(c', acts[..i]).blocked, [p] + c.blocked) {
        SleepsUntilReturn(c', [], p, c.blocked, c'.count, acts, i);
      }
    } else {
      LossWakesEarly(c', [], p, c.blocked, c'.count, 0, acts);
    }
  }

  // ---- Mutual exclusion ----

  /** Holders after one action: a grant or a wake-up adds its process, a post removes its caller. */
  function Transfer(held: multiset<int>, a: Act, fate: Fate): multiset<int> {
    var left := if a.Post? then held - multiset{a.from} else held;
    if fate.Granted? || fate.Woke? then left + multiset{fate.p} else left
  }

  function Holders(c: Cell, acts: seq<Act>, held: multiset<int>): multiset<int>
    decreases |acts|
  {
    if acts == [] then held
    else
      var (c', fate) := Do(c, acts[0]);
      Holders(c', acts[1..], Transfer(held, acts[0], fate))
  }

  /** Every post comes from a process that holds a grant at that point. */
  predicate Disciplined(c: Cell, acts: seq<Act>, held: multiset<int>)
    decreases |acts|
  {
    acts == [] ||
    (var (c', fate) := Do(c, acts[0]);
     && (acts[0].Post? ==> acts[0].from in held)
     && Disciplined(c', acts[1..], Transfer(held, acts[0], fate)))
  }

  /** With no waiter lost the bound is met: what is not held is on the count. */
  lemma {:induction false} HoldersExact(c: Cell, acts: seq<Act>, held: multiset<int>, v: nat)
    requires |held| + Max(c.count, 0) == v && Disciplined(c, acts, held) && Missing(c) == 0 && Roomy(c, acts)
    ensures |Holders(c, acts, held)| + Max(After(c, acts).count, 0) == v
    decreases |acts|
  {
    if acts != [] {
      var (c', fate) := Do(c, acts[0]);
      HoldersExact(c', acts[1..], Transfer(held, acts[0], fate), v);
    }
  }
}
