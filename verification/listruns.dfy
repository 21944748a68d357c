/** The pool driven through whole sequences of calls: what the laws of `ListLaws` say of values, it does. */
module ListRuns {
  import opened PoolModel
  import opened LP = ListPool
  import opened ListLaws

  /** What a caller of the cursor asks for: the next element, or that an element be deleted. */
  datatype Request = Next | Drop(element: int)

  lemma {:induction false} CallsAppend(r: Reader, calls: seq<CursorCall>, c: CursorCall)
    ensures Calls(r, calls + [c]) == Call(Calls(r, calls), c)
    decreases |calls|
  {
    hide Call;
    if calls == [] {
      assert [c][1..] == [] && Calls(Call(r, c), []) == Call(r, c);
    } else {
      assert (calls + [c])[0] == calls[0] && (calls + [c])[1..] == calls[1..] + [c];
      CallsAppend(Call(r, calls[0]), calls[1..], c);
    }
  }

  /** v are the elements of the nodes ns, as they were at the start. */
  ghost predicate ValuesOf(v: seq<int>, ns: seq<int>, es: seq<Element>) {
    |v| == |ns| && forall k | 0 <= k < |ns| :: 0 <= ns[k] < |es| && v[k] == es[ns[k]].element
  }

  lemma ValuesRemove(v: seq<int>, ns: seq<int>, es: seq<Element>, p: nat)
    requires ValuesOf(v, ns, es) && p < |ns|
    ensures ValuesOf(RemoveAt(v, p), RemoveAt(ns, p), es)
  {}

  lemma ValuesAppend(v: seq<int>, ns: seq<int>, es: seq<Element>, x: int, n: int)
    requires ValuesOf(v, ns, es) && 0 <= n < |es| && x == es[n].element
    ensures ValuesOf(v + [x], ns + [n], es)
  {}

  lemma ChainValues(pool: LP.ListPool, l: nat)
    requires pool.Valid() && l < MAX_LISTS
    ensures ValuesOf(pool.Contents()[l], pool.chains[l], pool.elements[..]) && Distinct(pool.chains[l])
  {
    RangesOk(pool.elements[..], pool.nodes[..], pool.chains, pool.owner);
    assert ChainOk(pool.nodes[..], pool.chains[l], pool.owner, l);
  }

  /** The list as the reader sees it, and the elements read so far. */
  ghost predicate Reading(pool: LP.ListPool, l: nat, r: Reader, v: seq<int>, es: seq<Element>)
    reads pool, pool.Repr()
  {
    && pool.Valid() && l < MAX_LISTS && pool.lists[l].busy
    && r.list == pool.chains[l] && r.cursor <= |r.list| && pool.CursorAt(l, r.cursor)
    && ValuesOf(pool.Contents()[l], r.list, es) && ValuesOf(v, r.returned, es)
  }

  method ReadNext(pool: LP.ListPool, l: nat, v: seq<int>, ghost r: Reader, ghost es: seq<Element>)
      returns (v': seq<int>)
    requires Reading(pool, l, r, v, es)
    modifies pool.Repr()
    ensures Reading(pool, l, Call(r, Get), v', es) && Same(pool, l, old(pool.lists[l]))
            && pool.Contents() == old(pool.Contents())
  {
    var found, x := pool.ListGetElement(l, r.cursor, 0);
    if found == NoErr {
      ValuesAppend(v, r.returned, es, x, r.list[r.cursor]);
      v' := v + [x];
    } else {
      v' := v;
    }
    hide PoolInv;
  }

  /** Comparator and order of the list are the ones of m. */
  ghost predicate Same(pool: LP.ListPool, l: nat, m: List)
    reads pool.Repr()
  {
    l < pool.lists.Length && pool.lists[l].compare == m.compare && pool.lists[l].order == m.order
  }

  /** The call that a request makes of a list of elements v: a deletion drops what its search stopped at. */
  function CallOf(compare: (int, int) -> int, order: Order, v: seq<int>, request: Request): CursorCall {
    match request
    case Next => Get
    case Drop(x) =>
      var p := Scan(compare, order, v, x, 0);
      DeleteAt(if Found(compare, v, x, p) then p else |v|)
  }

  function Left(v: seq<int>, call: CursorCall): seq<int> {
    if call.DeleteAt? && call.p < |v| then RemoveAt(v, call.p) else v
  }

  /** The calls that a sequence of requests makes. */
  function CallsOf(compare: (int, int) -> int, order: Order, v: seq<int>, requests: seq<Request>): seq<CursorCall>
    decreases |requests|
  {
    if requests == [] then []
    else
      var call := CallOf(compare, order, v, requests[0]);
      [call] + CallsOf(compare, order, Left(v, call), requests[1..])
  }

  lemma PoolShape(pool: LP.ListPool)
    requires pool.Valid()
    ensures pool.lists.Length == |pool.chains| == MAX_LISTS
  {}

  lemma DropCall(compare: (int, int) -> int, order: Order, v: seq<int>, x: int, r: Reader)
    requires |v| == |r.list|
    ensures var call, p := CallOf(compare, order, v, Drop(x)), Scan(compare, order, v, x, 0);
            if Found(compare, v, x, p) then
              && Call(r, call)
                   == Reader(RemoveAt(r.list, p), if p < r.cursor then r.cursor - 1 else r.cursor, r.returned)
              && Left(v, call) == RemoveAt(v, p)
            else
              Call(r, call) == r && Left(v, call) == v
  {
    hide RemoveAt, Scan;
  }

  method DropOne(pool: LP.ListPool, l: nat, x: int, ghost v: seq<int>, ghost r: Reader, ghost es: seq<Element>)
    requires Reading(pool, l, r, v, es)
    modifies pool.Repr()
    ensures var call := CallOf(old(pool.lists[l].compare), old(pool.lists[l].order), old(pool.Contents()[l]), Drop(x));
            && Reading(pool, l, Call(r, call), v, es) && Same(pool, l, old(pool.lists[l]))
            && pool.Contents()[l] == Left(old(pool.Contents()[l]), call)
  {
    hide PoolInv, Scan, ValuesOf, RemoveAt, RemoveFirst, Popped, CallOf, Call, Left;
    PoolShape(pool);
    ghost var was, compare := pool.Contents()[l], pool.lists[l].compare;
    ghost var p := Scan(compare, pool.lists[l].order, was, x, 0);
    DropCall(compare, pool.lists[l].order, was, x, r);
    if p < |was| { ValuesRemove(was, r.list, es, p); }
    var found := pool.ListDelete(l, x);
    PoolShape(pool);
    assert pool.chains[l] == if Found(compare, was, x, p) then RemoveAt(r.list, p) else r.list;
    assert pool.Contents()[l] == if Found(compare, was, x, p) then RemoveAt(was, p) else was;
    assert pool.CursorAt(l, if Found(compare, was, x, p) && p < r.cursor then r.cursor - 1 else r.cursor);
  }

  method Rewind(pool: LP.ListPool, l: nat)
    requires pool.Valid() && l < MAX_LISTS && pool.lists[l].busy
    modifies pool.Repr()
    ensures Reading(pool, l, Reader(old(pool.chains[l]), 0, []), [], old(pool.elements[..]))
    ensures Same(pool, l, old(pool.lists[l])) && pool.Contents() == old(pool.Contents())
  {
    ChainValues(pool, l);
    pool.ListToBegin(l);
    hide PoolInv;
  }

  /** One request, of either kind. */
  method ServeOne(pool: LP.ListPool, l: nat, request: Request, v: seq<int>, ghost r: Reader, ghost es: seq<Element>)
      returns (v': seq<int>)
    requires Reading(pool, l, r, v, es)
    modifies pool.Repr()
    ensures var call := CallOf(old(pool.lists[l].compare), old(pool.lists[l].order), old(pool.Contents()[l]), request);
            && Reading(pool, l, Call(r, call), v', es) && Same(pool, l, old(pool.lists[l]))
            && pool.Contents()[l] == Left(old(pool.Contents()[l]), call)
  {
    match request {
      case Next =>
        NextLeaves(pool.lists[l].compare, pool.lists[l].order, pool.Contents()[l]);
        v' := ReadNext(pool, l, v, r, es);
      case Drop(x) =>
        DropOne(pool, l, x, v, r, es);
        v' := v;
    }
    hide PoolInv, CallOf, Left, Call;
  }

  lemma PlanStep(compare: (int, int) -> int, order: Order, v: seq<int>, requests: seq<Request>, i: nat,
      calls: seq<CursorCall>)
    requires i < |requests|
    ensures var call := CallOf(compare, order, v, requests[i]);
            calls + CallsOf(compare, order, v, requests[i..])
                == (calls + [call]) + CallsOf(compare, order, Left(v, call), requests[i + 1..])
  {
    hide CallOf, Left;
    assert requests[i..][0] == requests[i] && requests[i..][1..] == requests[i + 1..];
  }

  /** Rewinds the list and serves the requests in order; v are the elements read. Node by node the pool does
      what `Calls` says, so once the end is reached every node that survived has been read once, in list
      order. */
  method ReadAndDelete(pool: LP.ListPool, l: nat, requests: seq<Request>) returns (v: seq<int>, ghost r: Reader)
    requires pool.Valid() && l < MAX_LISTS && pool.lists[l].busy
    modifies pool.Repr()
    ensures Reading(pool, l, r, v, old(pool.elements[..]))
    ensures r == Calls(Reader(old(pool.chains[l]), 0, []),
                       CallsOf(old(pool.lists[l].compare), old(pool.lists[l].order), old(pool.Contents()[l]), requests))
    ensures r.cursor == |r.list| ==> Keep(r.returned, r.list) == r.list
  {
    PoolShape(pool);
    ChainValues(pool, l);
    hide PoolInv, Reading, CallOf, CallsOf, Calls, Call, Left, Keep, AllValues;
    ghost var es, start, m := pool.elements[..], Reader(pool.chains[l], 0, []), pool.lists[l];
    ghost var plan := CallsOf(m.compare, m.order, pool.Contents()[l], requests);
    ghost var calls: seq<CursorCall> := [];
    Rewind(pool, l);
    v, r := [], start;
    PlanStarts(start, m.compare, m.order, pool.Contents()[l], requests);
    ReadingValid(pool, l, r, v, es);
    ghost var left := pool.Contents()[l];
    for i := 0 to |requests|
      invariant Reading(pool, l, r, v, es) && pool.Valid() && Same(pool, l, m) && r == Calls(start, calls)
      invariant left == pool.Contents()[l]
      invariant plan == calls + CallsOf(m.compare, m.order, left, requests[i..])
    {
      ghost var call := CallOf(m.compare, m.order, left, requests[i]);
      CallsAppend(start, calls, call);
      PlanStep(m.compare, m.order, left, requests, i, calls);
      v := ServeOne(pool, l, requests[i], v, r, es);
      ReadingValid(pool, l, Call(r, call), v, es);
      calls, r, left := calls + [call], Call(r, call), Left(left, call);
    }
    PlanEnds(m.compare, m.order, left, requests);
    assert calls + [] == calls;
    CursorReadsSurvivors(start.list, calls);
  }

  lemma PlanStarts(start: Reader, compare: (int, int) -> int, order: Order, v: seq<int>, requests: seq<Request>)
    ensures Calls(start, []) == start
    ensures CallsOf(compare, order, v, requests) == [] + CallsOf(compare, order, v, requests[0..])
  {
    assert requests[0..] == requests;
  }

  lemma PlanEnds(compare: (int, int) -> int, order: Order, v: seq<int>, requests: seq<Request>)
    ensures CallsOf(compare, order, v, requests[|requests|..]) == []
  {}

  lemma NextLeaves(compare: (int, int) -> int, order: Order, v: seq<int>)
    ensures CallOf(compare, order, v, Next) == Get && Left(v, Get) == v
  {}

  lemma ReadingValid(pool: LP.ListPool, l: nat, r: Reader, v: seq<int>, es: seq<Element>)
    requires Reading(pool, l, r, v, es)
    ensures pool.Valid() && l < MAX_LISTS
  {}

  // ---- Sorted lists ----

  /** One insert or delete on a sorted list: `Apply`, unless an insert of a new element finds the pool full. */
  method ApplyOne(pool: LP.ListPool, l: nat, c: SetCall) returns (full: bool)
    requires pool.Valid() && l < MAX_LISTS && pool.lists[l].busy && pool.lists[l].order == Sorted
    modifies pool.Repr()
    ensures pool.Valid() && Same(pool, l, old(pool.lists[l])) && pool.lists[l].busy
    ensures full <==> (&& c.Insert? && Total(old(pool.Contents()), MAX_LISTS) >= MAX_NODES
                       && Apply(old(pool.lists[l].compare), old(pool.Contents()[l]), c) != old(pool.Contents()[l]))
    ensures pool.Contents() == if full then old(pool.Contents())
                               else old(pool.Contents())[l :=
                                   Apply(old(pool.lists[l].compare), old(pool.Contents()[l]), c)]
  {
    hide PoolInv, Scan, Total, AllValues;
    PoolShape(pool);
    full := false;
    match c {
      case Insert(x) =>
        var r := pool.ListInsert(l, x);
        full := r == NoMem;
      case Remove(x) =>
        var _ := pool.ListDelete(l, x);
    }
    PoolShape(pool);
  }

  /** The calls that were not refused. */
  function Accepted(cs: seq<SetCall>, refused: seq<bool>): seq<SetCall>
    requires |cs| == |refused|
  {
    if cs == [] then []
    else
      var n := |cs| - 1;
      Accepted(cs[..n], refused[..n]) + if refused[n] then [] else [cs[n]]
  }

  lemma {:induction false} ApplyAllAppend(compare: (int, int) -> int, v: seq<int>, cs: seq<SetCall>, c: SetCall)
    ensures ApplyAll(compare, v, cs + [c]) == Apply(compare, ApplyAll(compare, v, cs), c)
    decreases |cs|
  {
    hide Apply;
    if cs == [] {
      assert [c][1..] == [] && ApplyAll(compare, Apply(compare, v, c), []) == Apply(compare, v, c);
    } else {
      assert (cs + [c])[0] == cs[0] && (cs + [c])[1..] == cs[1..] + [c];
      ApplyAllAppend(compare, Apply(compare, v, cs[0]), cs[1..], c);
    }
  }

  lemma AcceptedStep(compare: (int, int) -> int, v: seq<int>, cs: seq<SetCall>, refused: seq<bool>, i: nat, full: bool)
    requires i < |cs| && |refused| == i
    ensures ApplyAll(compare, v, Accepted(cs[..i + 1], refused + [full]))
         == var w := ApplyAll(compare, v, Accepted(cs[..i], refused)); if full then w else Apply(compare, w, cs[i])
  {
    assert cs[..i + 1][..i] == cs[..i] && (refused + [full])[..i] == refused;
    var before := Accepted(cs[..i], refused);
    assert before + [] == before;
    ApplyAllAppend(compare, v, before, cs[i]);
    hide Apply, ApplyAll;
  }

  /** Inserts and deletes on a sorted list, in order: what is left is the ascending sequence of the set that
      the calls not refused for lack of a node leave, and no other list has changed. */
  method InsertAndRemove(pool: LP.ListPool, l: nat, cs: seq<SetCall>, ghost s: set<int>) returns (refused: seq<bool>)
    requires pool.Valid() && l < MAX_LISTS && pool.lists[l].busy && pool.lists[l].order == Sorted
    requires TotalOrder(pool.lists[l].compare) && Lists(pool.lists[l].compare, pool.Contents()[l], s)
    modifies pool.Repr()
    ensures pool.Valid() && |refused| == |cs| && forall i | 0 <= i < |cs| :: refused[i] ==> cs[i].Insert?
    ensures var v := ApplyAll(old(pool.lists[l].compare), old(pool.Contents()[l]), Accepted(cs, refused));
            && pool.Contents() == old(pool.Contents())[l := v]
            && Lists(old(pool.lists[l].compare), v, Model(s, Accepted(cs, refused)))
  {
    hide PoolInv, Total, AllValues, Apply, ApplyAll, Lists, TotalOrder, Accepted;
    PoolShape(pool);
    ghost var m, start := pool.lists[l], pool.Contents();
    refused := [];
    NoCalls(m.compare, start[l], cs);
    for i := 0 to |cs|
      invariant pool.Valid() && pool.lists.Length == MAX_LISTS && Same(pool, l, m) && pool.lists[l].busy
      invariant |refused| == i && forall k | 0 <= k < i :: refused[k] ==> cs[k].Insert?
      invariant pool.Contents() == start[l := ApplyAll(m.compare, start[l], Accepted(cs[..i], refused))]
    {
      var full := ApplyOne(pool, l, cs[i]);
      PoolShape(pool);
      AcceptedStep(m.compare, start[l], cs, refused, i, full);
      refused := refused + [full];
    }
    assert cs[..|cs|] == cs;
    SortedListIsSet(m.compare, start[l], s, Accepted(cs, refused));
  }

  lemma NoCalls(compare: (int, int) -> int, v: seq<int>, cs: seq<SetCall>)
    ensures ApplyAll(compare, v, Accepted(cs[..0], [])) == v
  {}
}
