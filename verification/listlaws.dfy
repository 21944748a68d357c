/** Laws of the list operations over whole sequences of calls: reading with the cursor while
    elements are deleted, and sorted lists as sets. */
module ListLaws {
  import opened PoolModel

  // ---- The cursor ----

  datatype CursorCall = Get | DeleteAt(p: nat)

  /** The nodes of a list, the position of its cursor and the nodes read so far. ListGetElement reads
      the node at the cursor; ListDelete drops the node its search stopped at, at position p. */
  datatype Reader = Reader(list: seq<int>, cursor: nat, returned: seq<int>)

  ghost predicate ReaderOk(r: Reader) { r.cursor <= |r.list| && Distinct(r.list) }

  function Call(r: Reader, call: CursorCall): Reader {
    match call
    case Get => if r.cursor < |r.list| then Reader(r.list, r.cursor + 1, r.returned + [r.list[r.cursor]]) else r
    case DeleteAt(p) =>
      if p < |r.list| then Reader(RemoveAt(r.list, p), if p < r.cursor then r.cursor - 1 else r.cursor, r.returned)
      else r
  }

  function Calls(r: Reader, calls: seq<CursorCall>): Reader
    decreases |calls|
  {
    if calls == [] then r else Calls(Call(r, calls[0]), calls[1..])
  }

  /** s without the elements that are not in v. */
  function Keep(s: seq<int>, v: seq<int>): seq<int> {
    if s == [] then [] else (if s[0] in v then [s[0]] else []) + Keep(s[1..], v)
  }

  /** s without x. */
  function Without(s: seq<int>, x: int): seq<int> {
    if s == [] then [] else (if s[0] != x then [s[0]] else []) + Without(s[1..], x)
  }

  lemma {:induction false} KeepAppend(s: seq<int>, x: int, v: seq<int>)
    ensures Keep(s + [x], v) == Keep(s, v) + (if x in v then [x] else [])
  {
    if s == [] {
      assert [x][1..] == [];
    } else {
      var head, last := if s[0] in v then [s[0]] else [], if x in v then [x] else [];
      assert (s + [x])[0] == s[0] && (s + [x])[1..] == s[1..] + [x];
      KeepAppend(s[1..], x, v);
      assert head + (Keep(s[1..], v) + last) == head + Keep(s[1..], v) + last;
    }
  }

  lemma {:induction false} KeepWithout(s: seq<int>, v: seq<int>, v': seq<int>, x: int)
    requires forall y :: y in v' <==> y in v && y != x
    ensures Keep(s, v') == Without(Keep(s, v), x)
  {
    if s != [] {
      KeepWithout(s[1..], v, v', x);
      if s[0] in v {
        assert Keep(s, v)[0] == s[0] && Keep(s, v)[1..] == Keep(s[1..], v);
      } else {
        assert Keep(s, v) == Keep(s[1..], v);
      }
    }
  }

  lemma {:induction false} WithoutAbsent(s: seq<int>, x: int)
    requires x !in s
    ensures Without(s, x) == s
  {
    if s != [] { WithoutAbsent(s[1..], x); }
  }

  lemma {:induction false} WithoutAt(s: seq<int>, p: nat)
    requires p < |s| && Distinct(s)
    ensures Without(s, s[p]) == RemoveAt(s, p)
  {
    if p == 0 {
      WithoutAbsent(s[1..], s[0]);
    } else {
      assert s[0] != s[p];
      WithoutAt(s[1..], p - 1);
      assert RemoveAt(s, p) == [s[0]] + RemoveAt(s[1..], p - 1);
    }
  }

  /** What has been returned and still exists is what lies before the cursor. */
  ghost predicate ReadSoFar(r: Reader) {
    ReaderOk(r) && Keep(r.returned, r.list) == r.list[..r.cursor]
  }

  lemma RemoveAtMembers(v: seq<int>, p: nat, y: int)
    requires p < |v| && Distinct(v)
    ensures y in RemoveAt(v, p) <==> y in v && y != v[p]
  {}

  lemma RemoveAtDistinct(v: seq<int>, p: nat)
    requires p < |v| && Distinct(v)
    ensures Distinct(RemoveAt(v, p))
  {}

  lemma RemoveAtSlice(v: seq<int>, p: nat, c: nat)
    requires p < |v| && c <= |v|
    ensures p < c ==> RemoveAt(v, p)[..c - 1] == RemoveAt(v[..c], p)
    ensures c <= p ==> RemoveAt(v, p)[..c] == v[..c]
  {}

  lemma DeleteKeepsReading(r: Reader, p: nat)
    requires ReadSoFar(r) && p < |r.list|
    ensures ReadSoFar(Call(r, DeleteAt(p)))
  {
    var x, list', head := r.list[p], RemoveAt(r.list, p), r.list[..r.cursor];
    RemoveAtDistinct(r.list, p);
    RemoveAtSlice(r.list, p, r.cursor);
    forall y ensures y in list' <==> y in r.list && y != x { RemoveAtMembers(r.list, p, y); }
    KeepWithout(r.returned, r.list, list', x);
    assert |list'| == |r.list| - 1;
    if p < r.cursor {
      assert Distinct(head);
      WithoutAt(head, p);
      hide RemoveAt, Distinct, Keep, Without;
    } else {
      WithoutAbsent(head, x);
      hide RemoveAt, Distinct, Keep, Without;
    }
  }

  lemma {:induction false} CallsKeepReading(r: Reader, calls: seq<CursorCall>)
    requires ReadSoFar(r)
    ensures ReadSoFar(Calls(r, calls))
    decreases |calls|
  {
    if calls != [] {
      if calls[0].Get? {
        if r.cursor < |r.list| {
          KeepAppend(r.returned, r.list[r.cursor], r.list);
          assert r.list[..r.cursor + 1] == r.list[..r.cursor] + [r.list[r.cursor]];
        }
      } else if calls[0].p < |r.list| {
        DeleteKeepsReading(r, calls[0].p);
      }
      CallsKeepReading(Call(r, calls[0]), calls[1..]);
    }
  }

  /** From ListToBegin, reads interleaved with any deletions return every surviving node exactly once
      and in list order by the time LIST_END is reached. A chain never holds a node twice. */
  lemma CursorReadsSurvivors(v: seq<int>, calls: seq<CursorCall>)
    requires Distinct(v)
    ensures var r := Calls(Reader(v, 0, []), calls); r.cursor == |r.list| ==> Keep(r.returned, r.list) == r.list
  {
    CallsKeepReading(Reader(v, 0, []), calls);
    var r := Calls(Reader(v, 0, []), calls);
    assert r.list[..|r.list|] == r.list;
  }

  // ---- Sorted lists ----

  ghost predicate TotalOrder(compare: (int, int) -> int) {
    && TellsApart(compare)
    && (forall a, b :: compare(a, b) < 0 <==> compare(b, a) > 0)
    && (forall a, b, c :: compare(a, b) < 0 && compare(b, c) < 0 ==> compare(a, c) < 0)
  }

  ghost predicate Ascending(compare: (int, int) -> int, v: seq<int>) {
    forall i, j | 0 <= i < j < |v| :: compare(v[i], v[j]) < 0
  }

  lemma Flip(compare: (int, int) -> int, a: int, b: int)
    requires TotalOrder(compare)
    ensures compare(a, b) < 0 <==> compare(b, a) > 0
    ensures compare(a, b) == 0 <==> a == b
  {}

  lemma Chain(compare: (int, int) -> int, a: int, b: int, c: int)
    requires TotalOrder(compare) && compare(a, b) <= 0 && compare(b, c) < 0
    ensures compare(a, c) < 0
  {}

  /** On an ascending list the search separates the smaller elements from the rest, and finds x
      exactly when it is there. */
  lemma {:induction false} ScanSeparates(compare: (int, int) -> int, v: seq<int>, x: int, k: nat)
    requires TotalOrder(compare) && Ascending(compare, v) && k <= |v| && forall j | 0 <= j < k :: compare(v[j], x) < 0
    ensures var p := Scan(compare, Sorted, v, x, k);
            && (forall j | 0 <= j < p :: compare(v[j], x) < 0)
            && (forall j | p < j < |v| :: compare(x, v[j]) < 0)
            && (Found(compare, v, x, p) <==> x in v)
            && (p < |v| && !Found(compare, v, x, p) ==> compare(x, v[p]) < 0)
    decreases |v| - k
  {
    if k < |v| {
      if compare(v[k], x) < 0 {
        ScanSeparates(compare, v, x, k + 1);
      } else {
        Flip(compare, x, v[k]);
        forall j | k < j < |v| ensures compare(x, v[j]) < 0 && v[j] != x {
          Chain(compare, x, v[k], v[j]);
          Flip(compare, x, v[j]);
        }
        forall j | 0 <= j < k ensures v[j] != x { Flip(compare, v[j], x); }
      }
    }
  }

  datatype SetCall = Insert(x: int) | Remove(x: int)

  /** ListInsert and ListDelete on a sorted list with room in the pool. */
  function Apply(compare: (int, int) -> int, v: seq<int>, c: SetCall): seq<int> {
    var p := Scan(compare, Sorted, v, c.x, 0);
    match c
    case Insert(x) => if Found(compare, v, x, p) then v else InsertAt(v, p, x)
    case Remove(x) => if Found(compare, v, x, p) then RemoveAt(v, p) else v
  }

  function ApplyAll(compare: (int, int) -> int, v: seq<int>, cs: seq<SetCall>): seq<int>
    decreases |cs|
  {
    if cs == [] then v else ApplyAll(compare, Apply(compare, v, cs[0]), cs[1..])
  }

  function Model(s: set<int>, cs: seq<SetCall>): set<int>
    decreases |cs|
  {
    if cs == [] then s
    else match cs[0] case Insert(x) => Model(s + {x}, cs[1..]) case Remove(x) => Model(s - {x}, cs[1..])
  }

  /** v lists the set s in ascending order. */
  ghost predicate Lists(compare: (int, int) -> int, v: seq<int>, s: set<int>) {
    Ascending(compare, v) && forall x :: x in v <==> x in s
  }

  lemma ApplyLists(compare: (int, int) -> int, v: seq<int>, s: set<int>, c: SetCall)
    requires TotalOrder(compare) && Lists(compare, v, s)
    ensures Lists(compare, Apply(compare, v, c), if c.Insert? then s + {c.x} else s - {c.x})
  {
    var p, v' := Scan(compare, Sorted, v, c.x, 0), Apply(compare, v, c);
    ScanSeparates(compare, v, c.x, 0);
    if v' != v {
      if c.Insert? { InsertLists(compare, v, s, p, c.x); } else { RemoveLists(compare, v, s, p); }
    }
  }

  lemma InsertLists(compare: (int, int) -> int, v: seq<int>, s: set<int>, p: nat, x: int)
    requires TotalOrder(compare) && Lists(compare, v, s) && p <= |v|
    requires (forall j | 0 <= j < p :: compare(v[j], x) < 0) && forall j | p <= j < |v| :: compare(x, v[j]) < 0
    ensures Lists(compare, InsertAt(v, p, x), s + {x})
  {}

  lemma RemoveLists(compare: (int, int) -> int, v: seq<int>, s: set<int>, p: nat)
    requires TotalOrder(compare) && Lists(compare, v, s) && p < |v|
    ensures Lists(compare, RemoveAt(v, p), s - {v[p]})
  {}

  /** Any sequence of inserts and deletes on a sorted list leaves the sorted sequence of the set that
      the same inserts and deletes leave; an insert is refused exactly for members. */
  lemma {:induction false} SortedListIsSet(compare: (int, int) -> int, v: seq<int>, s: set<int>, cs: seq<SetCall>)
    requires TotalOrder(compare) && Lists(compare, v, s)
    ensures Lists(compare, ApplyAll(compare, v, cs), Model(s, cs))
    decreases |cs|
  {
    if cs != [] {
      ApplyLists(compare, v, s, cs[0]);
      SortedListIsSet(compare, Apply(compare, v, cs[0]), if cs[0].Insert? then s + {cs[0].x}
          else s - {cs[0].x}, cs[1..]);
    }
  }

  /** The head of an ascending list is below every other element. */
  lemma HeadIsLeast(compare: (int, int) -> int, v: seq<int>, x: int)
    requires TotalOrder(compare) && Ascending(compare, v) && x in v
    ensures x == v[0] || compare(v[0], x) < 0
    ensures x in v[1..] <==> x != v[0]
  {}

  lemma TailAscending(compare: (int, int) -> int, v: seq<int>)
    requires Ascending(compare, v) && v != []
    ensures Ascending(compare, v[1..])
  {}

  ghost predicate SameMembers(v: seq<int>, w: seq<int>) {
    forall x :: x in v <==> x in w
  }

  lemma HeadIsShared(v: seq<int>, w: seq<int>)
    requires SameMembers(v, w) || SameMembers(w, v)
    requires v != []
    ensures w != [] && v[0] in w
  {
    var x := v[0];
    assert x in v;
  }

  /** Ascending lists with the same members begin alike. */
  lemma HeadsAgree(compare: (int, int) -> int, v: seq<int>, w: seq<int>)
    requires TotalOrder(compare) && Ascending(compare, v) && Ascending(compare, w) && SameMembers(v, w) && v != []
    ensures w != [] && v[0] == w[0]
  {
    HeadIsShared(v, w);
    HeadIsShared(w, v);
    HeadIsLeast(compare, v, w[0]);
    HeadIsLeast(compare, w, v[0]);
    Flip(compare, v[0], w[0]);
  }

  /** And so do what is left of them. */
  lemma TailsAgree(compare: (int, int) -> int, v: seq<int>, w: seq<int>)
    requires TotalOrder(compare) && Ascending(compare, v) && Ascending(compare, w) && SameMembers(v, w)
    requires v != [] && w != [] && v[0] == w[0]
    ensures SameMembers(v[1..], w[1..])
  {
    hide TotalOrder, Ascending;
    forall x ensures x in v[1..] <==> x in w[1..] {
      if x in v {
        HeadIsLeast(compare, v, x);
        HeadIsLeast(compare, w, x);
      } else {
        TailMembers(v, x);
        TailMembers(w, x);
      }
    }
  }

  lemma TailMembers(v: seq<int>, x: int)
    requires v != [] && x !in v
    ensures x !in v[1..]
  {}

  /** There is only one ascending list of a set. */
  lemma {:induction false} AscendingIsUnique(compare: (int, int) -> int, v: seq<int>, w: seq<int>)
    requires TotalOrder(compare) && Ascending(compare, v) && Ascending(compare, w) && SameMembers(v, w)
    ensures v == w
    decreases |v|
  {
    hide TotalOrder, Ascending, SameMembers;
    if v != [] {
      HeadsAgree(compare, v, w);
      TailsAgree(compare, v, w);
      TailAscending(compare, v);
      TailAscending(compare, w);
      AscendingIsUnique(compare, v[1..], w[1..]);
      assert v == [v[0]] + v[1..] && w == [w[0]] + w[1..];
    } else if w != [] {
      NoMembers(v, w);
      assert false;
    }
  }

  lemma NoMembers(v: seq<int>, w: seq<int>)
    requires SameMembers(v, w) && v == []
    ensures w == []
  {
    if w != [] { HeadIsShared(w, v); }
  }
}
