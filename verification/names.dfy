/** The name table: a fixed array of entries searched linearly, refining a finite map. */
module NameTable {
  const MAX_HASH_ELEM := 40
  const MAX_STR := 255

  datatype HashResult = HashNoErr | HashNoMem | HashElemRepeated | HashNoElem
  datatype Key = NullKey | Key(text: string)
  datatype Entry = Entry(key: Key, value: int)

  /** The part of a name that the table stores and compares. */
  function Clip(name: string): string {
    if |name| <= MAX_STR then name else name[..MAX_STR]
  }

  /** Two names are one to the table exactly when they are equal, or both are longer than what it stores and agree
      that far. */
  lemma ClipIff(a: string, b: string)
    ensures Clip(a) == Clip(b) <==> a == b || (|a| >= MAX_STR && |b| >= MAX_STR && a[..MAX_STR] == b[..MAX_STR])
  {
    if |a| == MAX_STR { assert a == a[..MAX_STR]; }
    if |b| == MAX_STR { assert b == b[..MAX_STR]; }
  }

  predicate Holds(e: Entry, name: string) {
    e.key.Key? && e.key.text == Clip(name)
  }

  /** Name k is held by the entry at its place. */
  ghost predicate BoundOk(es: seq<Entry>, m: map<string, int>, place: map<string, int>, k: string) {
    k in m && k in place && 0 <= place[k] < |es| && es[place[k]] == Entry(Key(k), m[k])
  }

  /** Entry i is free, or the place of the name it holds. */
  ghost predicate EntryOk(es: seq<Entry>, place: map<string, int>, i: int) {
    0 <= i < |es| && (es[i].key.Key? ==> es[i].key.text in place && place[es[i].key.text] == i)
  }

  /** Entries and map agree, `place` saying where each bound name sits. */
  ghost predicate Refines(es: seq<Entry>, used: int, m: map<string, int>, place: map<string, int>) {
    && |es| == MAX_HASH_ELEM && used == |m|
    && m.Keys == place.Keys
    && (forall k {:trigger BoundOk(es, m, place, k)} | k in m :: BoundOk(es, m, place, k))
    && (forall i {:trigger EntryOk(es, place, i)} | 0 <= i < |es| :: EntryOk(es, place, i))
  }

  ghost function TextsOf(es: seq<Entry>, n: nat): set<string>
    requires n <= |es|
  {
    if n == 0 then {} else TextsOf(es, n - 1) + (if es[n - 1].key.Key? then {es[n - 1].key.text} else {})
  }

  ghost function Occupied(es: seq<Entry>, n: nat): (c: nat)
    requires n <= |es|
    ensures c <= n
    ensures c == n <==> forall i | 0 <= i < n :: es[i].key.Key?
  {
    if n == 0 then 0 else Occupied(es, n - 1) + (if es[n - 1].key.Key? then 1 else 0)
  }

  lemma {:induction false} TextsSize(es: seq<Entry>, used: int, m: map<string, int>, place: map<string, int>, n: nat)
    requires Refines(es, used, m, place) && n <= |es|
    ensures |TextsOf(es, n)| == Occupied(es, n)
    ensures forall t | t in TextsOf(es, n) :: t in m && place[t] < n
    ensures forall i | 0 <= i < n && es[i].key.Key? :: es[i].key.text in TextsOf(es, n)
  {
    if n > 0 {
      TextsSize(es, used, m, place, n - 1);
      assert EntryOk(es, place, n - 1);
    }
  }

  /** used_slot counts the occupied entries, so while it is below MAX_HASH_ELEM a search for a
      hole succeeds. */
  lemma UsedIsOccupied(es: seq<Entry>, used: int, m: map<string, int>, place: map<string, int>)
    requires Refines(es, used, m, place)
    ensures used == Occupied(es, |es|)
    ensures used < MAX_HASH_ELEM <==> exists i :: 0 <= i < |es| && es[i].key.NullKey?
  {
    TextsSize(es, used, m, place, |es|);
    forall t | t in m ensures t in TextsOf(es, |es|) { assert BoundOk(es, m, place, t); }
    assert TextsOf(es, |es|) == m.Keys;
  }

  lemma BindRefines(es: seq<Entry>, used: int, m: map<string, int>, place: map<string, int>, i: nat, key: string,
      value: int)
    requires Refines(es, used, m, place) && i < |es| && es[i].key.NullKey? && key !in m
    ensures Refines(es[i := Entry(Key(key), value)], used + 1, m[key := value], place[key := i])
  {
    var es', m', place' := es[i := Entry(Key(key), value)], m[key := value], place[key := i];
    forall k | k in m ensures BoundOk(es', m', place', k) {
      assert BoundOk(es, m, place, k);
    }
    forall j | 0 <= j < |es| ensures EntryOk(es', place', j) {
      assert EntryOk(es, place, j);
    }
  }

  lemma UnbindRefines(es: seq<Entry>, used: int, m: map<string, int>, place: map<string, int>, i: nat, key: string)
    requires Refines(es, used, m, place) && i < |es| && es[i].key == Key(key)
    ensures key in m && place[key] == i
    ensures Refines(es[i := Entry(NullKey, es[i].value)], used - 1, m - {key}, place - {key})
  {
    assert EntryOk(es, place, i);
    assert m == (m - {key})[key := m[key]];
    var es', m', place' := es[i := Entry(NullKey, es[i].value)], m - {key}, place - {key};
    forall k | k in m' ensures BoundOk(es', m', place', k) {
      assert BoundOk(es, m, place, k);
    }
    forall j | 0 <= j < |es| ensures EntryOk(es', place', j) {
      assert EntryOk(es, place, j);
    }
  }

  /** A name is bound precisely when some entry holds it. */
  lemma HoldsIffBound(es: seq<Entry>, used: int, m: map<string, int>, place: map<string, int>, name: string)
    requires Refines(es, used, m, place)
    ensures Clip(name) in m <==> exists i :: 0 <= i < |es| && Holds(es[i], name)
    ensures forall i | 0 <= i < |es| && Holds(es[i], name) :: es[i].value == m[Clip(name)]
  {
    if Clip(name) in m { assert BoundOk(es, m, place, Clip(name)) && Holds(es[place[Clip(name)]], name); }
    forall i | 0 <= i < |es| && Holds(es[i], name) ensures Clip(name) in m && es[i].value == m[Clip(name)] {
      assert EntryOk(es, place, i) && BoundOk(es, m, place, Clip(name));
    }
  }

  class NameTable {
    const entries: array<Entry>
    var usedSlot: int
    ghost var bound: map<string, int>
    ghost var place: map<string, int>

    ghost predicate Valid()
      reads this, entries
    {
      Refines(entries[..], usedSlot, bound, place)
    }

    constructor ()
      ensures Valid() && fresh(entries) && bound == map[]
    {
      entries := new Entry[MAX_HASH_ELEM](_ => Entry(NullKey, 0));
      usedSlot, bound, place := 0, map[], map[];
    }

    method HashTableFind(name: string) returns (found: bool, value: int)
      requires Valid()
      ensures found <==> Clip(name) in bound
      ensures found ==> value == bound[Clip(name)]
    {
      HoldsIffBound(entries[..], usedSlot, bound, place, name);
      for i := 0 to MAX_HASH_ELEM
        invariant forall j | 0 <= j < i :: !Holds(entries[..][j], name)
      {
        assert entries[..][i] == entries[i];
        if Holds(entries[i], name) { return true, entries[i].value; }
      }
      found, value := false, 0;
    }

    method HashTableInsert(name: string, value: int) returns (r: HashResult)
      requires Valid()
      modifies this, entries
      ensures Valid()
      ensures r == if |old(bound)| == MAX_HASH_ELEM then HashNoMem
                   else if Clip(name) in old(bound) then HashElemRepeated else HashNoErr
      ensures bound == if r == HashNoErr then old(bound)[Clip(name) := value] else old(bound)
    {
      ghost var es := entries[..];
      UsedIsOccupied(es, usedSlot, bound, place);
      HoldsIffBound(es, usedSlot, bound, place, name);
      if usedSlot == MAX_HASH_ELEM { return HashNoMem; }
      for i := 0 to MAX_HASH_ELEM
        invariant forall j | 0 <= j < i :: !Holds(es[j], name)
      {
        if Holds(entries[i], name) {
          assert Holds(es[i], name);
          return HashElemRepeated;
        }
      }
      for i := 0 to MAX_HASH_ELEM
        invariant entries[..] == es && usedSlot == old(usedSlot) && bound == old(bound) && place == old(place)
        invariant forall j | 0 <= j < i :: es[j].key.Key?
      {
        if entries[i].key.NullKey? {
          BindRefines(es, usedSlot, bound, place, i, Clip(name), value);
          entries[i] := Entry(Key(Clip(name)), value);
          usedSlot := usedSlot + 1;
          bound, place := bound[Clip(name) := value], place[Clip(name) := i];
          assert entries[..] == es[i := entries[i]];
          return HashNoErr;
        }
      }
      assert false;
    }

    /** One round of HashTableRemove: entry i is freed if it holds the name. */
    method FreeIfHolding(i: nat, name: string)
      requires Valid() && i < entries.Length
      modifies this, entries
      ensures Valid()
      ensures bound - {Clip(name)} == old(bound) - {Clip(name)}
      ensures entries[..] == old(entries[..])[i := entries[i]] && !Holds(entries[i], name)
    {
      ghost var es, key := entries[..], Clip(name);
      if Holds(entries[i], name) {
        UnbindRefines(es, usedSlot, bound, place, i, key);
        entries[i] := Entry(NullKey, entries[i].value);
        usedSlot := usedSlot - 1;
        bound, place := bound - {key}, place - {key};
        assert bound - {key} == old(bound) - {key};
      }
      assert entries[..] == es[i := entries[i]];
    }

    /** Scans every entry and frees the ones holding the name; the answer is HASH_NO_ELEM in
        either case. */
    method HashTableRemove(name: string) returns (r: HashResult)
      requires Valid()
      modifies this, entries
      ensures Valid()
      ensures r == HashNoElem
      ensures bound == old(bound) - {Clip(name)}
    {
      ghost var rest := bound - {Clip(name)};
      for i := 0 to MAX_HASH_ELEM
        invariant Valid() && bound - {Clip(name)} == rest
        invariant forall j | 0 <= j < i :: !Holds(entries[..][j], name)
      {
        FreeIfHolding(i, name);
      }
      HoldsIffBound(entries[..], usedSlot, bound, place, name);
      assert bound == rest;
      r := HashNoElem;
    }
  }
}
