/** The memory behind the names of the table as it is declared: 255 rows of 40 characters, with row
    i used for the name of entry i, and every strncpy writing 255 characters from the row's start.
    Module `NameTable` gives each entry a row of its own; here is when that is what happens. */
module NameRows {
  import opened NameTable

  const ROW := MAX_HASH_ELEM
  const NUL := '\0'
  const MEMORY := MAX_STR * ROW

  predicate NoNul(name: string) { forall k | 0 <= k < |name| :: name[k] != NUL }

  /** strncpy(mem + off, key, MAX_STR): the name, then NULs up to MAX_STR characters in all. */
  function StrNCpy(mem: seq<char>, off: nat, key: string): (r: seq<char>)
    requires off + MAX_STR <= |mem|
    ensures |r| == |mem|
  {
    mem[..off] + seq(MAX_STR, k requires 0 <= k => if k < |key| then key[k] else NUL) + mem[off + MAX_STR..]
  }

  lemma StrNCpyAt(mem: seq<char>, off: nat, key: string)
    requires off + MAX_STR <= |mem|
    ensures forall x | 0 <= x < |mem| ::
              StrNCpy(mem, off, key)[x] == if x < off || off + MAX_STR <= x then mem[x]
                                           else if x - off < |key| then key[x - off] else NUL
  {}

  /** What strncmp(mem + off, ., n) looks at: the characters before the first NUL, at most n. */
  function CStr(mem: seq<char>, off: nat, n: nat): string
    requires off + n <= |mem|
    decreases n
  {
    if n == 0 || mem[off] == NUL then "" else [mem[off]] + CStr(mem, off + 1, n - 1)
  }

  function RowStr(mem: seq<char>, i: nat): string
    requires |mem| == MEMORY && i < MAX_HASH_ELEM
  {
    CStr(mem, ROW * i, MAX_STR)
  }

  /** Every occupied entry reads back the name stored in it. */
  ghost predicate Agrees(mem: seq<char>, keys: seq<Key>) {
    && |mem| == MEMORY && |keys| == MAX_HASH_ELEM
    && forall i: nat | i < MAX_HASH_ELEM && keys[i].Key? :: RowStr(mem, i) == keys[i].text
  }

  predicate ShortKey(k: Key) { k.Key? ==> NoNul(k.text) && |k.text| < ROW }

  /** Reading name at off: its characters are there and, if it is shorter than n, a NUL after them. */
  lemma {:induction false} CStrIs(mem: seq<char>, off: nat, n: nat, name: string)
    requires off + n <= |mem| && |name| <= n && NoNul(name)
    ensures CStr(mem, off, n) == name
       <==> (forall k | 0 <= k < |name| :: mem[off + k] == name[k]) && (|name| < n ==> mem[off + |name|] == NUL)
    decreases n
  {
    if n > 0 && name != [] && mem[off] == name[0] {
      CStrIs(mem, off + 1, n - 1, name[1..]);
      assert name == [name[0]] + name[1..];
      if forall k | 0 <= k < |name| - 1 :: mem[off + 1 + k] == name[1..][k] {
        forall k | 0 <= k < |name| ensures mem[off + k] == name[k] {
          if k > 0 { assert mem[off + 1 + (k - 1)] == name[1..][k - 1]; }
        }
      } else {
        var k :| 0 <= k < |name| - 1 && mem[off + 1 + k] != name[1..][k];
        assert mem[off + (k + 1)] != name[k + 1];
      }
    }
  }

  /** A name whose characters and NUL are untouched reads the same. */
  lemma SameStretch(mem: seq<char>, mem': seq<char>, off: nat, n: nat, text: string)
    requires off + n <= |mem| == |mem'| && |text| < n && NoNul(text) && CStr(mem, off, n) == text
    requires forall x | off <= x <= off + |text| :: mem'[x] == mem[x]
    ensures CStr(mem', off, n) == text
  {
    CStrIs(mem, off, n, text);
    CStrIs(mem', off, n, text);
  }

  /** What the name in row j must be to outlive the copy of key into row i. The six rows after i lie under
      the copy, which ends in NULs: the name must be the part of key that falls there. A row before i is
      reached only if its name runs into row i: then it must go on as key does. */
  predicate Survives(i: nat, key: string, j: nat, text: string) {
    if j > i then j > i + 6 || text == (if ROW * (j - i) <= |key| then key[ROW * (j - i)..] else "")
    else |text| < ROW * (i - j) || text[ROW * (i - j)..] == key
  }

  /** One character of the memory after a copy. */
  lemma CopiedAt(mem: seq<char>, a: nat, key: string, x: nat)
    requires a + MAX_STR <= |mem| && a <= x < a + MAX_STR
    ensures StrNCpy(mem, a, key)[x] == if x - a < |key| then key[x - a] else NUL
  {
    StrNCpyAt(mem, a, key);
  }

  /** What is read at a + d after key has been copied to a: the part of key that falls there. */
  lemma Overlaid(mem: seq<char>, a: nat, d: nat, key: string)
    requires a + d + MAX_STR <= |mem| && NoNul(key) && |key| < MAX_STR && d < MAX_STR
    ensures CStr(StrNCpy(mem, a, key), a + d, MAX_STR) == if d <= |key| then key[d..] else ""
  {
    hide StrNCpy, CStr;
    var mem' := StrNCpy(mem, a, key);
    if d <= |key| {
      var left := key[d..];
      forall k | 0 <= k < |left| ensures mem'[a + d + k] == left[k] { CopiedAt(mem, a, key, a + d + k); }
      CopiedAt(mem, a, key, a + d + |left|);
      CStrIs(mem', a + d, MAX_STR, left);
    } else {
      CopiedAt(mem, a, key, a + d);
      CStrIs(mem', a + d, MAX_STR, "");
    }
  }

  /** A copy that writes neither the name nor its NUL. */
  lemma CopyElsewhere(mem: seq<char>, i: nat, key: string, j: nat, text: string)
    requires |mem| == MEMORY && i < MAX_HASH_ELEM && j < MAX_HASH_ELEM
    requires ROW * i + MAX_STR <= ROW * j || ROW * j + |text| < ROW * i
    requires NoNul(key) && |key| < MAX_STR && NoNul(text) && |text| < MAX_STR && RowStr(mem, j) == text
    ensures RowStr(StrNCpy(mem, ROW * i, key), j) == text
  {
    StrNCpyAt(mem, ROW * i, key);
    hide StrNCpy, CStr;
    SameStretch(mem, StrNCpy(mem, ROW * i, key), ROW * j, MAX_STR, text);
  }

  /** Rows after i. */
  lemma CopyBefore(mem: seq<char>, i: nat, key: string, j: nat, text: string)
    requires |mem| == MEMORY && i < j < MAX_HASH_ELEM
    requires NoNul(key) && |key| < MAX_STR && NoNul(text) && |text| < MAX_STR && RowStr(mem, j) == text
    ensures RowStr(StrNCpy(mem, ROW * i, key), j) == text <==> Survives(i, key, j, text)
  {
    hide StrNCpy, CStr;
    if j <= i + 6 { Overlaid(mem, ROW * i, ROW * (j - i), key); } else { CopyElsewhere(mem, i, key, j, text); }
  }

  /** A name at a that runs on to a + d, where key is copied: it reads on as key, if that fits. */
  lemma Overrun(mem: seq<char>, a: nat, d: nat, key: string, text: string)
    requires a + MAX_STR <= |mem| && a + d + MAX_STR <= |mem| && NoNul(key) && NoNul(text)
    requires CStr(mem, a, MAX_STR) == text && d <= |text| < MAX_STR && d + |key| <= MAX_STR
    ensures CStr(StrNCpy(mem, a + d, key), a, MAX_STR) == text[..d] + key
  {
    var mem', joined := StrNCpy(mem, a + d, key), text[..d] + key;
    StrNCpyAt(mem, a + d, key);
    CStrIs(mem, a, MAX_STR, text);
    hide StrNCpy, CStr;
    forall k | 0 <= k < |joined| ensures mem'[a + k] == joined[k] {
      if k < d { assert mem'[a + k] == mem[a + k]; }
    }
    CStrIs(mem', a, MAX_STR, joined);
  }

  /** If it does not fit, the name cannot read back. */
  lemma OverrunLong(mem: seq<char>, a: nat, d: nat, key: string, text: string)
    requires a + MAX_STR <= |mem| && a + d + MAX_STR <= |mem| && NoNul(key) && NoNul(text)
    requires d <= |text| < MAX_STR && |key| < MAX_STR < d + |key|
    ensures CStr(StrNCpy(mem, a + d, key), a, MAX_STR) != text
  {
    var mem' := StrNCpy(mem, a + d, key);
    StrNCpyAt(mem, a + d, key);
    hide StrNCpy, CStr;
    assert mem'[a + |text|] == key[|text| - d];
    CStrIs(mem', a, MAX_STR, text);
  }

  /** Rows before i. */
  lemma CopyAfter(mem: seq<char>, i: nat, key: string, j: nat, text: string)
    requires |mem| == MEMORY && j < i < MAX_HASH_ELEM
    requires NoNul(key) && |key| < MAX_STR && NoNul(text) && |text| < MAX_STR && RowStr(mem, j) == text
    ensures RowStr(StrNCpy(mem, ROW * i, key), j) == text <==> Survives(i, key, j, text)
  {
    var d := ROW * (i - j);
    hide StrNCpy, CStr;
    if |text| < d {
      CopyElsewhere(mem, i, key, j, text);
    } else if d + |key| <= MAX_STR {
      Overrun(mem, ROW * j, d, key, text);
      SuffixIff(text, d, key);
    } else {
      OverrunLong(mem, ROW * j, d, key, text);
    }
  }

  lemma SuffixIff(text: string, n: nat, key: string)
    requires n <= |text|
    ensures text[..n] + key == text <==> text[n..] == key
  {}

  predicate TextOk(k: Key) { k.Key? ==> NoNul(k.text) && |k.text| < MAX_STR }

  /** Storing a name in free entry i leaves every entry reading back its own name if and only if every
      other name survives the copy. */
  lemma InsertAgreesIff(mem: seq<char>, keys: seq<Key>, i: nat, key: string)
    requires Agrees(mem, keys) && i < MAX_HASH_ELEM && keys[i].NullKey?
    requires TextOk(Key(key)) && forall j | 0 <= j < |keys| :: TextOk(keys[j])
    ensures Agrees(StrNCpy(mem, ROW * i, key), keys[i := Key(key)])
       <==> forall j: nat | j < MAX_HASH_ELEM && j != i && keys[j].Key? :: Survives(i, key, j, keys[j].text)
  {
    var mem', keys' := StrNCpy(mem, ROW * i, key), keys[i := Key(key)];
    StrNCpyAt(mem, ROW * i, key);
    CStrIs(mem', ROW * i, MAX_STR, key);
    assert RowStr(mem', i) == key;
    hide StrNCpy, CStr, Survives;
    forall j: nat | j < MAX_HASH_ELEM && j != i && keys[j].Key?
      ensures RowStr(mem', j) == keys[j].text <==> Survives(i, key, j, keys[j].text)
    {
      assert TextOk(keys[j]);
      if j > i { CopyBefore(mem, i, key, j, keys[j].text); } else { CopyAfter(mem, i, key, j, keys[j].text); }
    }
    if forall j: nat | j < MAX_HASH_ELEM && j != i && keys[j].Key? :: Survives(i, key, j, keys[j].text) {
      forall j: nat | j < MAX_HASH_ELEM && keys'[j].Key? ensures RowStr(mem', j) == keys'[j].text {}
    } else {
      var j: nat :| j < MAX_HASH_ELEM && j != i && keys[j].Key? && !Survives(i, key, j, keys[j].text);
      assert RowStr(mem', j) != keys'[j].text;
    }
  }

  /** With names that fit their rows the condition is that none of the six entries after i holds a name. */
  lemma ShortNamesIff(keys: seq<Key>, i: nat, key: string)
    requires |keys| == MAX_HASH_ELEM && i < MAX_HASH_ELEM && keys[i].NullKey?
    requires ShortKey(Key(key)) && forall j | 0 <= j < |keys| :: ShortKey(keys[j])
    ensures (forall j: nat | j < MAX_HASH_ELEM && j != i && keys[j].Key? :: Survives(i, key, j, keys[j].text))
       <==> forall j | i < j <= i + 6 && j < MAX_HASH_ELEM && keys[j].Key? :: keys[j].text == ""
  {
    forall j: nat | j < MAX_HASH_ELEM && j != i && keys[j].Key?
      ensures Survives(i, key, j, keys[j].text) <==> !(i < j <= i + 6) || keys[j].text == ""
    {
      assert ShortKey(keys[j]);
    }
  }

  /** A name of 40 characters or more runs into the next row: after a name that leaves it below 255 is stored
      there, it reads back as its first 40 characters followed by that name. */
  lemma LongNameIffSuffix(mem: seq<char>, i: nat, text: string, key: string)
    requires |mem| == MEMORY && i + 1 < MAX_HASH_ELEM && RowStr(mem, i) == text && NoNul(text)
             && ROW <= |text| < MAX_STR
    requires NoNul(key) && ROW + |key| <= MAX_STR
    ensures RowStr(StrNCpy(mem, ROW * (i + 1), key), i) == text[..ROW] + key
    ensures RowStr(StrNCpy(mem, ROW * (i + 1), key), i) == text <==> text[ROW..] == key
  {
    hide StrNCpy, CStr;
    Overrun(mem, ROW * i, ROW, key, text);
    SuffixIff(text, ROW, key);
  }

  /** Names of entries after unlinking "a" and creating "c" in a table that held "a" and "b": the new
      name takes the hole before "b", and "b" can no longer be found. */
  lemma UnlinkThenCreateLosesName(mem: seq<char>)
    requires |mem| == MEMORY
    ensures var m := StrNCpy(StrNCpy(StrNCpy(mem, 0, "a"), ROW, "b"), 0, "c");
            RowStr(m, 0) == "c" && RowStr(m, 1) == ""
  {}
}
