/** The wire format between the Linux client stubs and the emulated server: one shared buffer, a
    cursor, and the requests and replies written through them.

    A byte is an int from 0 to 255; reading one as a `char` gives it a sign. `word` is sizeof(long),
    4 or 8, and the host is little-endian. */
module Wire {
  const MAX_MSG := 255

  const OPEN := 1
  const POST := 2
  const WAIT := 3
  const DISCONNECT := 4
  const UNLINK := 5
  const CLOSE := 6
  const TRYWAIT := 7
  const INIT := 8
  const DESTROY := 9
  const GETVALUE := 10

  const O_CREAT := 64

  predicate IsWord(word: nat) { word == 4 || word == 8 }

  predicate IsInt(n: int) { -0x8000_0000 <= n < 0x8000_0000 }

  predicate IsBytes(b: seq<int>) { forall k | 0 <= k < |b| :: 0 <= b[k] < 256 }

  /** The cast of a long to int. */
  function ToInt(n: int): (r: int)
    ensures IsInt(r)
  {
    var u := n % 0x1_0000_0000;
    if u < 0x8000_0000 then u else u - 0x1_0000_0000
  }

  function SignedChar(b: int): int { if b < 128 then b else b - 256 }

  /** put_long: htonl keeps the low 32 bits, most significant first; the rest of a wider long is 0. */
  function LongBytes(n: int, word: nat): (b: seq<int>)
    requires IsWord(word)
    ensures |b| == word && IsBytes(b)
  {
    var u := n % 0x1_0000_0000;
    [u / 0x100_0000, u / 0x1_0000 % 256, u / 256 % 256, u % 256] + if word == 4 then [] else [0, 0, 0, 0]
  }

  /** get_long: ntohl of the low 32 bits, as a long: signed if long has 32 bits, not if it has 64. */
  function LongAt(b: seq<int>, pos: nat, word: nat): int
    requires IsWord(word) && pos + word <= |b|
  {
    var u := ((b[pos] * 256 + b[pos + 1]) * 256 + b[pos + 2]) * 256 + b[pos + 3];
    if word == 4 then ToInt(u) else u
  }

  /** What get_long makes of what put_long wrote. */
  lemma LongIsRead(n: int, word: nat, before: seq<int>, after: seq<int>)
    requires IsWord(word)
    ensures var u := n % 0x1_0000_0000;
            LongAt(before + LongBytes(n, word) + after, |before|, word) == if word == 4 then ToInt(u) else u
  {
    var b, p := before + LongBytes(n, word) + after, |before|;
    var u := n % 0x1_0000_0000;
    assert b[p] == u / 0x100_0000 && b[p + 1] == u / 0x1_0000 % 256 && b[p + 2] == u / 256 % 256 && b[p + 3] == u % 256;
    Digits(u);
    hide LongBytes, ToInt;
  }

  /** The cast gives back exactly the 32-bit ints, from either reading. */
  lemma CastIff(n: int)
    ensures ToInt(n % 0x1_0000_0000) == n <==> IsInt(n)
    ensures ToInt(ToInt(n % 0x1_0000_0000)) == n <==> IsInt(n)
  {}

  /** An int survives the trip exactly when it is a 32-bit int. */
  lemma LongRoundTripIff(n: int, word: nat, before: seq<int>, after: seq<int>)
    requires IsWord(word)
    ensures ToInt(LongAt(before + LongBytes(n, word) + after, |before|, word)) == n <==> IsInt(n)
  {
    hide LongAt, LongBytes, ToInt, IsInt;
    LongIsRead(n, word, before, after);
    CastIff(n);
  }

  lemma Digits(u: int)
    requires 0 <= u < 0x1_0000_0000
    ensures (((u / 0x100_0000) * 256 + u / 0x1_0000 % 256) * 256 + u / 256 % 256) * 256 + u % 256 == u
  {}

  datatype Option<T> = None | Some(value: T)

  datatype Request =
    | Open(name: seq<int>, oflags: int, mode: int, initial: int)
    | OnHandle(code: int, handle: int)
    | Unlink(name: seq<int>)
    | Init(pshared: int, initial: int)
    | Disconnect

  predicate HasCreat(oflags: int) { oflags / O_CREAT % 2 == 1 }

  predicate HandleCode(code: int) { code in {POST, WAIT, CLOSE, TRYWAIT, DESTROY, GETVALUE} }

  /** What a client can ask for: ints are 32-bit; mode and value are sent only with O_CREAT. */
  predicate WellFormed(r: Request) {
    match r
    case Open(name, oflags, mode, initial) =>
      IsBytes(name) && IsInt(oflags) && IsInt(mode) && IsInt(initial) && (!HasCreat(oflags) ==> mode == initial == 0)
    case OnHandle(code, handle) => HandleCode(code) && IsInt(handle)
    case Unlink(name) => IsBytes(name)
    case Init(pshared, initial) => IsInt(pshared) && IsInt(initial)
    case Disconnect => true
  }

  function StringBytes(s: seq<int>): seq<int> { [|s| % 256] + s }

  /** The tail of an open request: a flag, and mode and value if it is set. */
  function CreateBytes(oflags: int, mode: int, initial: int, word: nat): seq<int>
    requires IsWord(word)
  {
    if HasCreat(oflags) then [1] + LongBytes(mode, word) + LongBytes(initial, word) else [0]
  }

  function Encode(r: Request, word: nat): seq<int>
    requires IsWord(word)
  {
    match r
    case Open(name, oflags, mode, initial) =>
      [OPEN] + StringBytes(name) + LongBytes(oflags, word) + CreateBytes(oflags, mode, initial, word)
    case OnHandle(code, handle) => [code] + LongBytes(handle, word)
    case Unlink(name) => [UNLINK] + StringBytes(name)
    case Init(pshared, initial) => [INIT] + LongBytes(pshared, word) + LongBytes(initial, word)
    case Disconnect => [DISCONNECT]
  }

  /** A value read and the cursor after it; None where the C code reads or copies out of bounds. */
  type Parsed<T> = Option<(T, nat)>

  function GetLong(b: seq<int>, pos: nat, word: nat): Parsed<int>
    requires IsWord(word)
  {
    if pos + word <= |b| then Some((ToInt(LongAt(b, pos, word)), pos + word)) else None
  }

  function GetChar(b: seq<int>, pos: nat): Parsed<int> {
    if pos < |b| then Some((SignedChar(b[pos]), pos + 1)) else None
  }

  /** get_string: the length byte is signed, so from 128 on the copy length is negative. */
  function GetString(b: seq<int>, pos: nat): Parsed<seq<int>> {
    if pos >= |b| then None
    else
      var len := SignedChar(b[pos]);
      if len < 0 || pos + 1 + len > |b| then None else Some((b[pos + 1..pos + 1 + len], pos + 1 + len))
  }

  /** aceptar_pedido up to the call of the operation. */
  function Decode(b: seq<int>, word: nat): Parsed<Request>
    requires IsWord(word)
  {
    match GetChar(b, 0)
    case None => None
    case Some((code, p)) =>
      if code == OPEN then DecodeOpen(b, p, word)
      else if code == UNLINK then
        match GetString(b, p)
        case None => None
        case Some((name, q)) => Some((Unlink(name), q))
      else if code == INIT then DecodeInit(b, p, word)
      else if HandleCode(code) then
        match GetLong(b, p, word)
        case None => None
        case Some((handle, q)) => Some((OnHandle(code, handle), q))
      else Some((Disconnect, p))
  }

  function DecodeOpen(b: seq<int>, p: nat, word: nat): Parsed<Request>
    requires IsWord(word)
  {
    match GetString(b, p)
    case None => None
    case Some((name, q)) =>
      match GetLong(b, q, word)
      case None => None
      case Some((oflags, q1)) => DecodeCreate(b, q1, name, oflags, word)
  }

  function DecodeCreate(b: seq<int>, p: nat, name: seq<int>, oflags: int, word: nat): Parsed<Request>
    requires IsWord(word)
  {
    match GetChar(b, p)
    case None => None
    case Some((more, q)) =>
      if more == 0 then Some((Open(name, oflags, 0, 0), q))
      else
        match GetLong(b, q, word)
        case None => None
        case Some((mode, q1)) =>
          match GetLong(b, q1, word)
          case None => None
          case Some((initial, q2)) => Some((Open(name, oflags, mode, initial), q2))
  }

  function DecodeInit(b: seq<int>, p: nat, word: nat): Parsed<Request>
    requires IsWord(word)
  {
    match GetLong(b, p, word)
    case None => None
    case Some((pshared, q)) =>
      match GetLong(b, q, word)
      case None => None
      case Some((initial, q1)) => Some((Init(pshared, initial), q1))
  }

  lemma GetLongAt(before: seq<int>, n: int, after: seq<int>, word: nat)
    requires IsWord(word) && IsInt(n)
    ensures GetLong(before + LongBytes(n, word) + after, |before|, word) == Some((n, |before| + word))
  {
    LongRoundTripIff(n, word, before, after);
  }

  /** A name of at most 127 bytes is read back; from 128 on its length byte reads as negative. */
  lemma GetStringAt(before: seq<int>, s: seq<int>, after: seq<int>)
    requires |s| < 256
    ensures GetString(before + StringBytes(s) + after, |before|) == if |s| <= 127 then Some((s, |before| + 1 + |s|))
            else None
  {
    var b := before + StringBytes(s) + after;
    assert b[|before|] == |s|;
    if |s| <= 127 { assert b[|before| + 1..|before| + 1 + |s|] == s; }
  }

  function NameOf(r: Request): seq<int> {
    match r case Open(name, _, _, _) => name case Unlink(name) => name case _ => []
  }

  /** Every request decodes to itself, with the cursor at the end of the message whatever the buffer
      held beyond it, if and only if its name has at most 127 bytes. */
  lemma RequestRoundTripIff(r: Request, word: nat, rest: seq<int>)
    requires IsWord(word) && WellFormed(r) && |NameOf(r)| < 256
    ensures Decode(Encode(r, word) + rest, word) == Some((r, |Encode(r, word)|)) <==> |NameOf(r)| <= 127
  {
    hide LongBytes, GetLong, GetString, StringBytes;
    var b := Encode(r, word) + rest;
    match r {
      case Open(name, oflags, mode, initial) => OpenRoundTripIff(r, word, rest);
      case OnHandle(code, handle) =>
        GetLongAt([code], handle, rest, word);
        assert b == [code] + LongBytes(handle, word) + rest;
      case Unlink(name) =>
        StringSize(name);
        GetStringAt([UNLINK], name, rest);
        assert b == [UNLINK] + StringBytes(name) + rest;
      case Init(pshared, initial) =>
        GetLongAt([INIT], pshared, LongBytes(initial, word) + rest, word);
        assert b == [INIT] + LongBytes(pshared, word) + (LongBytes(initial, word) + rest);
        GetLongAt([INIT] + LongBytes(pshared, word), initial, rest, word);
        assert b == ([INIT] + LongBytes(pshared, word)) + LongBytes(initial, word) + rest;
      case Disconnect =>
    }
  }

  lemma OpenRoundTripIff(r: Request, word: nat, rest: seq<int>)
    requires IsWord(word) && WellFormed(r) && r.Open? && |r.name| < 256
    ensures Decode(Encode(r, word) + rest, word) == Some((r, |Encode(r, word)|)) <==> |r.name| <= 127
  {
    var b := Encode(r, word) + rest;
    var s, flags, create := StringBytes(r.name), LongBytes(r.oflags, word),
        CreateBytes(r.oflags, r.mode, r.initial, word);
    OpenLayout(s, flags, create, rest, b);
    GetStringAt([OPEN], r.name, flags + create + rest);
    assert Decode(b, word) == DecodeOpen(b, 1, word);
    if |r.name| <= 127 {
      hide LongBytes, StringBytes, CreateBytes, GetString, GetLong, DecodeCreate;
      GetLongAt([OPEN] + s, r.oflags, create + rest, word);
      CreateAt([OPEN] + s + flags, r, rest, word);
    }
  }

  /** The three ways the open request is cut while it is decoded. */
  lemma OpenLayout(s: seq<int>, flags: seq<int>, create: seq<int>, rest: seq<int>, b: seq<int>)
    requires b == [OPEN] + s + flags + create + rest
    ensures b == [OPEN] + s + (flags + create + rest)
    ensures b == ([OPEN] + s) + flags + (create + rest)
    ensures b[0] == OPEN
  {}

  lemma CreateAt(before: seq<int>, r: Request, rest: seq<int>, word: nat)
    requires IsWord(word) && WellFormed(r) && r.Open?
    ensures var c := CreateBytes(r.oflags, r.mode, r.initial, word);
            DecodeCreate(before + c + rest, |before|, r.name, r.oflags, word) == Some((r, |before| + |c|))
  {
    hide LongBytes, GetLong;
    var b := before + CreateBytes(r.oflags, r.mode, r.initial, word) + rest;
    if HasCreat(r.oflags) {
      assert b == (before + [1]) + (LongBytes(r.mode, word) + LongBytes(r.initial, word)) + rest;
      ModeAndValueAt(before + [1], r.mode, r.initial, rest, b, word);
    }
  }

  lemma ModeAndValueAt(before: seq<int>, mode: int, initial: int, rest: seq<int>, b: seq<int>, word: nat)
    requires IsWord(word) && IsInt(mode) && IsInt(initial)
    requires b == before + (LongBytes(mode, word) + LongBytes(initial, word)) + rest
    ensures GetLong(b, |before|, word) == Some((mode, |before| + word))
    ensures GetLong(b, |before| + word, word) == Some((initial, |before| + word + word))
  {
    assert b == before + LongBytes(mode, word) + (LongBytes(initial, word) + rest);
    GetLongAt(before, mode, LongBytes(initial, word) + rest, word);
    assert b == (before + LongBytes(mode, word)) + LongBytes(initial, word) + rest;
    GetLongAt(before + LongBytes(mode, word), initial, rest, word);
  }

  /** A reply: the handle of an init or the value of a getvalue first, then the result and errno. */
  datatype Reply = Reply(extra: Option<int>, rta: int, errno: int)

  function EncodeReply(r: Reply, word: nat): seq<int>
    requires IsWord(word)
  {
    (if r.extra.Some? then LongBytes(r.extra.value, word) else []) + LongBytes(r.rta, word) + LongBytes(r.errno, word)
  }

  /** What the stub reads; it knows from its own request whether an extra value comes first. */
  function DecodeReply(b: seq<int>, hasExtra: bool, word: nat): Parsed<Reply>
    requires IsWord(word)
  {
    if hasExtra then
      match GetLong(b, 0, word)
      case None => None
      case Some((extra, p)) => DecodeResult(b, p, Some(extra), word)
    else DecodeResult(b, 0, None, word)
  }

  function DecodeResult(b: seq<int>, p: nat, extra: Option<int>, word: nat): Parsed<Reply>
    requires IsWord(word)
  {
    match GetLong(b, p, word)
    case None => None
    case Some((rta, q)) =>
      match GetLong(b, q, word)
      case None => None
      case Some((errno, q1)) => Some((Reply(extra, rta, errno), q1))
  }

  lemma ReplyRoundTrip(r: Reply, word: nat, rest: seq<int>)
    requires IsWord(word) && IsInt(r.rta) && IsInt(r.errno) && (r.extra.Some? ==> IsInt(r.extra.value))
    ensures DecodeReply(EncodeReply(r, word) + rest, r.extra.Some?, word) == Some((r, |EncodeReply(r, word)|))
  {
    var b := EncodeReply(r, word) + rest;
    var first, result := if r.extra.Some? then LongBytes(r.extra.value, word)
        else [], LongBytes(r.rta, word) + LongBytes(r.errno, word);
    hide LongBytes, GetLong, LongAt, ToInt;
    ReplyLayout(first, LongBytes(r.rta, word), LongBytes(r.errno, word), rest);
    ModeAndValueAt(first, r.rta, r.errno, rest, b, word);
    if r.extra.Some? {
      GetLongAt([], r.extra.value, result + rest, word);
      assert b == [] + first + (result + rest);
    }
  }

  lemma ReplyLayout(first: seq<int>, rta: seq<int>, errno: seq<int>, rest: seq<int>)
    ensures first + rta + errno + rest == first + (rta + errno) + rest
    ensures first + rta + errno + rest == [] + first + ((rta + errno) + rest)
    ensures |first + rta + errno| == |first| + |rta| + |errno|
  {}

  lemma StringSize(s: seq<int>)
    ensures |StringBytes(s)| == 1 + |s|
  {}

  // ---- The bytes of a message ----

  /** Bit i of an int in two's complement. */
  predicate Bit(n: int, i: nat)
    decreases i
  {
    if i == 0 then n % 2 == 1 else Bit(n / 2, i - 1)
  }

  lemma ThreeBitsOn(n: int, i: nat)
    ensures Bit(n, i + 3) == Bit(n / 8, i)
  {
    assert Bit(n, i + 3) == Bit(n / 2, i + 2) == Bit(n / 2 / 2, i + 1) == Bit(n / 2 / 2 / 2, i);
    assert n / 2 / 2 / 2 == n / 8;
  }

  /** O_CREAT is one bit, the sixth, and the other flags make no difference. */
  lemma CreatIsBitSix(oflags: int)
    ensures HasCreat(oflags) <==> Bit(oflags, 6)
  {
    ThreeBitsOn(oflags, 3);
    ThreeBitsOn(oflags / 8, 0);
    assert oflags / 8 / 8 == oflags / 64;
  }

  /** Four bytes in network order, the most significant first. */
  function NetworkOrder(b: seq<int>, pos: nat): int
    requires pos + 4 <= |b|
  {
    b[pos] * 0x100_0000 + b[pos + 1] * 0x1_0000 + b[pos + 2] * 0x100 + b[pos + 3]
  }

  /** The bytes at pos are those of a long: its low 32 bits in network order, and zeros. */
  predicate LongHere(b: seq<int>, pos: nat, n: int, word: nat) {
    && IsWord(word) && pos + word <= |b| && IsBytes(b[pos..pos + word])
    && NetworkOrder(b, pos) == n % 0x1_0000_0000 && (forall k | pos + 4 <= k < pos + word :: b[k] == 0)
  }

  lemma LongIsHere(before: seq<int>, n: int, after: seq<int>, word: nat)
    requires IsWord(word)
    ensures LongHere(before + LongBytes(n, word) + after, |before|, n, word)
  {
    var b := before + LongBytes(n, word) + after;
    assert b[|before|..|before| + word] == LongBytes(n, word);
    var u := n % 0x1_0000_0000;
    assert b[|before|] == u / 0x100_0000 && b[|before| + 1] == u / 0x1_0000 % 256;
    assert b[|before| + 2] == u / 256 % 256 && b[|before| + 3] == u % 256;
    Digits(u);
  }

  /** A call on a handle is its code and the handle, an init its code, pshared and the value. */
  lemma HandleLayout(code: int, n: int, m: int, word: nat)
    requires IsWord(word)
    ensures var b := Encode(OnHandle(code, n), word); |b| == 1 + word && b[0] == code && LongHere(b, 1, n, word)
    ensures var b := Encode(Init(n, m), word);
            |b| == 1 + 2 * word && b[0] == INIT && LongHere(b, 1, n, word) && LongHere(b, 1 + word, m, word)
  {
    LongIsHere([code], n, [], word);
    assert [code] + LongBytes(n, word) + [] == [code] + LongBytes(n, word);
    TwoLongsHere([INIT], n, m, word, Encode(Init(n, m), word));
    hide LongBytes, LongHere;
  }

  /** Where the flag of an open request stands, after the code, the name with its length, and the flags. */
  function FlagAt(name: seq<int>, word: nat): nat { 2 + |name| + word }

  /** An open is its code, the length of the name, the name, the flags, and a byte that says whether mode and value
      follow: they do exactly when O_CREAT is set in the flags. */
  lemma OpenCarriesIff(name: seq<int>, oflags: int, mode: int, initial: int, word: nat)
    requires IsWord(word) && |name| < 256
    ensures var b, at := Encode(Open(name, oflags, mode, initial), word), FlagAt(name, word);
            && |b| == at + 1 + (if Bit(oflags, 6) then 2 * word else 0)
            && b[0] == OPEN && b[1] == |name| && b[2..2 + |name|] == name && LongHere(b, 2 + |name|, oflags, word)
            && (b[at] == if Bit(oflags, 6) then 1 else 0)
            && (Bit(oflags, 6) ==> LongHere(b, at + 1, mode, word) && LongHere(b, at + 1 + word, initial, word))
  {
    CreatIsBitSix(oflags);
    var s, f := StringBytes(name), LongBytes(oflags, word);
    var c := CreateBytes(oflags, mode, initial, word);
    var b := Encode(Open(name, oflags, mode, initial), word);
    assert |s| == 1 + |name| && s[0] == |name| && s[1..] == name;
    OpenFront(s, f, c, b);
    assert b == ([OPEN] + s) + f + c;
    LongIsHere([OPEN] + s, oflags, c, word);
    if HasCreat(oflags) { OpenTail([OPEN] + s + f, mode, initial, word, b); }
    hide LongBytes, LongHere, Bit, HasCreat, StringBytes;
  }

  lemma OpenFront(s: seq<int>, f: seq<int>, c: seq<int>, b: seq<int>)
    requires b == [OPEN] + s + f + c && s != []
    ensures b[0] == OPEN && b[1] == s[0] && b[2..1 + |s|] == s[1..]
    ensures forall k | 0 <= k < |c| :: b[1 + |s| + |f| + k] == c[k]
  {
    assert b[1..1 + |s|] == s;
    assert b[2..1 + |s|] == b[1..1 + |s|][1..];
  }

  lemma OpenTail(before: seq<int>, mode: int, initial: int, word: nat, b: seq<int>)
    requires IsWord(word) && b == before + ([1] + LongBytes(mode, word) + LongBytes(initial, word))
    ensures LongHere(b, |before| + 1, mode, word) && LongHere(b, |before| + 1 + word, initial, word)
  {
    assert b == (before + [1]) + LongBytes(mode, word) + LongBytes(initial, word);
    TwoLongsHere(before + [1], mode, initial, word, b);
    hide LongBytes, LongHere;
  }

  /** Two longs at the end of a message. */
  lemma TwoLongsHere(first: seq<int>, m: int, n: int, word: nat, b: seq<int>)
    requires IsWord(word) && b == first + LongBytes(m, word) + LongBytes(n, word)
    ensures |b| == |first| + 2 * word
    ensures LongHere(b, |first|, m, word) && LongHere(b, |first| + word, n, word)
  {
    var x, y := LongBytes(m, word), LongBytes(n, word);
    assert b == (first + x) + y + [];
    LongIsHere(first, m, y, word);
    LongIsHere(first + x, n, [], word);
    hide LongBytes, LongHere;
  }

  lemma FirstOfThree(a: seq<int>, b: seq<int>, c: seq<int>)
    ensures [] + a + (b + c) == a + b + c
  {}

  /** A reply is the extra value, if there is one, the result and errno. */
  lemma ReplyBytes(r: Reply, word: nat)
    requires IsWord(word)
    ensures var b, at := EncodeReply(r, word), if r.extra.Some? then word else 0;
            && |b| == at + 2 * word && LongHere(b, at, r.rta, word) && LongHere(b, at + word, r.errno, word)
            && (r.extra.Some? ==> LongHere(b, 0, r.extra.value, word))
  {
    var first := if r.extra.Some? then LongBytes(r.extra.value, word) else [];
    TwoLongsHere(first, r.rta, r.errno, word, EncodeReply(r, word));
    if r.extra.Some? {
      var result := LongBytes(r.rta, word) + LongBytes(r.errno, word);
      LongIsHere([], r.extra.value, result, word);
      FirstOfThree(first, LongBytes(r.rta, word), LongBytes(r.errno, word));
    }
    hide LongBytes, LongHere;
  }

  /** The shared buffer and its cursor. */
  class Buffer {
    const word: nat
    const buf: array<int>
    var pos: nat

    ghost predicate Valid()
      reads this, buf
    {
      IsWord(word) && buf.Length == MAX_MSG && pos <= MAX_MSG && IsBytes(buf[..])
    }

    constructor (word: nat)
      requires IsWord(word)
      ensures Valid() && fresh(buf) && this.word == word && pos == 0
    {
      this.word := word;
      buf := new int[MAX_MSG](_ => 0);
      pos := 0;
    }

    method ClearBuffer()
      requires Valid()
      modifies `pos
      ensures Valid() && pos == 0
    {
      pos := 0;
    }

    /** memcpy into the buffer at the cursor. */
    method CopyIn(bytes: seq<int>)
      requires Valid() && IsBytes(bytes) && pos + |bytes| <= MAX_MSG
      modifies `pos, buf
      ensures Valid() && pos == old(pos) + |bytes| && buf[..pos] == old(buf[..pos]) + bytes
    {
      for i := 0 to |bytes|
        invariant pos == old(pos) && IsBytes(buf[..])
        invariant buf[..pos + i] == old(buf[..pos]) + bytes[..i]
      {
        buf[pos + i] := bytes[i];
        assert buf[..pos + (i + 1)] == buf[..pos + i] + [bytes[i]];
      }
      assert bytes[..|bytes|] == bytes;
      pos := pos + |bytes|;
    }

    method PutLong(n: int)
      requires Valid() && pos + word <= MAX_MSG
      modifies `pos, buf
      ensures Valid() && buf[..pos] == old(buf[..pos]) + LongBytes(n, word)
    {
      CopyIn(LongBytes(n, word));
    }

    method PutChar(c: int)
      requires Valid() && pos < MAX_MSG
      modifies `pos, buf
      ensures Valid() && buf[..pos] == old(buf[..pos]) + [c % 256]
    {
      CopyIn([c % 256]);
    }

    method PutString(s: seq<int>)
      requires Valid() && IsBytes(s) && pos + 1 + |s| <= MAX_MSG
      modifies `pos, buf
      ensures Valid() && buf[..pos] == old(buf[..pos]) + StringBytes(s)
    {
      CopyIn([|s| % 256]);
      CopyIn(s);
    }

    method TakeLong() returns (ok: bool, n: int)
      requires Valid()
      modifies `pos
      ensures Valid()
      ensures var r := GetLong(buf[..], old(pos), word);
              ok == r.Some? && (ok ==> n == r.value.0 && pos == r.value.1) && (!ok ==> pos == old(pos))
    {
      if pos + word > MAX_MSG { return false, 0; }
      var u := ((buf[pos] * 256 + buf[pos + 1]) * 256 + buf[pos + 2]) * 256 + buf[pos + 3];
      pos := pos + word;
      ok, n := true, ToInt(if word == 4 then ToInt(u) else u);
    }

    method TakeChar() returns (ok: bool, c: int)
      requires Valid()
      modifies `pos
      ensures Valid()
      ensures var r := GetChar(buf[..], old(pos));
              ok == r.Some? && (ok ==> c == r.value.0 && pos == r.value.1) && (!ok ==> pos == old(pos))
    {
      if pos == MAX_MSG { return false, 0; }
      c := SignedChar(buf[pos]);
      pos := pos + 1;
      ok := true;
    }

    method TakeString() returns (ok: bool, s: seq<int>)
      requires Valid()
      modifies `pos
      ensures Valid()
      ensures var r := GetString(buf[..], old(pos));
              ok == r.Some? && (ok ==> s == r.value.0 && pos == r.value.1) && (!ok ==> pos == old(pos))
    {
      if pos == MAX_MSG { return false, []; }
      var len := SignedChar(buf[pos]);
      if len < 0 || pos + 1 + len > MAX_MSG { return false, []; }
      s := buf[pos + 1..pos + 1 + len];
      assert s == buf[..][pos + 1..pos + 1 + len];
      pos := pos + 1 + len;
      ok := true;
    }

    /** The request half of a client stub. */
    method PutRequest(r: Request)
      requires Valid() && WellFormed(r) && |Encode(r, word)| <= MAX_MSG
      modifies `pos, buf
      ensures Valid() && buf[..pos] == Encode(r, word)
    {
      hide LongBytes, StringBytes, CreateBytes, IsBytes;
      ClearBuffer();
      match r {
        case Open(name, oflags, mode, initial) => PutOpen(name, oflags, mode, initial);
        case OnHandle(code, handle) => PutOnHandle(code, handle);
        case Unlink(name) => PutUnlink(name);
        case Init(pshared, initial) => PutInit(pshared, initial);
        case Disconnect =>
          PutChar(DISCONNECT);
          assert buf[..pos] == [DISCONNECT];
      }
    }

    method PutOnHandle(code: int, handle: int)
      requires Valid() && pos == 0 && HandleCode(code)
      modifies `pos, buf
      ensures Valid() && buf[..pos] == Encode(OnHandle(code, handle), word)
    {
      hide LongBytes, IsBytes;
      PutChar(code);
      assert buf[..pos] == [code];
      PutLong(handle);
    }

    method PutUnlink(name: seq<int>)
      requires Valid() && pos == 0 && IsBytes(name) && |Encode(Unlink(name), word)| <= MAX_MSG
      modifies `pos, buf
      ensures Valid() && buf[..pos] == Encode(Unlink(name), word)
    {
      StringSize(name);
      hide StringBytes, IsBytes;
      PutChar(UNLINK);
      assert buf[..pos] == [UNLINK];
      PutString(name);
    }

    method PutInit(pshared: int, initial: int)
      requires Valid() && pos == 0
      modifies `pos, buf
      ensures Valid() && buf[..pos] == Encode(Init(pshared, initial), word)
    {
      hide LongBytes, IsBytes;
      PutChar(INIT);
      assert buf[..pos] == [INIT];
      PutLong(pshared);
      PutLong(initial);
    }

    method PutOpen(name: seq<int>, oflags: int, mode: int, initial: int)
      requires Valid() && pos == 0 && IsBytes(name) && |Encode(Open(name, oflags, mode, initial), word)| <= MAX_MSG
      modifies `pos, buf
      ensures Valid() && buf[..pos] == Encode(Open(name, oflags, mode, initial), word)
    {
      StringSize(name);
      hide LongBytes, StringBytes, CreateBytes, IsBytes;
      PutChar(OPEN);
      assert buf[..pos] == [OPEN];
      PutString(name);
      PutLong(oflags);
      PutCreate(oflags, mode, initial);
    }

    method PutCreate(oflags: int, mode: int, initial: int)
      requires Valid() && pos + |CreateBytes(oflags, mode, initial, word)| <= MAX_MSG
      modifies `pos, buf
      ensures Valid() && buf[..pos] == old(buf[..pos]) + CreateBytes(oflags, mode, initial, word)
    {
      hide LongBytes, IsBytes, HasCreat;
      ghost var done, m, v := buf[..pos], LongBytes(mode, word), LongBytes(initial, word);
      if HasCreat(oflags) {
        PutChar(1);
        PutLong(mode);
        assert buf[..pos] == done + ([1] + m);
        PutLong(initial);
        assert buf[..pos] == (done + ([1] + m)) + v;
        assert (done + ([1] + m)) + v == done + ([1] + m + v);
      } else {
        PutChar(0);
      }
    }

    /** The decoding half of aceptar_pedido: reads from the start of the whole buffer. */
    method TakeRequest() returns (ok: bool, r: Request)
      requires Valid()
      modifies `pos
      ensures Valid()
      ensures var d := Decode(buf[..], word); ok == d.Some? && (ok ==> r == d.value.0 && pos == d.value.1)
    {
      r := Disconnect;
      ClearBuffer();
      var code: int;
      ok, code := TakeChar();
      if code == OPEN {
        ok, r := TakeOpen();
      } else if code == UNLINK {
        var name: seq<int>;
        ok, name := TakeString();
        r := Unlink(name);
      } else if code == INIT {
        var pshared, initial: int;
        ok, pshared := TakeLong();
        if !ok { return; }
        ok, initial := TakeLong();
        r := Init(pshared, initial);
      } else if HandleCode(code) {
        var handle: int;
        ok, handle := TakeLong();
        r := OnHandle(code, handle);
      }
    }

    method TakeOpen() returns (ok: bool, r: Request)
      requires Valid()
      modifies `pos
      ensures Valid()
      ensures var d := DecodeOpen(buf[..], old(pos), word); ok == d.Some? && (ok ==> r == d.value.0 && pos == d.value.1)
    {
      r := Disconnect;
      var name: seq<int>;
      var oflags, more, mode, initial: int;
      ok, name := TakeString();
      if !ok { return; }
      ok, oflags := TakeLong();
      if !ok { return; }
      ok, more := TakeChar();
      if !ok { return; }
      if more == 0 { return true, Open(name, oflags, 0, 0); }
      ok, mode := TakeLong();
      if !ok { return; }
      ok, initial := TakeLong();
      r := Open(name, oflags, mode, initial);
    }
  }

  /** What a client stub puts in the buffer is what the server takes out of it, given a name of at
      most 127 bytes; such a message always fits. */
  method Transmit(b: Buffer, r: Request) returns (ok: bool, got: Request)
    requires b.Valid() && WellFormed(r) && |NameOf(r)| <= 127
    modifies b, b.buf
    ensures ok && got == r && b.pos == |Encode(r, b.word)|
  {
    b.PutRequest(r);
    RequestRoundTripIff(r, b.word, b.buf[b.pos..]);
    assert b.buf[..] == b.buf[..b.pos] + b.buf[b.pos..];
    ok, got := b.TakeRequest();
  }
}
