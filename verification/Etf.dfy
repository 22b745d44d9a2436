/** The External Term Format: the bytes of a term, the term at the front of some bytes, and why they fit. */
module Etf {
  import opened Wrappers
  import opened Bytes
  import opened Terms
  import Utf8

  const VERSION: byte := 131
  const SMALL_INTEGER_EXT: byte := 97
  const INTEGER_EXT: byte := 98
  const FLOAT_EXT: byte := 99
  const ATOM_EXT: byte := 100
  const SMALL_TUPLE_EXT: byte := 104
  const LARGE_TUPLE_EXT: byte := 105
  const NIL_EXT: byte := 106
  const STRING_EXT: byte := 107
  const LIST_EXT: byte := 108
  const BINARY_EXT: byte := 109
  const SMALL_BIG_EXT: byte := 110
  const LARGE_BIG_EXT: byte := 111
  const NEW_FLOAT_EXT: byte := 70
  const ATOM_UTF8_EXT: byte := 118
  const SMALL_ATOM_UTF8_EXT: byte := 119
  const MAP_EXT: byte := 116
  const PID_EXT: byte := 103
  const NEW_PID_EXT: byte := 88
  const NEW_REFERENCE_EXT: byte := 114
  const NEWER_REFERENCE_EXT: byte := 90
  const PORT_EXT: byte := 102
  const NEW_PORT_EXT: byte := 89

  // ---------- Encoding ----------

  predicate NameFits(name: Text) {
    Utf8.HasUtf8(name) && |Utf8.Encode(name)| < TWO_16
  }

  function Magnitude(n: int): nat {
    if n < 0 then -n else n
  }

  predicate AllFitU32(ids: seq<int>) {
    forall i :: 0 <= i < |ids| ==> FitsU32(ids[i])
  }

  /** The terms that `encode` takes without an exception. */
  predicate Encodable(t: Term)
    decreases t, 1
  {
    match t
    case Int(n) => |Digits(Magnitude(n))| < TWO_32
    case Atom(name) => NameFits(name)
    case Str(text) => Utf8.HasUtf8(text) && |Utf8.Encode(text)| < TWO_32
    case Binary(data) => |data| < TWO_32
    case Tuple(items) => |items| < TWO_32 && AllEncodable(items)
    case List(items) => |items| < TWO_32 && AllEncodable(items)
    case Map(entries) => |entries| < TWO_32 && EntriesEncodable(entries)
    case PidTerm(pid) => NameFits(pid.node)
    case Ref(node, creation, ids) => |ids| < TWO_16 && Encodable(node) && FitsU32(creation) && AllFitU32(ids)
    case Port(node, id, creation) => Encodable(node) && FitsU32(id) && FitsU32(creation)
    case _ => true
  }

  predicate AllEncodable(ts: seq<Term>)
    decreases ts, 0
  {
    ts == [] || (Encodable(ts[0]) && AllEncodable(ts[1..]))
  }

  predicate EntriesEncodable(es: seq<Entry>)
    decreases es, 0
  {
    es == [] || (EntryEncodable(es[0]) && EntriesEncodable(es[1..]))
  }

  predicate EntryEncodable(e: Entry)
    decreases e, 0
  {
    Encodable(e.key) && Encodable(e.value)
  }

  function EncAtom(name: Text): (s: bytes)
    requires NameFits(name)
    ensures s != []
  {
    var u := Utf8.Encode(name);
    if |u| < 256 then [SMALL_ATOM_UTF8_EXT, |u|] + u else [ATOM_UTF8_EXT] + (U16(|u|) + u)
  }

  function EncInt(n: int): (s: bytes)
    requires |Digits(Magnitude(n))| < TWO_32
    ensures s != []
  {
    var d := Digits(Magnitude(n));
    var sign := if n < 0 then 1 else 0;
    if 0 <= n < 256 then [SMALL_INTEGER_EXT, n]
    else if FitsI32(n) then [INTEGER_EXT] + I32(n)
    else if |d| < 256 then [SMALL_BIG_EXT] + ([|d|, sign] + d)
    else [LARGE_BIG_EXT] + (U32(|d|) + ([sign] + d))
  }

  function EncPid(pid: Pid): (s: bytes)
    requires NameFits(pid.node)
    ensures s != []
  {
    [NEW_PID_EXT] + (EncAtom(pid.node) + (U32(pid.id) + (U32(pid.serial) + U32(pid.creation))))
  }

  function EncIds(ids: seq<int>): bytes
    requires AllFitU32(ids)
  {
    if ids == [] then [] else U32(ids[0]) + EncIds(ids[1..])
  }

  function EncBinary(data: bytes): (s: bytes)
    requires |data| < TWO_32
    ensures s != []
  {
    [BINARY_EXT] + (U32(|data|) + data)
  }

  lemma FixedNamesFit()
    ensures NameFits(NIL_NAME) && NameFits(TRUE_NAME) && NameFits(FALSE_NAME)
  {
    AsciiName(NIL_NAME);
    AsciiName(TRUE_NAME);
    AsciiName(FALSE_NAME);
  }

  lemma {:induction false} AsciiName(name: Text)
    requires forall i :: 0 <= i < |name| ==> name[i] < 0x80
    ensures Utf8.HasUtf8(name) && |Utf8.Encode(name)| == |name|
  {
    if name != [] {
      assert |Utf8.EncodeChar(name[0])| == 1;
      AsciiName(name[1..]);
    }
  }

  function BoolName(b: bool): (name: Text)
    ensures NameFits(name)
  {
    FixedNamesFit();
    if b then TRUE_NAME else FALSE_NAME
  }

  function NilName(): (name: Text)
    ensures NameFits(name) && name == NIL_NAME
  {
    FixedNamesFit();
    NIL_NAME
  }

  function Enc(t: Term): (s: bytes)
    requires Encodable(t)
    ensures s != []
    decreases t, 1
  {
    match t
    case NoneTerm => EncAtom(NilName())
    case Bool(b) => EncAtom(BoolName(b))
    case Int(n) => EncInt(n)
    case Float(bits) => [NEW_FLOAT_EXT] + bits
    case Atom(name) => EncAtom(name)
    case Str(text) => EncBinary(Utf8.Encode(text))
    case Binary(data) => EncBinary(data)
    case Tuple(items) =>
      if |items| < 256 then [SMALL_TUPLE_EXT] + ([|items|] + EncAll(items))
      else [LARGE_TUPLE_EXT] + (U32(|items|) + EncAll(items))
    case List(items) =>
      if items == [] then [NIL_EXT] else [LIST_EXT] + (U32(|items|) + (EncAll(items) + [NIL_EXT]))
    case Map(entries) => [MAP_EXT] + (U32(|entries|) + EncEntries(entries))
    case PidTerm(pid) => EncPid(pid)
    case Ref(node, creation, ids) =>
      [NEWER_REFERENCE_EXT] + (U16(|ids|) + (Enc(node) + (U32(creation) + EncIds(ids))))
    case Port(node, id, creation) => [NEW_PORT_EXT] + (Enc(node) + (U32(id) + U32(creation)))
  }

  function EncAll(ts: seq<Term>): bytes
    requires AllEncodable(ts)
    decreases ts, 0
  {
    if ts == [] then [] else Enc(ts[0]) + EncAll(ts[1..])
  }

  function EncEntries(es: seq<Entry>): bytes
    requires EntriesEncodable(es)
    decreases es, 0
  {
    if es == [] then [] else EncEntry(es[0]) + EncEntries(es[1..])
  }

  function EncEntry(e: Entry): bytes
    requires EntryEncodable(e)
    decreases e, 0
  {
    Enc(e.key) + Enc(e.value)
  }

  // ---------- Decoding ----------

  datatype Error = UnexpectedEnd | BadVersion | UnknownTag | BadText | BadPid | Unhashable | OldFloat

  /** What was read at the front of some bytes, and how many of them it took. */
  datatype Decoded<+T> = Got(value: T, used: nat) | Fail(error: Error) {
    predicate IsFailure() {
      Fail?
    }

    function PropagateFailure<U>(): Decoded<U>
      requires Fail?
    {
      Fail(error)
    }

    function Extract(): (T, nat)
      requires Got?
    {
      (value, used)
    }
  }

  function ReadByte(s: bytes): Decoded<byte> {
    if s == [] then Fail(UnexpectedEnd) else Got(s[0], 1)
  }

  function ReadBytes(s: bytes, n: nat): Decoded<bytes> {
    if n > |s| then Fail(UnexpectedEnd) else Got(s[..n], n)
  }

  function ReadU16(s: bytes): (r: Decoded<int>)
    ensures r.Got? ==> FitsU16(r.value) && r.used == 2 <= |s|
  {
    var (b, n) :- ReadBytes(s, 2);
    Got(FromU16(b), 2)
  }

  function ReadU32(s: bytes): (r: Decoded<u32>)
    ensures r.Got? ==> r.used == 4 <= |s|
  {
    var (b, n) :- ReadBytes(s, 4);
    Got(FromU32(b), 4)
  }

  function ReadI32(s: bytes): Decoded<int> {
    var (b, n) :- ReadBytes(s, 4);
    Got(FromI32(b), 4)
  }

  /** Text of `n` bytes, as UTF-8 or Latin-1. */
  function ReadText(s: bytes, n: nat, utf8: bool): Decoded<Text> {
    var (b, k) :- ReadBytes(s, n);
    if utf8 then
      match Utf8.Decode(b)
      case Some(text) => Got(text, n)
      case None => Fail(BadText)
    else Got(b, n)
  }

  function ReadName(tag: byte, s: bytes): Decoded<Text> {
    if tag == SMALL_ATOM_UTF8_EXT then
      var (n, _) :- ReadByte(s);
      var (name, _) :- ReadText(s[1..], n, true);
      Got(name, 1 + n)
    else
      var (n, _) :- ReadU16(s);
      var (name, _) :- ReadText(s[2..], n, tag == ATOM_UTF8_EXT);
      Got(name, 2 + n)
  }

  function Signed(sign: byte, digits: bytes): int {
    var magnitude: int := FromBytes(digits);
    if sign != 0 then -magnitude else magnitude
  }

  function ReadBig(s: bytes, n: nat): Decoded<int> {
    var (sign, _) :- ReadByte(s);
    var (digits, _) :- ReadBytes(s[1..], n);
    Got(Signed(sign, digits), 1 + n)
  }

  function ReadInt(tag: byte, s: bytes): Decoded<int> {
    if tag == SMALL_INTEGER_EXT then
      ReadByte(s)
    else if tag == INTEGER_EXT then
      ReadI32(s)
    else if tag == SMALL_BIG_EXT then
      var (n, _) :- ReadByte(s);
      var (v, k) :- ReadBig(s[1..], n);
      Got(v, 1 + k)
    else
      var (n, _) :- ReadU32(s);
      var (v, k) :- ReadBig(s[4..], n);
      Got(v, 4 + k)
  }

  function ReadIds(s: bytes, n: nat): (r: Decoded<seq<int>>)
    ensures r.Got? ==> r.used <= |s| && |r.value| == n && AllFitU32(r.value)
  {
    if n == 0 then Got([], 0)
    else
      var (id, _) :- ReadU32(s);
      var (ids, k) :- ReadIds(s[4..], n - 1);
      Got([id] + ids, 4 + k)
  }

  function BytesAsInts(s: bytes): (r: seq<Term>)
    ensures |r| == |s|
  {
    if s == [] then [] else [Int(s[0])] + BytesAsInts(s[1..])
  }

  function ReadFlat(tag: byte, s: bytes): Decoded<Term> {
    if tag in {SMALL_INTEGER_EXT, INTEGER_EXT, SMALL_BIG_EXT, LARGE_BIG_EXT} then
      var (v, k) :- ReadInt(tag, s);
      Got(Int(v), k)
    else if tag in {ATOM_EXT, ATOM_UTF8_EXT, SMALL_ATOM_UTF8_EXT} then
      var (name, k) :- ReadName(tag, s);
      Got(Atom(name), k)
    else if tag == NEW_FLOAT_EXT then
      var (bits, k) :- ReadBytes(s, 8);
      Got(Float(bits), k)
    else if tag == FLOAT_EXT then
      var (text, k) :- ReadBytes(s, 31);
      Fail(OldFloat)
    else if tag == NIL_EXT then
      Got(List([]), 0)
    else if tag == STRING_EXT then
      var (n, _) :- ReadU16(s);
      var (data, _) :- ReadBytes(s[2..], n);
      Got(List(BytesAsInts(data)), 2 + n)
    else if tag == BINARY_EXT then
      var (n, _) :- ReadU32(s);
      var (data, _) :- ReadBytes(s[4..], n);
      Got(Binary(data), 4 + n)
    else Fail(UnknownTag)
  }

  /** The creation field: one byte in the older forms, four in the newer ones. */
  function ReadCreation(wide: bool, s: bytes): (r: Decoded<u32>)
    ensures r.Got? ==> r.used == (if wide then 4 else 1) <= |s|
  {
    if wide then ReadU32(s)
    else
      var (c, k) :- ReadByte(s);
      Got(c, k)
  }

  function Dec(s: bytes): (r: Decoded<Term>)
    ensures r.Got? ==> 0 < r.used <= |s|
    decreases |s|, 0, 0
  {
    var (tag, _) :- ReadByte(s);
    var (t, k) :- DecBody(tag, s[1..]);
    Got(t, 1 + k)
  }

  function DecBody(tag: byte, s: bytes): (r: Decoded<Term>)
    ensures r.Got? ==> r.used <= |s|
    decreases |s|, 2, 0
  {
    if tag == SMALL_TUPLE_EXT then
      var (n, _) :- ReadByte(s);
      var (items, k) :- DecMany(s[1..], n);
      Got(Tuple(items), 1 + k)
    else if tag == LARGE_TUPLE_EXT then
      var (n, _) :- ReadU32(s);
      var (items, k) :- DecMany(s[4..], n);
      Got(Tuple(items), 4 + k)
    else if tag == LIST_EXT then
      var (n, _) :- ReadU32(s);
      var (items, k) :- DecMany(s[4..], n);
      var (tail, m) :- Dec(s[4 + k..]);
      Got(List(if tail == List([]) then items else items + [tail]), 4 + k + m)
    else if tag == MAP_EXT then
      var (n, _) :- ReadU32(s);
      var (entries, k) :- DecPairs(s[4..], n);
      Got(Map(DictOf(entries)), 4 + k)
    else if tag == PID_EXT || tag == NEW_PID_EXT then
      DecPid(tag == NEW_PID_EXT, s)
    else if tag == NEW_REFERENCE_EXT || tag == NEWER_REFERENCE_EXT then
      DecRef(tag == NEWER_REFERENCE_EXT, s)
    else if tag == PORT_EXT || tag == NEW_PORT_EXT then
      DecPort(tag == NEW_PORT_EXT, s)
    else
      ReadFlat(tag, s)
  }

  function DecPid(wide: bool, s: bytes): (r: Decoded<Term>)
    ensures r.Got? ==> r.used <= |s|
    decreases |s|, 1, 0
  {
    var (node, k) :- Dec(s);
    var (id, _) :- ReadU32(s[k..]);
    var (serial, _) :- ReadU32(s[k + 4..]);
    var (creation, c) :- ReadCreation(wide, s[k + 8..]);
    if node.Atom? then Got(PidTerm(Pid(node.name, id, serial, creation)), k + 8 + c) else Fail(BadPid)
  }

  function DecRef(wide: bool, s: bytes): (r: Decoded<Term>)
    ensures r.Got? ==> r.used <= |s|
    decreases |s|, 1, 0
  {
    var (n, _) :- ReadU16(s);
    var (node, k) :- Dec(s[2..]);
    var (creation, c) :- ReadCreation(wide, s[2 + k..]);
    var (ids, m) :- ReadIds(s[2 + k + c..], n);
    Got(Ref(node, creation, ids), 2 + k + c + m)
  }

  function DecPort(wide: bool, s: bytes): (r: Decoded<Term>)
    ensures r.Got? ==> r.used <= |s|
    decreases |s|, 1, 0
  {
    var (node, k) :- Dec(s);
    var (id, _) :- ReadU32(s[k..]);
    var (creation, c) :- ReadCreation(wide, s[k + 4..]);
    Got(Port(node, id, creation), k + 4 + c)
  }

  function DecMany(s: bytes, n: nat): (r: Decoded<seq<Term>>)
    ensures r.Got? ==> r.used <= |s| && |r.value| == n
    decreases |s|, 1, n
  {
    if n == 0 then Got([], 0)
    else
      var (t, k) :- Dec(s);
      var (ts, m) :- DecMany(s[k..], n - 1);
      Got([t] + ts, k + m)
  }

  /** The pairs of a dictionary in the order read; a key that cannot be hashed stops it. */
  function DecPairs(s: bytes, n: nat): (r: Decoded<seq<Entry>>)
    ensures r.Got? ==> r.used <= |s| && |r.value| == n
    decreases |s|, 1, n
  {
    if n == 0 then Got([], 0)
    else
      var (key, k) :- Dec(s);
      var (value, v) :- Dec(s[k..]);
      if !Hashable(key) then Fail(Unhashable)
      else
        var (es, m) :- DecPairs(s[k + v..], n - 1);
        Got([Entry(key, value)] + es, k + v + m)
  }

  /** `encode` and `decode`: a version byte, then one term. */
  function EncodeTerm(t: Term): bytes
    requires Encodable(t)
  {
    [VERSION] + Enc(t)
  }

  function DecodeTerm(s: bytes): Decoded<Term> {
    var (version, _) :- ReadByte(s);
    if version != VERSION then Fail(BadVersion)
    else
      var (t, k) :- Dec(s[1..]);
      Got(t, 1 + k)
  }
}
