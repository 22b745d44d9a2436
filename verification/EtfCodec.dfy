/** The encoder with its growing buffer and the decoder with its cursor, against the functions of `Etf`. */
module EtfCodec {
  import opened Wrappers
  import opened Bytes
  import opened Terms
  import opened Etf
  import Utf8

  // One step of `Encodable` and `Enc`, so that the methods need not look inside the parts.

  lemma RefUnfolds(node: Term, creation: int, ids: seq<int>)
    ensures Encodable(Ref(node, creation, ids))
            <==> |ids| < TWO_16 && Encodable(node) && FitsU32(creation) && AllFitU32(ids)
    ensures Encodable(Ref(node, creation, ids)) ==>
              Enc(Ref(node, creation, ids))
              == [NEWER_REFERENCE_EXT] + (U16(|ids|) + (Enc(node) + (U32(creation) + EncIds(ids))))
  {
  }

  lemma PortUnfolds(node: Term, id: int, creation: int)
    ensures Encodable(Port(node, id, creation)) <==> Encodable(node) && FitsU32(id) && FitsU32(creation)
    ensures Encodable(Port(node, id, creation)) ==>
              Enc(Port(node, id, creation)) == [NEW_PORT_EXT] + (Enc(node) + (U32(id) + U32(creation)))
  {
  }

  lemma TupleUnfolds(items: seq<Term>)
    ensures Encodable(Tuple(items)) <==> |items| < TWO_32 && AllEncodable(items)
    ensures Encodable(Tuple(items)) ==>
              Enc(Tuple(items)) == if |items| < 256 then [SMALL_TUPLE_EXT] + ([|items|] + EncAll(items))
                                   else [LARGE_TUPLE_EXT] + (U32(|items|) + EncAll(items))
  {
    hide EncAll, AllEncodable;
  }

  lemma ListUnfolds(items: seq<Term>)
    ensures Encodable(List(items)) <==> |items| < TWO_32 && AllEncodable(items)
    ensures Encodable(List(items)) ==>
              Enc(List(items)) == if items == [] then [NIL_EXT]
                                  else [LIST_EXT] + (U32(|items|) + (EncAll(items) + [NIL_EXT]))
  {
    hide EncAll, AllEncodable;
  }

  lemma MapUnfolds(entries: seq<Entry>)
    ensures Encodable(Map(entries)) <==> |entries| < TWO_32 && EntriesEncodable(entries)
    ensures Encodable(Map(entries)) ==> Enc(Map(entries)) == [MAP_EXT] + (U32(|entries|) + EncEntries(entries))
  {
  }

  lemma AllUnfolds(items: seq<Term>, i: nat)
    requires i < |items|
    ensures AllEncodable(items[i..]) <==> Encodable(items[i]) && AllEncodable(items[i + 1..])
    ensures AllEncodable(items[i..]) ==> EncAll(items[i..]) == Enc(items[i]) + EncAll(items[i + 1..])
  {
    assert items[i..][0] == items[i] && items[i..][1..] == items[i + 1..];
  }

  lemma NothingLeft<T>(items: seq<T>)
    ensures items[|items|..] == [] && items[0..] == items
  {
  }

  lemma NothingToEncode()
    ensures AllEncodable([]) && EncAll([]) == [] && EntriesEncodable([]) && EncEntries([]) == []
  {
  }

  lemma RefJoins(was: bytes, node: Term, creation: int, ids: seq<int>)
    requires Encodable(Ref(node, creation, ids))
    ensures |ids| < TWO_16 && Encodable(node) && FitsU32(creation) && AllFitU32(ids)
    ensures was + Enc(Ref(node, creation, ids))
            == was + [NEWER_REFERENCE_EXT] + U16(|ids|) + Enc(node) + U32(creation) + EncIds(ids)
  {
    RefUnfolds(node, creation, ids);
    hide Enc, U16, U32, EncIds;
  }

  lemma PortJoins(was: bytes, node: Term, id: int, creation: int)
    requires Encodable(Port(node, id, creation))
    ensures Encodable(node) && FitsU32(id) && FitsU32(creation)
    ensures was + Enc(Port(node, id, creation)) == was + [NEW_PORT_EXT] + Enc(node) + U32(id) + U32(creation)
  {
    PortUnfolds(node, id, creation);
    hide Enc, U32;
  }

  lemma PidJoins(was: bytes, pid: Pid)
    requires NameFits(pid.node)
    ensures was + EncPid(pid)
            == was + [NEW_PID_EXT] + EncAtom(pid.node) + U32(pid.id) + U32(pid.serial) + U32(pid.creation)
  {
    hide EncAtom, U32;
  }

  lemma AtomJoins(was: bytes, name: Text)
    requires NameFits(name)
    ensures var u := Utf8.Encode(name);
            was + EncAtom(name) == (if |u| < 256 then was + [SMALL_ATOM_UTF8_EXT] + [|u|]
                                    else was + [ATOM_UTF8_EXT] + U16(|u|)) + u
  {
  }

  class ETFEncoder {
    var buffer: bytes

    constructor ()
      ensures buffer == []
    {
      buffer := [];
    }

    /** Every method below answers whether it ran to its end, that is without an exception. */
    method Encode(t: Term) returns (r: Option<bytes>)
      modifies this
      ensures r == if Encodable(t) then Some(Etf.EncodeTerm(t)) else None
    {
      buffer := [VERSION];
      var ok := EncodeTerm(t);
      r := if ok then Some(buffer) else None;
    }

    method WriteBytes(data: bytes)
      modifies this
      ensures buffer == old(buffer) + data
    {
      buffer := buffer + data;
    }

    method WriteByte(b: byte)
      modifies this
      ensures buffer == old(buffer) + [b]
    {
      buffer := buffer + [b];
    }

    method WriteU16(n: int) returns (ok: bool)
      modifies this
      ensures ok == FitsU16(n)
      ensures buffer == if ok then old(buffer) + U16(n) else old(buffer)
    {
      ok := 0 <= n < TWO_16;
      if ok {
        buffer := buffer + U16(n);
      }
    }

    method WriteU32(n: int) returns (ok: bool)
      modifies this
      ensures ok == FitsU32(n)
      ensures buffer == if ok then old(buffer) + U32(n) else old(buffer)
    {
      ok := 0 <= n < TWO_32;
      if ok {
        buffer := buffer + U32(n);
      }
    }

    method EncodeName(name: Text) returns (ok: bool)
      modifies this
      ensures old(buffer) <= buffer
      ensures ok == NameFits(name)
      ensures ok ==> buffer == old(buffer) + EncAtom(name)
    {
      if !Utf8.HasUtf8(name) {
        return false;
      }
      var u := Utf8.Encode(name);
      ghost var was := buffer;
      if |u| < 256 {
        WriteByte(SMALL_ATOM_UTF8_EXT);
        WriteByte(|u|);
      } else {
        WriteByte(ATOM_UTF8_EXT);
        var fits := WriteU16(|u|);
        if !fits {
          return false;
        }
      }
      AtomJoins(was, name);
      hide Utf8.HasUtf8, Utf8.Encode, EncAtom, U16;
      WriteBytes(u);
      ok := true;
    }

    method EncodeInt(n: int) returns (ok: bool)
      modifies this
      ensures old(buffer) <= buffer
      ensures ok == Encodable(Int(n))
      ensures ok ==> buffer == old(buffer) + EncInt(n)
    {
      if 0 <= n <= 255 {
        SmallDigits(Magnitude(n));
        WriteByte(SMALL_INTEGER_EXT);
        WriteByte(n);
        ok := true;
      } else if -TWO_31 <= n <= TWO_31 - 1 {
        SmallDigits(Magnitude(n));
        WriteByte(INTEGER_EXT);
        WriteBytes(I32(n));
        ok := true;
      } else {
        var sign := if n < 0 then 1 else 0;
        var magnitude: nat := if n < 0 then -n else n;
        WholeBytes(magnitude);
        ok := EncodeBig(sign, ToBytes(magnitude, (BitLength(magnitude) + 7) / 8));
      }
    }

    method EncodeBig(sign: byte, digits: bytes) returns (ok: bool)
      modifies this
      ensures old(buffer) <= buffer
      ensures ok == (|digits| < TWO_32)
      ensures ok ==> buffer == old(buffer)
                     + if |digits| < 256 then [SMALL_BIG_EXT] + ([|digits|, sign] + digits)
                       else [LARGE_BIG_EXT] + (U32(|digits|) + ([sign] + digits))
    {
      hide U32;
      if |digits| < 256 {
        WriteByte(SMALL_BIG_EXT);
        WriteByte(|digits|);
      } else {
        WriteByte(LARGE_BIG_EXT);
        ok := WriteU32(|digits|);
        if !ok { return; }
      }
      WriteByte(sign);
      WriteBytes(digits);
      ok := true;
    }

    lemma SmallDigits(n: nat)
      requires n <= TWO_31
      ensures |Digits(n)| <= 4
    {
      assert |Digits(n)| <= 1 + |Digits(n / 256)|;
      assert |Digits(n / 256)| <= 1 + |Digits(n / 256 / 256)|;
      assert |Digits(n / 256 / 256)| <= 1 + |Digits(n / 256 / 256 / 256)|;
    }

    method EncodeBinary(data: bytes) returns (ok: bool)
      modifies this
      ensures old(buffer) <= buffer
      ensures ok == (|data| < TWO_32)
      ensures ok ==> buffer == old(buffer) + EncBinary(data)
    {
      WriteByte(BINARY_EXT);
      ok := WriteU32(|data|);
      if ok {
        WriteBytes(data);
      }
    }

    method EncodePid(pid: Pid) returns (ok: bool)
      modifies this
      ensures old(buffer) <= buffer
      ensures ok == NameFits(pid.node)
      ensures ok ==> buffer == old(buffer) + EncPid(pid)
    {
      ghost var was := buffer;
      WriteByte(NEW_PID_EXT);
      ok := EncodeName(pid.node);
      if ok {
        PidJoins(was, pid);
        hide EncPid, EncAtom, U32;
        var a := WriteU32(pid.id);
        var b := WriteU32(pid.serial);
        var c := WriteU32(pid.creation);
      }
    }

    method EncodeIds(ids: seq<int>) returns (ok: bool)
      modifies this
      ensures old(buffer) <= buffer
      ensures ok == AllFitU32(ids)
      ensures ok ==> buffer == old(buffer) + EncIds(ids)
    {
      ghost var base := buffer;
      for i := 0 to |ids|
        invariant base <= buffer
        invariant AllFitU32(ids[..i])
        invariant AllFitU32(ids) ==> buffer + EncIds(ids[i..]) == base + EncIds(ids)
      {
        var fits := WriteU32(ids[i]);
        if !fits {
          return false;
        }
        assert ids[i..][1..] == ids[i + 1..];
      }
      assert ids[..|ids|] == ids;
      ok := true;
    }

    method EncodeRef(node: Term, creation: int, ids: seq<int>, ghost t: Term) returns (ok: bool)
      requires t == Ref(node, creation, ids)
      modifies this
      ensures old(buffer) <= buffer
      ensures ok == Encodable(t)
      ensures ok ==> buffer == old(buffer) + Enc(t)
      decreases t, 0
    {
      RefUnfolds(node, creation, ids);
      if Encodable(t) {
        RefJoins(buffer, node, creation, ids);
      }
      hide Enc, Encodable, EncIds, AllFitU32, U16, U32;
      WriteByte(NEWER_REFERENCE_EXT);
      ok := WriteU16(|ids|);
      if !ok { return; }
      ok := EncodeTerm(node);
      if !ok { return; }
      ok := WriteU32(creation);
      if !ok { return; }
      ok := EncodeIds(ids);
    }

    method EncodePort(node: Term, id: int, creation: int, ghost t: Term) returns (ok: bool)
      requires t == Port(node, id, creation)
      modifies this
      ensures old(buffer) <= buffer
      ensures ok == Encodable(t)
      ensures ok ==> buffer == old(buffer) + Enc(t)
      decreases t, 0
    {
      PortUnfolds(node, id, creation);
      if Encodable(t) {
        PortJoins(buffer, node, id, creation);
      }
      hide Enc, Encodable, U32;
      WriteByte(NEW_PORT_EXT);
      ok := EncodeTerm(node);
      if !ok { return; }
      ok := WriteU32(id);
      if !ok { return; }
      ok := WriteU32(creation);
    }

    method EncodeItems(items: seq<Term>) returns (ok: bool)
      modifies this
      ensures old(buffer) <= buffer
      ensures ok == AllEncodable(items)
      ensures ok ==> buffer == old(buffer) + EncAll(items)
      decreases items, 0
    {
      ghost var base := buffer;
      NothingLeft(items);
      NothingToEncode();
      hide *;
      for i := 0 to |items|
        invariant base <= buffer
        invariant AllEncodable(items) == AllEncodable(items[i..])
        invariant AllEncodable(items) ==> buffer + EncAll(items[i..]) == base + EncAll(items)
      {
        AllUnfolds(items, i);
        ok := EncodeTerm(items[i]);
        if !ok {
          return;
        }
      }
      ok := true;
    }

    method EncodePairs(entries: seq<Entry>) returns (ok: bool)
      modifies this
      ensures old(buffer) <= buffer
      ensures ok == EntriesEncodable(entries)
      ensures ok ==> buffer == old(buffer) + EncEntries(entries)
      decreases entries, 0
    {
      ghost var base := buffer;
      for i := 0 to |entries|
        invariant base <= buffer
        invariant EntriesEncodable(entries) == EntriesEncodable(entries[i..])
        invariant EntriesEncodable(entries) ==> buffer + EncEntries(entries[i..]) == base + EncEntries(entries)
      {
        assert entries[i..][0] == entries[i] && entries[i..][1..] == entries[i + 1..];
        ok := EncodePair(entries[i]);
        if !ok {
          return;
        }
      }
      ok := true;
    }

    method EncodePair(e: Entry) returns (ok: bool)
      modifies this
      ensures old(buffer) <= buffer
      ensures ok == EntryEncodable(e)
      ensures ok ==> buffer == old(buffer) + EncEntry(e)
      decreases e, 0
    {
      hide Enc, Encodable;
      ok := EncodeTerm(e.key);
      if ok {
        ok := EncodeTerm(e.value);
      }
    }

    method EncodeTuple(items: seq<Term>) returns (ok: bool)
      modifies this
      ensures old(buffer) <= buffer
      ensures ok == Encodable(Tuple(items))
      ensures ok ==> buffer == old(buffer) + Enc(Tuple(items))
      decreases items, 1
    {
      TupleUnfolds(items);
      hide Enc, Encodable, EncAll, AllEncodable, U32;
      if |items| < 256 {
        WriteByte(SMALL_TUPLE_EXT);
        WriteByte(|items|);
      } else {
        WriteByte(LARGE_TUPLE_EXT);
        ok := WriteU32(|items|);
        if !ok { return; }
      }
      ok := EncodeItems(items);
    }

    method EncodeList(items: seq<Term>) returns (ok: bool)
      modifies this
      ensures old(buffer) <= buffer
      ensures ok == Encodable(List(items))
      ensures ok ==> buffer == old(buffer) + Enc(List(items))
      decreases items, 1
    {
      ListUnfolds(items);
      NothingToEncode();
      hide Enc, Encodable, EncAll, AllEncodable, U32;
      if |items| == 0 {
        WriteByte(NIL_EXT);
        return true;
      }
      WriteByte(LIST_EXT);
      ok := WriteU32(|items|);
      if !ok { return; }
      ok := EncodeItems(items);
      if ok {
        WriteByte(NIL_EXT);
      }
    }

    method EncodeMap(entries: seq<Entry>) returns (ok: bool)
      modifies this
      ensures old(buffer) <= buffer
      ensures ok == Encodable(Map(entries))
      ensures ok ==> buffer == old(buffer) + Enc(Map(entries))
      decreases entries, 1
    {
      MapUnfolds(entries);
      hide Enc, Encodable, EncEntries, EntriesEncodable, U32;
      WriteByte(MAP_EXT);
      ok := WriteU32(|entries|);
      if !ok { return; }
      ok := EncodePairs(entries);
    }

    method EncodeTerm(t: Term) returns (ok: bool)
      modifies this
      ensures old(buffer) <= buffer
      ensures ok == Encodable(t)
      ensures ok ==> buffer == old(buffer) + Enc(t)
      decreases t, 1
    {
      match t
      case PidTerm(pid) => ok := EncodePid(pid);
      case Atom(name) => ok := EncodeName(name);
      case NoneTerm => ok := EncodeName(NilName());
      case Bool(b) => ok := EncodeName(BoolName(b));
      case Int(n) => ok := EncodeInt(n);
      case Float(bits) => WriteByte(NEW_FLOAT_EXT); WriteBytes(bits); ok := true;
      case Binary(data) => ok := EncodeBinary(data);
      case Str(text) =>
        if !Utf8.HasUtf8(text) { return false; }
        ok := EncodeBinary(Utf8.Encode(text));
      case Tuple(items) => ok := EncodeTuple(items);
      case List(items) => ok := EncodeList(items);
      case Map(entries) => ok := EncodeMap(entries);
      case Ref(node, creation, ids) => ok := EncodeRef(node, creation, ids, t);
      case Port(node, id, creation) => ok := EncodePort(node, id, creation, t);
    }
  }

  // ---------- Decoder ----------

  /** The outcome `r` and the cursor move from `p` to `q` are what `spec` says of the bytes at `p`. */
  ghost predicate Follows<T>(spec: Decoded<T>, r: Result<T, Error>, p: nat, q: nat) {
    match spec
    case Got(v, n) => r == Ok(v) && q == p + n
    case Fail(e) => r == Err(e)
  }

  lemma Dropping(s: bytes, a: nat, b: nat)
    requires a + b <= |s|
    ensures s[a..][b..] == s[a + b..]
  {
  }

  // Loops against the recursive readers: `items` came first and took `c` bytes.

  function Prepend<T>(items: seq<T>, c: nat, d: Decoded<seq<T>>): Decoded<seq<T>> {
    match d
    case Got(ts, m) => Got(items + ts, c + m)
    case Fail(e) => Fail(e)
  }

  ghost predicate ManyFrom(s: bytes, n: nat, items: seq<Term>, c: nat) {
    c <= |s| && |items| <= n && DecMany(s, n) == Prepend(items, c, DecMany(s[c..], n - |items|))
  }

  lemma ManyStart(s: bytes, n: nat)
    ensures ManyFrom(s, n, [], 0)
  {
    assert s[0..] == s;
    match DecMany(s, n)
    case Got(ts, m) => assert [] + ts == ts;
    case Fail(e) =>
  }

  lemma ManyNext(s: bytes, n: nat, items: seq<Term>, c: nat)
    requires ManyFrom(s, n, items, c) && |items| < n
    ensures match Dec(s[c..])
            case Got(t, k) => ManyFrom(s, n, items + [t], c + k)
            case Fail(e) => DecMany(s, n) == Fail(e)
  {
    hide Dec;
    var d := Dec(s[c..]);
    if d.Got? {
      Dropping(s, c, d.used);
      var rest := DecMany(s[c..][d.used..], n - |items| - 1);
      if rest.Got? {
        assert items + ([d.value] + rest.value) == items + [d.value] + rest.value;
      }
    }
  }

  lemma ManyEnd(s: bytes, n: nat, items: seq<Term>, c: nat)
    requires ManyFrom(s, n, items, c) && |items| == n
    ensures DecMany(s, n) == Got(items, c)
  {
    assert items + [] == items;
  }

  ghost predicate IdsFrom(s: bytes, n: nat, ids: seq<int>, c: nat) {
    c <= |s| && |ids| <= n && Etf.ReadIds(s, n) == Prepend(ids, c, Etf.ReadIds(s[c..], n - |ids|))
  }

  lemma IdsStart(s: bytes, n: nat)
    ensures IdsFrom(s, n, [], 0)
  {
    assert s[0..] == s;
    match Etf.ReadIds(s, n)
    case Got(ts, m) => assert [] + ts == ts;
    case Fail(e) =>
  }

  lemma IdsNext(s: bytes, n: nat, ids: seq<int>, c: nat)
    requires IdsFrom(s, n, ids, c) && |ids| < n
    ensures match Etf.ReadU32(s[c..])
            case Got(id, k) => k == 4 && IdsFrom(s, n, ids + [id], c + k)
            case Fail(e) => Etf.ReadIds(s, n) == Fail(e)
  {
    var d := Etf.ReadU32(s[c..]);
    if d.Got? {
      Dropping(s, c, 4);
      var rest := Etf.ReadIds(s[c..][4..], n - |ids| - 1);
      if rest.Got? {
        assert ids + ([d.value] + rest.value) == ids + [d.value] + rest.value;
      }
    }
  }

  lemma IdsEnd(s: bytes, n: nat, ids: seq<int>, c: nat)
    requires IdsFrom(s, n, ids, c) && |ids| == n
    ensures Etf.ReadIds(s, n) == Got(ids, c)
  {
    assert ids + [] == ids;
  }

  ghost predicate PairsFrom(s: bytes, n: nat, es: seq<Entry>, c: nat) {
    c <= |s| && |es| <= n && DecPairs(s, n) == Prepend(es, c, DecPairs(s[c..], n - |es|))
  }

  lemma PairsStart(s: bytes, n: nat)
    ensures PairsFrom(s, n, [], 0)
  {
    assert s[0..] == s;
    match DecPairs(s, n)
    case Got(es, m) => assert [] + es == es;
    case Fail(e) =>
  }

  lemma PairsNext(s: bytes, n: nat, es: seq<Entry>, c: nat)
    requires PairsFrom(s, n, es, c) && |es| < n
    ensures match Dec(s[c..])
            case Fail(e) => DecPairs(s, n) == Fail(e)
            case Got(key, k) =>
              match Dec(s[c + k..])
              case Fail(e) => DecPairs(s, n) == Fail(e)
              case Got(value, v) =>
                if Hashable(key) then PairsFrom(s, n, es + [Entry(key, value)], c + k + v)
                else DecPairs(s, n) == Fail(Unhashable)
  {
    hide Dec, Hashable;
    var d := Dec(s[c..]);
    if d.Got? {
      Dropping(s, c, d.used);
      var f := Dec(s[c + d.used..]);
      if f.Got? {
        Dropping(s, c, d.used + f.used);
        var rest := DecPairs(s[c..][d.used + f.used..], n - |es| - 1);
        if rest.Got? {
          assert es + ([Entry(d.value, f.value)] + rest.value) == es + [Entry(d.value, f.value)] + rest.value;
        }
      }
    }
  }

  lemma PairsEnd(s: bytes, n: nat, es: seq<Entry>, c: nat)
    requires PairsFrom(s, n, es, c) && |es| == n
    ensures DecPairs(s, n) == Got(es, c)
  {
    assert es + [] == es;
  }

  lemma DictOneMore(es: seq<Entry>, e: Entry)
    ensures DictOf(es + [e]) == Put(DictOf(es), e.key, e.value)
  {
    assert (es + [e])[..|es|] == es;
  }

  lemma NoEntries()
    ensures DictOf([]) == []
  {
  }

  function DecDict(s: bytes, n: nat): Decoded<seq<Entry>> {
    var (es, k) :- DecPairs(s, n);
    Got(DictOf(es), k)
  }

  class ETFDecoder {
    const data: bytes
    var pos: nat

    constructor (data: bytes)
      ensures this.data == data && pos == 0 && Valid()
    {
      this.data := data;
      pos := 0;
    }

    ghost predicate Valid()
      reads this
    {
      pos <= |data|
    }

    ghost function Rest(): bytes
      requires Valid()
      reads this
    {
      data[pos..]
    }

    method Decode() returns (r: Result<Term, Error>)
      requires Valid()
      modifies this
      ensures Valid() && Follows(Etf.DecodeTerm(old(Rest())), r, old(pos), pos)
    {
      var version :- ReadByte();
      if version != VERSION {
        return Err(BadVersion);
      }
      Dropping(data, old(pos), 1);
      r := DecodeTerm();
    }

    method ReadByte() returns (r: Result<byte, Error>)
      requires Valid()
      modifies this
      ensures Valid() && pos >= old(pos) && Follows(Etf.ReadByte(old(Rest())), r, old(pos), pos)
    {
      if pos >= |data| {
        return Err(UnexpectedEnd);
      }
      r := Ok(data[pos]);
      pos := pos + 1;
    }

    method ReadBytes(n: nat) returns (r: Result<bytes, Error>)
      requires Valid()
      modifies this
      ensures Valid() && pos >= old(pos) && Follows(Etf.ReadBytes(old(Rest()), n), r, old(pos), pos)
    {
      if pos + n > |data| {
        return Err(UnexpectedEnd);
      }
      assert data[pos..][..n] == data[pos..pos + n];
      r := Ok(data[pos..pos + n]);
      pos := pos + n;
    }

    method ReadU16() returns (r: Result<int, Error>)
      requires Valid()
      modifies this
      ensures Valid() && pos >= old(pos) && Follows(Etf.ReadU16(old(Rest())), r, old(pos), pos)
    {
      var b :- ReadBytes(2);
      r := Ok(FromU16(b));
    }

    method ReadU32() returns (r: Result<u32, Error>)
      requires Valid()
      modifies this
      ensures Valid() && pos >= old(pos) && Follows(Etf.ReadU32(old(Rest())), r, old(pos), pos)
    {
      var b :- ReadBytes(4);
      r := Ok(FromU32(b));
    }

    method ReadI32() returns (r: Result<int, Error>)
      requires Valid()
      modifies this
      ensures Valid() && pos >= old(pos) && Follows(Etf.ReadI32(old(Rest())), r, old(pos), pos)
    {
      var b :- ReadBytes(4);
      r := Ok(FromI32(b));
    }

    method ReadText(n: nat, utf8: bool) returns (r: Result<Text, Error>)
      requires Valid()
      modifies this
      ensures Valid() && pos >= old(pos) && Follows(Etf.ReadText(old(Rest()), n, utf8), r, old(pos), pos)
    {
      var b :- ReadBytes(n);
      if !utf8 {
        return Ok(b);
      }
      match Utf8.Decode(b)
      case Some(text) => r := Ok(text);
      case None => r := Err(BadText);
    }

    method ReadName(tag: byte) returns (r: Result<Text, Error>)
      requires Valid()
      modifies this
      ensures Valid() && pos >= old(pos) && Follows(Etf.ReadName(tag, old(Rest())), r, old(pos), pos)
    {
      var n: nat;
      if tag == SMALL_ATOM_UTF8_EXT {
        var b :- ReadByte();
        n := b;
        Dropping(data, old(pos), 1);
        r := ReadText(n, true);
      } else {
        n :- ReadU16();
        Dropping(data, old(pos), 2);
        r := ReadText(n, tag == ATOM_UTF8_EXT);
      }
    }

    method ReadBig(n: nat) returns (r: Result<int, Error>)
      requires Valid()
      modifies this
      ensures Valid() && pos >= old(pos) && Follows(Etf.ReadBig(old(Rest()), n), r, old(pos), pos)
    {
      var sign :- ReadByte();
      Dropping(data, old(pos), 1);
      var digits :- ReadBytes(n);
      r := Ok(Signed(sign, digits));
    }

    method ReadInt(tag: byte) returns (r: Result<int, Error>)
      requires Valid()
      modifies this
      ensures Valid() && pos >= old(pos) && Follows(Etf.ReadInt(tag, old(Rest())), r, old(pos), pos)
    {
      hide Etf.ReadBig, Etf.ReadU32, Etf.ReadI32;
      if tag == SMALL_INTEGER_EXT {
        var b :- ReadByte();
        r := Ok(b);
      } else if tag == INTEGER_EXT {
        r := ReadI32();
      } else if tag == SMALL_BIG_EXT {
        var n :- ReadByte();
        Dropping(data, old(pos), 1);
        r := ReadBig(n);
      } else {
        var n :- ReadU32();
        Dropping(data, old(pos), 4);
        r := ReadBig(n);
      }
    }

    method ReadCreation(wide: bool) returns (r: Result<u32, Error>)
      requires Valid()
      modifies this
      ensures Valid() && pos >= old(pos) && Follows(Etf.ReadCreation(wide, old(Rest())), r, old(pos), pos)
    {
      if wide {
        r := ReadU32();
      } else {
        var b :- ReadByte();
        r := Ok(b);
      }
    }

    method ReadFlat(tag: byte) returns (r: Result<Term, Error>)
      requires Valid()
      modifies this
      ensures Valid() && pos >= old(pos) && Follows(Etf.ReadFlat(tag, old(Rest())), r, old(pos), pos)
    {
      hide Etf.ReadInt, Etf.ReadName, Etf.ReadU16, Etf.ReadU32, BytesAsInts;
      if tag in {SMALL_INTEGER_EXT, INTEGER_EXT, SMALL_BIG_EXT, LARGE_BIG_EXT} {
        var n :- ReadInt(tag);
        r := Ok(Int(n));
      } else if tag in {ATOM_EXT, ATOM_UTF8_EXT, SMALL_ATOM_UTF8_EXT} {
        var name :- ReadName(tag);
        r := Ok(Atom(name));
      } else if tag == NEW_FLOAT_EXT {
        var bits :- ReadBytes(8);
        r := Ok(Float(bits));
      } else if tag == FLOAT_EXT {
        var text :- ReadBytes(31);
        r := Err(OldFloat);
      } else if tag == NIL_EXT {
        r := Ok(List([]));
      } else {
        r := ReadBlock(tag);
      }
    }

    method ReadBlock(tag: byte) returns (r: Result<Term, Error>)
      requires Valid()
      requires tag !in {SMALL_INTEGER_EXT, INTEGER_EXT, SMALL_BIG_EXT, LARGE_BIG_EXT}
      requires tag !in {ATOM_EXT, ATOM_UTF8_EXT, SMALL_ATOM_UTF8_EXT, NEW_FLOAT_EXT, FLOAT_EXT, NIL_EXT}
      modifies this
      ensures Valid() && pos >= old(pos) && Follows(Etf.ReadFlat(tag, old(Rest())), r, old(pos), pos)
    {
      hide Etf.ReadInt, Etf.ReadName, BytesAsInts;
      if tag == STRING_EXT {
        var n :- ReadU16();
        Dropping(data, old(pos), 2);
        var block :- ReadBytes(n);
        r := Ok(List(BytesAsInts(block)));
      } else if tag == BINARY_EXT {
        var n :- ReadU32();
        Dropping(data, old(pos), 4);
        var block :- ReadBytes(n);
        r := Ok(Binary(block));
      } else {
        r := Err(UnknownTag);
      }
    }

    /** One more id of a run that started at `start`. */
    method ReadId(ghost start: nat, ghost n: nat, ghost ids: seq<int>) returns (r: Result<int, Error>)
      requires Valid() && start <= pos && |ids| < n && IdsFrom(data[start..], n, ids, pos - start)
      modifies this
      ensures Valid() && pos >= old(pos)
      ensures match r
              case Ok(id) => IdsFrom(data[start..], n, ids + [id], pos - start)
              case Err(e) => Etf.ReadIds(data[start..], n) == Fail(e)
    {
      hide Etf.ReadIds, IdsFrom, Etf.ReadU32;
      IdsNext(data[start..], n, ids, pos - start);
      Dropping(data, start, pos - start);
      r := ReadU32();
    }

    method ReadIds(n: nat) returns (r: Result<seq<int>, Error>)
      requires Valid()
      modifies this
      ensures Valid() && pos >= old(pos) && Follows(Etf.ReadIds(old(Rest()), n), r, old(pos), pos)
    {
      ghost var start := pos;
      var ids: seq<int> := [];
      hide Etf.ReadIds, IdsFrom, Etf.ReadU32;
      IdsStart(data[start..], n);
      while |ids| < n
        invariant |ids| <= n && Valid() && start <= pos && IdsFrom(data[start..], n, ids, pos - start)
      {
        var id :- ReadId(start, n, ids);
        ids := ids + [id];
      }
      IdsEnd(data[start..], n, ids, pos - start);
      r := Ok(ids);
    }

    method DecodeTerm() returns (r: Result<Term, Error>)
      requires Valid()
      modifies this
      ensures Valid() && pos >= old(pos) && Follows(Dec(old(Rest())), r, old(pos), pos)
      decreases |data| - pos, 0
    {
      hide DecBody;
      var tag :- ReadByte();
      Dropping(data, old(pos), 1);
      r := DecodeBody(tag);
    }

    method DecodeBody(tag: byte) returns (r: Result<Term, Error>)
      requires Valid()
      modifies this
      ensures Valid() && pos >= old(pos) && Follows(DecBody(tag, old(Rest())), r, old(pos), pos)
      decreases |data| - pos, 4
    {
      hide Dec, DecMany, DecPairs, DecPid, DecRef, DecPort, Etf.ReadFlat, Etf.ReadU32;
      if tag == SMALL_TUPLE_EXT {
        var n :- ReadByte();
        Dropping(data, old(pos), 1);
        var items :- DecodeMany(n);
        r := Ok(Tuple(items));
      } else if tag == LARGE_TUPLE_EXT {
        var n :- ReadU32();
        Dropping(data, old(pos), 4);
        var items :- DecodeMany(n);
        r := Ok(Tuple(items));
      } else if tag == LIST_EXT {
        r := DecodeList();
      } else if tag == MAP_EXT {
        var n :- ReadU32();
        Dropping(data, old(pos), 4);
        var entries :- DecodePairs(n);
        r := Ok(Map(entries));
      } else if tag == PID_EXT || tag == NEW_PID_EXT {
        r := DecodePid(tag == NEW_PID_EXT);
      } else if tag == NEW_REFERENCE_EXT || tag == NEWER_REFERENCE_EXT {
        r := DecodeRef(tag == NEWER_REFERENCE_EXT);
      } else if tag == PORT_EXT || tag == NEW_PORT_EXT {
        r := DecodePort(tag == NEW_PORT_EXT);
      } else {
        r := ReadFlat(tag);
      }
    }

    method DecodeList() returns (r: Result<Term, Error>)
      requires Valid()
      modifies this
      ensures Valid() && pos >= old(pos) && Follows(DecBody(LIST_EXT, old(Rest())), r, old(pos), pos)
      decreases |data| - pos, 3
    {
      hide Dec, DecMany, DecPairs, DecPid, DecRef, DecPort, Etf.ReadFlat, Etf.ReadU32;
      var n :- ReadU32();
      Dropping(data, old(pos), 4);
      var items :- DecodeMany(n);
      Dropping(data, old(pos), pos - old(pos));
      var tail :- DecodeTerm();
      if tail != List([]) {
        items := items + [tail];
      }
      r := Ok(List(items));
    }

    method DecodePid(wide: bool) returns (r: Result<Term, Error>)
      requires Valid()
      modifies this
      ensures Valid() && pos >= old(pos) && Follows(DecPid(wide, old(Rest())), r, old(pos), pos)
      decreases |data| - pos, 2
    {
      hide Dec, Etf.ReadU32, Etf.ReadCreation;
      var node :- DecodeTerm();
      Dropping(data, old(pos), pos - old(pos));
      var id :- ReadU32();
      Dropping(data, old(pos), pos - old(pos));
      var serial :- ReadU32();
      Dropping(data, old(pos), pos - old(pos));
      var creation :- ReadCreation(wide);
      r := if node.Atom? then Ok(PidTerm(Pid(node.name, id, serial, creation))) else Err(BadPid);
    }

    method DecodeRef(wide: bool) returns (r: Result<Term, Error>)
      requires Valid()
      modifies this
      ensures Valid() && pos >= old(pos) && Follows(DecRef(wide, old(Rest())), r, old(pos), pos)
      decreases |data| - pos, 2
    {
      hide Dec, Etf.ReadU16, Etf.ReadCreation, Etf.ReadIds;
      var n :- ReadU16();
      Dropping(data, old(pos), 2);
      var node :- DecodeTerm();
      Dropping(data, old(pos), pos - old(pos));
      var creation :- ReadCreation(wide);
      Dropping(data, old(pos), pos - old(pos));
      var ids :- ReadIds(n);
      r := Ok(Ref(node, creation, ids));
    }

    method DecodePort(wide: bool) returns (r: Result<Term, Error>)
      requires Valid()
      modifies this
      ensures Valid() && pos >= old(pos) && Follows(DecPort(wide, old(Rest())), r, old(pos), pos)
      decreases |data| - pos, 2
    {
      hide Dec, Etf.ReadU32, Etf.ReadCreation;
      var node :- DecodeTerm();
      Dropping(data, old(pos), pos - old(pos));
      var id :- ReadU32();
      Dropping(data, old(pos), pos - old(pos));
      var creation :- ReadCreation(wide);
      r := Ok(Port(node, id, creation));
    }

    /** One more item of a run that started at `start`. */
    method DecodeNext(ghost start: nat, ghost n: nat, ghost items: seq<Term>) returns (r: Result<Term, Error>)
      requires Valid() && start <= pos && |items| < n && ManyFrom(data[start..], n, items, pos - start)
      modifies this
      ensures Valid() && pos >= old(pos)
      ensures match r
              case Ok(t) => ManyFrom(data[start..], n, items + [t], pos - start)
              case Err(e) => DecMany(data[start..], n) == Fail(e)
      decreases |data| - pos, 1
    {
      hide Dec, DecMany, ManyFrom, Prepend;
      ManyNext(data[start..], n, items, pos - start);
      Dropping(data, start, pos - start);
      r := DecodeTerm();
    }

    method DecodeMany(n: nat) returns (r: Result<seq<Term>, Error>)
      requires Valid()
      modifies this
      ensures Valid() && pos >= old(pos) && Follows(DecMany(old(Rest()), n), r, old(pos), pos)
      decreases |data| - pos, 2
    {
      ghost var start := pos;
      var items: seq<Term> := [];
      hide Dec, DecMany, ManyFrom, Prepend;
      ManyStart(data[start..], n);
      while |items| < n
        invariant |items| <= n && Valid() && start <= pos && ManyFrom(data[start..], n, items, pos - start)
      {
        var t :- DecodeNext(start, n, items);
        items := items + [t];
      }
      ManyEnd(data[start..], n, items, pos - start);
      r := Ok(items);
    }

    method DecodePair(ghost start: nat, ghost n: nat, ghost es: seq<Entry>) returns (r: Result<Entry, Error>)
      requires Valid() && start <= pos && |es| < n && PairsFrom(data[start..], n, es, pos - start)
      modifies this
      ensures Valid() && pos >= old(pos)
      ensures match r
              case Ok(e) => PairsFrom(data[start..], n, es + [e], pos - start)
              case Err(e) => DecPairs(data[start..], n) == Fail(e)
      decreases |data| - pos, 1
    {
      hide Dec, DecPairs, PairsFrom, Prepend, Hashable;
      PairsNext(data[start..], n, es, pos - start);
      Dropping(data, start, pos - start);
      var key :- DecodeTerm();
      Dropping(data, start, pos - start);
      var value :- DecodeTerm();
      r := if Hashable(key) then Ok(Entry(key, value)) else Err(Unhashable);
    }

    /** The dictionary itself: the entries as they come, each put under its key. */
    method DecodePairs(n: nat) returns (r: Result<seq<Entry>, Error>)
      requires Valid()
      modifies this
      ensures Valid() && pos >= old(pos) && Follows(DecDict(old(Rest()), n), r, old(pos), pos)
      decreases |data| - pos, 2
    {
      ghost var start := pos;
      var entries: seq<Entry> := [];
      ghost var es: seq<Entry> := [];
      hide Dec, DecPairs, PairsFrom, Prepend, Put, DictOf;
      PairsStart(data[start..], n);
      NoEntries();
      for i := 0 to n
        invariant Valid() && start <= pos && |es| == i && PairsFrom(data[start..], n, es, pos - start)
        invariant entries == DictOf(es)
      {
        var e :- DecodePair(start, n, es);
        entries := Put(entries, e.key, e.value);
        DictOneMore(es, e);
        es := es + [e];
      }
      PairsEnd(data[start..], n, es, pos - start);
      r := Ok(entries);
    }
  }
}
