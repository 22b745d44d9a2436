/** Decoding undoes encoding, whatever follows; hence the encoding is prefix-free, and decoded terms are canonical. */
module EtfRoundTrip {
  import opened Bytes
  import opened Terms
  import opened Etf
  import Utf8

  // ---------- Fields ----------

  lemma ReadsU16(n: int, rest: bytes)
    requires FitsU16(n)
    ensures ReadU16(U16(n) + rest) == Got(n, 2) && (U16(n) + rest)[2..] == rest
  {
    U16Trip(n);
    assert (U16(n) + rest)[..2] == U16(n);
  }

  lemma ReadsU32(n: int, rest: bytes)
    requires FitsU32(n)
    ensures ReadU32(U32(n) + rest) == Got(n, 4) && (U32(n) + rest)[4..] == rest
  {
    U32Trip(n);
    assert (U32(n) + rest)[..4] == U32(n);
  }

  lemma ReadsI32(n: int, rest: bytes)
    requires FitsI32(n)
    ensures ReadI32(I32(n) + rest) == Got(n, 4)
  {
    I32Trip(n);
    assert (I32(n) + rest)[..4] == I32(n);
  }

  lemma ReadsBytes(b: bytes, rest: bytes)
    ensures ReadBytes(b + rest, |b|) == Got(b, |b|) && (b + rest)[|b|..] == rest
  {
  }

  lemma ReadsUtf8(text: Text, rest: bytes)
    requires Utf8.HasUtf8(text)
    ensures var u := Utf8.Encode(text); ReadText(u + rest, |u|, true) == Got(text, |u|)
  {
    Utf8.RoundTrip(text);
    ReadsBytes(Utf8.Encode(text), rest);
  }

  // ---------- Terms without parts ----------

  /** `s` starts with the encoding `e` of a term that reads back as `t`. */
  ghost predicate ReadsBack(e: bytes, s: bytes, t: Term) {
    Dec(s) == Got(t, |e|)
  }

  lemma FlatReadsBack(tag: byte, body: bytes, rest: bytes, t: Term)
    requires DecBody(tag, body + rest) == Got(t, |body|)
    ensures ReadsBack([tag] + body, [tag] + body + rest, t)
  {
    var s := [tag] + body + rest;
    assert s[0] == tag && s[1..] == body + rest;
  }

  lemma ShortNameReads(name: Text, rest: bytes)
    requires NameFits(name) && |Utf8.Encode(name)| < 256
    ensures var u := Utf8.Encode(name);
            ReadName(SMALL_ATOM_UTF8_EXT, [|u|] + u + rest) == Got(name, 1 + |u|)
  {
    var u := Utf8.Encode(name);
    ReadsUtf8(name, rest);
    var s := [|u|] + u + rest;
    assert s[0] == |u| && s[1..] == u + rest;
  }

  lemma LongNameReads(name: Text, rest: bytes)
    requires NameFits(name)
    ensures var u := Utf8.Encode(name);
            ReadName(ATOM_UTF8_EXT, U16(|u|) + u + rest) == Got(name, 2 + |u|)
  {
    var u := Utf8.Encode(name);
    ReadsUtf8(name, rest);
    ReadsU16(|u|, u + rest);
    assert U16(|u|) + u + rest == U16(|u|) + (u + rest);
  }

  lemma AtomReadsBack(name: Text, rest: bytes)
    requires NameFits(name)
    ensures ReadsBack(EncAtom(name), EncAtom(name) + rest, Atom(name))
  {
    var u := Utf8.Encode(name);
    if |u| < 256 {
      ShortNameReads(name, rest);
      hide Utf8.Encode, ReadName;
      assert EncAtom(name) == [SMALL_ATOM_UTF8_EXT] + ([|u|] + u);
      FlatReadsBack(SMALL_ATOM_UTF8_EXT, [|u|] + u, rest, Atom(name));
    } else {
      LongNameReads(name, rest);
      hide Utf8.Encode, ReadName;
      FlatReadsBack(ATOM_UTF8_EXT, U16(|u|) + u, rest, Atom(name));
    }
  }

  lemma BigReadsBack(n: int, rest: bytes)
    ensures var d := Digits(Magnitude(n)); var sign := if n < 0 then 1 else 0;
            ReadBig([sign] + d + rest, |d|) == Got(n, 1 + |d|)
  {
    var d := Digits(Magnitude(n));
    var sign: byte := if n < 0 then 1 else 0;
    DigitsTrip(Magnitude(n));
    ReadsBytes(d, rest);
    assert ([sign] + d + rest)[0] == sign && ([sign] + d + rest)[1..] == d + rest;
  }

  lemma SmallBigReadsBack(n: int, rest: bytes)
    requires |Digits(Magnitude(n))| < 256
    ensures var d, sign: byte := Digits(Magnitude(n)), if n < 0 then 1 else 0;
            var e := [SMALL_BIG_EXT] + ([|d|, sign] + d); ReadsBack(e, e + rest, Int(n))
  {
    var d := Digits(Magnitude(n));
    var sign: byte := if n < 0 then 1 else 0;
    var tail := [sign] + d;
    BigReadsBack(n, rest);
    assert [|d|, sign] + d == [|d|] + tail;
    assert ([|d|] + tail + rest)[0] == |d| && ([|d|] + tail + rest)[1..] == tail + rest;
    hide Digits, ReadsBack;
    FlatReadsBack(SMALL_BIG_EXT, [|d|] + tail, rest, Int(n));
  }

  lemma LargeBigReadsBack(n: int, rest: bytes)
    requires |Digits(Magnitude(n))| < TWO_32
    ensures var d, sign: byte := Digits(Magnitude(n)), if n < 0 then 1 else 0;
            var e := [LARGE_BIG_EXT] + (U32(|d|) + ([sign] + d)); ReadsBack(e, e + rest, Int(n))
  {
    var d := Digits(Magnitude(n));
    var sign: byte := if n < 0 then 1 else 0;
    var tail := [sign] + d;
    BigReadsBack(n, rest);
    ReadsU32(|d|, tail + rest);
    assert U32(|d|) + tail + rest == U32(|d|) + (tail + rest);
    hide Digits, U32, ReadU32, ReadsBack;
    FlatReadsBack(LARGE_BIG_EXT, U32(|d|) + tail, rest, Int(n));
  }

  lemma IntReadsBack(n: int, rest: bytes)
    requires |Digits(Magnitude(n))| < TWO_32
    ensures ReadsBack(EncInt(n), EncInt(n) + rest, Int(n))
  {
    hide ReadsBack, Dec, Digits;
    if 0 <= n < 256 {
      assert EncInt(n) == [SMALL_INTEGER_EXT] + [n];
      assert ([n] + rest)[0] == n;
      FlatReadsBack(SMALL_INTEGER_EXT, [n], rest, Int(n));
    } else if FitsI32(n) {
      ReadsI32(n, rest);
      FlatReadsBack(INTEGER_EXT, I32(n), rest, Int(n));
    } else if |Digits(Magnitude(n))| < 256 {
      SmallBigReadsBack(n, rest);
    } else {
      LargeBigReadsBack(n, rest);
    }
  }

  lemma FloatReadsBack(bits: double, rest: bytes)
    ensures ReadsBack([NEW_FLOAT_EXT] + bits, [NEW_FLOAT_EXT] + bits + rest, Float(bits))
  {
    ReadsBytes(bits, rest);
    FlatReadsBack(NEW_FLOAT_EXT, bits, rest, Float(bits));
  }

  lemma BinaryReadsBack(data: bytes, rest: bytes)
    requires |data| < TWO_32
    ensures ReadsBack(EncBinary(data), EncBinary(data) + rest, Binary(data))
  {
    var body := U32(|data|) + data;
    ReadsU32(|data|, data + rest);
    ReadsBytes(data, rest);
    assert body + rest == U32(|data|) + (data + rest);
    FlatReadsBack(BINARY_EXT, body, rest, Binary(data));
  }

  lemma PidReadsBack(pid: Pid, rest: bytes)
    requires NameFits(pid.node)
    ensures ReadsBack(EncPid(pid), EncPid(pid) + rest, PidTerm(pid))
  {
    var node := EncAtom(pid.node);
    var body := node + (U32(pid.id) + (U32(pid.serial) + U32(pid.creation)));
    var s := body + rest;
    var s1 := U32(pid.id) + (U32(pid.serial) + (U32(pid.creation) + rest));
    assert s == node + s1;
    AtomReadsBack(pid.node, s1);
    assert s[|node|..] == s1;
    ReadsU32(pid.id, U32(pid.serial) + (U32(pid.creation) + rest));
    assert s[|node| + 4..] == s1[4..];
    ReadsU32(pid.serial, U32(pid.creation) + rest);
    assert s[|node| + 8..] == s1[4..][4..];
    ReadsU32(pid.creation, rest);
    FlatReadsBack(NEW_PID_EXT, body, rest, PidTerm(pid));
  }

  lemma {:induction false} IdsReadBack(ids: seq<int>, rest: bytes)
    requires AllFitU32(ids)
    ensures ReadIds(EncIds(ids) + rest, |ids|) == Got(ids, |EncIds(ids)|)
  {
    if ids != [] {
      var more := EncIds(ids[1..]) + rest;
      IdsReadBack(ids[1..], rest);
      ReadsU32(ids[0], more);
      assert EncIds(ids) == U32(ids[0]) + EncIds(ids[1..]);
      assert EncIds(ids) + rest == U32(ids[0]) + more && (U32(ids[0]) + more)[4..] == more;
      assert [ids[0]] + ids[1..] == ids;
      hide U32, ReadU32, EncIds;
    }
  }

  // ---------- Terms with parts ----------

  // What `parts` reads as decides what the forms built on it read as.

  lemma ManyStep(e: bytes, t: Term, more: bytes, ts: seq<Term>, n: nat, m: nat)
    requires Dec(e + more) == Got(t, |e|) && DecMany(more, n) == Got(ts, m)
    ensures DecMany(e + more, n + 1) == Got([t] + ts, |e| + m)
  {
    hide Dec;
    assert (e + more)[|e|..] == more;
  }

  lemma PairsStep(k: bytes, key: Term, v: bytes, value: Term, more: bytes, es: seq<Entry>, n: nat, m: nat)
    requires Dec(k + (v + more)) == Got(key, |k|) && Dec(v + more) == Got(value, |v|) && Hashable(key)
    requires DecPairs(more, n) == Got(es, m)
    ensures DecPairs(k + (v + more), n + 1) == Got([Entry(key, value)] + es, |k| + |v| + m)
  {
    hide Dec, Hashable;
    assert (k + (v + more))[|k|..] == v + more;
    assert (k + (v + more))[|k| + |v|..] == more;
  }

  lemma SmallTupleReads(parts: bytes, rest: bytes, items: seq<Term>)
    requires |items| < 256 && DecMany(parts + rest, |items|) == Got(items, |parts|)
    ensures ReadsBack([SMALL_TUPLE_EXT] + ([|items|] + parts), [SMALL_TUPLE_EXT] + ([|items|] + parts) + rest, Tuple(items))
  {
    var body := [|items|] + parts;
    assert (body + rest)[0] == |items| && (body + rest)[1..] == parts + rest;
    FlatReadsBack(SMALL_TUPLE_EXT, body, rest, Tuple(items));
  }

  lemma LargeTupleReads(parts: bytes, rest: bytes, items: seq<Term>)
    requires |items| < TWO_32 && DecMany(parts + rest, |items|) == Got(items, |parts|)
    ensures ReadsBack([LARGE_TUPLE_EXT] + (U32(|items|) + parts), [LARGE_TUPLE_EXT] + (U32(|items|) + parts) + rest, Tuple(items))
  {
    var body := U32(|items|) + parts;
    ReadsU32(|items|, parts + rest);
    assert body + rest == U32(|items|) + (parts + rest);
    FlatReadsBack(LARGE_TUPLE_EXT, body, rest, Tuple(items));
  }

  lemma ListReads(parts: bytes, rest: bytes, items: seq<Term>)
    requires |items| < TWO_32 && DecMany(parts + ([NIL_EXT] + rest), |items|) == Got(items, |parts|)
    ensures ReadsBack([LIST_EXT] + (U32(|items|) + (parts + [NIL_EXT])),
                      [LIST_EXT] + (U32(|items|) + (parts + [NIL_EXT])) + rest, List(items))
  {
    var body := U32(|items|) + (parts + [NIL_EXT]);
    var s := parts + ([NIL_EXT] + rest);
    ReadsU32(|items|, s);
    assert body + rest == U32(|items|) + s;
    assert (body + rest)[4 + |parts|..] == [NIL_EXT] + rest;
    assert Dec([NIL_EXT] + rest) == Got(List([]), 1);
    hide DecMany, Dec;
    FlatReadsBack(LIST_EXT, body, rest, List(items));
  }

  lemma MapReads(parts: bytes, rest: bytes, es: seq<Entry>)
    requires |es| < TWO_32 && DecPairs(parts + rest, |es|) == Got(es, |parts|) && DistinctKeys(es)
    ensures ReadsBack([MAP_EXT] + (U32(|es|) + parts), [MAP_EXT] + (U32(|es|) + parts) + rest, Map(es))
  {
    var body := U32(|es|) + parts;
    ReadsU32(|es|, parts + rest);
    assert body + rest == U32(|es|) + (parts + rest);
    DictOfDistinct(es);
    FlatReadsBack(MAP_EXT, body, rest, Map(es));
  }

  /** The main result: every encodable well-formed term, in front of any bytes. */
  lemma {:induction false} RoundTrip(t: Term, rest: bytes)
    requires Encodable(t) && WellFormed(t)
    ensures Dec(Enc(t) + rest) == Got(Norm(t), |Enc(t)|)
    decreases t, 1
  {
    match t
    case NoneTerm => AtomReadsBack(NilName(), rest);
    case Bool(b) => AtomReadsBack(BoolName(b), rest);
    case Int(n) => IntReadsBack(n, rest);
    case Float(bits) => FloatReadsBack(bits, rest);
    case Atom(name) => AtomReadsBack(name, rest);
    case Str(text) => BinaryReadsBack(Utf8.Encode(text), rest);
    case Binary(data) => BinaryReadsBack(data, rest);
    case Tuple(items) => TupleReadsBack(items, rest);
    case List(items) => ListReadsBack(items, rest);
    case Map(entries) => MapReadsBack(entries, rest);
    case PidTerm(pid) => PidReadsBack(pid, rest);
    case Ref(node, creation, ids) => RefReadsBack(t, rest);
    case Port(node, id, creation) => PortReadsBack(t, rest);
  }

  lemma NothingReads(rest: bytes)
    ensures DecMany(EncAll([]) + rest, 0) == Got(NormAll([]), |EncAll([])|)
    ensures DecPairs(EncEntries([]) + rest, 0) == Got(NormEntries([]), |EncEntries([])|)
  {
  }

  lemma AllUnfolds(ts: seq<Term>)
    requires ts != [] && AllEncodable(ts) && AllWellFormed(ts)
    ensures Encodable(ts[0]) && WellFormed(ts[0]) && AllEncodable(ts[1..]) && AllWellFormed(ts[1..])
    ensures EncAll(ts) == Enc(ts[0]) + EncAll(ts[1..]) && NormAll(ts) == [Norm(ts[0])] + NormAll(ts[1..])
  {
  }

  lemma {:induction false} AllReadBack(ts: seq<Term>, rest: bytes)
    requires AllEncodable(ts) && AllWellFormed(ts)
    ensures DecMany(EncAll(ts) + rest, |ts|) == Got(NormAll(ts), |EncAll(ts)|)
    decreases ts, 0
  {
    hide *;
    if ts == [] {
      NothingReads(rest);
    } else {
      AllUnfolds(ts);
      var more := EncAll(ts[1..]) + rest;
      RoundTrip(ts[0], more);
      AllReadBack(ts[1..], rest);
      ManyStep(Enc(ts[0]), Norm(ts[0]), more, NormAll(ts[1..]), |ts| - 1, |EncAll(ts[1..])|);
      assert EncAll(ts) + rest == Enc(ts[0]) + more;
    }
  }

  lemma EntriesUnfold(es: seq<Entry>)
    requires es != [] && EntriesEncodable(es) && EntriesWellFormed(es) && HashableKeys(NormEntries(es))
    ensures EntryEncodable(es[0]) && EntryWellFormed(es[0]) && EntriesEncodable(es[1..]) && EntriesWellFormed(es[1..])
    ensures HashableKeys(NormEntries(es[1..])) && Hashable(Norm(es[0].key)) && Encodable(es[0].key) && Encodable(es[0].value)
    ensures EncEntries(es) == Enc(es[0].key) + Enc(es[0].value) + EncEntries(es[1..])
    ensures NormEntries(es) == [Entry(Norm(es[0].key), Norm(es[0].value))] + NormEntries(es[1..])
  {
    hide Norm, Enc, Encodable, WellFormed, Hashable;
    assert NormEntries(es)[0].key == Norm(es[0].key);
    forall i | 0 <= i < |es[1..]| ensures Hashable(NormEntries(es[1..])[i].key) {
      assert NormEntries(es[1..])[i] == NormEntries(es)[i + 1];
    }
  }

  lemma {:induction false} EntriesReadBack(es: seq<Entry>, rest: bytes)
    requires EntriesEncodable(es) && EntriesWellFormed(es) && HashableKeys(NormEntries(es))
    ensures DecPairs(EncEntries(es) + rest, |es|) == Got(NormEntries(es), |EncEntries(es)|)
    decreases es, 0
  {
    hide *;
    if es == [] {
      NothingReads(rest);
    } else {
      EntriesUnfold(es);
      var more := EncEntries(es[1..]) + rest;
      var k, v := Enc(es[0].key), Enc(es[0].value);
      EntryReadsBack(es[0], more);
      EntriesReadBack(es[1..], rest);
      PairsStep(k, Norm(es[0].key), v, Norm(es[0].value), more, NormEntries(es[1..]), |es| - 1, |EncEntries(es[1..])|);
      assert EncEntries(es) + rest == k + (v + more);
    }
  }

  lemma {:induction false} EntryReadsBack(e: Entry, rest: bytes)
    requires EntryEncodable(e) && EntryWellFormed(e)
    ensures Dec(Enc(e.key) + (Enc(e.value) + rest)) == Got(Norm(e.key), |Enc(e.key)|)
    ensures Dec(Enc(e.value) + rest) == Got(Norm(e.value), |Enc(e.value)|)
    decreases e, 0
  {
    RoundTrip(e.key, Enc(e.value) + rest);
    RoundTrip(e.value, rest);
  }

  lemma {:induction false} TupleReadsBack(items: seq<Term>, rest: bytes)
    requires Encodable(Tuple(items)) && AllWellFormed(items)
    ensures Dec(Enc(Tuple(items)) + rest) == Got(Tuple(NormAll(items)), |Enc(Tuple(items))|)
    decreases items, 1
  {
    hide Dec, DecMany, EncAll, AllEncodable, AllWellFormed, NormAll;
    AllReadBack(items, rest);
    if |items| < 256 {
      SmallTupleReads(EncAll(items), rest, NormAll(items));
    } else {
      LargeTupleReads(EncAll(items), rest, NormAll(items));
    }
  }

  lemma {:induction false} ListReadsBack(items: seq<Term>, rest: bytes)
    requires Encodable(List(items)) && AllWellFormed(items)
    ensures Dec(Enc(List(items)) + rest) == Got(List(NormAll(items)), |Enc(List(items))|)
    decreases items, 1
  {
    if items == [] {
      FlatReadsBack(NIL_EXT, [], rest, List([]));
      assert [NIL_EXT] + [] == [NIL_EXT];
    } else {
      hide Dec, DecMany, EncAll, AllEncodable, AllWellFormed, NormAll;
      AllReadBack(items, [NIL_EXT] + rest);
      ListReads(EncAll(items), rest, NormAll(items));
    }
  }

  lemma {:induction false} MapReadsBack(entries: seq<Entry>, rest: bytes)
    requires Encodable(Map(entries)) && WellFormed(Map(entries))
    ensures Dec(Enc(Map(entries)) + rest) == Got(Map(NormEntries(entries)), |Enc(Map(entries))|)
    decreases entries, 1
  {
    hide Dec, DecPairs, EncEntries, EntriesEncodable, EntriesWellFormed, NormEntries;
    EntriesReadBack(entries, rest);
    MapReads(EncEntries(entries), rest, NormEntries(entries));
  }

  lemma {:induction false} RefReadsBack(t: Term, rest: bytes)
    requires t.Ref? && Encodable(t) && WellFormed(t)
    ensures Dec(Enc(t) + rest) == Got(Norm(t), |Enc(t)|)
    decreases t, 0
  {
    RoundTrip(t.node, U32(t.creation) + (EncIds(t.ids) + rest));
    RefReads(Enc(t.node), Norm(t.node), t.creation, t.ids, rest);
  }

  lemma RefReads(node: bytes, n: Term, creation: int, ids: seq<int>, rest: bytes)
    requires |ids| < TWO_16 && 0 <= creation < TWO_32 && AllFitU32(ids)
    requires Dec(node + (U32(creation) + (EncIds(ids) + rest))) == Got(n, |node|)
    ensures var e := [NEWER_REFERENCE_EXT] + (U16(|ids|) + (node + (U32(creation) + EncIds(ids))));
            ReadsBack(e, e + rest, Ref(n, creation, ids))
  {
    hide Dec, ReadsBack, ReadIds, EncIds, AllFitU32;
    var s2 := EncIds(ids) + rest;
    var s1 := U32(creation) + s2;
    var body := U16(|ids|) + (node + (U32(creation) + EncIds(ids)));
    var s := U16(|ids|) + (node + s1);
    assert body + rest == s;
    ReadsU16(|ids|, node + s1);
    assert s[2..] == node + s1 && s[2 + |node|..] == s1;
    ReadsU32(creation, s2);
    assert s[2 + |node| + 4..] == s2;
    IdsReadBack(ids, rest);
    hide U16, U32, ReadU16, ReadU32;
    FlatReadsBack(NEWER_REFERENCE_EXT, body, rest, Ref(n, creation, ids));
  }

  lemma PortReads(node: bytes, n: Term, id: int, creation: int, rest: bytes)
    requires 0 <= id < TWO_32 && 0 <= creation < TWO_32
    requires Dec(node + (U32(id) + (U32(creation) + rest))) == Got(n, |node|)
    ensures var e := [NEW_PORT_EXT] + (node + (U32(id) + U32(creation)));
            ReadsBack(e, e + rest, Port(n, id, creation))
  {
    hide Dec, ReadsBack;
    var s1 := U32(id) + (U32(creation) + rest);
    var body := node + (U32(id) + U32(creation));
    assert body + rest == node + s1 && (node + s1)[|node|..] == s1;
    ReadsU32(id, U32(creation) + rest);
    assert (node + s1)[|node| + 4..] == U32(creation) + rest;
    ReadsU32(creation, rest);
    hide U32, ReadU32;
    FlatReadsBack(NEW_PORT_EXT, body, rest, Port(n, id, creation));
  }

  lemma {:induction false} PortReadsBack(t: Term, rest: bytes)
    requires t.Port? && Encodable(t) && WellFormed(t)
    ensures Dec(Enc(t) + rest) == Got(Norm(t), |Enc(t)|)
    decreases t, 0
  {
    RoundTrip(t.node, U32(t.id) + (U32(t.creation) + rest));
    PortReads(Enc(t.node), Norm(t.node), t.id, t.creation, rest);
  }
}
