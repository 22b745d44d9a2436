/** What each form of the wire format reads as and which form a term is written in, byte by byte. */
module EtfForms {
  import opened Wrappers
  import opened Bytes
  import opened Terms
  import opened Etf
  import opened EtfRoundTrip
  import Utf8

  // ---------- Fields ----------

  /** Two-byte and four-byte fields have the most significant byte first. */
  lemma FieldsAreBigEndian(a: byte, b: byte, c: byte, d: byte, rest: bytes)
    ensures ReadU16([a, b] + rest) == Got(a * 0x100 + b, 2) && ([a, b] + rest)[2..] == rest
    ensures ReadU32([a, b, c, d] + rest) == Got(a * 0x100_0000 + b * 0x1_0000 + c * 0x100 + d, 4)
    ensures ([a, b, c, d] + rest)[4..] == rest
    ensures ReadI32([a, b, c, d] + rest)
            == Got((if a < 128 then a as int else a - 256) * 0x100_0000 + b * 0x1_0000 + c * 0x100 + d, 4)
  {
    assert ([a, b] + rest)[..2] == [a, b];
    assert ([a, b, c, d] + rest)[..4] == [a, b, c, d];
    assert [a, b, c, d][..2] == [a, b] && [a, b, c, d][2..] == [c, d];
  }

  /** Four bytes, as a number. */
  function Word(a: int, b: int, c: int, d: int): int {
    a * 0x100_0000 + b * 0x1_0000 + c * 0x100 + d
  }

  lemma WordReads(a: byte, b: byte, c: byte, d: byte, rest: bytes)
    ensures ReadU32([a, b, c, d] + rest) == Got(Word(a, b, c, d), 4) && ([a, b, c, d] + rest)[4..] == rest
    ensures ReadI32([a, b, c, d] + rest) == Got(Word(if a < 128 then a as int else a - 256, b, c, d), 4)
  {
    FieldsAreBigEndian(a, b, c, d, rest);
  }

  lemma WordIsNat(a: byte, b: byte, c: byte, d: byte)
    ensures 0 <= Word(a, b, c, d) < 0x1_0000_0000
  {
  }

  lemma FormReads(tag: byte, s: bytes)
    ensures Dec([tag] + s)
            == match DecBody(tag, s)
               case Got(t, k) => Got(t, 1 + k)
               case Fail(e) => Fail(e)
  {
    assert ([tag] + s)[0] == tag && ([tag] + s)[1..] == s;
  }

  // ---------- Flat forms ----------

  /** STRING_EXT: a list of small integers, one for each byte, in order. */
  lemma StringReads(a: byte, b: byte, data: bytes, rest: bytes)
    requires |data| == a * 0x100 + b
    ensures var r := Dec([107, a, b] + data + rest);
            && r.Got? && r.used == 3 + |data| && r.value.List? && |r.value.items| == |data|
            && forall i :: 0 <= i < |data| ==> r.value.items[i] == Int(data[i])
  {
    assert [107, a, b] + data + rest == [107] + ([a, b] + (data + rest));
    FormReads(107, [a, b] + (data + rest));
    FieldsAreBigEndian(a, b, 0, 0, data + rest);
    ReadsBytes(data, rest);
    OneIntEach(data);
  }

  lemma {:induction false} OneIntEach(data: bytes)
    ensures forall i :: 0 <= i < |data| ==> BytesAsInts(data)[i] == Int(data[i])
  {
    if data != [] {
      OneIntEach(data[1..]);
    }
  }

  /** ATOM_EXT: each byte is the code of one character. */
  lemma LatinAtomReads(a: byte, b: byte, data: bytes, rest: bytes)
    requires |data| == a * 0x100 + b
    ensures Dec([100, a, b] + data + rest) == Got(Atom(data), 3 + |data|)
  {
    var s := [a, b] + (data + rest);
    assert [100, a, b] + data + rest == [100] + s;
    FieldsAreBigEndian(a, b, 0, 0, data + rest);
    ReadsBytes(data, rest);
    assert ReadName(100, s) == Got(data, 2 + |data|);
    hide ReadName;
    FormReads(100, s);
  }

  /** ATOM_UTF8_EXT and SMALL_ATOM_UTF8_EXT: the bytes are UTF-8. */
  lemma AtomReads(a: byte, b: byte, data: bytes, rest: bytes)
    requires |data| == a * 0x100 + b
    ensures Dec([118, a, b] + data + rest)
            == match Utf8.Decode(data)
               case Some(name) => Got(Atom(name), 3 + |data|)
               case None => Fail(BadText)
  {
    var s := [a, b] + (data + rest);
    assert [118, a, b] + data + rest == [118] + s;
    FieldsAreBigEndian(a, b, 0, 0, data + rest);
    ReadsBytes(data, rest);
    assert ReadName(118, s)
           == match Utf8.Decode(data)
              case Some(name) => Got(name, 2 + |data|)
              case None => Fail(BadText);
    hide ReadName, Utf8.Decode;
    FormReads(118, s);
  }

  lemma SmallAtomReads(n: byte, data: bytes, rest: bytes)
    requires |data| == n
    ensures Dec([119, n] + data + rest)
            == match Utf8.Decode(data)
               case Some(name) => Got(Atom(name), 2 + |data|)
               case None => Fail(BadText)
  {
    var s := [n] + (data + rest);
    assert [119, n] + data + rest == [119] + s;
    ReadsBytes(data, rest);
    assert s[0] == n && s[1..] == data + rest;
    assert ReadName(119, s)
           == match Utf8.Decode(data)
              case Some(name) => Got(name, 1 + |data|)
              case None => Fail(BadText);
    hide ReadName, Utf8.Decode;
    FormReads(119, s);
  }

  /** SMALL_INTEGER_EXT and INTEGER_EXT, the latter in two's complement. */
  lemma IntegerReads(a: byte, b: byte, c: byte, d: byte, rest: bytes)
    ensures Dec([97, a] + rest) == Got(Int(a), 2)
    ensures Dec([98, a, b, c, d] + rest)
            == Got(Int(Word(if a < 128 then a as int else a - 256, b, c, d)), 5)
  {
    assert [97, a] + rest == [97] + ([a] + rest);
    FormReads(97, [a] + rest);
    assert [98, a, b, c, d] + rest == [98] + ([a, b, c, d] + rest);
    FormReads(98, [a, b, c, d] + rest);
    WordReads(a, b, c, d, rest);
  }

  lemma BigTakes(sign: byte, d: byte, s: bytes, n: nat)
    requires n <= |s|
    ensures Signed(sign, ([d] + s)[..n + 1]) == 256 * Signed(sign, s[..n]) + if sign != 0 then -(d as int) else d
  {
    assert ([d] + s)[..n + 1] == [d] + s[..n];
    assert ([d] + s[..n])[1..] == s[..n];
    assert FromBytes([d] + s[..n]) == d + 256 * FromBytes(s[..n]);
  }

  /** The two big forms: no digits are zero, and one digit more comes before the others, as the least significant one. A
      sign byte that is not zero makes the number negative. */
  lemma BigReads(sign: byte, n: byte, d: byte, s: bytes, v: int)
    requires n < 255 && Dec([110, n, sign] + s) == Got(Int(v), 3 + n)
    ensures Dec([110, n + 1, sign] + ([d] + s)) == Got(Int(256 * v + if sign != 0 then -(d as int) else d), 4 + n)
  {
    hide *;
    SmallBigReads(n, sign, s);
    SmallBigReads(n + 1, sign, [d] + s);
    BigTakes(sign, d, s, n);
  }

  lemma BigStarts(sign: byte, s: bytes)
    ensures Dec([110, 0, sign] + s) == Got(Int(0), 3)
    ensures Dec([111, 0, 0, 0, 0, sign] + s) == Got(Int(0), 6)
  {
    hide *;
    NoDigits(sign, s);
    SmallBigReads(0, sign, s);
    LargeBigFields(0, 0, 0, 0, sign, s, 0);
  }

  lemma SignedReads(sign: byte, s: bytes, n: nat)
    ensures ReadBig([sign] + s, n)
            == if n > |s| then Fail(UnexpectedEnd)
               else Got(Signed(sign, s[..n]), 1 + n)
  {
    assert ([sign] + s)[0] == sign && ([sign] + s)[1..] == s;
  }

  lemma NoDigits(sign: byte, s: bytes)
    ensures Signed(sign, s[..0]) == 0 && Word(0, 0, 0, 0) == 0
  {
    assert s[..0] == [];
  }

  lemma SmallBigReads(n: byte, sign: byte, s: bytes)
    ensures Dec([110, n, sign] + s)
            == if n > |s| then Fail(UnexpectedEnd)
               else Got(Int(Signed(sign, s[..n])), 3 + n)
  {
    var body := [n] + ([sign] + s);
    assert [110, n, sign] + s == [110] + body;
    assert body[0] == n && body[1..] == [sign] + s;
    SignedReads(sign, s, n);
    assert ReadInt(110, body)
           == match ReadBig(body[1..], n)
              case Got(v, k) => Got(v, 1 + k)
              case Fail(e) => Fail(e);
    hide ReadBig;
    IntFormReads(110, body);
  }

  lemma IntFormReads(tag: byte, s: bytes)
    requires tag == 110 || tag == 111
    ensures Dec([tag] + s)
            == match ReadInt(tag, s)
               case Got(v, k) => Got(Int(v), 1 + k)
               case Fail(e) => Fail(e)
  {
    FormReads(tag, s);
    hide ReadInt;
  }

  /** LARGE_BIG_EXT reads what SMALL_BIG_EXT does, and counts on in four bytes. */
  lemma LargeBigReads(a: byte, b: byte, c: byte, d: byte, a': byte, b': byte, c': byte, d': byte, sign: byte, low: byte,
                      s: bytes, v: int, n: int)
    requires n == Word(a, b, c, d)
    requires n + 1 == Word(a', b', c', d')
    requires Dec([111, a, b, c, d, sign] + s) == Got(Int(v), 6 + n)
    ensures Dec([111, a', b', c', d', sign] + ([low] + s)) == Got(Int(256 * v + if sign != 0 then -(low as int) else low), 7 + n)
  {
    hide *;
    LargeBigFields(a, b, c, d, sign, s, n);
    LargeBigFields(a', b', c', d', sign, [low] + s, n + 1);
    assert n >= 0 by {
      WordIsNat(a, b, c, d);
    }
    BigTakes(sign, low, s, n);
  }

  lemma LargeBigFields(a: byte, b: byte, c: byte, d: byte, sign: byte, s: bytes, n: int)
    requires n == Word(a, b, c, d)
    ensures Dec([111, a, b, c, d, sign] + s)
            == if n > |s| then Fail(UnexpectedEnd)
               else Got(Int(Signed(sign, s[..n])), 6 + n)
  {
    var body := [a, b, c, d] + ([sign] + s);
    assert [111, a, b, c, d, sign] + s == [111] + body;
    WordReads(a, b, c, d, [sign] + s);
    SignedReads(sign, s, n);
    hide *;
    BigFieldReads(body, n);
    IntFormReads(111, body);
  }

  lemma BigFieldReads(s: bytes, n: nat)
    requires ReadU32(s) == Got(n, 4)
    ensures ReadInt(111, s)
            == match ReadBig(s[4..], n)
               case Got(v, k) => Got(v, 4 + k)
               case Fail(e) => Fail(e)
  {
    hide ReadBig, ReadU32;
  }

  /** BINARY_EXT. */
  lemma BinaryReads(a: byte, b: byte, c: byte, d: byte, data: bytes, rest: bytes)
    requires |data| == Word(a, b, c, d)
    ensures Dec([109, a, b, c, d] + data + rest) == Got(Binary(data), 5 + |data|)
  {
    var s := [a, b, c, d] + (data + rest);
    assert [109, a, b, c, d] + data + rest == [109] + s;
    WordReads(a, b, c, d, data + rest);
    ReadsBytes(data, rest);
    assert s[4..] == data + rest;
    FormReads(109, s);
    hide Dec, ReadU32, ReadBytes;
  }

  /** NEW_FLOAT_EXT and NIL_EXT. */
  lemma DataReads(data: bytes, rest: bytes)
    ensures |data| == 8 ==> Dec([70] + data + rest) == Got(Float(data), 9)
    ensures Dec([106] + rest) == Got(List([]), 1)
  {
    ReadsBytes(data, rest);
    assert [70] + data + rest == [70] + (data + rest);
    FormReads(70, data + rest);
    FormReads(106, rest);
    hide Dec, ReadBytes;
  }

  // ---------- Forms with parts ----------

  lemma NoneRead(s: bytes)
    ensures DecMany(s, 0) == Got([], 0) && DecPairs(s, 0) == Got([], 0) && DictOf([]) == [] && Word(0, 0, 0, 0) == 0
  {
  }

  /** A tuple's parts come in order; the count is one byte, or four. */
  lemma TupleForms(n: byte, part: bytes, t: Term, s: bytes, ts: seq<Term>, m: nat)
    requires Dec(part + s) == Got(t, |part|)
    ensures Dec([104, 0] + s) == Got(Tuple([]), 2) && Dec([105, 0, 0, 0, 0] + s) == Got(Tuple([]), 5)
    ensures n < 255 && Dec([104, n] + s) == Got(Tuple(ts), 2 + m) ==>
              Dec([104, n + 1] + (part + s)) == Got(Tuple([t] + ts), 2 + |part| + m)
  {
    hide *;
    NoneRead(s);
    SmallTupleFields(0, s);
    LargeTupleFields(0, 0, 0, 0, s, 0);
    SmallTupleFields(n, s);
    if n < 255 && Dec([104, n] + s) == Got(Tuple(ts), 2 + m) {
      SmallTupleFields(n + 1, part + s);
      ManyStep(part, t, s, ts, n, m);
    }
  }

  lemma LargeTupleForms(a: byte, b: byte, c: byte, d: byte, a': byte, b': byte, c': byte, d': byte, n: int,
                        part: bytes, t: Term, s: bytes, ts: seq<Term>, m: nat)
    requires n == Word(a, b, c, d)
    requires n + 1 == Word(a', b', c', d')
    requires Dec(part + s) == Got(t, |part|) && Dec([105, a, b, c, d] + s) == Got(Tuple(ts), 5 + m)
    ensures Dec([105, a', b', c', d'] + (part + s)) == Got(Tuple([t] + ts), 5 + |part| + m)
  {
    hide Dec, DecMany;
    LargeTupleFields(a, b, c, d, s, n);
    LargeTupleFields(a', b', c', d', part + s, n + 1);
    ManyStep(part, t, s, ts, n, m);
  }

  lemma SmallTupleFields(n: byte, s: bytes)
    ensures Dec([104, n] + s)
            == match DecMany(s, n)
               case Got(ts, m) => Got(Tuple(ts), 2 + m)
               case Fail(e) => Fail(e)
  {
    assert [104, n] + s == [104] + ([n] + s);
    FormReads(104, [n] + s);
    assert ([n] + s)[0] == n && ([n] + s)[1..] == s;
    hide DecMany;
  }

  lemma LargeTupleFields(a: byte, b: byte, c: byte, d: byte, s: bytes, n: int)
    requires n == Word(a, b, c, d)
    ensures Dec([105, a, b, c, d] + s)
            == match DecMany(s, n)
               case Got(ts, m) => Got(Tuple(ts), 5 + m)
               case Fail(e) => Fail(e)
  {
    assert [105, a, b, c, d] + s == [105] + ([a, b, c, d] + s);
    FormReads(105, [a, b, c, d] + s);
    WordReads(a, b, c, d, s);
    hide Dec, DecMany, DecPairs, DecPid, DecRef, DecPort, ReadFlat, ReadU32;
  }

  /** LIST_EXT: after the elements comes the tail, which is one more element unless it is the empty list. */
  lemma ListEnds(s: bytes, tail: Term, k: nat)
    requires Dec(s) == Got(tail, k)
    ensures Dec([108, 0, 0, 0, 0] + s) == Got(List(if tail == List([]) then [] else [tail]), 5 + k)
  {
    hide *;
    NoneRead(s);
    assert s[0..] == s;
    ListReadsAs(0, 0, 0, 0, s, 0, [], 0, tail, k);
    var none: seq<Term> := [];
    assert none + [tail] == [tail];
  }

  lemma ListForms(a: byte, b: byte, c: byte, d: byte, a': byte, b': byte, c': byte, d': byte, n: int,
                  part: bytes, t: Term, s: bytes, ts: seq<Term>, m: nat)
    requires n == Word(a, b, c, d)
    requires n + 1 == Word(a', b', c', d')
    requires Dec(part + s) == Got(t, |part|) && Dec([108, a, b, c, d] + s) == Got(List(ts), 5 + m)
    ensures Dec([108, a', b', c', d'] + (part + s)) == Got(List([t] + ts), 5 + |part| + m)
  {
    hide *;
    var items, j, tail, k := ListSplits(a, b, c, d, s, n, ts, m);
    ManyStep(part, t, s, items, n, j);
    assert (part + s)[|part| + j..] == s[j..];
    ListReadsAs(a', b', c', d', part + s, n + 1, [t] + items, |part| + j, tail, k);
    assert [t] + (items + [tail]) == ([t] + items) + [tail];
  }

  lemma ListSplits(a: byte, b: byte, c: byte, d: byte, s: bytes, n: int, ts: seq<Term>, m: nat)
    returns (items: seq<Term>, j: nat, tail: Term, k: nat)
    requires n == Word(a, b, c, d) && Dec([108, a, b, c, d] + s) == Got(List(ts), 5 + m)
    ensures n >= 0 && DecMany(s, n) == Got(items, j) && j <= |s| && Dec(s[j..]) == Got(tail, k) && m == j + k
    ensures ts == if tail == List([]) then items else items + [tail]
  {
    hide *;
    ListOpens(a, b, c, d, s, n);
    items, j := DecMany(s, n).value, DecMany(s, n).used;
    tail, k := Dec(s[j..]).value, Dec(s[j..]).used;
    ListReadsAs(a, b, c, d, s, n, items, j, tail, k);
  }

  lemma ListReadsAs(a: byte, b: byte, c: byte, d: byte, s: bytes, n: int, ts: seq<Term>, m: nat, tail: Term, k: nat)
    requires n == Word(a, b, c, d) && n >= 0 && DecMany(s, n) == Got(ts, m) && m <= |s| && Dec(s[m..]) == Got(tail, k)
    ensures Dec([108, a, b, c, d] + s) == Got(List(if tail == List([]) then ts else ts + [tail]), 5 + m + k)
  {
    var body := [a, b, c, d] + s;
    assert [108, a, b, c, d] + s == [108] + body && body[4 + m..] == s[m..];
    hide *;
    WordReads(a, b, c, d, s);
    ListBody(body, n, ts, m, tail, k);
  }

  lemma ListBody(s: bytes, n: nat, ts: seq<Term>, m: nat, tail: Term, k: nat)
    requires ReadU32(s) == Got(n, 4) && DecMany(s[4..], n) == Got(ts, m) && 4 + m <= |s| && Dec(s[4 + m..]) == Got(tail, k)
    ensures Dec([108] + s) == Got(List(if tail == List([]) then ts else ts + [tail]), 5 + m + k)
  {
    var items := if tail == List([]) then ts else ts + [tail];
    assert DecBody(108, s) == Got(List(items), 4 + m + k) by {
      hide Dec, DecMany, DecPairs, DecPid, DecRef, DecPort, ReadFlat, ReadU32;
    }
    hide *;
    FormReads(108, s);
  }

  lemma ListOpens(a: byte, b: byte, c: byte, d: byte, s: bytes, n: int)
    requires n == Word(a, b, c, d) && Dec([108, a, b, c, d] + s).Got?
    ensures n >= 0 && DecMany(s, n).Got? && DecMany(s, n).used <= |s| && Dec(s[DecMany(s, n).used..]).Got?
  {
    var body := [a, b, c, d] + s;
    assert [108, a, b, c, d] + s == [108] + body;
    WordReads(a, b, c, d, s);
    WordIsNat(a, b, c, d);
    hide *;
    FormReads(108, body);
    ListParts(body, n);
    assert body[4 + DecMany(s, n).used..] == s[DecMany(s, n).used..];
  }

  lemma ListParts(s: bytes, n: nat)
    requires ReadU32(s) == Got(n, 4) && DecBody(108, s).Got?
    ensures 4 <= |s| && DecMany(s[4..], n).Got? && 4 + DecMany(s[4..], n).used <= |s|
    ensures Dec(s[4 + DecMany(s[4..], n).used..]).Got?
  {
    hide Dec, DecMany, DecPairs, DecPid, DecRef, DecPort, ReadFlat, ReadU32;
  }

  /** `after` is `before` with `value` under `key`: at its place if the key was there, and else at the end. */
  ghost predicate PutInto(before: seq<Entry>, key: Term, value: Term, after: seq<Entry>) {
    if exists i :: 0 <= i < |before| && before[i].key == key then
      && |after| == |before|
      && forall i :: 0 <= i < |before| ==> after[i] == if before[i].key == key then Entry(key, value) else before[i]
    else after == before + [Entry(key, value)]
  }

  lemma {:induction false} PutSays(es: seq<Entry>, k: Term, v: Term)
    requires DistinctKeys(es)
    ensures PutInto(es, k, v, Put(es, k, v))
  {
    if i :| 0 <= i < |es| && es[i].key == k {
      if i > 0 {
        PutSays(es[1..], k, v);
        assert es[1..][i - 1].key == k;
        forall j | 0 <= j < |es| ensures Put(es, k, v)[j] == if es[j].key == k then Entry(k, v) else es[j] {
          assert j > 0 ==> Put(es, k, v)[j] == Put(es[1..], k, v)[j - 1] && es[1..][j - 1] == es[j];
        }
      }
    } else {
      PutNewKey(es, k, v);
    }
  }

  /** MAP_EXT: each further pair is put into the map that the pairs before it make, so that the last value of a key wins
      and keeps the place of the first. A key that cannot be hashed is refused. */
  lemma MapForms(a: byte, b: byte, c: byte, d: byte, a': byte, b': byte, c': byte, d': byte, n: int,
                 s: bytes, es: seq<Entry>, m: nat, key: Term, k: nat, value: Term, v: nat)
    requires n == Word(a, b, c, d)
    requires n + 1 == Word(a', b', c', d')
    requires Dec([116, a, b, c, d] + s) == Got(Map(es), 5 + m) && m <= |s|
    requires Dec(s[m..]) == Got(key, k) && m + k <= |s| && Dec(s[m + k..]) == Got(value, v)
    ensures var r := Dec([116, a', b', c', d'] + s);
            if Hashable(key) then
              && r.Got? && r.used == 5 + m + k + v && r.value.Map? && PutInto(es, key, value, r.value.entries)
            else r == Fail(Unhashable)
  {
    MapFields(a, b, c, d, s, n);
    MapFields(a', b', c', d', s, n + 1);
    var r := DecPairs(s, n);
    assert r.Got? && r.used == m && es == DictOf(r.value);
    OnePairMore(s, n, r.value, m, key, k, value, v);
    if Hashable(key) {
      var pairs := r.value + [Entry(key, value)];
      assert pairs[..|pairs| - 1] == r.value;
      DictOfIsDict(r.value);
      PutSays(DictOf(r.value), key, value);
      hide DecPairs, Dec, Hashable, PutInto, Put;
      assert DictOf(pairs) == Put(es, key, value);
    }
  }

  lemma EmptyMapReads(s: bytes)
    ensures Dec([116, 0, 0, 0, 0] + s) == Got(Map([]), 5)
  {
    hide *;
    NoneRead(s);
    MapFields(0, 0, 0, 0, s, 0);
  }

  lemma MapFields(a: byte, b: byte, c: byte, d: byte, s: bytes, n: int)
    requires n == Word(a, b, c, d)
    ensures Dec([116, a, b, c, d] + s)
            == match DecPairs(s, n)
               case Fail(e) => Fail(e)
               case Got(es, m) => Got(Map(DictOf(es)), 5 + m)
  {
    assert [116, a, b, c, d] + s == [116] + ([a, b, c, d] + s);
    FormReads(116, [a, b, c, d] + s);
    WordReads(a, b, c, d, s);
    hide Dec, DecMany, DecPairs, DecPid, DecRef, DecPort, ReadFlat, ReadU32, DictOf;
  }

  lemma PairRefused(s: bytes, n: nat)
    requires n > 0 && Dec(s).Got? && Dec(s).used <= |s| && Dec(s[Dec(s).used..]).Got? && !Hashable(Dec(s).value)
    ensures DecPairs(s, n) == Fail(Unhashable)
  {
    hide Dec, Hashable;
  }

  lemma OnePairReads(s: bytes, key: Term, k: nat, value: Term, v: nat, n: nat)
    requires n == 1 && Dec(s) == Got(key, k) && k <= |s| && Dec(s[k..]) == Got(value, v)
    ensures DecPairs(s, n) == if Hashable(key) then Got([Entry(key, value)], k + v) else Fail(Unhashable)
  {
    hide *;
    if Hashable(key) {
      PairsUnfold(s, n);
      NoneRead(s[k + v..]);
      assert [Entry(key, value)] + [] == [Entry(key, value)];
    } else {
      PairRefused(s, n);
    }
  }

  lemma PairsUnfold(s: bytes, n: nat)
    requires n > 0 && Dec(s).Got? && Dec(s).used <= |s| && Dec(s[Dec(s).used..]).Got? && Hashable(Dec(s).value)
    ensures var x := Dec(s);
            var y := Dec(s[x.used..]);
            x.used + y.used <= |s|
            && DecPairs(s, n)
               == match DecPairs(s[x.used + y.used..], n - 1)
                  case Got(es, m) => Got([Entry(x.value, y.value)] + es, x.used + y.used + m)
                  case Fail(e) => Fail(e)
  {
    hide Dec, Hashable;
  }

  lemma PairsOpen(s: bytes, n: nat)
    requires n > 0 && DecPairs(s, n).Got?
    ensures Dec(s).Got? && Dec(s).used <= |s| && Dec(s[Dec(s).used..]).Got? && Hashable(Dec(s).value)
  {
    hide Dec, Hashable;
  }

  lemma {:induction false} OnePairMore(s: bytes, n: nat, es: seq<Entry>, m: nat, key: Term, k: nat, value: Term, v: nat)
    requires DecPairs(s, n) == Got(es, m) && m <= |s|
    requires Dec(s[m..]) == Got(key, k) && m + k <= |s| && Dec(s[m + k..]) == Got(value, v)
    ensures DecPairs(s, n + 1) == if Hashable(key) then Got(es + [Entry(key, value)], m + k + v) else Fail(Unhashable)
  {
    hide *;
    if n == 0 {
      NoneRead(s);
      assert s[0..] == s && s[m + k..] == s[k..];
      OnePairReads(s, key, k, value, v, n + 1);
      assert es + [Entry(key, value)] == [Entry(key, value)];
    } else {
      PairsOpen(s, n);
      PairsUnfold(s, n);
      PairsUnfold(s, n + 1);
      var x := Dec(s);
      var y := Dec(s[x.used..]);
      var j := x.used + y.used;
      var more := DecPairs(s[j..], n - 1);
      var e := Entry(x.value, y.value);
      assert s[j..][more.used..] == s[m..] && s[j..][more.used + k..] == s[m + k..];
      OnePairMore(s[j..], n - 1, more.value, more.used, key, k, value, v);
      assert [e] + (more.value + [Entry(key, value)]) == es + [Entry(key, value)];
    }
  }

  // ---------- Identifiers ----------

  /** PID_EXT and NEW_PID_EXT: node, id, serial and creation, the last of one byte or of four. The node is an atom. */
  lemma PidForms(node: bytes, t: Term, i: bytes, j: bytes, c: bytes, rest: bytes, id: u32, serial: u32, creation: u32)
    requires |i| == 4 && id == Word(i[0], i[1], i[2], i[3])
    requires |j| == 4 && serial == Word(j[0], j[1], j[2], j[3])
    requires Dec(node + (i + (j + (c + rest)))) == Got(t, |node|)
    ensures |c| == 1 && creation == c[0] ==>
              Dec([103] + (node + (i + (j + (c + rest)))))
              == if t.Atom? then Got(PidTerm(Pid(t.name, id, serial, creation)), |node| + 10) else Fail(BadPid)
    ensures |c| == 4 && creation == Word(c[0], c[1], c[2], c[3]) ==>
              Dec([88] + (node + (i + (j + (c + rest)))))
              == if t.Atom? then Got(PidTerm(Pid(t.name, id, serial, creation)), |node| + 13) else Fail(BadPid)
  {
    var s2 := j + (c + rest);
    var s1 := i + s2;
    var s := node + s1;
    FormReads(103, s);
    FormReads(88, s);
    assert s[|node|..] == s1 && s[|node| + 4..] == s2 && s[|node| + 8..] == c + rest;
    FourBytes(i, s2);
    FourBytes(j, c + rest);
    if |c| == 4 {
      FourBytes(c, rest);
    }
    hide Dec, ReadU32;
  }

  lemma FourBytes(f: bytes, rest: bytes)
    requires |f| == 4
    ensures ReadU32(f + rest) == Got(Word(f[0], f[1], f[2], f[3]), 4)
  {
    assert f == [f[0], f[1], f[2], f[3]];
    WordReads(f[0], f[1], f[2], f[3], rest);
  }

  /** PORT_EXT and NEW_PORT_EXT: node, id and creation. */
  lemma PortForms(node: bytes, t: Term, i: bytes, c: bytes, rest: bytes, id: int, creation: int)
    requires |i| == 4 && id == Word(i[0], i[1], i[2], i[3])
    requires Dec(node + (i + (c + rest))) == Got(t, |node|)
    ensures |c| == 1 && creation == c[0] ==> Dec([102] + (node + (i + (c + rest)))) == Got(Port(t, id, creation), |node| + 6)
    ensures |c| == 4 && creation == Word(c[0], c[1], c[2], c[3]) ==>
              Dec([89] + (node + (i + (c + rest)))) == Got(Port(t, id, creation), |node| + 9)
  {
    var s1 := i + (c + rest);
    var s := node + s1;
    FormReads(102, s);
    FormReads(89, s);
    assert s[|node|..] == s1 && s[|node| + 4..] == c + rest;
    FourBytes(i, c + rest);
    if |c| == 4 {
      FourBytes(c, rest);
    }
    hide Dec, ReadU32;
  }

  /** The ids of a reference, four bytes each. */
  predicate IdsAre(data: bytes, ids: seq<int>) {
    |data| == 4 * |ids|
    && forall i :: 0 <= i < |ids| ==> ids[i] == Word(data[4 * i], data[4 * i + 1], data[4 * i + 2], data[4 * i + 3])
  }

  lemma {:induction false} IdsReadAs(data: bytes, ids: seq<int>, rest: bytes)
    requires IdsAre(data, ids)
    ensures ReadIds(data + rest, |ids|) == Got(ids, |data|)
  {
    if ids != [] {
      var f, more := data[..4], data[4..];
      assert IdsAre(more, ids[1..]) by {
        forall i | 0 <= i < |ids[1..]|
          ensures ids[1..][i] == Word(more[4 * i], more[4 * i + 1], more[4 * i + 2], more[4 * i + 3])
        {
          assert more[4 * i] == data[4 * (i + 1)] && ids[1..][i] == ids[i + 1];
        }
      }
      IdsReadAs(more, ids[1..], rest);
      assert ids[0] == Word(data[0], data[1], data[2], data[3]);
      FourBytes(f, more + rest);
      assert data + rest == f + (more + rest) && (data + rest)[4..] == more + rest;
      hide ReadU32, IdsAre, Word;
      assert ids == [ids[0]] + ids[1..];
    }
  }

  /** NEW_REFERENCE_EXT and NEWER_REFERENCE_EXT: the number of ids, node, creation and the ids in order. */
  lemma RefForms(a: byte, b: byte, node: bytes, t: Term, c: bytes, data: bytes, ids: seq<int>, rest: bytes, creation: int)
    requires |ids| == a * 0x100 + b && IdsAre(data, ids)
    requires Dec(node + (c + (data + rest))) == Got(t, |node|)
    ensures |c| == 1 && creation == c[0] ==>
              Dec([114, a, b] + (node + (c + (data + rest)))) == Got(Ref(t, creation, ids), 3 + |node| + 1 + |data|)
    ensures |c| == 4 && creation == Word(c[0], c[1], c[2], c[3]) ==>
              Dec([90, a, b] + (node + (c + (data + rest)))) == Got(Ref(t, creation, ids), 3 + |node| + 4 + |data|)
  {
    IdsReadAs(data, ids, rest);
    if |c| == 1 && creation == c[0] {
      assert ReadCreation(false, c + (data + rest)) == Got(creation, 1);
      RefIsRead(114, a, b, node, t, c, data + rest, ids, |data|, creation);
    }
    if |c| == 4 && creation == Word(c[0], c[1], c[2], c[3]) {
      FourBytes(c, data + rest);
      RefIsRead(90, a, b, node, t, c, data + rest, ids, |data|, creation);
    }
    hide *;
  }

  lemma RefIsRead(tag: byte, a: byte, b: byte, node: bytes, t: Term, c: bytes, s: bytes, ids: seq<int>, m: nat, creation: int)
    requires (tag == 90 || tag == 114) && Dec(node + (c + s)) == Got(t, |node|)
    requires ReadCreation(tag == 90, c + s) == Got(creation, |c|) && ReadIds(s, a * 0x100 + b) == Got(ids, m)
    ensures Dec([tag, a, b] + (node + (c + s))) == Got(Ref(t, creation, ids), 3 + |node| + |c| + m)
  {
    var body := [a, b] + (node + (c + s));
    hide *;
    TwoBytes(tag, a, b, node + (c + s));
    PartsFollow(body, [a, b], node, c, s);
    RefBody(tag == 90, body, a * 0x100 + b, t, |node|, creation, |c|, ids, m);
    RefTag(tag, body, Ref(t, creation, ids), 2 + |node| + |c| + m);
  }

  lemma TwoBytes(tag: byte, a: byte, b: byte, rest: bytes)
    ensures [tag, a, b] + rest == [tag] + ([a, b] + rest)
    ensures ReadU16([a, b] + rest) == Got(a * 0x100 + b, 2)
  {
    FieldsAreBigEndian(a, b, 0, 0, rest);
  }

  lemma RefTag(tag: byte, s: bytes, t: Term, k: nat)
    requires (tag == 90 || tag == 114) && DecRef(tag == 90, s) == Got(t, k)
    ensures Dec([tag] + s) == Got(t, 1 + k)
  {
    FormReads(tag, s);
    hide Dec, DecRef;
  }

  lemma PartsFollow(body: bytes, head: bytes, node: bytes, c: bytes, s: bytes)
    requires body == head + (node + (c + s))
    ensures |body| == |head| + |node| + |c| + |s|
    ensures body[|head|..] == node + (c + s) && body[|head| + |node|..] == c + s && body[|head| + |node| + |c|..] == s
  {
  }

  lemma RefBody(wide: bool, s: bytes, n: nat, t: Term, k: nat, creation: int, c: nat, ids: seq<int>, m: nat)
    requires 2 + k + c <= |s| && ReadU16(s) == Got(n, 2) && Dec(s[2..]) == Got(t, k)
    requires ReadCreation(wide, s[2 + k..]) == Got(creation, c) && ReadIds(s[2 + k + c..], n) == Got(ids, m)
    ensures DecRef(wide, s) == Got(Ref(t, creation, ids), 2 + k + c + m)
  {
    hide Dec, ReadCreation, ReadIds, ReadU16;
  }

  // ---------- What is refused, and the version byte ----------

  lemma UnknownTags(tag: byte, s: bytes)
    ensures Dec([]) == Fail(UnexpectedEnd)
    ensures tag !in {70, 88, 89, 90, 97, 98, 99, 100, 102, 103, 104, 105, 106, 107, 108, 109, 110, 111, 114, 116, 118, 119} ==>
              Dec([tag] + s) == Fail(UnknownTag)
  {
    FormReads(tag, s);
  }

  lemma VersionFirst(version: byte, s: bytes)
    ensures DecodeTerm([version] + s)
            == if version != 131 then Fail(BadVersion)
               else match Dec(s)
                    case Got(t, k) => Got(t, 1 + k)
                    case Fail(e) => Fail(e)
    ensures DecodeTerm([]) == Fail(UnexpectedEnd)
  {
    assert ([version] + s)[1..] == s;
  }

  // ---------- Which form is written, and what comes back ----------

  /** Which terms can be written: names and texts that have UTF-8, and everything that the fields have room for. */
  lemma WhatFits(t: Term)
    ensures Encodable(t)
            <==> match t
                 case NoneTerm => true
                 case Bool(_) => true
                 case Float(_) => true
                 case Int(n) => |Digits(if n < 0 then -n else n)| <= 0xFFFF_FFFF
                 case Atom(name) => Utf8.HasUtf8(name) && |Utf8.Encode(name)| <= 0xFFFF
                 case Str(text) => Utf8.HasUtf8(text) && |Utf8.Encode(text)| <= 0xFFFF_FFFF
                 case Binary(data) => |data| <= 0xFFFF_FFFF
                 case Tuple(items) => |items| <= 0xFFFF_FFFF && forall i :: 0 <= i < |items| ==> Encodable(items[i])
                 case List(items) => |items| <= 0xFFFF_FFFF && forall i :: 0 <= i < |items| ==> Encodable(items[i])
                 case Map(es) =>
                   |es| <= 0xFFFF_FFFF && forall i :: 0 <= i < |es| ==> Encodable(es[i].key) && Encodable(es[i].value)
                 case PidTerm(pid) => Utf8.HasUtf8(pid.node) && |Utf8.Encode(pid.node)| <= 0xFFFF
                 case Ref(node, creation, ids) =>
                   && Encodable(node) && 0 <= creation <= 0xFFFF_FFFF && |ids| <= 0xFFFF
                   && forall i :: 0 <= i < |ids| ==> 0 <= ids[i] <= 0xFFFF_FFFF
                 case Port(node, id, creation) =>
                   Encodable(node) && 0 <= id <= 0xFFFF_FFFF && 0 <= creation <= 0xFFFF_FFFF
  {
    match t
    case Tuple(items) => AllFit(items);
    case List(items) => AllFit(items);
    case Map(es) => EntriesFit(es);
    case _ =>
  }

  lemma {:induction false} AllFit(ts: seq<Term>)
    ensures AllEncodable(ts) <==> forall i :: 0 <= i < |ts| ==> Encodable(ts[i])
  {
    if ts != [] {
      AllFit(ts[1..]);
      assert forall i :: 0 < i < |ts| ==> ts[i] == ts[1..][i - 1];
      assert forall i :: 0 <= i < |ts[1..]| ==> ts[1..][i] == ts[i + 1];
      hide Encodable;
    }
  }

  lemma {:induction false} EntriesFit(es: seq<Entry>)
    ensures EntriesEncodable(es) <==> forall i :: 0 <= i < |es| ==> Encodable(es[i].key) && Encodable(es[i].value)
  {
    if es != [] {
      EntriesFit(es[1..]);
      assert forall i :: 0 < i < |es| ==> es[i] == es[1..][i - 1];
      assert forall i :: 0 <= i < |es[1..]| ==> es[1..][i] == es[i + 1];
      hide Encodable;
    }
  }

  /** The tag that a term is written with. */
  lemma TagWritten(t: Term)
    requires Encodable(t)
    ensures Enc(t)[0]
            == match t
               case NoneTerm => 119
               case Bool(_) => 119
               case Int(n) =>
                 if 0 <= n < 256 then 97
                 else if -0x8000_0000 <= n < 0x8000_0000 then 98
                 else if |Digits(Magnitude(n))| < 256 then 110
                 else 111
               case Float(_) => 70
               case Atom(name) => if |Utf8.Encode(name)| < 256 then 119 else 118
               case Str(_) => 109
               case Binary(_) => 109
               case Tuple(items) => if |items| < 256 then 104 else 105
               case List(items) => if items == [] then 106 else 108
               case Map(_) => 116
               case PidTerm(_) => 88
               case Ref(_, _, _) => 90
               case Port(_, _, _) => 89
  {
    ShortNames();
    hide EncAll, EncEntries, Utf8.Encode, Digits;
  }

  lemma ShortNames()
    ensures |Utf8.Encode(NIL_NAME)| < 256 && |Utf8.Encode(TRUE_NAME)| < 256 && |Utf8.Encode(FALSE_NAME)| < 256
  {
    AsciiName(NIL_NAME);
    AsciiName(TRUE_NAME);
    AsciiName(FALSE_NAME);
  }

  /** What a value comes back as: None and booleans as the atoms nil, true and false, text as its bytes, the rest as it is,
      part by part. */
  lemma ComesBackAs(t: Term)
    ensures match t
            case NoneTerm => Norm(t) == Atom([110, 105, 108])
            case Bool(b) => Norm(t) == Atom(if b then [116, 114, 117, 101] else [102, 97, 108, 115, 101])
            case Str(text) => Norm(t) == Binary(Utf8.Encode(text))
            case Tuple(items) =>
              Norm(t).Tuple? && |Norm(t).items| == |items| && forall i :: 0 <= i < |items| ==> Norm(t).items[i] == Norm(items[i])
            case List(items) =>
              Norm(t).List? && |Norm(t).items| == |items| && forall i :: 0 <= i < |items| ==> Norm(t).items[i] == Norm(items[i])
            case Map(es) =>
              && Norm(t).Map? && |Norm(t).entries| == |es|
              && forall i :: 0 <= i < |es| ==> Norm(t).entries[i] == Entry(Norm(es[i].key), Norm(es[i].value))
            case Ref(node, creation, ids) => Norm(t) == Ref(Norm(node), creation, ids)
            case Port(node, id, creation) => Norm(t) == Port(Norm(node), id, creation)
            case _ => Norm(t) == t
  {
    match t
    case Tuple(items) => PartsComeBack(items);
    case List(items) => PartsComeBack(items);
    case Map(es) => EntriesComeBack(es);
    case _ =>
  }

  lemma {:induction false} PartsComeBack(ts: seq<Term>)
    ensures forall i :: 0 <= i < |ts| ==> NormAll(ts)[i] == Norm(ts[i])
  {
    hide Norm;
    if ts != [] {
      PartsComeBack(ts[1..]);
    }
  }

  lemma {:induction false} EntriesComeBack(es: seq<Entry>)
    ensures forall i :: 0 <= i < |es| ==> NormEntries(es)[i] == Entry(Norm(es[i].key), Norm(es[i].value))
  {
    hide Norm;
    if es != [] {
      EntriesComeBack(es[1..]);
    }
  }
}
