/** Consequences of the round trip, canonical decoding, and the length of integers. */
module EtfLaws {
  import opened Bytes
  import opened Terms
  import opened Etf
  import opened EtfRoundTrip

  // ---------- Prefixes and injectivity ----------

  /** No encoding is a proper prefix of another, and equal bytes mean equal terms up to `Norm`. */
  lemma PrefixFree(a: Term, b: Term, x: bytes, y: bytes)
    requires Encodable(a) && WellFormed(a) && Encodable(b) && WellFormed(b)
    requires Enc(a) + x == Enc(b) + y
    ensures Norm(a) == Norm(b) && Enc(a) == Enc(b) && x == y
  {
    RoundTrip(a, x);
    RoundTrip(b, y);
    assert Enc(a) == (Enc(a) + x)[..|Enc(a)|] && Enc(b) == (Enc(b) + y)[..|Enc(b)|];
    assert x == (Enc(a) + x)[|Enc(a)|..] && y == (Enc(b) + y)[|Enc(b)|..];
  }

  lemma VersionedRoundTrip(t: Term, rest: bytes)
    requires Encodable(t) && WellFormed(t)
    ensures DecodeTerm(EncodeTerm(t) + rest) == Got(Norm(t), |EncodeTerm(t)|)
  {
    hide Dec, Enc, Norm, Encodable, WellFormed;
    RoundTrip(t, rest);
    var s := EncodeTerm(t) + rest;
    assert s[0] == VERSION && s[1..] == Enc(t) + rest;
  }

  /** No term starts with the version byte, so stripping a leading 131 is safe. */
  lemma NoTermStartsWithVersion(t: Term)
    requires Encodable(t)
    ensures Enc(t)[0] != VERSION
  {
  }

  // ---------- Canonical decoding ----------

  ghost predicate IsNormal(t: Term) {
    Norm(t) == t && WellFormed(t)
  }

  lemma {:induction false} AllNormal(ts: seq<Term>)
    requires forall i :: 0 <= i < |ts| ==> IsNormal(ts[i])
    ensures NormAll(ts) == ts && AllWellFormed(ts)
  {
    if ts != [] {
      AllNormal(ts[1..]);
      assert IsNormal(ts[0]);
    }
  }

  ghost predicate EntryNormal(e: Entry) {
    IsNormal(e.key) && IsNormal(e.value) && Hashable(e.key)
  }

  lemma {:induction false} EntriesNormal(es: seq<Entry>)
    requires forall e :: e in es ==> EntryNormal(e)
    ensures NormEntries(es) == es && EntriesWellFormed(es) && HashableKeys(es)
  {
    if es != [] {
      EntriesNormal(es[1..]);
      assert EntryNormal(es[0]);
      forall i | 0 <= i < |es| ensures Hashable(es[i].key) {
        assert EntryNormal(es[i]);
      }
    }
  }

  lemma {:induction false} BytesAreNormal(s: bytes)
    ensures forall i :: 0 <= i < |s| ==> IsNormal(BytesAsInts(s)[i])
  {
    if s != [] {
      BytesAreNormal(s[1..]);
      forall i | 0 <= i < |s| ensures IsNormal(BytesAsInts(s)[i]) {
        if i > 0 {
          assert BytesAsInts(s)[i] == BytesAsInts(s[1..])[i - 1];
        }
      }
    }
  }

  /** Whatever bytes are accepted, the term is already normal and well-formed. */
  lemma {:induction false} DecodedIsNormal(s: bytes)
    requires Dec(s).Got?
    ensures IsNormal(Dec(s).value)
    decreases |s|, 0, 0
  {
    BodyIsNormal(s[0], s[1..]);
  }

  lemma {:induction false} BodyIsNormal(tag: byte, s: bytes)
    requires DecBody(tag, s).Got?
    ensures IsNormal(DecBody(tag, s).value)
    decreases |s|, 2, 0
  {
    if tag == SMALL_TUPLE_EXT {
      ManyAreNormal(s[1..], s[0]);
    } else if tag == LARGE_TUPLE_EXT {
      ManyAreNormal(s[4..], ReadU32(s).value);
    } else if tag == LIST_EXT {
      ListIsNormal(s);
    } else if tag == MAP_EXT {
      MapIsNormal(s);
    } else if tag == NEW_REFERENCE_EXT || tag == NEWER_REFERENCE_EXT {
      DecodedIsNormal(s[2..]);
    } else if tag == PORT_EXT || tag == NEW_PORT_EXT {
      DecodedIsNormal(s);
    } else if tag == STRING_EXT {
      StringIsNormal(s);
    } else {
      FlatIsNormal(tag, s);
    }
  }

  lemma StringIsNormal(s: bytes)
    requires DecBody(STRING_EXT, s).Got?
    ensures IsNormal(DecBody(STRING_EXT, s).value)
  {
    var data := s[2..][..ReadU16(s).value];
    BytesAreNormal(data);
    AllNormal(BytesAsInts(data));
  }

  /** The terms that hold no others. */
  lemma FlatIsNormal(tag: byte, s: bytes)
    requires DecBody(tag, s).Got?
    requires tag !in {SMALL_TUPLE_EXT, LARGE_TUPLE_EXT, LIST_EXT, MAP_EXT, NEW_REFERENCE_EXT, NEWER_REFERENCE_EXT, PORT_EXT,
                      NEW_PORT_EXT, STRING_EXT}
    ensures IsNormal(DecBody(tag, s).value)
  {
  }

  lemma {:induction false} ListIsNormal(s: bytes)
    requires DecBody(LIST_EXT, s).Got?
    ensures IsNormal(DecBody(LIST_EXT, s).value)
    decreases |s|, 1, 0
  {
    var n := ReadU32(s).value;
    ManyAreNormal(s[4..], n);
    var items := DecMany(s[4..], n).value;
    var k := DecMany(s[4..], n).used;
    DecodedIsNormal(s[4 + k..]);
    var tail := Dec(s[4 + k..]).value;
    if tail != List([]) {
      AllNormalOneMore(items, tail);
    }
  }

  lemma {:induction false} AllNormalOneMore(ts: seq<Term>, t: Term)
    requires NormAll(ts) == ts && AllWellFormed(ts) && IsNormal(t)
    ensures NormAll(ts + [t]) == ts + [t] && AllWellFormed(ts + [t])
  {
    if ts != [] {
      assert (ts + [t])[1..] == ts[1..] + [t];
      assert NormAll(ts)[0] == Norm(ts[0]) && NormAll(ts)[1..] == NormAll(ts[1..]);
      AllNormalOneMore(ts[1..], t);
    }
  }

  lemma {:induction false} MapIsNormal(s: bytes)
    requires DecBody(MAP_EXT, s).Got?
    ensures IsNormal(DecBody(MAP_EXT, s).value)
    decreases |s|, 1, 0
  {
    var n := ReadU32(s).value;
    PairsAreNormal(s[4..], n);
    var es := DecPairs(s[4..], n).value;
    DictOfIsDict(es);
    EntriesNormal(DictOf(es));
  }

  lemma {:induction false} ManyAreNormal(s: bytes, n: nat)
    requires DecMany(s, n).Got?
    ensures NormAll(DecMany(s, n).value) == DecMany(s, n).value && AllWellFormed(DecMany(s, n).value)
    decreases |s|, 1, n
  {
    if n > 0 {
      DecodedIsNormal(s);
      ManyAreNormal(s[Dec(s).used..], n - 1);
    }
  }

  lemma {:induction false} PairsAreNormal(s: bytes, n: nat)
    requires DecPairs(s, n).Got?
    ensures forall e :: e in DecPairs(s, n).value ==> EntryNormal(e)
    decreases |s|, 1, n
  {
    if n > 0 {
      var k := Dec(s).used;
      var v := Dec(s[k..]).used;
      DecodedIsNormal(s);
      DecodedIsNormal(s[k..]);
      PairsAreNormal(s[k + v..], n - 1);
    }
  }

  /** Re-encoding what was decoded and decoding again gives the same term, for any accepted bytes. */
  lemma Canonicalisation(s: bytes, rest: bytes)
    requires Dec(s).Got? && Encodable(Dec(s).value)
    ensures var t := Dec(s).value; Dec(Enc(t) + rest) == Got(t, |Enc(t)|)
  {
    DecodedIsNormal(s);
    RoundTrip(Dec(s).value, rest);
  }

  // ---------- Integers ----------

  /** `s` is one of the four integer forms, and is read as `n`. */
  ghost predicate IntForm(s: bytes, n: int) {
    && s != [] && s[0] in {SMALL_INTEGER_EXT, INTEGER_EXT, SMALL_BIG_EXT, LARGE_BIG_EXT}
    && Dec(s) == Got(Int(n), |s|)
  }

  lemma IntFormLength(s: bytes, n: int)
    requires IntForm(s, n)
    ensures s[0] == SMALL_INTEGER_EXT ==> |s| == 2 && 0 <= n < 256
    ensures s[0] == INTEGER_EXT ==> |s| == 5 && FitsI32(n)
    ensures s[0] == SMALL_BIG_EXT ==> |Digits(Magnitude(n))| + 3 <= |s| < 256 + 3
    ensures s[0] == LARGE_BIG_EXT ==> |Digits(Magnitude(n))| + 6 <= |s|
  {
    var b := s[1..];
    assert Dec(s) == Got(DecBody(s[0], b).value, 1 + DecBody(s[0], b).used);
    assert DecBody(s[0], b) == ReadFlat(s[0], b);
    assert ReadInt(s[0], b) == Got(n, |b|);
    if s[0] == SMALL_BIG_EXT {
      var digits := b[1..][1..][..b[0]];
      assert n == Signed(b[1], digits);
      DigitsAreShortest(digits);
    } else if s[0] == LARGE_BIG_EXT {
      var digits := b[4..][1..][..ReadU32(b).value];
      assert n == Signed(b[4], digits);
      DigitsAreShortest(digits);
    }
  }

  lemma DigitBounds(n: nat)
    ensures n >= 1 ==> |Digits(n)| >= 1
    ensures n >= 0x100 ==> |Digits(n)| >= 2
    ensures n >= 0x1_0000 ==> |Digits(n)| >= 3
    ensures n >= 0x100_0000 ==> |Digits(n)| >= 4
    ensures n < 0x100 ==> |Digits(n)| <= 1
  {
    assert n >= 0x100 ==> |Digits(n)| == 1 + |Digits(n / 256)|;
    assert n >= 0x1_0000 ==> |Digits(n / 256)| == 1 + |Digits(n / 256 / 256)|;
    assert n >= 0x100_0000 ==> |Digits(n / 256 / 256)| == 1 + |Digits(n / 256 / 256 / 256)|;
  }

  /** -1 takes five bytes, and four would do. */
  lemma MinusOneIsNotShortest()
    ensures |EncInt(-1)| == 5 && IntForm([SMALL_BIG_EXT, 1, 1, 1], -1)
  {
    var s: bytes := [SMALL_BIG_EXT, 1, 1, 1];
    assert s[1..] == [1, 1, 1] && s[1..][1..] == [1, 1] && s[1..][1..][1..] == [1];
    assert FromBytes([1]) == 1;
    assert [1][..1] == [1];
    assert ReadBig([1, 1], 1) == Got(-1, 2);
    assert ReadInt(SMALL_BIG_EXT, [1, 1, 1]) == Got(-1, 3);
    assert DecBody(SMALL_BIG_EXT, s[1..]) == ReadFlat(SMALL_BIG_EXT, s[1..]);
  }

  /** The form chosen is the shortest, except for -255 to -1, where SMALL_BIG_EXT would save one byte. */
  lemma ShortestIntIff(n: int)
    requires Encodable(Int(n))
    ensures (forall s :: IntForm(s, n) ==> |EncInt(n)| <= |s|) <==> !(-255 <= n <= -1)
    ensures IntForm(EncInt(n), n)
  {
    DigitBounds(Magnitude(n));
    IntReadsBack(n, []);
    assert EncInt(n) + [] == EncInt(n);
    if -255 <= n <= -1 {
      var s: bytes := [SMALL_BIG_EXT, 1, 1, -n];
      assert s[1..] == [1, 1, -n] && s[1..][1..] == [1, -n] && s[1..][1..][1..] == [-n];
      assert FromBytes([-n]) == -n;
      assert ReadBytes([-n], 1) == Got([-n], 1) by {
        assert [-n][..1] == [-n];
      }
      assert ReadBig([1, -n], 1) == Got(n, 2);
      assert ReadInt(SMALL_BIG_EXT, [1, 1, -n]) == Got(n, 3);
      assert DecBody(SMALL_BIG_EXT, s[1..]) == ReadFlat(SMALL_BIG_EXT, s[1..]);
      assert IntForm(s, n);
    } else {
      forall s | IntForm(s, n) ensures |EncInt(n)| <= |s| {
        IntFormLength(s, n);
      }
    }
  }
}
