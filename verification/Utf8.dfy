/** Text as Unicode code points, and its strict UTF-8 form (section 3 of RFC 3629). */
module Utf8 {
  import opened Wrappers
  import opened Bytes

  type CodePoint = c: int | 0 <= c < 0x11_0000

  /** A Python `str`: surrogates may occur in it. */
  type Text = seq<CodePoint>

  predicate IsScalar(c: CodePoint) {
    !(0xD800 <= c < 0xE000)
  }

  predicate HasUtf8(t: Text) {
    forall c :: c in t ==> IsScalar(c)
  }

  function EncodeChar(c: CodePoint): (s: bytes)
    ensures 1 <= |s| <= 4
  {
    if c < 0x80 then [c]
    else if c < 0x800 then [0xC0 + c / 64, 0x80 + c % 64]
    else if c < 0x1_0000 then [0xE0 + c / 64 / 64, 0x80 + c / 64 % 64, 0x80 + c % 64]
    else [0xF0 + c / 64 / 64 / 64, 0x80 + c / 64 / 64 % 64, 0x80 + c / 64 % 64, 0x80 + c % 64]
  }

  predicate Continues(b: byte) {
    0x80 <= b < 0xC0
  }

  /** Appends the six bits of a continuation byte. */
  function Push(high: int, b: byte): int {
    high * 64 + (b - 0x80)
  }

  /** The first character of `s`; overlong forms, surrogates and stray bytes are refused. */
  function DecodeChar(s: bytes): (r: Option<CodePoint>)
    requires s != []
  {
    var b: int := s[0];
    if b < 0x80 then Some(b)
    else if 0xC2 <= b < 0xE0 && |s| >= 2 && Continues(s[1]) then Some(Push(b - 0xC0, s[1]))
    else if 0xE0 <= b < 0xF0 && |s| >= 3 && Continues(s[1]) && Continues(s[2]) then
      var c := Push(Push(b - 0xE0, s[1]), s[2]);
      if c >= 0x800 && IsScalar(c) then Some(c) else None
    else if 0xF0 <= b < 0xF5 && |s| >= 4 && Continues(s[1]) && Continues(s[2]) && Continues(s[3]) then
      var c := Push(Push(Push(b - 0xF0, s[1]), s[2]), s[3]);
      if 0x1_0000 <= c < 0x11_0000 then Some(c) else None
    else None
  }

  /** Pulling `c` apart undoes pushing six bits. */
  lemma PushSplits(high: int, b: byte)
    requires Continues(b) && high >= 0
    ensures Push(high, b) / 64 == high && 0x80 + Push(high, b) % 64 == b
  {
  }

  lemma CharTripBack(s: bytes)
    requires s != [] && DecodeChar(s).Some?
    ensures EncodeChar(DecodeChar(s).value) <= s && IsScalar(DecodeChar(s).value)
  {
    var b: int := s[0];
    if b >= 0xF0 {
      PushSplits(b - 0xF0, s[1]);
      PushSplits(Push(b - 0xF0, s[1]), s[2]);
      PushSplits(Push(Push(b - 0xF0, s[1]), s[2]), s[3]);
    } else if b >= 0xE0 {
      PushSplits(b - 0xE0, s[1]);
      PushSplits(Push(b - 0xE0, s[1]), s[2]);
    } else if b >= 0x80 {
      PushSplits(b - 0xC0, s[1]);
    }
  }

  /** The shortest of four forms, and how the bits of the code are spread over it. Surrogates have none. */
  lemma CharForm(c: CodePoint)
    ensures var s := EncodeChar(c);
            && |s| == (if c < 0x80 then 1 else if c < 0x800 then 2 else if c < 0x1_0000 then 3 else 4)
            && (|s| == 1 ==> s[0] == c)
            && (|s| == 2 ==> 0xC2 <= s[0] < 0xE0 && c == (s[0] as int - 0xC0) * 64 + (s[1] as int - 0x80))
            && (|s| == 3 ==> 0xE0 <= s[0] < 0xF0
                             && c == ((s[0] as int - 0xE0) * 64 + (s[1] as int - 0x80)) * 64 + (s[2] as int - 0x80))
            && (|s| == 4 ==> 0xF0 <= s[0] < 0xF5
                             && c == (((s[0] as int - 0xF0) * 64 + (s[1] as int - 0x80)) * 64 + (s[2] as int - 0x80)) * 64
                                     + (s[3] as int - 0x80))
            && (forall i :: 0 < i < |s| ==> 0x80 <= s[i] < 0xC0)
    ensures HasUtf8([c]) <==> c < 0xD800 || 0xDFFF < c
  {
    assert c in [c];
    assert c / 64 == c / 64 / 64 * 64 + c / 64 % 64;
    assert c / 64 / 64 == c / 64 / 64 / 64 * 64 + c / 64 / 64 % 64;
  }

  function Encode(t: Text): bytes {
    if t == [] then [] else EncodeChar(t[0]) + Encode(t[1..])
  }

  function Decode(s: bytes): (r: Option<Text>)
    ensures r.Some? ==> HasUtf8(r.value)
  {
    if s == [] then Some([])
    else
      match DecodeChar(s)
      case None => None
      case Some(c) =>
        CharTripBack(s);
        match Decode(s[|EncodeChar(c)|..])
        case None => None
        case Some(rest) => Some([c] + rest)
  }

  lemma CharTrip(c: CodePoint, rest: bytes)
    requires IsScalar(c)
    ensures DecodeChar(EncodeChar(c) + rest) == Some(c)
  {
    var s := EncodeChar(c) + rest;
    if c < 0x80 {
      assert s[0] == c;
    } else if c < 0x800 {
      assert s[0] == 0xC0 + c / 64 && s[1] == 0x80 + c % 64;
    } else if c < 0x1_0000 {
      assert s[0] == 0xE0 + c / 64 / 64 && s[1] == 0x80 + c / 64 % 64 && s[2] == 0x80 + c % 64;
      assert Push(c / 64 / 64, s[1]) == c / 64;
    } else {
      assert s[0] == 0xF0 + c / 64 / 64 / 64 && s[1] == 0x80 + c / 64 / 64 % 64;
      assert s[2] == 0x80 + c / 64 % 64 && s[3] == 0x80 + c % 64;
      assert Push(c / 64 / 64 / 64, s[1]) == c / 64 / 64;
      assert Push(c / 64 / 64, s[2]) == c / 64;
    }
  }

  lemma {:induction false} RoundTrip(t: Text)
    requires HasUtf8(t)
    ensures Decode(Encode(t)) == Some(t)
  {
    if t != [] {
      RoundTrip(t[1..]);
      CharTrip(t[0], Encode(t[1..]));
      assert (EncodeChar(t[0]) + Encode(t[1..]))[|EncodeChar(t[0])|..] == Encode(t[1..]);
      assert [t[0]] + t[1..] == t;
    }
  }

  lemma DecodeUnfolds(s: bytes)
    requires s != [] && Decode(s).Some?
    ensures DecodeChar(s).Some?
    ensures var c := DecodeChar(s).value;
            EncodeChar(c) <= s && Decode(s[|EncodeChar(c)|..]).Some?
            && Decode(s).value == [c] + Decode(s[|EncodeChar(c)|..]).value
  {
    CharTripBack(s);
    hide EncodeChar, DecodeChar;
  }

  lemma PrefixAndRest(e: bytes, s: bytes)
    requires e <= s
    ensures e + s[|e|..] == s
  {
  }

  lemma EncodeOneMore(c: CodePoint, t: Text)
    ensures Encode([c] + t) == EncodeChar(c) + Encode(t)
  {
    assert ([c] + t)[1..] == t;
  }

  /** Accepted bytes are the encoding of what they decode to. */
  lemma {:induction false} RoundTripBack(s: bytes)
    requires Decode(s).Some?
    ensures Encode(Decode(s).value) == s
  {
    if s != [] {
      DecodeUnfolds(s);
      hide *;
      var c := DecodeChar(s).value;
      var n := |EncodeChar(c)|;
      RoundTripBack(s[n..]);
      EncodeOneMore(c, Decode(s[n..]).value);
      PrefixAndRest(EncodeChar(c), s);
    }
  }
}
