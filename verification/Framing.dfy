/** Length-prefixed frames on a connection: a header, a control term and, often, a message term. */
module Framing {
  import opened Wrappers
  import opened Bytes
  import opened Terms
  import opened Etf
  import opened EtfRoundTrip
  import opened EtfLaws
  import opened EtfCodec
  import opened ControlMessages
  import EtfForms

  const DIST_HEADER: byte := 68

  function Stripped(s: bytes): bytes {
    if s != [] && s[0] == VERSION then s[1..] else s
  }

  function Packet(control: bytes, payload: bytes): bytes {
    [VERSION, DIST_HEADER, 0] + (Stripped(control) + Stripped(payload))
  }

  function Frame(control: bytes, payload: bytes): bytes
    requires FitsU32(|Packet(control, payload)|)
  {
    U32(|Packet(control, payload)|) + Packet(control, payload)
  }

  datatype Received =
    | Nothing
    | Message(control: Term, payload: Option<Term>)
    | Plain(term: Term)

  /** What one packet is taken for; an exception inside gives nothing. */
  function Opened(packet: bytes): Received {
    if |packet| < 3 then Nothing
    else if packet[0] == VERSION && packet[1] == DIST_HEADER then
      var remaining := packet[3..];
      match DecodeTerm([VERSION] + remaining)
      case Fail(_) => Nothing
      case Got(control, pos) =>
        SplitInRange(remaining);
        var message := remaining[pos - 1..];
        if message == [] then Message(control, None)
        else
          match DecodeTerm([VERSION] + message)
          case Fail(_) => Nothing
          case Got(payload, _) => Message(control, Some(payload))
    else
      match DecodeTerm(if packet[0] != VERSION then [VERSION] + packet else packet)
      case Fail(_) => Nothing
      case Got(t, _) => Plain(t)
  }

  /** The cursor less the version byte put in front is where the control term ended. */
  lemma SplitInRange(remaining: bytes)
    ensures DecodeTerm([VERSION] + remaining).Got? ==> 1 <= DecodeTerm([VERSION] + remaining).used <= 1 + |remaining|
    ensures DecodeTerm([VERSION] + remaining)
            == match Dec(remaining) case Got(t, k) => Got(t, 1 + k) case Fail(e) => Fail(e)
  {
    assert ([VERSION] + remaining)[1..] == remaining;
  }

  /** One `receive` on everything the peer ever sends: the result, and the bytes left. */
  function ReceiveFrom(stream: bytes): (Received, bytes) {
    if |stream| < 4 then (Nothing, [])
    else
      var length := FromU32(stream[..4]);
      if |stream| < 4 + length then (Nothing, [])
      else (Opened(stream[4..4 + length]), stream[4 + length..])
  }

  // ---------- The connection ----------

  class AsyncIOConnection {
    const localNode: Text
    const creation: u32
    var input: bytes
    var output: bytes

    constructor (localNode: Text, creation: u32, input: bytes)
      ensures this.localNode == localNode && this.creation == creation && this.input == input && output == []
    {
      this.localNode, this.creation, this.input, output := localNode, creation, input, [];
    }

    /** The result says whether the frame was written, that is whether its length fits. */
    method SendMessage(control: bytes, payload: bytes) returns (ok: bool)
      modifies this`output
      ensures ok == FitsU32(|Packet(control, payload)|)
      ensures output == if ok then old(output) + Frame(control, payload) else old(output)
    {
      var c, p := control, payload;
      if |c| > 0 && c[0] == 131 {
        c := c[1..];
      }
      if |p| > 0 && p[0] == 131 {
        p := p[1..];
      }
      var packet := [131, 68, 0] + c + p;
      assert packet == Packet(control, payload);
      ok := |packet| < TWO_32;
      if ok {
        output := output + (U32(|packet|) + packet);
      }
    }

    method SendTerms(control: Term, message: Term) returns (ok: bool)
      modifies this`output
      ensures ok == (Encodable(control) && Encodable(message)
                     && FitsU32(|Packet(EncodeTerm(control), EncodeTerm(message))|))
      ensures output == if ok then old(output) + Frame(EncodeTerm(control), EncodeTerm(message)) else old(output)
    {
      var encoder := new ETFEncoder();
      var c := encoder.Encode(control);
      var m := encoder.Encode(message);
      if c.None? || m.None? {
        return false;
      }
      ok := SendMessage(c.value, m.value);
    }

    method SendRegSend(toName: Text, message: Term) returns (ok: bool)
      modifies this`output
      ensures var m := RegSendMessage(PidTerm(Pid(localNode, 0, 0, creation)), Atom(toName));
              && ok == Sendable(Sent(m, Some(message)))
              && output == if ok then old(output) + FrameOf(Sent(m, Some(message))) else old(output)
    {
      var sender := PidTerm(Pid(localNode, 0, 0, creation));
      hide Encodable, Enc, Packet;
      ok := SendTerms(Tuple([Int(CTRL_REG_SEND), sender, UNUSED, Atom(toName)]), message);
    }

    method SendToPid(toPid: Pid, message: Term) returns (ok: bool)
      modifies this`output
      ensures var m := ControlMessages.SendMessage(PidTerm(toPid));
              && ok == Sendable(Sent(m, Some(message)))
              && output == if ok then old(output) + FrameOf(Sent(m, Some(message))) else old(output)
    {
      hide Encodable, Enc, Packet;
      ok := SendTerms(Tuple([Int(CTRL_SEND), UNUSED, PidTerm(toPid)]), message);
    }

    method Receive() returns (r: Received)
      modifies this`input
      ensures (r, input) == ReceiveFrom(old(input))
    {
      if |input| < 4 {
        input := [];
        return Nothing;
      }
      var length := FromU32(input[..4]);
      input := input[4..];
      if |input| < length {
        input := [];
        return Nothing;
      }
      var packet := input[..length];
      assert packet == old(input)[4..4 + length];
      input := input[length..];
      r := Open(packet);
    }

    method Open(packet: bytes) returns (r: Received)
      ensures r == Opened(packet)
    {
      hide Dec;
      if |packet| < 3 {
        return Nothing;
      }
      if packet[0] == 131 && packet[1] == 68 {
        var remaining := packet[3..];
        var decoder1 := new ETFDecoder([131] + remaining);
        assert decoder1.data[0..] == [VERSION] + remaining;
        SplitInRange(remaining);
        var control := decoder1.Decode();
        if control.Err? {
          return Nothing;
        }
        var message := remaining[decoder1.pos - 1..];
        if |message| == 0 {
          return Message(control.value, None);
        }
        var decoder2 := new ETFDecoder([131] + message);
        assert decoder2.data[0..] == [VERSION] + message;
        var payload := decoder2.Decode();
        return if payload.Ok? then Message(control.value, Some(payload.value)) else Nothing;
      }
      var data := if packet[0] != 131 then [131] + packet else packet;
      var decoder := new ETFDecoder(data);
      assert decoder.data[0..] == data;
      var t := decoder.Decode();
      r := if t.Ok? then Plain(t.value) else Nothing;
    }
  }

  // ---------- Streams ----------

  /** A control message to send, with the message it carries if there is one. */
  datatype Sent = Sent(control: ControlMessage, payload: Option<Term>)

  function ControlTerm(m: Sent): Term {
    Tuple(ToTuple(m.control))
  }

  function PayloadBytes(m: Sent): bytes
    requires m.payload.Some? ==> Encodable(m.payload.value)
  {
    match m.payload
    case None => []
    case Some(t) => EncodeTerm(t)
  }

  predicate Sendable(m: Sent) {
    && Encodable(ControlTerm(m))
    && (m.payload.Some? ==> Encodable(m.payload.value))
    && FitsU32(|Packet(EncodeTerm(ControlTerm(m)), PayloadBytes(m))|)
  }

  predicate Faithful(m: Sent) {
    WellFormed(ControlTerm(m)) && (m.payload.Some? ==> WellFormed(m.payload.value))
  }

  function FrameOf(m: Sent): bytes
    requires Sendable(m)
  {
    Frame(EncodeTerm(ControlTerm(m)), PayloadBytes(m))
  }

  function Stream(ms: seq<Sent>): bytes
    requires forall m :: m in ms ==> Sendable(m)
  {
    if ms == [] then [] else FrameOf(ms[0]) + Stream(ms[1..])
  }

  function ReceiveMany(stream: bytes, n: nat): (seq<Received>, bytes)
    decreases n
  {
    if n == 0 then ([], stream)
    else
      var (r, rest) := ReceiveFrom(stream);
      var (rs, last) := ReceiveMany(rest, n - 1);
      ([r] + rs, last)
  }

  /** Received as sent, up to `Norm`, and parsed back to the control message. */
  ghost predicate Arrives(m: Sent, r: Received) {
    && r.Message? && r.control.Tuple?
    && Parse(r.control.items) == Ok(NormControl(m.control))
    && r.payload == match m.payload case None => None case Some(t) => Some(Norm(t))
  }

  lemma PacketOpens(m: Sent)
    requires Sendable(m) && Faithful(m)
    ensures Arrives(m, Opened(Packet(EncodeTerm(ControlTerm(m)), PayloadBytes(m))))
  {
    var c := Enc(ControlTerm(m));
    var p := if m.payload.Some? then Enc(m.payload.value) else [];
    var packet := Packet(EncodeTerm(ControlTerm(m)), PayloadBytes(m));
    assert packet == [VERSION, DIST_HEADER, 0] + (c + p);
    assert packet[3..] == c + p && (c + p)[|c|..] == p;
    RoundTrip(ControlTerm(m), p);
    SplitInRange(c + p);
    ParseTrip(m.control);
    if m.payload.Some? {
      RoundTrip(m.payload.value, []);
      assert p + [] == p;
      SplitInRange(p);
    }
  }

  lemma FrameIsReceived(m: Sent, rest: bytes)
    requires Sendable(m)
    ensures ReceiveFrom(FrameOf(m) + rest) == (Opened(Packet(EncodeTerm(ControlTerm(m)), PayloadBytes(m))), rest)
  {
    var packet := Packet(EncodeTerm(ControlTerm(m)), PayloadBytes(m));
    var stream := FrameOf(m) + rest;
    U32Trip(|packet|);
    assert stream[..4] == U32(|packet|) && stream[4..4 + |packet|] == packet && stream[4 + |packet|..] == rest;
  }

  lemma FrameComesFirst(m: Sent, more: bytes, n: nat)
    requires Sendable(m) && Faithful(m)
    ensures var (rs, last), (r, rest) := ReceiveMany(FrameOf(m) + more, n + 1), ReceiveMany(more, n);
            |rs| == |r| + 1 && Arrives(m, rs[0]) && rs[1..] == r && last == rest
  {
    hide Arrives, Sendable, Faithful, Opened, FrameOf, ReceiveFrom;
    FrameIsReceived(m, more);
    PacketOpens(m);
  }

  lemma AllArrive(ms: seq<Sent>, rs: seq<Received>)
    requires ms != [] && |rs| == |ms| && Arrives(ms[0], rs[0])
    requires forall i :: 0 <= i < |ms[1..]| ==> Arrives(ms[1..][i], rs[1..][i])
    ensures forall i :: 0 <= i < |ms| ==> Arrives(ms[i], rs[i])
  {
    hide Arrives;
    forall i | 0 < i < |ms| ensures Arrives(ms[i], rs[i]) {
      assert ms[i] == ms[1..][i - 1] && rs[i] == rs[1..][i - 1];
    }
  }

  lemma StreamUnfolds(ms: seq<Sent>, rest: bytes)
    requires ms != [] && forall m :: m in ms ==> Sendable(m)
    ensures Stream(ms) + rest == FrameOf(ms[0]) + (Stream(ms[1..]) + rest)
  {
    hide FrameOf, Sendable;
  }

  /** Any sequence of messages comes through the frames in order, each parsed back, with the rest untouched. */
  lemma {:induction false} StreamRoundTrip(ms: seq<Sent>, rest: bytes)
    requires forall m :: m in ms ==> Sendable(m) && Faithful(m)
    ensures ReceiveMany(Stream(ms) + rest, |ms|).1 == rest
    ensures |ReceiveMany(Stream(ms) + rest, |ms|).0| == |ms|
    ensures forall i :: 0 <= i < |ms| ==> Arrives(ms[i], ReceiveMany(Stream(ms) + rest, |ms|).0[i])
  {
    if ms == [] {
      assert [] + rest == rest;
    } else {
      hide *;
      StreamUnfolds(ms, rest);
      StreamRoundTrip(ms[1..], rest);
      FrameComesFirst(ms[0], Stream(ms[1..]) + rest, |ms| - 1);
      AllArrive(ms, ReceiveMany(Stream(ms) + rest, |ms|).0);
    }
  }

  /** A caller may hand over encodings with or without the version byte: the frame is the same. */
  lemma VersionByteIsOptional(c: Term, p: Term)
    requires Encodable(c) && Encodable(p)
    ensures Packet(Enc(c), Enc(p)) == Packet(EncodeTerm(c), EncodeTerm(p))
  {
    NoTermStartsWithVersion(c);
    NoTermStartsWithVersion(p);
  }

  lemma NoVersion(s: bytes)
    requires s == [] || s[0] != 131
    ensures Stripped(s) == s && Stripped([131] + s) == s
  {
    assert ([131] + s)[1..] == s;
  }

  /** A frame is its length in four bytes, the three header bytes, and both terms without their version bytes. */
  lemma FrameBytes(c: bytes, p: bytes, l0: byte, l1: byte, l2: byte, l3: byte)
    requires (c == [] || c[0] != 131) && (p == [] || p[0] != 131)
    requires 3 + |c| + |p| == l0 * 0x100_0000 + l1 * 0x1_0000 + l2 * 0x100 + l3
    ensures FitsU32(|Packet(c, p)|) && FitsU32(|Packet([131] + c, [131] + p)|)
    ensures Frame(c, p) == [l0, l1, l2, l3, 131, 68, 0] + c + p
    ensures Frame([131] + c, [131] + p) == Frame(c, p)
  {
    NoVersion(c);
    NoVersion(p);
    WordIs(|Packet(c, p)|, l0, l1, l2, l3);
    assert [l0, l1, l2, l3] + ([131, 68, 0] + (c + p)) == [l0, l1, l2, l3, 131, 68, 0] + c + p;
  }

  lemma WordIs(n: int, a: byte, b: byte, c: byte, d: byte)
    requires n == a * 0x100_0000 + b * 0x1_0000 + c * 0x100 + d
    ensures FitsU32(n) && U32(n) == [a, b, c, d]
  {
    assert n / TWO_16 == a * 256 + b && n % TWO_16 == c * 256 + d;
  }

  /** What comes in is cut by that length; too little gives nothing. */
  lemma FrameIsCut(l0: byte, l1: byte, l2: byte, l3: byte, s: bytes)
    ensures var n := l0 * 0x100_0000 + l1 * 0x1_0000 + l2 * 0x100 + l3;
            ReceiveFrom([l0, l1, l2, l3] + s) == if n <= |s| then (Opened(s[..n]), s[n..]) else (Nothing, [])
    ensures |s| < 4 ==> ReceiveFrom(s) == (Nothing, [])
  {
    var stream := [l0, l1, l2, l3] + s;
    EtfForms.FieldsAreBigEndian(l0, l1, l2, l3, s);
    var n := FromU32(stream[..4]);
    if n <= |s| {
      assert stream[4..4 + n] == s[..n] && stream[4 + n..] == s[n..];
    }
  }

  /** A packet without the header bytes is one plain term, with or without its version byte. */
  lemma PlainOpens(tag: byte, body: bytes)
    requires tag != 131 && |body| >= 2
    ensures var r := match Dec([tag] + body)
                     case Got(t, _) => Plain(t)
                     case Fail(_) => Nothing;
            && Opened([tag] + body) == r
            && (tag != 68 ==> Opened([131, tag] + body) == r)
  {
    var packet := [tag] + body;
    SplitInRange(packet);
    assert [131, tag] + body == [131] + packet;
  }
}