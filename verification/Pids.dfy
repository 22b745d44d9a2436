/** Process identifiers: the allocator with its two wrapping counters, and the stand-alone codec. */
module Pids {
  import opened Wrappers
  import opened Bytes
  import opened Terms
  import opened Etf
  import opened EtfRoundTrip
  import Utf8

  // ---------- Allocation ----------

  const MAX_ID := 0x7FFF_FFFF
  const MAX_SERIAL := 0xFFFF_FFFF

  /** The pid of the n-th allocation, counted from 0. */
  function NthPid(node: Text, creation: u32, n: nat): Pid {
    Pid(node, n % MAX_ID + 1, n / MAX_ID % (MAX_SERIAL + 1), creation)
  }

  const CYCLE := MAX_ID * (MAX_SERIAL + 1)

  lemma CycleSplits(n: nat)
    ensures n % CYCLE == n / MAX_ID % (MAX_SERIAL + 1) * MAX_ID + n % MAX_ID
  {
    var q, r := n / MAX_ID, n % MAX_ID;
    var a, b := q / (MAX_SERIAL + 1), q % (MAX_SERIAL + 1);
    assert n == a * CYCLE + (b * MAX_ID + r);
    assert 0 <= b * MAX_ID + r < CYCLE;
  }

  /** Two allocations give the same pid just when they are a whole number of cycles apart. */
  lemma PidsRepeatIff(node: Text, creation: u32, n: nat, m: nat)
    ensures NthPid(node, creation, n) == NthPid(node, creation, m) <==> n % CYCLE == m % CYCLE
  {
    CycleSplits(n);
    CycleSplits(m);
  }

  /** Any CYCLE consecutive allocations are distinct. */
  lemma PidsAreDistinct(node: Text, creation: u32, n: nat, m: nat)
    requires n < m < n + CYCLE
    ensures NthPid(node, creation, n) != NthPid(node, creation, m)
  {
    PidsRepeatIff(node, creation, n, m);
    var q := m / CYCLE - n / CYCLE;
    assert m - n == q * CYCLE + (m % CYCLE - n % CYCLE);
  }

  function IdOf(n: nat): int {
    n % MAX_ID + 1
  }

  function SerialOf(n: nat): int {
    n / MAX_ID % (MAX_SERIAL + 1)
  }

  function WrapsOf(n: nat): nat {
    n / MAX_ID
  }

  lemma OneMoreId(n: nat)
    ensures (n + 1) % MAX_ID == (if n % MAX_ID + 1 == MAX_ID then 0 else n % MAX_ID + 1)
    ensures (n + 1) / MAX_ID == n / MAX_ID + (if n % MAX_ID + 1 == MAX_ID then 1 else 0)
  {
  }

  lemma OneMoreSerial(q: nat)
    ensures (q + 1) % (MAX_SERIAL + 1) == (if q % (MAX_SERIAL + 1) == MAX_SERIAL then 0 else q % (MAX_SERIAL + 1) + 1)
  {
  }

  /** One more allocation, in terms of the two levels of the counter. */
  lemma CountsUp(n: nat)
    ensures IdOf(n + 1) == if IdOf(n) + 1 > MAX_ID then 1 else IdOf(n) + 1
    ensures WrapsOf(n + 1) == if IdOf(n) + 1 > MAX_ID then WrapsOf(n) + 1 else WrapsOf(n)
    ensures SerialOf(n + 1) == if IdOf(n) + 1 <= MAX_ID then SerialOf(n)
                               else if SerialOf(n) + 1 > MAX_SERIAL then 0 else SerialOf(n) + 1
  {
    OneMoreId(n);
    OneMoreSerial(n / MAX_ID);
  }

  lemma FirstPid(node: Text, creation: u32)
    ensures NthPid(node, creation, 0) == Pid(node, 1, 0, creation)
  {
    assert 0 % MAX_ID == 0 && 0 / MAX_ID == 0;
  }

  /** Ids run from 1 to MAX_ID; then the serial goes on by one, and from MAX_SERIAL back to 0. */
  lemma NextPid(node: Text, creation: u32, n: nat)
    ensures var p := NthPid(node, creation, n);
            && p.node == node && p.creation == creation && 1 <= p.id <= 0x7FFF_FFFF && 0 <= p.serial <= 0xFFFF_FFFF
            && NthPid(node, creation, n + 1)
               == if p.id < 0x7FFF_FFFF then p.(id := p.id + 1)
                  else if p.serial < 0xFFFF_FFFF then p.(id := 1, serial := p.serial + 1)
                  else p.(id := 1, serial := 0)
  {
    OneMoreId(n);
    OneMoreSerial(n / MAX_ID);
  }

  class PidAllocator {
    const node: Text
    const creation: u32
    var nextId: int
    var nextSerial: int
    var allocatedCount: nat
    var wrapCount: nat

    constructor (node: Text, creation: u32)
      ensures this.node == node && this.creation == creation && Valid() && allocatedCount == 0 && wrapCount == 0
    {
      this.node, this.creation := node, creation;
      nextId, nextSerial, allocatedCount, wrapCount := 1, 0, 0, 0;
    }

    ghost predicate Valid()
      reads this
    {
      && nextId == IdOf(allocatedCount) && nextSerial == SerialOf(allocatedCount) && wrapCount == WrapsOf(allocatedCount)
    }

    method Allocate() returns (pid: Pid)
      requires Valid()
      modifies this
      ensures Valid() && allocatedCount == old(allocatedCount) + 1
      ensures pid == NthPid(node, creation, old(allocatedCount))
      ensures wrapCount == old(wrapCount) + if pid.id == 0x7FFF_FFFF then 1 else 0
    {
      pid := Pid(node, nextId, nextSerial, creation);
      assert pid == NthPid(node, creation, allocatedCount);
      assert 1 <= nextId <= MAX_ID;
      CountsUp(allocatedCount);
      hide IdOf, SerialOf, WrapsOf, NthPid;
      nextId := nextId + 1;
      if nextId > MAX_ID {
        nextId := 1;
        nextSerial := nextSerial + 1;
        wrapCount := wrapCount + 1;
        if nextSerial > MAX_SERIAL {
          nextSerial := 0;
        }
      }
      allocatedCount := allocatedCount + 1;
    }
  }

  // ---------- encode_pid ----------

  /** The older form keeps one byte of the creation. */
  function EncOldPid(pid: Pid): bytes
    requires NameFits(pid.node)
  {
    [PID_EXT] + (EncAtom(pid.node) + (U32(pid.id) + (U32(pid.serial) + [pid.creation % 256])))
  }

  method EncodePid(pid: Pid, newFormat: bool) returns (r: Option<bytes>)
    ensures r == if !NameFits(pid.node) then None else Some(if newFormat then Enc(PidTerm(pid)) else EncOldPid(pid))
  {
    if !NameFits(pid.node) {
      return None;
    }
    var buffer: bytes := [if newFormat then NEW_PID_EXT else PID_EXT];
    buffer := buffer + EncAtom(pid.node);
    buffer := buffer + U32(pid.id);
    buffer := buffer + U32(pid.serial);
    buffer := buffer + if newFormat then U32(pid.creation) else [pid.creation % 256];
    r := Some(buffer);
    Regroup([if newFormat then NEW_PID_EXT else PID_EXT], EncAtom(pid.node), U32(pid.id), U32(pid.serial),
            if newFormat then U32(pid.creation) else [pid.creation % 256]);
    hide EncAtom, U32;
  }

  lemma Regroup(a: bytes, b: bytes, c: bytes, d: bytes, e: bytes)
    ensures a + b + c + d + e == a + (b + (c + (d + e)))
  {
  }

  lemma OldPidReadsBack(pid: Pid, rest: bytes)
    requires NameFits(pid.node)
    ensures ReadsBack(EncOldPid(pid), EncOldPid(pid) + rest, PidTerm(pid.(creation := pid.creation % 256)))
  {
    var node := EncAtom(pid.node);
    var c: byte := pid.creation % 256;
    var body := node + (U32(pid.id) + (U32(pid.serial) + [c]));
    var s := body + rest;
    var s1 := U32(pid.id) + (U32(pid.serial) + ([c] + rest));
    assert s == node + s1;
    AtomReadsBack(pid.node, s1);
    assert s[|node|..] == s1;
    ReadsU32(pid.id, U32(pid.serial) + ([c] + rest));
    assert s[|node| + 4..] == s1[4..];
    ReadsU32(pid.serial, [c] + rest);
    assert s[|node| + 8..] == s1[4..][4..];
    assert ReadCreation(false, [c] + rest) == Got(c, 1);
    FlatReadsBack(PID_EXT, body, rest, PidTerm(pid.(creation := c)));
  }

  // ---------- decode_atom and decode_pid ----------

  /** What the term decoder makes of a pid at `pos`, and where it then stands. */
  function PidAt(data: bytes, pos: nat): Option<(Pid, nat)> {
    if pos < |data| && data[pos] in {PID_EXT, NEW_PID_EXT} then
      match Dec(data[pos..])
      case Got(PidTerm(pid), n) => Some((pid, pos + n))
      case _ => None
    else None
  }

  lemma PidInPlace(pid: Pid, before: bytes, e: bytes, after: bytes)
    requires e != [] && e[0] in {PID_EXT, NEW_PID_EXT} && Dec(e + after) == Got(PidTerm(pid), |e|)
    ensures PidAt(before + e + after, |before|) == Some((pid, |before + e|))
  {
    hide Dec;
    var data := before + e + after;
    assert data[|before|..] == e + after && data[|before|] == e[0];
  }

  /** Each form decodes back at any offset, the older one up to the creation modulo 256. */
  lemma PidRoundTrip(pid: Pid, before: bytes, after: bytes)
    requires NameFits(pid.node)
    ensures var e := Enc(PidTerm(pid)); PidAt(before + e + after, |before|) == Some((pid, |before + e|))
    ensures var e := EncOldPid(pid);
            PidAt(before + e + after, |before|) == Some((pid.(creation := pid.creation % 256), |before + e|))
  {
    PidReadsBack(pid, after);
    OldPidReadsBack(pid, after);
    var e, f := EncPid(pid), EncOldPid(pid);
    assert Enc(PidTerm(pid)) == e && e[0] == NEW_PID_EXT && f[0] == PID_EXT;
    hide EncPid, EncOldPid, PidAt, Dec, Enc;
    PidInPlace(pid, before, e, after);
    PidInPlace(pid.(creation := pid.creation % 256), before, f, after);
  }

  /** Python's `data[from:to]`, which stops at the end of the data. */
  function Slice(data: bytes, from: nat, to: nat): bytes {
    if from >= |data| || to <= from then [] else if to > |data| then data[from..] else data[from..to]
  }

  predicate AtomAt(data: bytes, pos: nat) {
    pos < |data| && Dec(data[pos..]).Got? && Dec(data[pos..]).value.Atom?
  }

  lemma AtomTags(s: bytes)
    requires s != []
    ensures s[0] in {ATOM_EXT, ATOM_UTF8_EXT, SMALL_ATOM_UTF8_EXT} ==>
              match ReadName(s[0], s[1..])
              case Got(name, k) => Dec(s) == Got(Atom(name), 1 + k)
              case Fail(e) => Dec(s).Fail?
    ensures s[0] !in {ATOM_EXT, ATOM_UTF8_EXT, SMALL_ATOM_UTF8_EXT} ==> !(Dec(s).Got? && Dec(s).value.Atom?)
  {
    DecUnfolds(s);
    if s[0] in {ATOM_EXT, ATOM_UTF8_EXT, SMALL_ATOM_UTF8_EXT} {
      BodyIsName(s[0], s[1..]);
    }
    BodyIsNoAtom(s[0], s[1..]);
    hide Dec, DecBody, ReadName;
  }

  lemma DecUnfolds(s: bytes)
    requires s != []
    ensures Dec(s) == match DecBody(s[0], s[1..]) case Got(t, n) => Got(t, 1 + n) case Fail(e) => Fail(e)
  {
    hide DecBody;
  }

  lemma BodyIsName(tag: byte, s: bytes)
    requires tag in {ATOM_EXT, ATOM_UTF8_EXT, SMALL_ATOM_UTF8_EXT}
    ensures DecBody(tag, s) == match ReadName(tag, s) case Got(name, n) => Got(Atom(name), n) case Fail(e) => Fail(e)
  {
    hide ReadName, Dec, DecMany, DecPairs, DecPid, DecRef, DecPort;
  }

  lemma BodyIsNoAtom(tag: byte, s: bytes)
    ensures tag !in {ATOM_EXT, ATOM_UTF8_EXT, SMALL_ATOM_UTF8_EXT} ==>
              !(DecBody(tag, s).Got? && DecBody(tag, s).value.Atom?)
  {
    hide Dec, DecMany, DecPairs;
  }

  /** `decode_atom` does not notice a name that runs past the end: the position returned then does. */
  method DecodeAtom(data: bytes, pos: nat) returns (r: Option<(Text, nat)>)
    ensures match r
            case None => !AtomAt(data, pos)
            case Some((name, next)) =>
              if next <= |data| then pos < next && Dec(data[pos..]) == Got(Atom(name), next - pos) else !AtomAt(data, pos)
  {
    if pos >= |data| {
      return None;
    }
    var tag := data[pos];
    AtomTags(data[pos..]);
    assert data[pos..][1..] == data[pos + 1..];
    hide Dec;
    var length: nat, start: nat := 0, 0;
    if tag == ATOM_EXT || tag == ATOM_UTF8_EXT {
      var head := Slice(data, pos + 1, pos + 3);
      if |head| != 2 {
        return None;
      }
      assert data[pos + 1..][..2] == head;
      assert data[pos + 1..][2..] == data[pos + 3..];
      length, start := FromU16(head), pos + 3;
    } else if tag == SMALL_ATOM_UTF8_EXT {
      if pos + 1 >= |data| {
        return None;
      }
      assert data[pos + 1..][1..] == data[pos + 2..];
      length, start := data[pos + 1], pos + 2;
    } else {
      return None;
    }
    var text := Slice(data, start, start + length);
    if start + length <= |data| {
      assert text == data[start..start + length] == data[start..][..length];
    }
    if tag == ATOM_EXT {
      return Some((text, start + length));
    }
    match Utf8.Decode(text)
    case None => r := None;
    case Some(name) => r := Some((name, start + length));
  }

  /** The fields of a pid are at fixed places after its node. */
  lemma PidUnfolds(data: bytes, pos: nat)
    requires pos < |data| && data[pos] in {PID_EXT, NEW_PID_EXT}
    ensures PidAt(data, pos)
            == if !AtomAt(data, pos + 1) then None
               else PidFields(data, pos + 1 + Dec(data[pos + 1..]).used, data[pos] == NEW_PID_EXT, Dec(data[pos + 1..]).value.name)
  {
    var s := data[pos..];
    var rest := data[pos + 1..];
    assert s[1..] == rest;
    PidBody(s);
    FieldsOfPid(data, pos + 1, data[pos] == NEW_PID_EXT);
    hide Dec, DecPid, PidFields;
  }

  /** The same seen from the bytes after the tag. */
  lemma FieldsOfPid(data: bytes, at: nat, wide: bool)
    requires at <= |data|
    ensures match DecPid(wide, data[at..])
            case Got(PidTerm(pid), n) =>
              AtomAt(data, at)
              && PidFields(data, at + Dec(data[at..]).used, wide, Dec(data[at..]).value.name) == Some((pid, at + n))
            case Got(_, _) => false
            case Fail(_) =>
              AtomAt(data, at) ==> PidFields(data, at + Dec(data[at..]).used, wide, Dec(data[at..]).value.name) == None
  {
    hide Dec;
    var s := data[at..];
    var d := Dec(s);
    if d.Got? {
      var p := at + d.used;
      assert s[d.used..] == data[p..];
      assert p + 4 <= |data| ==> s[d.used + 4..] == data[p + 4..];
      assert p + 8 <= |data| ==> s[d.used + 8..] == data[p + 8..];
      hide ReadU32, FromU32;
      FieldAt(data, p);
      FieldAt(data, p + 4);
      FieldAt(data, p + 8);
    }
  }

  lemma PidBody(s: bytes)
    requires s != [] && s[0] in {PID_EXT, NEW_PID_EXT}
    ensures Dec(s) == match DecPid(s[0] == NEW_PID_EXT, s[1..]) case Got(t, n) => Got(t, 1 + n) case Fail(e) => Fail(e)
  {
    hide DecPid;
  }

  lemma FieldAt(data: bytes, p: nat)
    ensures p + 4 <= |data| ==> ReadU32(data[p..]) == Got(FromU32(data[p..p + 4]), 4)
    ensures p <= |data| < p + 4 ==> ReadU32(data[p..]).Fail?
  {
    if p + 4 <= |data| {
      assert data[p..][..4] == data[p..p + 4];
    }
  }

  function PidFields(data: bytes, p: nat, wide: bool, name: Text): Option<(Pid, nat)> {
    var size := if wide then 12 else 9;
    if p + size > |data| then None
    else
      var creation := if wide then FromU32(data[p + 8..p + 12]) else data[p + 8];
      Some((Pid(name, FromU32(data[p..p + 4]), FromU32(data[p + 4..p + 8]), creation), p + size))
  }

  method DecodePid(data: bytes, pos: nat) returns (r: Option<(Pid, nat)>)
    ensures r == PidAt(data, pos)
  {
    if pos >= |data| {
      return None;
    }
    var tag := data[pos];
    if tag != NEW_PID_EXT && tag != PID_EXT {
      return None;
    }
    var wide := tag == NEW_PID_EXT;
    PidUnfolds(data, pos);
    hide Dec, PidAt;
    var node := DecodeAtom(data, pos + 1);
    if node.None? {
      return None;
    }
    var p := node.value.1;
    if p + (if wide then 12 else 9) > |data| {
      return None;
    }
    var id := FromU32(data[p..p + 4]);
    var serial := FromU32(data[p + 4..p + 8]);
    var creation := if wide then FromU32(data[p + 8..p + 12]) else data[p + 8];
    r := Some((Pid(node.value.0, id, serial, creation), p + if wide then 12 else 9));
  }
}
