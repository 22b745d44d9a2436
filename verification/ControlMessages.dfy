/** Distribution control messages as tuples, and the tuples parsed back. */
module ControlMessages {
  import opened Wrappers
  import opened Terms

  const CTRL_LINK := 1
  const CTRL_SEND := 2
  const CTRL_EXIT := 3
  const CTRL_UNLINK := 4
  const CTRL_REG_SEND := 6
  const CTRL_EXIT2 := 8
  const CTRL_MONITOR_P := 19
  const CTRL_DEMONITOR_P := 20
  const CTRL_MONITOR_P_EXIT := 21

  datatype ControlMessage =
    | LinkMessage(fromPid: Term, toPid: Term)
    | UnlinkMessage(fromPid: Term, toPid: Term)
    | ExitMessage(fromPid: Term, toPid: Term, reason: Term)
    | MonitorMessage(fromPid: Term, toPid: Term, ref: Term)
    | DemonitorMessage(fromPid: Term, toPid: Term, ref: Term)
    | MonitorExitMessage(fromPid: Term, toPid: Term, ref: Term, reason: Term)
    | SendMessage(toPid: Term)
    | RegSendMessage(fromPid: Term, toName: Term)

  /** The empty atom in the unused cookie field, and the empty trace token. */
  const UNUSED := Atom([])
  const NO_TRACE := List([])

  function ToTuple(m: ControlMessage): seq<Term> {
    match m
    case LinkMessage(f, t) => [Int(CTRL_LINK), f, t]
    case UnlinkMessage(f, t) => [Int(CTRL_UNLINK), f, t]
    case ExitMessage(f, t, reason) => [Int(CTRL_EXIT2), f, t, NO_TRACE, reason]
    case MonitorMessage(f, t, ref) => [Int(CTRL_MONITOR_P), f, t, ref]
    case DemonitorMessage(f, t, ref) => [Int(CTRL_DEMONITOR_P), f, t, ref]
    case MonitorExitMessage(f, t, ref, reason) => [Int(CTRL_MONITOR_P_EXIT), f, t, ref, reason]
    case SendMessage(t) => [Int(CTRL_SEND), UNUSED, t]
    case RegSendMessage(f, name) => [Int(CTRL_REG_SEND), f, UNUSED, name]
  }

  datatype ParseError = NoSuchField | NotImplemented

  /** Is the field at `i` there, for a `from_tuple` that reads up to it? */
  predicate Reads(t: seq<Term>, i: nat) {
    i < |t|
  }

  function Parse(t: seq<Term>): Result<ControlMessage, ParseError> {
    if t == [] then Err(NoSuchField)
    else if t[0] == Int(CTRL_LINK) then
      if Reads(t, 2) then Ok(LinkMessage(t[1], t[2])) else Err(NoSuchField)
    else if t[0] == Int(CTRL_UNLINK) then
      if Reads(t, 2) then Ok(UnlinkMessage(t[1], t[2])) else Err(NoSuchField)
    else if t[0] == Int(CTRL_EXIT) || t[0] == Int(CTRL_EXIT2) then
      if |t| == 4 then Ok(ExitMessage(t[1], t[2], t[3]))
      else if Reads(t, 4) then Ok(ExitMessage(t[1], t[2], t[4])) else Err(NoSuchField)
    else if t[0] == Int(CTRL_MONITOR_P) then
      if Reads(t, 3) then Ok(MonitorMessage(t[1], t[2], t[3])) else Err(NoSuchField)
    else if t[0] == Int(CTRL_DEMONITOR_P) then
      if Reads(t, 3) then Ok(DemonitorMessage(t[1], t[2], t[3])) else Err(NoSuchField)
    else if t[0] == Int(CTRL_MONITOR_P_EXIT) then
      if Reads(t, 4) then Ok(MonitorExitMessage(t[1], t[2], t[3], t[4])) else Err(NoSuchField)
    else if t[0] == Int(CTRL_SEND) then
      if Reads(t, 2) then Ok(SendMessage(t[2])) else Err(NoSuchField)
    else if t[0] == Int(CTRL_REG_SEND) then
      if Reads(t, 3) then Ok(RegSendMessage(t[1], t[3])) else Err(NoSuchField)
    else Err(NotImplemented)
  }

  /** The message with every field as it comes back from the wire. */
  function NormControl(m: ControlMessage): ControlMessage {
    match m
    case LinkMessage(f, t) => LinkMessage(Norm(f), Norm(t))
    case UnlinkMessage(f, t) => UnlinkMessage(Norm(f), Norm(t))
    case ExitMessage(f, t, reason) => ExitMessage(Norm(f), Norm(t), Norm(reason))
    case MonitorMessage(f, t, ref) => MonitorMessage(Norm(f), Norm(t), Norm(ref))
    case DemonitorMessage(f, t, ref) => DemonitorMessage(Norm(f), Norm(t), Norm(ref))
    case MonitorExitMessage(f, t, ref, reason) => MonitorExitMessage(Norm(f), Norm(t), Norm(ref), Norm(reason))
    case SendMessage(t) => SendMessage(Norm(t))
    case RegSendMessage(f, name) => RegSendMessage(Norm(f), Norm(name))
  }

  lemma {:induction false} NormAllAt(ts: seq<Term>, i: nat)
    requires i < |ts|
    ensures NormAll(ts)[i] == Norm(ts[i])
  {
    if i > 0 {
      NormAllAt(ts[1..], i - 1);
    }
  }

  /** Parsing what a message's tuple comes back as gives the message, in normal form. */
  lemma ParseTrip(m: ControlMessage)
    ensures Parse(NormAll(ToTuple(m))) == Ok(NormControl(m))
  {
    var t := ToTuple(m);
    forall i | 0 <= i < |t| ensures NormAll(t)[i] == Norm(t[i]) {
      NormAllAt(t, i);
    }
    hide NormAll;
    assert NormAll(t)[0] == Norm(t[0]) == t[0];
    assert NormAll(t)[1] == Norm(t[1]) && NormAll(t)[2] == Norm(t[2]);
    assert |t| > 3 ==> NormAll(t)[3] == Norm(t[3]);
    assert |t| > 4 ==> NormAll(t)[4] == Norm(t[4]);
  }

  /** EXIT and EXIT2 are read alike, with and without a trace token. */
  lemma ExitForms(f: Term, t: Term, token: Term, reason: Term, ctrl: int)
    requires ctrl == CTRL_EXIT || ctrl == CTRL_EXIT2
    ensures Parse([Int(ctrl), f, t, reason]) == Ok(ExitMessage(f, t, reason))
    ensures Parse([Int(ctrl), f, t, token, reason]) == Ok(ExitMessage(f, t, reason))
  {
  }

  /** The operation number and the order of the fields, as written. */
  lemma WrittenAs(f: Term, t: Term, ref: Term, reason: Term)
    ensures ToTuple(LinkMessage(f, t)) == [Int(1), f, t]
    ensures ToTuple(SendMessage(t)) == [Int(2), Atom([]), t]
    ensures ToTuple(UnlinkMessage(f, t)) == [Int(4), f, t]
    ensures ToTuple(RegSendMessage(f, t)) == [Int(6), f, Atom([]), t]
    ensures ToTuple(ExitMessage(f, t, reason)) == [Int(8), f, t, List([]), reason]
    ensures ToTuple(MonitorMessage(f, t, ref)) == [Int(19), f, t, ref]
    ensures ToTuple(DemonitorMessage(f, t, ref)) == [Int(20), f, t, ref]
    ensures ToTuple(MonitorExitMessage(f, t, ref, reason)) == [Int(21), f, t, ref, reason]
  {
    assert |ToTuple(LinkMessage(f, t))| == 3;
  }

  /** And as read, with whatever stands in an unused field, and whatever comes after the last one. */
  lemma ReadAs(op: int, f: Term, t: Term, more: seq<Term>)
    ensures Parse([Int(op), f, t] + more)
            == match op
               case 1 => Ok(LinkMessage(f, t))
               case 2 => Ok(SendMessage(t))
               case 4 => Ok(UnlinkMessage(f, t))
               case 3 => if |more| == 0 then Err(NoSuchField)
                         else Ok(ExitMessage(f, t, more[if |more| == 1 then 0 else 1]))
               case 8 => if |more| == 0 then Err(NoSuchField)
                         else Ok(ExitMessage(f, t, more[if |more| == 1 then 0 else 1]))
               case 6 => if |more| == 0 then Err(NoSuchField) else Ok(RegSendMessage(f, more[0]))
               case 19 => if |more| == 0 then Err(NoSuchField) else Ok(MonitorMessage(f, t, more[0]))
               case 20 => if |more| == 0 then Err(NoSuchField) else Ok(DemonitorMessage(f, t, more[0]))
               case 21 => if |more| < 2 then Err(NoSuchField) else Ok(MonitorExitMessage(f, t, more[0], more[1]))
               case _ => Err(NotImplemented)
  {
    var s := [Int(op), f, t] + more;
    assert s[0] == Int(op) && s[1] == f && s[2] == t;
    assert |more| > 0 ==> s[3] == more[0];
    assert |more| > 1 ==> s[4] == more[1];
  }
}