/** The gen_statem loop: events, actions, postponement and the state timeout. */
module GenStatem {
  import opened Wrappers

  datatype EventType = Call | Cast | Info | Timeout | Internal | StateTimeout

  type Value = int

  datatype From = From(replyTo: nat, callId: nat)

  datatype Event = Event(kind: EventType, content: Value, from: Option<From>)

  datatype Message =
    | CallMessage(replyTo: nat, payload: Value, callId: nat)
    | CastMessage(payload: Value)
    | TimeoutMessage(content: Value)
    | PostponedEvent(event: Event)
    | InternalEvent(kind: EventType, content: Value)
    | OtherMessage(content: Value)

  function MessageToEvent(m: Message): Event {
    match m
    case CallMessage(replyTo, payload, callId) => Event(Call, payload, Some(From(replyTo, callId)))
    case CastMessage(payload) => Event(Cast, payload, None)
    case TimeoutMessage(content) => Event(StateTimeout, content, None)
    case PostponedEvent(event) => event
    case InternalEvent(kind, content) => Event(kind, content, None)
    case OtherMessage(content) => Event(Info, content, None)
  }

  datatype Action =
    | ReplyAction(to: Option<From>, reply: Value)
    | StateTimeoutAction(content: Value)
    | PostponeAction
    | NextEventAction(kind: EventType, content: Value)
    | UnknownAction

  /** What the state callback returns; it may also raise, or return something else. */
  datatype Result =
    | NextState(name: Value, data: Value, actions: seq<Action>)
    | KeepState(data: Value, actions: seq<Action>)
    | RepeatState(data: Value, actions: seq<Action>)
    | StopState
    | BadReturn
    | Raised

  predicate Goes(r: Result) {
    r.NextState? || r.KeepState? || r.RepeatState?
  }

  predicate Changes(r: Result) {
    r.NextState? || r.RepeatState?
  }

  /** `live` are this machine's timers that have neither fired nor been cancelled; `flying` are those that have fired,
      whose message a task of its own has still to send. The last three fields are the history: events that arrived from
      outside, events inserted by actions, and events handled for good. */
  datatype Machine = Machine(
    mailbox: seq<Message>,
    postponed: seq<Event>,
    timer: Option<nat>,
    live: map<nat, Value>,
    flying: map<nat, Value>,
    refs: nat,
    name: Value,
    data: Value,
    running: bool,
    replies: seq<(From, Value)>,
    arrived: seq<Event>,
    inserted: seq<Event>,
    consumed: seq<Event>)

  function Cancelled(m: Machine): Machine {
    if m.timer.Some? then m.(live := m.live - {m.timer.value}, timer := None) else m
  }

  /** An old timeout is cancelled before the new one is scheduled, under a reference never used before. */
  function Scheduled(m: Machine, content: Value): Machine {
    var c := Cancelled(m);
    c.(live := c.live[c.refs := content], timer := Some(c.refs), refs := c.refs + 1)
  }

  /** The loop over the actions: the machine, the caller bound to the event, and whether to postpone it. */
  datatype Doing = Doing(m: Machine, from: Option<From>, postpone: bool, ok: bool)

  /** A reply binds the event's caller anew; one without a caller raises. */
  function Act(d: Doing, a: Action): Doing {
    match a
    case ReplyAction(to, reply) =>
      if to.None? then d.(from := None, ok := false)
      else d.(from := to, m := d.m.(replies := d.m.replies + [(to.value, reply)]))
    case StateTimeoutAction(content) => d.(m := Scheduled(d.m, content))
    case PostponeAction => d.(postpone := true)
    case NextEventAction(kind, content) =>
      d.(m := d.m.(mailbox := d.m.mailbox + [InternalEvent(kind, content)],
                   inserted := d.m.inserted + [Event(kind, content, None)]))
    case UnknownAction => d
  }

  function ActAll(d: Doing, actions: seq<Action>): Doing
    decreases |actions|
  {
    if actions == [] || !d.ok then d else ActAll(Act(d, actions[0]), actions[1..])
  }

  function Replays(es: seq<Event>): seq<Message> {
    seq(|es|, i requires 0 <= i < |es| => PostponedEvent(es[i]))
  }

  function Entered(m: Machine, r: Result): Machine
    requires Goes(r)
  {
    match r
    case NextState(name, data, _) => m.(name := name, data := data)
    case _ => m.(data := r.data)
  }

  /** The end of an event: `now` is what has to wait, and a change of state sends all that waits again. */
  function Settled(m: Machine, changed: bool, now: seq<Event>): Machine {
    var waiting := m.postponed + now;
    if changed then m.(mailbox := m.mailbox + Replays(waiting), postponed := []) else m.(postponed := waiting)
  }

  /** The next event taken, the new state entered and the old timeout cancelled, all the actions done. */
  function Acted(m: Machine, r: Result): Doing
    requires m.mailbox != [] && Goes(r)
  {
    var m1 := Entered(m.(mailbox := m.mailbox[1..]), r);
    ActAll(Doing(if Changes(r) then Cancelled(m1) else m1, MessageToEvent(m.mailbox[0]).from, false, true), r.actions)
  }

  function HandledNext(m: Machine, r: Result): Machine
    requires m.running && m.mailbox != []
  {
    var e := MessageToEvent(m.mailbox[0]);
    if !Goes(r) then m.(mailbox := m.mailbox[1..], running := false, consumed := m.consumed + [e])
    else
      var d := Acted(m, r);
      if !d.ok then d.m.(running := false, consumed := d.m.consumed + [e])
      else if d.postpone then Settled(d.m, Changes(r), [e.(from := d.from)])
      else Settled(d.m.(consumed := d.m.consumed + [e]), Changes(r), [])
  }

  datatype Step = Arrive(message: Message) | Fire(ref: nat) | Land(ref: nat) | Handle(result: Result)

  predicate Enabled(m: Machine, step: Step) {
    match step
    case Arrive(_) => true
    case Fire(ref) => ref in m.live
    case Land(ref) => ref in m.flying
    case Handle(_) => m.running && m.mailbox != []
  }

  function Delivered(m: Machine, message: Message): Machine {
    m.(mailbox := m.mailbox + [message], arrived := m.arrived + [MessageToEvent(message)])
  }

  function Apply(m: Machine, step: Step): Machine
    requires Enabled(m, step)
  {
    match step
    case Arrive(message) => Delivered(m, message)
    case Fire(ref) => m.(live := m.live - {ref}, flying := m.flying[ref := m.live[ref]])
    case Land(ref) => Delivered(m.(flying := m.flying - {ref}), TimeoutMessage(m.flying[ref]))
    case Handle(result) => HandledNext(m, result)
  }

  /** The initial actions: only state timeouts count. */
  function Begun(actions: seq<Action>, m: Machine): Machine {
    if actions == [] then m
    else Begun(actions[1..], if actions[0].StateTimeoutAction? then Scheduled(m, actions[0].content) else m)
  }

  function Blank(name: Value, data: Value): Machine {
    Machine([], [], None, map[], map[], 0, name, data, true, [], [], [], [])
  }

  function Initial(name: Value, data: Value, actions: seq<Action>): Machine {
    Begun(actions, Blank(name, data))
  }

  ghost predicate Runs(m: Machine, steps: seq<Step>, t: Machine)
    decreases |steps|
  {
    if steps == [] then t == m else Enabled(m, steps[0]) && Runs(Apply(m, steps[0]), steps[1..], t)
  }

  // ---------- Conservation ----------

  /** An event, with or without its caller. */
  function View(e: Event, caller: bool): Event {
    if caller then e else e.(from := None)
  }

  /** How often `x` occurs among the views of `es`. */
  function Times(es: seq<Event>, x: Event, caller: bool): nat {
    if es == [] then 0 else Times(es[..|es| - 1], x, caller) + if View(es[|es| - 1], caller) == x then 1 else 0
  }

  function Events(ms: seq<Message>): seq<Event> {
    if ms == [] then [] else Events(ms[..|ms| - 1]) + [MessageToEvent(ms[|ms| - 1])]
  }

  /** Came in, minus handled, in the mailbox, or waiting. */
  function Missing(m: Machine, x: Event, caller: bool): int {
    Times(m.arrived, x, caller) + Times(m.inserted, x, caller)
    - Times(m.consumed, x, caller) - Times(Events(m.mailbox), x, caller) - Times(m.postponed, x, caller)
  }

  /** As multisets: arrived and inserted events are the handled ones, the ones in the mailbox and the postponed ones. */
  ghost predicate Conserved(m: Machine, caller: bool) {
    forall x: Event :: Missing(m, x, caller) == 0
  }

  lemma {:induction false} TimesAppend(a: seq<Event>, b: seq<Event>, x: Event, caller: bool)
    ensures Times(a + b, x, caller) == Times(a, x, caller) + Times(b, x, caller)
  {
    if b == [] {
      assert a + b == a;
    } else {
      assert (a + b)[..|a + b| - 1] == a + b[..|b| - 1];
      TimesAppend(a, b[..|b| - 1], x, caller);
    }
  }

  lemma {:induction false} EventsAppend(a: seq<Message>, b: seq<Message>)
    ensures Events(a + b) == Events(a) + Events(b)
  {
    if b == [] {
      assert a + b == a;
    } else {
      assert (a + b)[..|a + b| - 1] == a + b[..|b| - 1];
      EventsAppend(a, b[..|b| - 1]);
    }
  }

  lemma {:induction false} EventsOfReplays(es: seq<Event>)
    ensures Events(Replays(es)) == es
  {
    if es != [] {
      var n := |es| - 1;
      assert Replays(es)[..n] == Replays(es[..n]);
      EventsOfReplays(es[..n]);
    }
  }

  lemma TimesOne(es: seq<Event>, e: Event, x: Event, caller: bool)
    ensures Times(es + [e], x, caller) == Times(es, x, caller) + if View(e, caller) == x then 1 else 0
  {
    assert (es + [e])[..|es|] == es;
  }

  lemma EventsOne(ms: seq<Message>, m: Message)
    ensures Events(ms + [m]) == Events(ms) + [MessageToEvent(m)]
  {
    assert (ms + [m])[..|ms|] == ms;
  }

  predicate SameBooks(m: Machine, t: Machine) {
    && t.arrived == m.arrived && t.inserted == m.inserted && t.consumed == m.consumed
    && t.mailbox == m.mailbox && t.postponed == m.postponed
  }

  lemma InsertBalances(m: Machine, e: Message, x: Event, caller: bool)
    ensures var t := m.(mailbox := m.mailbox + [e], inserted := m.inserted + [MessageToEvent(e)]);
            Missing(t, x, caller) == Missing(m, x, caller)
  {
    EventsOne(m.mailbox, e);
    TimesOne(Events(m.mailbox), MessageToEvent(e), x, caller);
    TimesOne(m.inserted, MessageToEvent(e), x, caller);
  }

  lemma SameBooksBalance(m: Machine, t: Machine, x: Event, caller: bool)
    requires SameBooks(m, t)
    ensures Missing(t, x, caller) == Missing(m, x, caller)
  {
  }

  lemma ActKeepsBooks(d: Doing, a: Action)
    requires !a.NextEventAction?
    ensures SameBooks(d.m, Act(d, a).m)
  {
  }

  /** An action inserts events into the mailbox, and leaves nothing missing. */
  lemma ActBalances(d: Doing, a: Action, x: Event, caller: bool)
    ensures var m, t := d.m, Act(d, a).m;
            && Missing(t, x, caller) == Missing(m, x, caller)
            && t.postponed == m.postponed && t.consumed == m.consumed
  {
    hide Missing, Times, Events, View;
    if a.NextEventAction? {
      InsertBalances(d.m, InternalEvent(a.kind, a.content), x, caller);
    } else {
      ActKeepsBooks(d, a);
      SameBooksBalance(d.m, Act(d, a).m, x, caller);
    }
  }

  lemma {:induction false} ActAllBalances(d: Doing, actions: seq<Action>, x: Event, caller: bool)
    ensures var m, t := d.m, ActAll(d, actions).m;
            && Missing(t, x, caller) == Missing(m, x, caller)
            && t.postponed == m.postponed && t.consumed == m.consumed
    decreases |actions|
  {
    if actions != [] && d.ok {
      ActBalances(d, actions[0], x, caller);
      ActAllBalances(Act(d, actions[0]), actions[1..], x, caller);
      hide Act, Missing;
    }
  }

  /** The caller bound to the event after the actions: that of the last reply, if there is one. */
  function Rebound(from: Option<From>, actions: seq<Action>): Option<From> {
    if actions == [] then from
    else if actions[|actions| - 1].ReplyAction? then actions[|actions| - 1].to
    else Rebound(from, actions[..|actions| - 1])
  }

  predicate Postpones(actions: seq<Action>) {
    PostponeAction in actions
  }

  /** Every reply names a caller: otherwise the loop ends at it. */
  predicate Sends(actions: seq<Action>) {
    forall i :: 0 <= i < |actions| && actions[i].ReplyAction? ==> actions[i].to.Some?
  }

  lemma {:induction false} ReboundFront(from: Option<From>, actions: seq<Action>)
    requires actions != []
    ensures Rebound(from, actions)
            == Rebound(if actions[0].ReplyAction? then actions[0].to else from, actions[1..])
  {
    var n := |actions| - 1;
    if n > 0 && !actions[n].ReplyAction? {
      ReboundFront(from, actions[..n]);
      assert actions[..n][1..] == actions[1..][..n - 1];
    }
  }

  lemma {:induction false} ActAllOutcome(d: Doing, actions: seq<Action>)
    requires d.ok
    ensures var t := ActAll(d, actions);
            && t.ok == Sends(actions)
            && (t.ok ==> t.from == Rebound(d.from, actions) && t.postpone == (d.postpone || Postpones(actions)))
    decreases |actions|
  {
    if actions != [] {
      ReboundFront(d.from, actions);
      assert actions == [actions[0]] + actions[1..];
      if Act(d, actions[0]).ok {
        ActAllOutcome(Act(d, actions[0]), actions[1..]);
      }
    }
  }

  lemma SettledBalances(m: Machine, changed: bool, now: seq<Event>, x: Event, caller: bool)
    ensures Missing(Settled(m, changed, now), x, caller) == Missing(m, x, caller) - Times(now, x, caller)
  {
    var waiting := m.postponed + now;
    TimesAppend(m.postponed, now, x, caller);
    EventsAppend(m.mailbox, Replays(waiting));
    EventsOfReplays(waiting);
    TimesAppend(Events(m.mailbox), waiting, x, caller);
  }

  lemma ConsumedBalances(m: Machine, e: Event, x: Event, caller: bool)
    ensures Missing(m.(consumed := m.consumed + [e]), x, caller)
            == Missing(m, x, caller) - if View(e, caller) == x then 1 else 0
  {
    TimesOne(m.consumed, e, x, caller);
  }

  lemma TakenBalances(m: Machine, x: Event, caller: bool)
    requires m.mailbox != []
    ensures Missing(m.(mailbox := m.mailbox[1..]), x, caller)
            == Missing(m, x, caller) + if View(MessageToEvent(m.mailbox[0]), caller) == x then 1 else 0
  {
    var e := MessageToEvent(m.mailbox[0]);
    assert m.mailbox == [m.mailbox[0]] + m.mailbox[1..];
    EventsAppend([m.mailbox[0]], m.mailbox[1..]);
    EventsOne([], m.mailbox[0]);
    assert [] + [m.mailbox[0]] == [m.mailbox[0]];
    TimesAppend([e], Events(m.mailbox[1..]), x, caller);
    TimesOne([], e, x, caller);
    assert [] + [e] == [e];
  }

  /** The event as it is put among the postponed ones. */
  function Postponed(m: Machine, r: Result): Event
    requires m.mailbox != [] && Goes(r)
  {
    var e := MessageToEvent(m.mailbox[0]);
    e.(from := Rebound(e.from, r.actions))
  }

  predicate PostponesNext(r: Result) {
    Goes(r) && Sends(r.actions) && Postpones(r.actions)
  }

  lemma ActedBalances(m: Machine, r: Result, x: Event, caller: bool)
    requires m.mailbox != [] && Goes(r)
    ensures var d, e := Acted(m, r), MessageToEvent(m.mailbox[0]);
            && Missing(d.m, x, caller) == Missing(m, x, caller) + (if View(e, caller) == x then 1 else 0)
            && d.ok == Sends(r.actions)
            && (d.ok ==> d.from == Rebound(e.from, r.actions) && d.postpone == Postpones(r.actions))
  {
    var m0 := m.(mailbox := m.mailbox[1..]);
    TakenBalances(m, x, caller);
    var m1 := Entered(m0, r);
    var d0 := Doing(if Changes(r) then Cancelled(m1) else m1, MessageToEvent(m.mailbox[0]).from, false, true);
    assert SameBooks(m0, d0.m);
    assert Missing(d0.m, x, caller) == Missing(m0, x, caller);
    hide Missing, ActAll, Times, Events, Sends, Postpones, Rebound, View;
    ActAllBalances(d0, r.actions, x, caller);
    ActAllOutcome(d0, r.actions);
  }

  lemma EndedBalances(m: Machine, e: Event, x: Event, caller: bool)
    ensures Missing(m.(running := false, consumed := m.consumed + [e]), x, caller)
            == Missing(m, x, caller) - if View(e, caller) == x then 1 else 0
  {
    ConsumedBalances(m, e, x, caller);
  }

  lemma TimesSmall(e: Event, x: Event, caller: bool)
    ensures Times([], x, caller) == 0
    ensures Times([e], x, caller) == if View(e, caller) == x then 1 else 0
  {
    TimesOne([], e, x, caller);
    assert [] + [e] == [e];
  }

  /** What handling one event does to the books: nothing, but for the caller of an event that is postponed. */
  lemma HandledBalances(m: Machine, r: Result, x: Event, caller: bool)
    requires m.running && m.mailbox != []
    ensures var e := MessageToEvent(m.mailbox[0]);
            Missing(HandledNext(m, r), x, caller) == Missing(m, x, caller)
              + if PostponesNext(r)
                then (if View(e, caller) == x then 1 else 0) - (if View(Postponed(m, r), caller) == x then 1 else 0)
                else 0
  {
    var e := MessageToEvent(m.mailbox[0]);
    TakenBalances(m, x, caller);
    EndedBalances(m.(mailbox := m.mailbox[1..]), e, x, caller);
    if Goes(r) {
      var d := Acted(m, r);
      ActedBalances(m, r, x, caller);
      EndedBalances(d.m, e, x, caller);
      ConsumedBalances(d.m, e, x, caller);
      TimesSmall(Postponed(m, r), x, caller);
      SettledBalances(d.m, Changes(r), [Postponed(m, r)], x, caller);
      SettledBalances(d.m.(consumed := d.m.consumed + [e]), Changes(r), [], x, caller);
      hide Acted, Missing, Times, Settled, View, Changes;
    }
  }

  /** A postponed event is postponed under its own caller: no reply in the same actions binds another one. */
  predicate KeepsCaller(m: Machine, r: Result)
    requires m.mailbox != []
  {
    PostponesNext(r) ==> Rebound(MessageToEvent(m.mailbox[0]).from, r.actions) == MessageToEvent(m.mailbox[0]).from
  }

  /** Handling an event loses none, whatever the callback returns: types and contents are conserved. */
  lemma HandleConserves(m: Machine, r: Result)
    requires m.running && m.mailbox != [] && Conserved(m, false)
    ensures Conserved(HandledNext(m, r), false)
  {
    forall x: Event ensures Missing(HandledNext(m, r), x, false) == 0 {
      HandledBalances(m, r, x, false);
      assert Missing(m, x, false) == 0;
    }
  }

  /** Callers are conserved too just when a postponed event keeps its own. */
  lemma HandleConservesCallersIff(m: Machine, r: Result)
    requires m.running && m.mailbox != [] && Conserved(m, true)
    ensures Conserved(HandledNext(m, r), true) <==> KeepsCaller(m, r)
  {
    var e, t := MessageToEvent(m.mailbox[0]), HandledNext(m, r);
    forall x: Event
      ensures Missing(t, x, true) == if PostponesNext(r)
                then (if e == x then 1 else 0) - (if Postponed(m, r) == x then 1 else 0) else 0
    {
      HandledBalances(m, r, x, true);
      assert Missing(m, x, true) == 0;
    }
    hide HandledNext, Missing;
    assert PostponesNext(r) && Postponed(m, r) != e ==> Missing(t, e, true) == 1;
  }

  lemma DeliverConserves(m: Machine, message: Message, caller: bool)
    requires Conserved(m, caller)
    ensures Conserved(Delivered(m, message), caller)
  {
    forall x: Event ensures Missing(Delivered(m, message), x, caller) == 0 {
      EventsOne(m.mailbox, message);
      TimesOne(Events(m.mailbox), MessageToEvent(message), x, caller);
      TimesOne(m.arrived, MessageToEvent(message), x, caller);
      assert Missing(m, x, caller) == 0;
    }
  }

  lemma SameBooksConserve(m: Machine, t: Machine, caller: bool)
    requires Conserved(m, caller) && SameBooks(m, t)
    ensures Conserved(t, caller)
  {
    forall x: Event ensures Missing(t, x, caller) == 0 {
      assert Missing(m, x, caller) == 0;
    }
  }

  lemma StepConserves(m: Machine, step: Step, caller: bool)
    requires Enabled(m, step) && Conserved(m, caller)
    requires caller && step.Handle? ==> KeepsCaller(m, step.result)
    ensures Conserved(Apply(m, step), caller)
  {
    match step
    case Arrive(message) => DeliverConserves(m, message, caller);
    case Fire(ref) => SameBooksConserve(m, Apply(m, step), caller);
    case Land(ref) =>
      SameBooksConserve(m, m.(flying := m.flying - {ref}), caller);
      DeliverConserves(m.(flying := m.flying - {ref}), TimeoutMessage(m.flying[ref]), caller);
    case Handle(result) =>
      if caller {
        HandleConservesCallersIff(m, result);
      } else {
        HandleConserves(m, result);
      }
  }

  /** Every event handled in the run that is postponed keeps its caller. */
  ghost predicate KeepsCallers(m: Machine, steps: seq<Step>, t: Machine)
    requires Runs(m, steps, t)
    decreases |steps|
  {
    steps == [] || ((steps[0].Handle? ==> KeepsCaller(m, steps[0].result)) && KeepsCallers(Apply(m, steps[0]), steps[1..], t))
  }

  /** Over every run no event is lost or made up, by type and content; and by caller too, where callers are kept. */
  lemma {:induction false} RunConserves(m: Machine, steps: seq<Step>, t: Machine, caller: bool)
    requires Runs(m, steps, t) && Conserved(m, caller)
    requires caller ==> KeepsCallers(m, steps, t)
    ensures Conserved(t, caller)
    decreases |steps|
  {
    if steps != [] {
      StepConserves(m, steps[0], caller);
      RunConserves(Apply(m, steps[0]), steps[1..], t, caller);
    }
  }

  lemma {:induction false} BegunTouchesTimers(actions: seq<Action>, m: Machine)
    ensures Begun(actions, m) == m.(live := Begun(actions, m).live, timer := Begun(actions, m).timer, refs := Begun(actions, m).refs)
  {
    if actions != [] {
      BegunTouchesTimers(actions[1..], if actions[0].StateTimeoutAction? then Scheduled(m, actions[0].content) else m);
    }
  }

  lemma InitialConserved(name: Value, data: Value, actions: seq<Action>, caller: bool)
    ensures Conserved(Initial(name, data, actions), caller)
  {
    BegunTouchesTimers(actions, Blank(name, data));
  }

  // ---------- Order ----------

  /** The messages that the actions insert. */
  function Inserts(actions: seq<Action>): seq<Message> {
    if actions == [] then []
    else (if actions[0].NextEventAction? then [InternalEvent(actions[0].kind, actions[0].content)] else [])
         + Inserts(actions[1..])
  }

  lemma ActInserts(d: Doing, a: Action)
    ensures Act(d, a).m.postponed == d.m.postponed
    ensures Act(d, a).m.mailbox
            == if a.NextEventAction? then d.m.mailbox + [InternalEvent(a.kind, a.content)] else d.m.mailbox
  {
  }

  lemma {:induction false} ActAllInserts(d: Doing, actions: seq<Action>)
    requires d.ok && Sends(actions)
    ensures ActAll(d, actions).m.mailbox == d.m.mailbox + Inserts(actions)
    ensures ActAll(d, actions).m.postponed == d.m.postponed
    decreases |actions|
  {
    if actions != [] {
      assert Sends(actions[1..]);
      ActInserts(d, actions[0]);
      ActAllInserts(Act(d, actions[0]), actions[1..]);
      hide Act, Sends;
    }
  }

  /** What the replies among the actions send, and to whom. */
  function Sent(actions: seq<Action>): seq<(From, Value)> {
    if actions == [] then []
    else (if actions[0].ReplyAction? && actions[0].to.Some? then [(actions[0].to.value, actions[0].reply)] else [])
         + Sent(actions[1..])
  }

  lemma {:induction false} ActAllReplies(d: Doing, actions: seq<Action>)
    requires d.ok && Sends(actions)
    ensures ActAll(d, actions).m.replies == d.m.replies + Sent(actions)
    decreases |actions|
  {
    if actions != [] {
      assert Sends(actions[1..]);
      assert Act(d, actions[0]).ok && Act(d, actions[0]).m.replies == d.m.replies
               + if actions[0].ReplyAction? && actions[0].to.Some? then [(actions[0].to.value, actions[0].reply)] else [];
      ActAllReplies(Act(d, actions[0]), actions[1..]);
      hide Act, Sends;
    }
  }

  lemma {:induction false} ActAllRuns(d: Doing, actions: seq<Action>)
    ensures ActAll(d, actions).m.running == d.m.running
    decreases |actions|
  {
    if actions != [] && d.ok {
      ActAllRuns(Act(d, actions[0]), actions[1..]);
    }
  }

  /** What is left of the mailbox comes first, then the inserted events; then, only if the state changed, everything that
      waits, in the order it was postponed, the event at hand last. */
  lemma HandledOrder(m: Machine, r: Result)
    requires m.running && m.mailbox != [] && Goes(r) && Sends(r.actions)
    ensures var t := HandledNext(m, r);
            var waiting := m.postponed + if Postpones(r.actions) then [Postponed(m, r)] else [];
            && t.running
            && t.mailbox == m.mailbox[1..] + Inserts(r.actions) + (if Changes(r) then Replays(waiting) else [])
            && t.postponed == (if Changes(r) then [] else waiting)
            && t.replies == m.replies + Sent(r.actions)
  {
    var m1 := Entered(m.(mailbox := m.mailbox[1..]), r);
    var d0 := Doing(if Changes(r) then Cancelled(m1) else m1, MessageToEvent(m.mailbox[0]).from, false, true);
    ActAllInserts(d0, r.actions);
    ActAllOutcome(d0, r.actions);
    var d := Acted(m, r);
    assert d == ActAll(d0, r.actions);
    assert d.m.mailbox == m.mailbox[1..] + Inserts(r.actions) && d.m.postponed == m.postponed;
    ActAllRuns(d0, r.actions);
    ActAllReplies(d0, r.actions);
    assert m.running == d.m.running && d.m.replies == m.replies + Sent(r.actions);
    hide Acted, ActAll, Inserts, Sent, Sends, Postpones, Rebound;
    assert m.postponed + [] == m.postponed && d.m.mailbox + [] == d.m.mailbox;
  }

  /** A stretch of a run in which no event changes the state, and every reply names a caller. */
  predicate Quiet(steps: seq<Step>) {
    forall i :: 0 <= i < |steps| ==> match steps[i]
      case Handle(r) => Goes(r) && Sends(r.actions) && !Changes(r)
      case Arrive(message) => !message.PostponedEvent?
      case _ => true
  }

  /** The events that the steps postpone, in order. */
  ghost function Waits(m: Machine, steps: seq<Step>, t: Machine): seq<Event>
    requires Runs(m, steps, t)
    decreases |steps|
  {
    if steps == [] then []
    else (if steps[0].Handle? && PostponesNext(steps[0].result) then [Postponed(m, steps[0].result)] else [])
         + Waits(Apply(m, steps[0]), steps[1..], t)
  }

  function Redelivered(ms: seq<Message>): nat {
    if ms == [] then 0 else Redelivered(ms[..|ms| - 1]) + if ms[|ms| - 1].PostponedEvent? then 1 else 0
  }

  lemma {:induction false} RedeliveredAppend(a: seq<Message>, b: seq<Message>)
    ensures Redelivered(a + b) == Redelivered(a) + Redelivered(b)
  {
    if b == [] {
      assert a + b == a;
    } else {
      assert (a + b)[..|a + b| - 1] == a + b[..|b| - 1];
      RedeliveredAppend(a, b[..|b| - 1]);
    }
  }

  lemma {:induction false} InsertsAreInternal(actions: seq<Action>)
    ensures Redelivered(Inserts(actions)) == 0
  {
    if actions != [] {
      InsertsAreInternal(actions[1..]);
      var one := if actions[0].NextEventAction? then [InternalEvent(actions[0].kind, actions[0].content)] else [];
      RedeliveredAppend(one, Inserts(actions[1..]));
      assert one != [] ==> one[..0] == [];
    }
  }

  lemma QuietStep(m: Machine, step: Step)
    requires Enabled(m, step) && Quiet([step])
    ensures var t := Apply(m, step);
            && Redelivered(t.mailbox) <= Redelivered(m.mailbox)
            && t.postponed == m.postponed
                 + if step.Handle? && PostponesNext(step.result) then [Postponed(m, step.result)] else []
  {
    assert [step][0] == step;
    match step
    case Arrive(message) =>
      assert (m.mailbox + [message])[..|m.mailbox|] == m.mailbox;
    case Fire(ref) =>
    case Land(ref) =>
      assert (m.mailbox + [TimeoutMessage(m.flying[ref])])[..|m.mailbox|] == m.mailbox;
    case Handle(r) => QuietTurn(m, r);
  }

  lemma QuietTurn(m: Machine, r: Result)
    requires m.running && m.mailbox != [] && Goes(r) && Sends(r.actions) && !Changes(r)
    ensures var t := HandledNext(m, r);
            && Redelivered(t.mailbox) <= Redelivered(m.mailbox)
            && t.postponed == m.postponed + if PostponesNext(r) then [Postponed(m, r)] else []
  {
    HandledOrder(m, r);
    RedeliveredAppend(m.mailbox[1..], Inserts(r.actions));
    RedeliveredAppend([m.mailbox[0]], m.mailbox[1..]);
    assert [m.mailbox[0]] + m.mailbox[1..] == m.mailbox;
    InsertsAreInternal(r.actions);
    hide HandledNext, Inserts, Redelivered;
    assert m.mailbox[1..] + Inserts(r.actions) + [] == m.mailbox[1..] + Inserts(r.actions);
  }

  /** Without a change of state nothing postponed is delivered again; it waits in the order it was postponed. */
  lemma {:induction false} QuietRunOnlyWaits(m: Machine, steps: seq<Step>, t: Machine)
    requires Runs(m, steps, t) && Quiet(steps)
    ensures Redelivered(t.mailbox) <= Redelivered(m.mailbox)
    ensures t.postponed == m.postponed + Waits(m, steps, t)
    decreases |steps|
  {
    if steps != [] {
      assert Quiet([steps[0]]) && Quiet(steps[1..]);
      QuietStep(m, steps[0]);
      QuietRunOnlyWaits(Apply(m, steps[0]), steps[1..], t);
      hide Apply, Redelivered, Quiet;
    }
  }

  /** The first change of state after such a stretch delivers again exactly the events postponed in it, in their order. */
  lemma ChangeReplaysInOrder(m: Machine, steps: seq<Step>, t: Machine, r: Result)
    requires Runs(m, steps, t) && Quiet(steps) && m.postponed == []
    requires t.running && t.mailbox != [] && Changes(r) && Sends(r.actions)
    ensures var u := HandledNext(t, r);
            && u.postponed == []
            && u.mailbox == t.mailbox[1..] + Inserts(r.actions)
                 + Replays(Waits(m, steps, t) + if Postpones(r.actions) then [Postponed(t, r)] else [])
  {
    QuietRunOnlyWaits(m, steps, t);
    HandledOrder(t, r);
    assert [] + Waits(m, steps, t) == Waits(m, steps, t);
  }

  // ---------- The state timeout ----------

  /** Only the timer that the loop remembers can be live; references were given out by the counter, and a timer that has
      fired is not live. */
  ghost predicate TimerOk(m: Machine) {
    && (forall ref :: ref in m.live ==> m.timer == Some(ref))
    && (m.timer.Some? ==> m.timer.value < m.refs)
    && (forall ref :: ref in m.flying ==> ref < m.refs && ref !in m.live)
  }

  lemma AtMostOneTimer(m: Machine)
    requires TimerOk(m)
    ensures |m.live| <= 1
  {
    if m.timer.Some? {
      assert m.live.Keys <= {m.timer.value};
      SubsetSize(m.live.Keys, {m.timer.value});
    } else {
      assert m.live == map[];
    }
    assert |m.live| == |m.live.Keys|;
  }

  lemma SubsetSize(a: set<nat>, b: set<nat>)
    requires a <= b
    ensures |a| <= |b|
  {
    assert b == a + (b - a);
  }

  /** The content of the last state timeout among the actions. */
  function LastTimeout(actions: seq<Action>, before: Option<Value>): Option<Value> {
    if actions == [] then before
    else LastTimeout(actions[1..], if actions[0].StateTimeoutAction? then Some(actions[0].content) else before)
  }

  ghost predicate Shows(m: Machine, live: map<nat, Value>, last: Option<Value>) {
    if last.None? then m.live == live else m.timer.Some? && m.live == map[m.timer.value := last.value]
  }

  lemma {:induction false} ActAllTimers(d: Doing, actions: seq<Action>, live: map<nat, Value>, last: Option<Value>)
    requires TimerOk(d.m) && Shows(d.m, live, last)
    ensures TimerOk(ActAll(d, actions).m)
    ensures d.ok && Sends(actions) ==> Shows(ActAll(d, actions).m, live, LastTimeout(actions, last))
    decreases |actions|
  {
    if actions != [] && d.ok {
      var last' := if actions[0].StateTimeoutAction? then Some(actions[0].content) else last;
      assert Sends(actions) ==> Sends(actions[1..]);
      ActAllTimers(Act(d, actions[0]), actions[1..], live, last');
    }
  }

  /** After an event: the timer of the last timeout action, if there is one; else none after a change of state, and the
      old one otherwise. */
  lemma HandledTimers(m: Machine, r: Result)
    requires m.running && m.mailbox != [] && TimerOk(m)
    ensures TimerOk(HandledNext(m, r))
    ensures Goes(r) && Sends(r.actions) ==>
              Shows(HandledNext(m, r), if Changes(r) then map[] else m.live, LastTimeout(r.actions, None))
  {
    if Goes(r) {
      var m1 := Entered(m.(mailbox := m.mailbox[1..]), r);
      var d0 := Doing(if Changes(r) then Cancelled(m1) else m1, MessageToEvent(m.mailbox[0]).from, false, true);
      assert Changes(r) ==> d0.m.live == map[];
      ActAllTimers(d0, r.actions, d0.m.live, None);
      ActAllOutcome(d0, r.actions);
      hide ActAll, Sends, LastTimeout;
    }
  }

  lemma {:induction false} BegunTimers(actions: seq<Action>, m: Machine)
    requires TimerOk(m)
    ensures TimerOk(Begun(actions, m))
  {
    if actions != [] {
      BegunTimers(actions[1..], if actions[0].StateTimeoutAction? then Scheduled(m, actions[0].content) else m);
    }
  }

  /** In every run from the start at most one state timeout is live. */
  lemma {:induction false} RunKeepsOneTimer(m: Machine, steps: seq<Step>, t: Machine)
    requires Runs(m, steps, t) && TimerOk(m)
    ensures TimerOk(t) && |t.live| <= 1
    decreases |steps|
  {
    AtMostOneTimer(m);
    if steps != [] {
      if steps[0].Handle? {
        HandledTimers(m, steps[0].result);
      }
      assert TimerOk(Apply(m, steps[0]));
      RunKeepsOneTimer(Apply(m, steps[0]), steps[1..], t);
    }
  }

  lemma InitialTimers(name: Value, data: Value, actions: seq<Action>)
    ensures TimerOk(Initial(name, data, actions))
  {
    BegunTimers(actions, Blank(name, data));
  }

  // ---------- Inserted events ----------

  /** An inserted event is put behind the whole mailbox: whatever it is, it is the next one just when nothing waits there. */
  lemma NextEventIsNextIff(m: Machine, data: Value)
    requires m.running && m.mailbox != []
    ensures (forall kind, content :: HandledNext(m, KeepState(data, [NextEventAction(kind, content)])).mailbox != []
                && HandledNext(m, KeepState(data, [NextEventAction(kind, content)])).mailbox[0] == InternalEvent(kind, content))
            <==> m.mailbox[1..] == []
  {
    forall kind, content
      ensures HandledNext(m, KeepState(data, [NextEventAction(kind, content)])).mailbox
              == m.mailbox[1..] + [InternalEvent(kind, content)]
    {
      var r := KeepState(data, [NextEventAction(kind, content)]);
      HandledOrder(m, r);
      assert Inserts(r.actions) == [InternalEvent(kind, content)] by {
        assert r.actions[1..] == [];
      }
      assert m.mailbox[1..] + Inserts(r.actions) + [] == m.mailbox[1..] + [InternalEvent(kind, content)];
    }
    hide HandledNext;
    if m.mailbox[1..] != [] {
      var first := m.mailbox[1..][0];
      var content := if first.InternalEvent? then first.content + 1 else 0;
      var t := HandledNext(m, KeepState(data, [NextEventAction(Info, content)]));
      assert t.mailbox[0] == first != InternalEvent(Info, content);
    }
  }

  // ---------- Timeouts of an old state ----------

  predicate IsTimeout(e: Event) {
    e.kind == StateTimeout
  }

  predicate HasTimeout(ms: seq<Message>) {
    exists i :: 0 <= i < |ms| && IsTimeout(MessageToEvent(ms[i]))
  }

  predicate InsertsTimeout(actions: seq<Action>) {
    exists i :: 0 <= i < |actions| && actions[i].NextEventAction? && actions[i].kind == StateTimeout
  }

  predicate Waiting(es: seq<Event>) {
    exists i :: 0 <= i < |es| && IsTimeout(es[i])
  }

  /** No timer from before reference `k` is live; those that still fly are among `old`. */
  ghost predicate OldOnesAreGone(m: Machine, k: nat, before: map<nat, Value>) {
    && k <= m.refs
    && (forall ref :: ref in m.live ==> k <= ref)
    && (forall ref :: ref in m.flying && ref < k ==> ref in before && m.flying[ref] == before[ref])
  }

  lemma {:induction false} ActAllGone(d: Doing, actions: seq<Action>, k: nat, before: map<nat, Value>)
    requires OldOnesAreGone(d.m, k, before)
    ensures OldOnesAreGone(ActAll(d, actions).m, k, before) && ActAll(d, actions).m.flying == d.m.flying
    decreases |actions|
  {
    if actions != [] && d.ok {
      ActAllGone(Act(d, actions[0]), actions[1..], k, before);
    }
  }

  lemma {:induction false} ActAllFlying(d: Doing, actions: seq<Action>)
    ensures ActAll(d, actions).m.flying == d.m.flying
    decreases |actions|
  {
    if actions != [] && d.ok {
      ActAllFlying(Act(d, actions[0]), actions[1..]);
    }
  }

  lemma HandledFlying(m: Machine, r: Result)
    requires m.running && m.mailbox != []
    ensures HandledNext(m, r).flying == m.flying
  {
    if Goes(r) {
      var m1 := Entered(m.(mailbox := m.mailbox[1..]), r);
      ActAllFlying(Doing(if Changes(r) then Cancelled(m1) else m1, MessageToEvent(m.mailbox[0]).from, false, true), r.actions);
    }
    hide ActAll;
  }

  lemma HandledGone(m: Machine, r: Result, k: nat, before: map<nat, Value>)
    requires m.running && m.mailbox != [] && OldOnesAreGone(m, k, before)
    ensures OldOnesAreGone(HandledNext(m, r), k, before)
  {
    if Goes(r) {
      var m1 := Entered(m.(mailbox := m.mailbox[1..]), r);
      var d0 := Doing(if Changes(r) then Cancelled(m1) else m1, MessageToEvent(m.mailbox[0]).from, false, true);
      ActAllGone(d0, r.actions, k, before);
    }
    hide ActAll;
  }

  /** A change of state leaves no timer of the old state live. */
  lemma ChangeSilences(m: Machine, r: Result)
    requires m.running && m.mailbox != [] && TimerOk(m) && Changes(r)
    ensures OldOnesAreGone(HandledNext(m, r), m.refs, m.flying)
  {
    var m1 := Entered(m.(mailbox := m.mailbox[1..]), r);
    var d0 := Doing(Cancelled(m1), MessageToEvent(m.mailbox[0]).from, false, true);
    assert d0.m.live == map[];
    ActAllGone(d0, r.actions, m.refs, m.flying);
    hide ActAll;
  }

  /** In every run after a change of state no timer of the old state fires, and only those that had fired before land,
      with the content they had. */
  lemma {:induction false} OldTimersStaySilent(t: Machine, steps: seq<Step>, u: Machine, k: nat, before: map<nat, Value>)
    requires Runs(t, steps, u) && OldOnesAreGone(t, k, before)
    ensures forall i :: 0 <= i < |steps| && steps[i].Fire? ==> k <= steps[i].ref
    ensures forall i :: 0 <= i < |steps| && steps[i].Land? && steps[i].ref < k ==> steps[i].ref in before
    ensures OldOnesAreGone(u, k, before)
    decreases |steps|
  {
    if steps != [] {
      if steps[0].Handle? {
        HandledGone(t, steps[0].result, k, before);
      }
      var t1 := Apply(t, steps[0]);
      assert OldOnesAreGone(t1, k, before);
      hide Apply, HandledNext;
      OldTimersStaySilent(t1, steps[1..], u, k, before);
      assert forall i :: 0 < i < |steps| ==> steps[i] == steps[1..][i - 1];
    }
  }

  /** So a timer that a change of state cancels never comes back: the references that fire afterwards are new, and the old
      ones that land had fired before. */
  lemma CancelledTimersStaySilent(m: Machine, r: Result, steps: seq<Step>, u: Machine)
    requires m.running && m.mailbox != [] && TimerOk(m) && Changes(r) && Runs(HandledNext(m, r), steps, u)
    ensures forall i :: 0 <= i < |steps| && steps[i].Fire? ==> m.refs <= steps[i].ref
    ensures forall i :: 0 <= i < |steps| && steps[i].Land? && steps[i].ref < m.refs ==> steps[i].ref in m.flying
    ensures forall ref :: ref in m.live ==> ref < m.refs && ref !in m.flying
  {
    ChangeSilences(m, r);
    OldTimersStaySilent(HandledNext(m, r), steps, u, m.refs, m.flying);
  }

  /** Steps that make no new timeout, from reference `k` on: no timer is set that fires, and none is sent or inserted. */
  predicate Untimed(steps: seq<Step>, k: nat) {
    forall i :: 0 <= i < |steps| ==> match steps[i]
      case Arrive(message) => !IsTimeout(MessageToEvent(message))
      case Fire(ref) => ref < k
      case Land(ref) => true
      case Handle(r) => Goes(r) ==> !InsertsTimeout(r.actions)
  }

  /** Nothing is left from which a timeout could come but timers from reference `k` on. */
  ghost predicate Silent(m: Machine, k: nat) {
    && !HasTimeout(m.mailbox) && !Waiting(m.postponed) && m.flying == map[]
    && OldOnesAreGone(m, k, map[])
  }

  lemma {:induction false} ActAllQuietly(d: Doing, actions: seq<Action>)
    requires !HasTimeout(d.m.mailbox) && !InsertsTimeout(actions)
    ensures !HasTimeout(ActAll(d, actions).m.mailbox) && ActAll(d, actions).m.postponed == d.m.postponed
    decreases |actions|
  {
    if actions != [] && d.ok {
      assert !InsertsTimeout(actions[1..]) by {
        assert forall i :: 0 <= i < |actions[1..]| ==> actions[1..][i] == actions[i + 1];
      }
      assert !actions[0].NextEventAction? || actions[0].kind != StateTimeout;
      ActAllQuietly(Act(d, actions[0]), actions[1..]);
    }
  }

  lemma SettledQuietly(m: Machine, changed: bool, now: seq<Event>)
    requires !HasTimeout(m.mailbox) && !Waiting(m.postponed) && !Waiting(now)
    ensures !HasTimeout(Settled(m, changed, now).mailbox) && !Waiting(Settled(m, changed, now).postponed)
  {
    var waiting := m.postponed + now;
    assert forall i :: 0 <= i < |waiting| ==> !IsTimeout(waiting[i]);
    assert forall i :: 0 <= i < |waiting| ==> MessageToEvent(Replays(waiting)[i]) == waiting[i];
  }

  lemma HandledQuietly(m: Machine, r: Result)
    requires m.running && m.mailbox != [] && !HasTimeout(m.mailbox) && !Waiting(m.postponed)
    requires Goes(r) ==> !InsertsTimeout(r.actions)
    ensures !HasTimeout(HandledNext(m, r).mailbox) && !Waiting(HandledNext(m, r).postponed)
  {
    var e := MessageToEvent(m.mailbox[0]);
    assert !IsTimeout(e);
    assert forall i :: 0 <= i < |m.mailbox[1..]| ==> m.mailbox[1..][i] == m.mailbox[i + 1];
    assert !HasTimeout(m.mailbox[1..]);
    if Goes(r) {
      var m1 := Entered(m.(mailbox := m.mailbox[1..]), r);
      ActAllQuietly(Doing(if Changes(r) then Cancelled(m1) else m1, e.from, false, true), r.actions);
      var d := Acted(m, r);
      SettledQuietly(d.m, Changes(r), [e.(from := d.from)]);
      SettledQuietly(d.m.(consumed := d.m.consumed + [e]), Changes(r), []);
    }
    hide ActAll, Settled, HasTimeout, Waiting;
  }

  lemma {:induction false} SilenceLasts(t: Machine, steps: seq<Step>, u: Machine, k: nat)
    requires Runs(t, steps, u) && Silent(t, k) && Untimed(steps, k)
    ensures Silent(u, k)
    decreases |steps|
  {
    if steps != [] {
      var t1 := Apply(t, steps[0]);
      match steps[0] {
        case Handle(r) =>
          HandledQuietly(t, r);
          HandledGone(t, r, k, map[]);
          HandledFlying(t, r);
        case Arrive(message) => assert !HasTimeout(t.mailbox + [message]);
        case _ =>
      }
      assert Silent(t1, k);
      assert Untimed(steps[1..], k) by {
        assert forall i :: 0 <= i < |steps[1..]| ==> steps[1..][i] == steps[i + 1];
      }
      hide Apply, Silent, Untimed;
      SilenceLasts(t1, steps[1..], u, k);
    }
  }

  /** Some run that makes no new timeout comes to handle one. */
  ghost predicate TimeoutToCome(t: Machine, k: nat) {
    exists steps, u :: Runs(t, steps, u) && Untimed(steps, k) && AboutToTimeOut(u)
  }

  predicate AboutToTimeOut(u: Machine) {
    u.running && u.mailbox != [] && IsTimeout(MessageToEvent(u.mailbox[0]))
  }

  const WAIT := Handle(KeepState(0, []))

  /** Events before it are handled, and it comes first. */
  lemma {:induction false} Drains(t: Machine, i: nat, k: nat) returns (steps: seq<Step>, u: Machine)
    requires t.running && i < |t.mailbox| && IsTimeout(MessageToEvent(t.mailbox[i]))
    ensures Runs(t, steps, u) && Untimed(steps, k) && AboutToTimeOut(u)
    decreases i
  {
    if i == 0 {
      steps, u := [], t;
    } else {
      HandledOrder(t, KeepState(0, []));
      var t1 := Apply(t, WAIT);
      assert t1.mailbox == t.mailbox[1..];
      var rest: seq<Step>;
      rest, u := Drains(t1, i - 1, k);
      steps := [WAIT] + rest;
      assert steps[1..] == rest;
    }
  }

  /** What is left of the old state's timeouts when `r` changes the state: in the mailbox behind the event at hand, flying,
      postponed, the event at hand if it is postponed, and events of that type that the actions insert. */
  predicate LeavesTimeout(m: Machine, r: Result)
    requires m.mailbox != [] && Goes(r)
  {
    || HasTimeout(m.mailbox[1..])
    || m.flying != map[]
    || Waiting(m.postponed)
    || (Postpones(r.actions) && IsTimeout(MessageToEvent(m.mailbox[0])))
    || InsertsTimeout(r.actions)
  }

  lemma {:induction false} InsertsOfTimeouts(actions: seq<Action>)
    ensures HasTimeout(Inserts(actions)) <==> InsertsTimeout(actions)
  {
    if actions != [] {
      var rest := Inserts(actions[1..]);
      var one := if actions[0].NextEventAction? then [InternalEvent(actions[0].kind, actions[0].content)] else [];
      InsertsOfTimeouts(actions[1..]);
      TimeoutsOfBoth(one, rest);
      assert HasTimeout(one) <==> actions[0].NextEventAction? && actions[0].kind == StateTimeout by {
        if actions[0].NextEventAction? && actions[0].kind == StateTimeout {
          assert IsTimeout(MessageToEvent(one[0]));
        }
      }
      assert InsertsTimeout(actions)
             <==> InsertsTimeout(actions[1..]) || (actions[0].NextEventAction? && actions[0].kind == StateTimeout) by {
        if i :| 0 <= i < |actions[1..]| && actions[1..][i].NextEventAction? && actions[1..][i].kind == StateTimeout {
          assert actions[i + 1] == actions[1..][i];
        }
        if i :| 0 < i < |actions| && actions[i].NextEventAction? && actions[i].kind == StateTimeout {
          assert actions[1..][i - 1] == actions[i];
        }
      }
      hide HasTimeout, InsertsTimeout;
    }
  }

  lemma TimeoutsOfBoth(a: seq<Message>, b: seq<Message>)
    ensures HasTimeout(a + b) <==> HasTimeout(a) || HasTimeout(b)
  {
    if i :| 0 <= i < |a| && IsTimeout(MessageToEvent(a[i])) {
      assert (a + b)[i] == a[i];
    }
    if i :| 0 <= i < |b| && IsTimeout(MessageToEvent(b[i])) {
      assert (a + b)[|a| + i] == b[i];
    }
    if i :| 0 <= i < |a + b| && IsTimeout(MessageToEvent((a + b)[i])) {
      assert (a + b)[i] == if i < |a| then a[i] else b[i - |a|];
    }
  }

  lemma TimeoutsOfReplays(es: seq<Event>)
    ensures HasTimeout(Replays(es)) <==> Waiting(es)
  {
    if i :| 0 <= i < |es| && IsTimeout(es[i]) {
      assert MessageToEvent(Replays(es)[i]) == es[i];
    }
    if i :| 0 <= i < |Replays(es)| && IsTimeout(MessageToEvent(Replays(es)[i])) {
      assert MessageToEvent(Replays(es)[i]) == es[i];
    }
  }

  lemma WaitingOfBoth(a: seq<Event>, b: seq<Event>)
    ensures Waiting(a + b) <==> Waiting(a) || Waiting(b)
  {
    if i :| 0 <= i < |a| && IsTimeout(a[i]) {
      assert (a + b)[i] == a[i];
    }
    if i :| 0 <= i < |b| && IsTimeout(b[i]) {
      assert (a + b)[|a| + i] == b[i];
    }
    if i :| 0 <= i < |a + b| && IsTimeout((a + b)[i]) {
      assert (a + b)[i] == if i < |a| then a[i] else b[i - |a|];
    }
  }

  /** In the mailbox right after the change. */
  lemma ChangedMailbox(m: Machine, r: Result)
    requires m.running && m.mailbox != [] && Changes(r) && Sends(r.actions)
    ensures var t := HandledNext(m, r);
            && t.running && t.flying == m.flying && t.postponed == []
            && (LeavesTimeout(m, r) <==> HasTimeout(t.mailbox) || t.flying != map[])
  {
    HandledOrder(m, r);
    HandledFlying(m, r);
    InsertsOfTimeouts(r.actions);
    var e := Postponed(m, r);
    var now := if Postpones(r.actions) then [e] else [];
    assert Waiting(now) <==> Postpones(r.actions) && IsTimeout(MessageToEvent(m.mailbox[0])) by {
      assert IsTimeout(e) == IsTimeout(MessageToEvent(m.mailbox[0]));
      assert Postpones(r.actions) ==> now[0] == e;
    }
    WaitingOfBoth(m.postponed, now);
    TimeoutsOfReplays(m.postponed + now);
    TimeoutsOfBoth(m.mailbox[1..] + Inserts(r.actions), Replays(m.postponed + now));
    TimeoutsOfBoth(m.mailbox[1..], Inserts(r.actions));
    hide HandledNext, HasTimeout, Waiting, InsertsTimeout, Replays, Inserts;
  }

  /** A timeout of the old state is still handled in the new one just when the change left one behind in one of the five
      places. In particular a timer that the change cancels never comes back. */
  lemma LateTimeoutIff(m: Machine, r: Result)
    requires m.running && m.mailbox != [] && TimerOk(m) && Changes(r) && Sends(r.actions)
    ensures TimeoutToCome(HandledNext(m, r), m.refs) <==> LeavesTimeout(m, r)
  {
    var t, k := HandledNext(m, r), m.refs;
    ChangedMailbox(m, r);
    if LeavesTimeout(m, r) {
      TimeoutComes(t, k);
    } else {
      ChangeSilences(m, r);
      hide HandledNext, LeavesTimeout;
      assert Silent(t, k);
      forall steps, u | Runs(t, steps, u) && Untimed(steps, k) ensures !AboutToTimeOut(u) {
        SilenceLasts(t, steps, u, k);
      }
    }
  }

  lemma TimeoutComes(t: Machine, k: nat)
    requires t.running && (HasTimeout(t.mailbox) || t.flying != map[])
    ensures TimeoutToCome(t, k)
  {
    if HasTimeout(t.mailbox) {
      var i :| 0 <= i < |t.mailbox| && IsTimeout(MessageToEvent(t.mailbox[i]));
      var steps, u := Drains(t, i, k);
    } else {
      var ref :| ref in t.flying;
      var t1 := Apply(t, Land(ref));
      var rest, u := Drains(t1, |t.mailbox|, k);
      assert ([Land(ref)] + rest)[1..] == rest;
      assert Runs(t, [Land(ref)] + rest, u) && Untimed([Land(ref)] + rest, k);
    }
  }

  // ---------- Runs that show what fails ----------

  /** The timeout of state 0 fires, is postponed there, and is delivered in state 1. */
  lemma PostponedTimeoutOutlivesItsState()
    ensures var steps := [Fire(0), Land(0), Handle(KeepState(0, [PostponeAction])), Arrive(CastMessage(1)),
                          Handle(NextState(1, 0, []))];
            exists u :: Runs(Initial(0, 0, [StateTimeoutAction(7)]), steps, u)
                        && u.name == 1 && u.mailbox == [PostponedEvent(Event(StateTimeout, 7, None))]
  {
    var m := Initial(0, 0, [StateTimeoutAction(7)]);
    assert [StateTimeoutAction(7)][1..] == [];
    assert m == Blank(0, 0).(timer := Some(0), live := map[0 := 7], refs := 1);
    var m1 := Apply(m, Fire(0));
    var m2 := Apply(m1, Land(0));
    assert m2.mailbox == [TimeoutMessage(7)];
    var m3 := Apply(m2, Handle(KeepState(0, [PostponeAction])));
    HandledOrder(m2, KeepState(0, [PostponeAction]));
    PostponedOnly();
    assert m3.mailbox == [] && m3.postponed == [Event(StateTimeout, 7, None)];
    var m4 := Apply(m3, Arrive(CastMessage(1)));
    HandledOrder(m4, NextState(1, 0, []));
    var u := Apply(m4, Handle(NextState(1, 0, [])));
    assert u.mailbox == [PostponedEvent(Event(StateTimeout, 7, None))] && u.name == 1;
    hide Apply, Enabled;
    FiveSteps(m, m1, m2, m3, m4, u, Fire(0), Land(0), Handle(KeepState(0, [PostponeAction])), Arrive(CastMessage(1)),
              Handle(NextState(1, 0, [])));
  }

  lemma PostponedOnly()
    ensures Inserts([PostponeAction]) == [] && Sends([PostponeAction]) && Postpones([PostponeAction])
    ensures Inserts([]) == [] && Rebound(None, [PostponeAction]) == None
  {
    assert [PostponeAction][1..] == [] && [PostponeAction][..0] == [];
  }

  lemma FiveSteps(m: Machine, m1: Machine, m2: Machine, m3: Machine, m4: Machine, u: Machine,
                  a: Step, b: Step, c: Step, d: Step, e: Step)
    requires Enabled(m, a) && Apply(m, a) == m1 && Enabled(m1, b) && Apply(m1, b) == m2
    requires Enabled(m2, c) && Apply(m2, c) == m3 && Enabled(m3, d) && Apply(m3, d) == m4
    requires Enabled(m4, e) && Apply(m4, e) == u
    ensures Runs(m, [a, b, c, d, e], u)
  {
    hide Apply, Enabled;
    assert [a, b, c, d, e][1..] == [b, c, d, e] && [b, c, d, e][1..] == [c, d, e] && [c, d, e][1..] == [d, e];
    assert [d, e][1..] == [e] && [e][1..] == [];
    assert Runs(m4, [e], u) && Runs(m3, [d, e], u);
    assert Runs(m2, [c, d, e], u) && Runs(m1, [b, c, d, e], u);
  }

  /** It has fired, and lands after the change of state. */
  lemma FlyingTimeoutOutlivesItsState()
    ensures var steps := [Fire(0), Arrive(CastMessage(1)), Handle(NextState(1, 0, [])), Land(0), Arrive(CastMessage(2))];
            exists u :: Runs(Initial(0, 0, [StateTimeoutAction(7)]), steps, u)
                        && u.name == 1 && u.mailbox == [TimeoutMessage(7), CastMessage(2)]
  {
    var m := Initial(0, 0, [StateTimeoutAction(7)]);
    assert [StateTimeoutAction(7)][1..] == [];
    assert m == Blank(0, 0).(timer := Some(0), live := map[0 := 7], refs := 1);
    var m1 := Apply(m, Fire(0));
    var m2 := Apply(m1, Arrive(CastMessage(1)));
    HandledOrder(m2, NextState(1, 0, []));
    HandledFlying(m2, NextState(1, 0, []));
    var m3 := Apply(m2, Handle(NextState(1, 0, [])));
    assert m3.mailbox == [] && m3.flying == map[0 := 7] && m3.name == 1;
    var m4 := Apply(m3, Land(0));
    var u := Apply(m4, Arrive(CastMessage(2)));
    assert u.mailbox == [TimeoutMessage(7), CastMessage(2)];
    hide Apply, Enabled;
    FiveSteps(m, m1, m2, m3, m4, u, Fire(0), Arrive(CastMessage(1)), Handle(NextState(1, 0, [])), Land(0),
              Arrive(CastMessage(2)));
  }

  const REPLIES_TO_ANOTHER := [ReplyAction(Some(From(2, 20)), 0), PostponeAction]

  /** A call from 1 is postponed by actions that reply to 2: from then on it is a call from 2. */
  lemma PostponedUnderAnotherCaller()
    ensures var m, r := Delivered(Initial(0, 0, []), CallMessage(1, 5, 10)), KeepState(0, REPLIES_TO_ANOTHER);
            && Conserved(m, true) && !Conserved(HandledNext(m, r), true)
            && HandledNext(m, r).postponed == [Event(Call, 5, Some(From(2, 20)))]
  {
    var m, r := Delivered(Initial(0, 0, []), CallMessage(1, 5, 10)), KeepState(0, REPLIES_TO_ANOTHER);
    InitialConserved(0, 0, [], true);
    DeliverConserves(Initial(0, 0, []), CallMessage(1, 5, 10), true);
    assert PostponeAction in r.actions;
    assert Rebound(Some(From(1, 10)), r.actions) == Some(From(2, 20)) by {
      assert r.actions[..1] == [ReplyAction(Some(From(2, 20)), 0)];
    }
    HandledOrder(m, r);
    HandleConservesCallersIff(m, r);
  }

  // ---------- The process ----------

  // ---------- The state, its data, and what an event is ----------

  lemma {:induction false} ActAllKeepsState(d: Doing, actions: seq<Action>)
    ensures ActAll(d, actions).m.name == d.m.name && ActAll(d, actions).m.data == d.m.data
    decreases |actions|
  {
    if actions != [] && d.ok {
      ActAllKeepsState(Act(d, actions[0]), actions[1..]);
    }
  }

  lemma {:induction false} ActAllGoesOn(d: Doing, actions: seq<Action>)
    requires d.ok
    ensures ActAll(d, actions).ok <==> forall i :: 0 <= i < |actions| && actions[i].ReplyAction? ==> actions[i].to.Some?
    decreases |actions|
  {
    if actions != [] {
      assert forall i :: 0 < i < |actions| ==> actions[i] == actions[1..][i - 1];
      if Act(d, actions[0]).ok {
        ActAllGoesOn(Act(d, actions[0]), actions[1..]);
        assert forall i :: 0 <= i < |actions[1..]| ==> actions[1..][i] == actions[i + 1];
      } else {
        assert actions[0].ReplyAction? && actions[0].to.None?;
        assert ActAll(Act(d, actions[0]), actions[1..]) == Act(d, actions[0]);
      }
      hide Act;
    }
  }

  /** After an event, the data is what the callback returned, and the name as well where it named a state; a callback that
      returned no state leaves both, and ends the loop. So does a reply to nobody. */
  lemma HandledState(m: Machine, r: Result)
    requires m.running && m.mailbox != []
    ensures HandledNext(m, r).data
            == match r
               case NextState(_, data, _) => data
               case KeepState(data, _) => data
               case RepeatState(data, _) => data
               case _ => m.data
    ensures HandledNext(m, r).name
            == match r
               case NextState(name, _, _) => name
               case _ => m.name
    ensures HandledNext(m, r).running
            <==> match r
                 case StopState => false
                 case BadReturn => false
                 case Raised => false
                 case _ => forall i :: 0 <= i < |r.actions| && r.actions[i].ReplyAction? ==> r.actions[i].to.Some?
  {
    if r.NextState? || r.KeepState? || r.RepeatState? {
      var m1 := Entered(m.(mailbox := m.mailbox[1..]), r);
      var d0 := Doing(if Changes(r) then Cancelled(m1) else m1, MessageToEvent(m.mailbox[0]).from, false, true);
      ActAllKeepsState(d0, r.actions);
      ActAllRuns(d0, r.actions);
      ActAllGoesOn(d0, r.actions);
      hide ActAll, MessageToEvent;
    }
  }

  /** Does the step end with a state and data that a callback returned? */
  predicate Returns(step: Step) {
    step.Handle? && (step.result.NextState? || step.result.KeepState? || step.result.RepeatState?)
  }

  lemma OnlyEventsChangeState(m: Machine, step: Step)
    requires Enabled(m, step)
    ensures !Returns(step) ==> Apply(m, step).data == m.data
    ensures !(step.Handle? && step.result.NextState?) ==> Apply(m, step).name == m.name
  {
    if step.Handle? {
      HandledState(m, step.result);
      hide HandledNext;
    }
  }

  lemma RunUnfolds(m: Machine, steps: seq<Step>, t: Machine)
    requires Runs(m, steps, t) && steps != []
    ensures Enabled(m, steps[0]) && Runs(Apply(m, steps[0]), steps[1..], t)
  {
    hide Apply, Enabled;
  }

  /** Over a run, the data is that of the last callback that returned some. */
  lemma {:induction false} RunKeepsLastData(m: Machine, steps: seq<Step>, t: Machine, last: int)
    requires Runs(m, steps, t) && -1 <= last < |steps| && (last >= 0 ==> Returns(steps[last]))
    requires forall i :: last < i < |steps| ==> !Returns(steps[i])
    ensures t.data
            == if last < 0 then m.data
               else match steps[last].result
                    case NextState(_, data, _) => data
                    case KeepState(data, _) => data
                    case RepeatState(data, _) => data
                    case _ => m.data
    decreases |steps|
  {
    if steps != [] {
      RunUnfolds(m, steps, t);
      OnlyEventsChangeState(m, steps[0]);
      if last == 0 {
        HandledState(m, steps[0].result);
      }
      hide Apply, Runs, Enabled, HandledNext;
      RunKeepsLastData(Apply(m, steps[0]), steps[1..], t, if last <= 0 then -1 else last - 1);
    }
  }

  /** And the name is the one that the last NextState gave. */
  lemma {:induction false} RunKeepsLastName(m: Machine, steps: seq<Step>, t: Machine, last: int)
    requires Runs(m, steps, t) && -1 <= last < |steps|
    requires last >= 0 ==> steps[last].Handle? && steps[last].result.NextState?
    requires forall i :: last < i < |steps| ==> !(steps[i].Handle? && steps[i].result.NextState?)
    ensures t.name == if last < 0 then m.name else steps[last].result.name
    decreases |steps|
  {
    if steps != [] {
      RunUnfolds(m, steps, t);
      OnlyEventsChangeState(m, steps[0]);
      if last == 0 {
        HandledState(m, steps[0].result);
      }
      hide Apply, Runs, Enabled, HandledNext;
      RunKeepsLastName(Apply(m, steps[0]), steps[1..], t, if last <= 0 then -1 else last - 1);
    }
  }

  /** The initial ones are those of `init`. */
  lemma InitialState(name: Value, data: Value, actions: seq<Action>)
    ensures var m := Initial(name, data, actions);
            && m.name == name && m.data == data && m.running && m.mailbox == [] && m.postponed == []
            && m.replies == [] && m.flying == map[]
  {
    BegunTouchesTimers(actions, Blank(name, data));
  }

  /** What event a message is: when it arrives, and when the callback raises on it. */
  lemma EventsAre(m: Machine, message: Message, rest: seq<Message>)
    ensures var e := match message
                     case CallMessage(replyTo, payload, callId) => Event(Call, payload, Some(From(replyTo, callId)))
                     case CastMessage(payload) => Event(Cast, payload, None)
                     case TimeoutMessage(content) => Event(StateTimeout, content, None)
                     case InternalEvent(kind, content) => Event(kind, content, None)
                     case OtherMessage(content) => Event(Info, content, None)
                     case PostponedEvent(event) => event;
            && Apply(m, Arrive(message)) == m.(mailbox := m.mailbox + [message], arrived := m.arrived + [e])
            && (m.running && m.mailbox == [message] + rest ==>
                  HandledNext(m, Raised) == m.(mailbox := rest, running := false, consumed := m.consumed + [e]))
  {
    assert ([message] + rest)[1..] == rest;
  }

  /** A timer that fires is on its way; when its message lands, it is at the end of the mailbox. */
  lemma TimerLands(m: Machine, ref: nat)
    requires ref in m.live
    ensures Apply(m, Fire(ref)) == m.(live := m.live - {ref}, flying := m.flying[ref := m.live[ref]])
    ensures var t := Apply(m, Fire(ref));
            Apply(t, Land(ref)) == t.(flying := m.flying - {ref}, mailbox := m.mailbox + [TimeoutMessage(m.live[ref])],
                                      arrived := m.arrived + [Event(StateTimeout, m.live[ref], None)])
  {
    assert m.flying[ref := m.live[ref]] - {ref} == m.flying - {ref};
  }

  /** What one action does to a machine that keeps its state. */
  lemma OneActionDoes(m: Machine, e: Event, rest: seq<Message>, data: Value, a: Action)
    requires m.running && m.mailbox == [PostponedEvent(e)] + rest
    ensures var t := HandledNext(m, KeepState(data, [a]));
            var done := m.(mailbox := rest, data := data, consumed := m.consumed + [e]);
            match a
            case ReplyAction(None, _) => t == done.(running := false)
            case ReplyAction(Some(to), reply) => t == done.(replies := m.replies + [(to, reply)])
            case StateTimeoutAction(content) =>
              t == done.(live := (if m.timer.Some? then m.live - {m.timer.value} else m.live)[m.refs := content],
                         timer := Some(m.refs), refs := m.refs + 1)
            case PostponeAction => t == m.(mailbox := rest, data := data, postponed := m.postponed + [e])
            case NextEventAction(kind, content) =>
              t == done.(mailbox := rest + [InternalEvent(kind, content)], inserted := m.inserted + [Event(kind, content, None)])
            case UnknownAction => t == done
  {
    var d0 := Doing(m.(mailbox := rest, data := data), e.from, false, true);
    assert ([PostponedEvent(e)] + rest)[1..] == rest;
    assert ActAll(d0, [a]) == Act(d0, a) by {
      assert [a][1..] == [];
    }
    assert m.postponed + [] == m.postponed;
    hide ActAll;
  }

  class GenStatemLoop {
    var mailbox: seq<Message>
    var postponedEvents: seq<Event>
    var stateTimeoutRef: Option<nat>
    var liveTimers: map<nat, Value>
    /** Timers that have fired; a task of its own sends each one's message. */
    var flyingTimers: map<nat, Value>
    var refCounter: nat
    var stateName: Value
    var stateData: Value
    var running: bool
    var replies: seq<(From, Value)>
    ghost var arrived: seq<Event>
    ghost var inserted: seq<Event>
    ghost var consumed: seq<Event>

    ghost function State(): Machine
      reads this
    {
      Machine(mailbox, postponedEvents, stateTimeoutRef, liveTimers, flyingTimers, refCounter, stateName, stateData, running,
              replies, arrived, inserted, consumed)
    }

    constructor (name: Value, data: Value, actions: seq<Action>)
      ensures State() == Initial(name, data, actions)
    {
      mailbox, postponedEvents, stateTimeoutRef, liveTimers, flyingTimers, refCounter := [], [], None, map[], map[], 0;
      stateName, stateData, running, replies := name, data, true, [];
      arrived, inserted, consumed := [], [], [];
      new;
      for i := 0 to |actions|
        invariant Begun(actions[i..], State()) == Initial(name, data, actions)
      {
        assert actions[i..][1..] == actions[i + 1..];
        if actions[i].StateTimeoutAction? {
          ScheduleTimeout(actions[i].content);
        }
      }
    }

    method Send(message: Message)
      modifies this`mailbox, this`arrived
      ensures State() == Delivered(old(State()), message)
    {
      mailbox := mailbox + [message];
      arrived := arrived + [MessageToEvent(message)];
    }

    /** The wheel returns the timer, and a task is made to send its message. */
    method FireTimer(ref: nat)
      requires ref in liveTimers
      modifies this`liveTimers, this`flyingTimers
      ensures State() == Apply(old(State()), Fire(ref))
    {
      flyingTimers := flyingTimers[ref := liveTimers[ref]];
      liveTimers := liveTimers - {ref};
    }

    /** That task runs. */
    method LandTimer(ref: nat)
      requires ref in flyingTimers
      modifies this`mailbox, this`arrived, this`flyingTimers
      ensures State() == Apply(old(State()), Land(ref))
    {
      var content := flyingTimers[ref];
      flyingTimers := flyingTimers - {ref};
      Send(TimeoutMessage(content));
    }

    method CancelTimeout()
      modifies this`stateTimeoutRef, this`liveTimers
      ensures State() == Cancelled(old(State()))
    {
      if stateTimeoutRef.Some? {
        liveTimers := liveTimers - {stateTimeoutRef.value};
        stateTimeoutRef := None;
      }
    }

    method ScheduleTimeout(content: Value)
      modifies this`stateTimeoutRef, this`liveTimers, this`refCounter
      ensures State() == Scheduled(old(State()), content)
    {
      CancelTimeout();
      liveTimers := liveTimers[refCounter := content];
      stateTimeoutRef := Some(refCounter);
      refCounter := refCounter + 1;
    }

    /** The loop over the actions. */
    method DoActions(actions: seq<Action>, caller: Option<From>) returns (from: Option<From>, postpone: bool, ok: bool)
      modifies this`mailbox, this`stateTimeoutRef, this`liveTimers, this`refCounter, this`replies, this`inserted
      ensures Doing(State(), from, postpone, ok) == ActAll(Doing(old(State()), caller, false, true), actions)
    {
      ghost var d0 := Doing(State(), caller, false, true);
      from, postpone, ok := caller, false, true;
      for i := 0 to |actions|
        invariant ok && ActAll(Doing(State(), from, postpone, ok), actions[i..]) == ActAll(d0, actions)
      {
        assert actions[i..][1..] == actions[i + 1..];
        match actions[i]
        case ReplyAction(to, reply) =>
          from := to;
          if to.None? {
            ok := false;
            return;
          }
          replies := replies + [(to.value, reply)];
        case StateTimeoutAction(content) =>
          ScheduleTimeout(content);
        case PostponeAction =>
          postpone := true;
        case NextEventAction(kind, content) =>
          mailbox := mailbox + [InternalEvent(kind, content)];
          inserted := inserted + [Event(kind, content, None)];
        case UnknownAction =>
      }
    }

    /** Every postponed event is sent again, in order. */
    method Replay()
      modifies this`mailbox, this`postponedEvents
      ensures State() == Settled(old(State()), true, [])
    {
      ghost var m := State();
      for i := 0 to |postponedEvents|
        invariant postponedEvents == m.postponed
        invariant State() == m.(mailbox := m.mailbox + Replays(postponedEvents[..i]))
      {
        assert Replays(postponedEvents[..i + 1]) == Replays(postponedEvents[..i]) + [PostponedEvent(postponedEvents[i])];
        mailbox := mailbox + [PostponedEvent(postponedEvents[i])];
      }
      assert postponedEvents[..|postponedEvents|] == m.postponed == m.postponed + [];
      postponedEvents := [];
    }

    /** The new state and data, and what to do; the timeout of an old state is cancelled. */
    method EnterState(result: Result) returns (actions: seq<Action>)
      requires Goes(result)
      modifies this`stateName, this`stateData, this`liveTimers, this`stateTimeoutRef
      ensures actions == result.actions
      ensures stateData == match result
                           case NextState(_, data, _) => data
                           case KeepState(data, _) => data
                           case RepeatState(data, _) => data
                           case _ => stateData
      ensures stateName == if result.NextState? then result.name else old(stateName)
      ensures State() == if Changes(result) then Cancelled(Entered(old(State()), result)) else Entered(old(State()), result)
    {
      match result {
        case NextState(name, data, todo) => stateName, stateData, actions := name, data, todo;
        case KeepState(data, todo) => stateData, actions := data, todo;
        case RepeatState(data, todo) => stateData, actions := data, todo;
      }
      if result.NextState? || result.RepeatState? {
        CancelTimeout();
      }
    }

    method HandleNext(result: Result)
      requires running && mailbox != []
      modifies this
      ensures State() == HandledNext(old(State()), result)
    {
      ghost var m := State();
      var event := MessageToEvent(mailbox[0]);
      mailbox := mailbox[1..];
      if !result.NextState? && !result.KeepState? && !result.RepeatState? {
        running := false;
        consumed := consumed + [event];
        return;
      }
      var actions := EnterState(result);
      var from, postpone, ok := DoActions(actions, event.from);
      assert Doing(State(), from, postpone, ok) == Acted(m, result);
      hide Acted, ActAll, Settled, Entered, Cancelled;
      if ok {
        FinishEvent(event, from, postpone, result.NextState? || result.RepeatState?);
      } else {
        running := false;
        consumed := consumed + [event];
      }
    }

    /** The event is done with, or postponed under the caller that is now bound to it; then a change of state replays. */
    method FinishEvent(event: Event, from: Option<From>, postpone: bool, changed: bool)
      modifies this`mailbox, this`postponedEvents, this`consumed
      ensures State() == if postpone then Settled(old(State()), changed, [event.(from := from)])
                         else Settled(old(State()).(consumed := old(consumed) + [event]), changed, [])
    {
      if postpone {
        postponedEvents := postponedEvents + [event.(from := from)];
      } else {
        consumed := consumed + [event];
      }
      assert postponedEvents + [] == postponedEvents && old(postponedEvents) + [] == old(postponedEvents);
      if changed {
        Replay();
      }
    }
  }
}
