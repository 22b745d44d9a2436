/** What a timing wheel is for: a plain map from reference to timer, with the slot each timer waits in. */
module TimerMap {
  type Ref = string

  datatype Action = Send(target: string, message: string) | Call(callback: string)

  datatype Entry = Entry(expiry: int, action: Action, slot: nat)

  /** `tick` is the tick length in milliseconds. */
  datatype Config = Config(tick: int, slots: int)

  predicate Positive(c: Config) {
    c.tick > 0 && c.slots > 0
  }

  /** The live timers, the wheel position, the time, and the references that went in and out so far. */
  datatype State = State(
    live: map<Ref, Entry>,
    slot: nat,
    now: int,
    inserted: multiset<Ref>,
    fired: multiset<Ref>,
    cancelled: multiset<Ref>)

  function SlotFor(c: Config, slot: nat, delay: int): nat
    requires Positive(c)
  {
    (slot + delay / c.tick) % c.slots
  }

  function Insert(c: Config, s: State, ref: Ref, delay: int, action: Action): State
    requires Positive(c)
  {
    s.(live := s.live[ref := Entry(s.now + delay, action, SlotFor(c, s.slot, delay))],
       inserted := s.inserted + multiset{ref})
  }

  function Cancel(s: State, ref: Ref): State {
    if ref in s.live then s.(live := s.live - {ref}, cancelled := s.cancelled + multiset{ref}) else s
  }

  /** The timers that a tick at time `now` returns. */
  function Due(s: State, now: int): set<Ref> {
    set r | r in s.live && s.live[r].slot == s.slot && s.live[r].expiry <= now
  }

  function Tick(c: Config, s: State, now: int): State
    requires Positive(c)
  {
    State(s.live - Due(s, now), (s.slot + 1) % c.slots, now,
          s.inserted, s.fired + multiset(Due(s, now)), s.cancelled)
  }

  // ---------- Runs ----------

  datatype Op = OpInsert(ref: Ref, delay: int, action: Action) | OpCancel(ref: Ref) | OpTick(now: int)

  function Step(c: Config, s: State, op: Op): State
    requires Positive(c)
  {
    match op
    case OpInsert(ref, delay, action) => Insert(c, s, ref, delay, action)
    case OpCancel(ref) => Cancel(s, ref)
    case OpTick(now) => Tick(c, s, now)
  }

  function Run(c: Config, s: State, ops: seq<Op>): State
    requires Positive(c)
  {
    if ops == [] then s else Step(c, Run(c, s, ops[..|ops| - 1]), ops[|ops| - 1])
  }

  function Ticks(ops: seq<Op>): nat {
    if ops == [] then 0 else Ticks(ops[..|ops| - 1]) + if ops[|ops| - 1].OpTick? then 1 else 0
  }

  /** References are inserted only while they are not live. */
  predicate UniqueRefs(c: Config, s: State, ops: seq<Op>)
    requires Positive(c)
  {
    ops == []
    || (UniqueRefs(c, s, ops[..|ops| - 1])
        && (ops[|ops| - 1].OpInsert? ==> ops[|ops| - 1].ref !in Run(c, s, ops[..|ops| - 1]).live))
  }

  /** Each reference that went in was fired, was cancelled or is live, as often as it went in. */
  predicate Conserves(s: State) {
    s.inserted == s.fired + s.cancelled + multiset(s.live.Keys)
  }

  lemma {:induction false} RunConserves(c: Config, s: State, ops: seq<Op>)
    requires Positive(c) && Conserves(s) && UniqueRefs(c, s, ops)
    ensures Conserves(Run(c, s, ops))
  {
    if ops != [] {
      RunConserves(c, s, ops[..|ops| - 1]);
      StepConserves(c, Run(c, s, ops[..|ops| - 1]), ops[|ops| - 1]);
    }
  }

  lemma StepConserves(c: Config, s: State, op: Op)
    requires Positive(c) && Conserves(s) && (op.OpInsert? ==> op.ref !in s.live)
    ensures Conserves(Step(c, s, op))
  {
    match op
    case OpInsert(ref, delay, action) => InsertConserves(c, s, ref, delay, action);
    case OpCancel(ref) => CancelConserves(s, ref);
    case OpTick(now) => TickConserves(c, s, now);
  }

  lemma InsertConserves(c: Config, s: State, ref: Ref, delay: int, action: Action)
    requires Positive(c) && Conserves(s) && ref !in s.live
    ensures Conserves(Insert(c, s, ref, delay, action))
  {
    assert Insert(c, s, ref, delay, action).live.Keys == s.live.Keys + {ref};
    SetGrows(s.live.Keys, {ref});
    hide SlotFor;
  }

  lemma CancelConserves(s: State, ref: Ref)
    requires Conserves(s)
    ensures Conserves(Cancel(s, ref))
  {
    if ref in s.live {
      KeysSplit(s.live, {ref});
    }
  }

  lemma TickConserves(c: Config, s: State, now: int)
    requires Positive(c) && Conserves(s)
    ensures Conserves(Tick(c, s, now))
  {
    KeysSplit(s.live, Due(s, now));
    hide Due;
  }

  lemma SetGrows(a: set<Ref>, b: set<Ref>)
    requires a !! b
    ensures multiset(a + b) == multiset(a) + multiset(b)
  {
  }

  lemma KeysSplit(m: map<Ref, Entry>, gone: set<Ref>)
    requires gone <= m.Keys
    ensures multiset(m.Keys) == multiset((m - gone).Keys) + multiset(gone)
  {
    assert m.Keys == (m - gone).Keys + gone;
    SetGrows((m - gone).Keys, gone);
  }

  // ---------- Deadlines ----------

  /** The run leaves `ref` alone, and each tick's clock is at least, or exactly, one tick length on. */
  predicate Steady(c: Config, s: State, ops: seq<Op>, ref: Ref, exact: bool)
    requires Positive(c)
  {
    ops == []
    || (var before := ops[..|ops| - 1];
        Steady(c, s, before, ref, exact)
        && match ops[|ops| - 1]
           case OpInsert(r, _, _) => r != ref
           case OpCancel(r) => r != ref
           case OpTick(now) =>
             var due := Run(c, s, before).now + c.tick;
             if exact then now == due else now >= due)
  }

  lemma SteadyUnfolds(c: Config, s: State, ops: seq<Op>, ref: Ref, exact: bool)
    requires Positive(c) && ops != [] && Steady(c, s, ops, ref, exact)
    ensures var before, op := ops[..|ops| - 1], ops[|ops| - 1];
            && Steady(c, s, before, ref, exact)
            && Run(c, s, ops) == Step(c, Run(c, s, before), op)
            && Ticks(ops) == Ticks(before) + (if op.OpTick? then 1 else 0)
            && (op.OpInsert? ==> op.ref != ref)
            && (op.OpCancel? ==> op.ref != ref)
            && (op.OpTick? ==> op.now >= Run(c, s, before).now + c.tick)
            && (op.OpTick? && exact ==> op.now == Run(c, s, before).now + c.tick)
  {
  }

  /** How many ticks a timer waits for its slot to come round when its expiry does not hold it back. */
  function Wait(c: Config, delay: int): nat
    requires Positive(c)
  {
    if delay >= 0 then delay / c.tick else delay / c.tick % c.slots
  }

  lemma SmallMultiple(k: int, n: int)
    requires n > 0 && -n < k * n < n
    ensures k == 0
  {
    assert -k * n == -(k * n);
    if k > 0 {
      AtLeast(k, n);
    } else if k < 0 {
      AtLeast(-k, n);
    }
  }

  lemma AtLeast(k: int, n: int)
    requires k >= 1 && n > 0
    ensures k * n >= n
  {
  }

  /** Quotient and remainder are unique. */
  lemma DivMod(x: int, n: int, q: int, r: int)
    requires n > 0 && 0 <= r < n && x == q * n + r
    ensures x / n == q && x % n == r
  {
    assert x == x / n * n + x % n;
    assert (x / n - q) * n == x / n * n - q * n;
    SmallMultiple(x / n - q, n);
  }

  lemma ModAdds(a: int, b: int, n: int)
    requires n > 0
    ensures (a % n + b) % n == (a + b) % n
  {
    var x := a % n + b;
    var q, r := x / n, x % n;
    assert a == a / n * n + a % n && x == q * n + r;
    assert a + b == (a / n + q) * n + r by {
      assert (a / n + q) * n == a / n * n + q * n;
    }
    DivMod(a + b, n, a / n + q, r);
  }

  lemma StepWaits(c: Config, s: State, op: Op, ref: Ref)
    requires Positive(c) && (op.OpInsert? ==> op.ref != ref)
    ensures var t := Step(c, s, op);
            && (ref in t.live ==> ref in s.live && t.live[ref] == s.live[ref])
            && t.slot == (if op.OpTick? then (s.slot + 1) % c.slots else s.slot)
            && t.now == (if op.OpTick? then op.now else s.now)
  {
  }

  /** Slot and time after `k` ticks from `s`. */
  predicate MovedOn(c: Config, s: State, t: State, k: nat, exact: bool)
    requires Positive(c)
  {
    && t.slot == (s.slot + k) % c.slots
    && t.now >= s.now + k * c.tick
    && (exact ==> t.now == s.now + k * c.tick)
  }

  lemma SameMoves(c: Config, s: State, t: State, u: State, k: nat, exact: bool)
    requires Positive(c) && MovedOn(c, s, t, k, exact) && u.slot == t.slot && u.now == t.now
    ensures MovedOn(c, s, u, k, exact)
  {
  }

  lemma MovesOn(c: Config, s: State, t: State, u: State, k: nat, exact: bool)
    requires Positive(c) && MovedOn(c, s, t, k, exact)
    requires u.slot == (t.slot + 1) % c.slots && u.now >= t.now + c.tick && (exact ==> u.now == t.now + c.tick)
    ensures MovedOn(c, s, u, k + 1, exact)
  {
    ModAdds(s.slot + k, 1, c.slots);
    OneTickMore(k, k + 1, c.tick);
  }

  lemma OneTickMore(before: nat, after: nat, tick: int)
    requires after == before + 1
    ensures after * tick == before * tick + tick
  {
  }

  /** While `ref` is live, its entry stays, and slot and time have moved on with the ticks. */
  lemma {:induction false} LiveTimerWaits(c: Config, s: State, ops: seq<Op>, ref: Ref, exact: bool)
    requires Positive(c) && s.slot < c.slots && Steady(c, s, ops, ref, exact)
    ensures var t := Run(c, s, ops);
            && (ref in t.live ==> ref in s.live && t.live[ref] == s.live[ref])
            && MovedOn(c, s, t, Ticks(ops), exact)
  {
    if ops == [] {
      assert s.slot % c.slots == s.slot;
    } else {
      var before := ops[..|ops| - 1];
      SteadyUnfolds(c, s, ops, ref, exact);
      LiveTimerWaits(c, s, before, ref, exact);
      StepWaits(c, Run(c, s, before), ops[|ops| - 1], ref);
      hide Run, Step, Ticks, Steady, MovedOn;
      if ops[|ops| - 1].OpTick? {
        MovesOn(c, s, Run(c, s, before), Run(c, s, ops), Ticks(before), exact);
      } else {
        SameMoves(c, s, Run(c, s, before), Run(c, s, ops), Ticks(before), exact);
      }
    }
  }

  lemma ModDiffers(a: int, d: int, n: int)
    requires 0 < d < n
    ensures (a + d) % n != a % n
  {
    var p, q := (a + d) / n, a / n;
    assert a + d == p * n + (a + d) % n && a == q * n + a % n;
    assert (p - q) * n == p * n - q * n;
    if (a + d) % n == a % n {
      SmallMultiple(p - q, n);
    }
  }

  lemma MulOrder(a: int, b: int, n: int)
    requires a <= b && n > 0
    ensures a * n <= b * n
  {
  }

  /** After `k + 1` tick lengths a delay of `delay` is over, in terms of whole ticks. */
  lemma TimeIsUp(c: Config, delay: int, k: nat)
    requires Positive(c)
    ensures delay <= (k + 1) * c.tick
            <==> delay < 0 || k >= delay / c.tick || (k + 1 == delay / c.tick && delay % c.tick == 0)
  {
    var q, r, t := delay / c.tick, delay % c.tick, c.tick;
    assert delay == q * t + r && 0 <= r < t;
    assert (q + 1) * t == q * t + t && (q - 1) * t == q * t - t;
    if delay >= 0 {
      if k >= q {
        MulOrder(q + 1, k + 1, t);
      } else if k + 1 < q {
        MulOrder(k + 1, q - 1, t);
      }
    } else {
      MulOrder(0, k + 1, t);
    }
  }

  lemma SlotAfterWait(c: Config, slot: nat, delay: int)
    requires Positive(c)
    ensures (slot + Wait(c, delay)) % c.slots == SlotFor(c, slot, delay)
  {
    if delay < 0 {
      ModAdds(delay / c.tick, slot, c.slots);
    }
  }

  /** A timer is never returned before its expiry. */
  lemma NeverEarly(s: State, now: int, ref: Ref)
    requires ref in Due(s, now)
    ensures ref in s.live && s.live[ref].expiry <= now
  {
  }

  lemma DueAtLast(c: Config, s: State, ref: Ref, delay: int, action: Action, t: State, now: int)
    requires Positive(c) && s.slot < c.slots
    requires ref in t.live && t.live[ref] == Insert(c, s, ref, delay, action).live[ref]
    requires t.slot == (s.slot + Wait(c, delay)) % c.slots && now >= s.now + (Wait(c, delay) + 1) * c.tick
    ensures ref in Due(t, now)
  {
    SlotAfterWait(c, s.slot, delay);
    TimeIsUp(c, delay, Wait(c, delay));
  }

  /** If every tick is at least a tick length on, a timer still live has seen at most `Wait` ticks. */
  lemma {:induction false} FiresInTime(c: Config, s: State, ref: Ref, delay: int, action: Action, ops: seq<Op>)
    requires Positive(c) && s.slot < c.slots
    requires Steady(c, Insert(c, s, ref, delay, action), ops, ref, false)
    ensures ref in Run(c, Insert(c, s, ref, delay, action), ops).live ==> Ticks(ops) <= Wait(c, delay)
  {
    var s1 := Insert(c, s, ref, delay, action);
    if ops != [] {
      var before := ops[..|ops| - 1];
      SteadyUnfolds(c, s1, ops, ref, false);
      FiresInTime(c, s, ref, delay, action, before);
      LiveTimerWaits(c, s1, before, ref, false);
      StepWaits(c, Run(c, s1, before), ops[|ops| - 1], ref);
      hide Steady, Run, Ticks, Wait;
      var k := Ticks(before);
      OneTickMore(k, k + 1, c.tick);
      if ops[|ops| - 1].OpTick? && k == Wait(c, delay) && ref in Run(c, s1, before).live {
        DueAtLast(c, s, ref, delay, action, Run(c, s1, before), ops[|ops| - 1].now);
      }
    }
  }

  /** The tick that returns the timer when each tick is exactly one tick length on. */
  function FireTick(c: Config, delay: int): nat
    requires Positive(c)
  {
    if c.slots == 1 && delay >= c.tick && delay % c.tick == 0 then delay / c.tick else Wait(c, delay) + 1
  }

  /** With an exact clock, tick number `k + 1` finds the timer due just when it is the firing tick. */
  lemma DueExactly(c: Config, s: State, ref: Ref, delay: int, action: Action, t: State, k: nat, now: int)
    requires Positive(c) && s.slot < c.slots && k < FireTick(c, delay)
    requires ref in t.live && t.live[ref] == Insert(c, s, ref, delay, action).live[ref]
    requires t.slot == (s.slot + k) % c.slots && now == s.now + (k + 1) * c.tick
    ensures ref in Due(t, now) <==> k + 1 == FireTick(c, delay)
  {
    var w := Wait(c, delay);
    SlotAfterWait(c, s.slot, delay);
    TimeIsUp(c, delay, k);
    if delay < 0 {
      if k < w {
        ModDiffers(s.slot + k, w - k, c.slots);
      }
    } else if k + 1 == w && c.slots > 1 {
      ModDiffers(s.slot + k, 1, c.slots);
    } else if c.slots == 1 {
      assert (s.slot + k) % 1 == 0 && (s.slot + w) % 1 == 0;
    }
  }

  /** With an exact clock, a timer that is left alone is live for exactly `FireTick - 1` ticks. */
  lemma {:induction false} FiresExactly(c: Config, s: State, ref: Ref, delay: int, action: Action, ops: seq<Op>)
    requires Positive(c) && s.slot < c.slots
    requires Steady(c, Insert(c, s, ref, delay, action), ops, ref, true)
    ensures ref in Run(c, Insert(c, s, ref, delay, action), ops).live <==> Ticks(ops) < FireTick(c, delay)
  {
    var s1 := Insert(c, s, ref, delay, action);
    if ops != [] {
      var before := ops[..|ops| - 1];
      var op := ops[|ops| - 1];
      SteadyUnfolds(c, s1, ops, ref, true);
      FiresExactly(c, s, ref, delay, action, before);
      LiveTimerWaits(c, s1, before, ref, true);
      StepWaits(c, Run(c, s1, before), op, ref);
      hide Steady, Run, Ticks, FireTick;
      var k := Ticks(before);
      if op.OpTick? && ref in Run(c, s1, before).live {
        assert (k + 1) * c.tick == k * c.tick + c.tick;
        DueExactly(c, s, ref, delay, action, Run(c, s1, before), k, op.now);
      }
    }
  }

  /** A wheel of one slot, ticks of 10, and a timer that is to wait 10: gone after one tick, where two were asked for. */
  lemma OneSlotFiresEarly(ref: Ref, action: Action)
    ensures var c, s := Config(10, 1), State(map[], 0, 0, multiset{}, multiset{}, multiset{});
            10 / c.tick + 1 == 2 && ref !in Run(c, Insert(c, s, ref, 10, action), [OpTick(10)]).live
  {
    var c, s := Config(10, 1), State(map[], 0, 0, multiset{}, multiset{}, multiset{});
    var s1 := Insert(c, s, ref, 10, action);
    assert [OpTick(10)][..0] == [];
    assert Run(c, s1, [OpTick(10)]) == Step(c, Run(c, s1, []), OpTick(10));
    assert ref in Due(s1, 10);
  }

  // ---------- Readings ----------

  /** The run neither inserts nor cancels `ref`; the clock may do anything. */
  predicate LeavesAlone(ops: seq<Op>, ref: Ref) {
    forall op :: op in ops ==> (op.OpInsert? ==> op.ref != ref) && (op.OpCancel? ==> op.ref != ref)
  }

  lemma {:induction false} EntryStays(c: Config, s: State, ops: seq<Op>, ref: Ref)
    requires Positive(c) && LeavesAlone(ops, ref) && ref in Run(c, s, ops).live
    ensures ref in s.live && Run(c, s, ops).live[ref] == s.live[ref]
  {
    if ops != [] {
      var n := |ops| - 1;
      assert ops == ops[..n] + [ops[n]];
      StepWaits(c, Run(c, s, ops[..n]), ops[n], ref);
      EntryStays(c, s, ops[..n], ref);
    }
  }

  /** What is read off a timer that was put in with `delay` and is still live after a run that leaves it alone: reading and
      time passed make up the delay, until the delay is over; from then on the reading is 0. At once it is the delay. */
  lemma ReadingCountsDown(c: Config, s: State, ref: Ref, delay: int, action: Action, ops: seq<Op>, left: int)
    requires Positive(c) && LeavesAlone(ops, ref) && ref in Run(c, Insert(c, s, ref, delay, action), ops).live
    requires var t := Run(c, Insert(c, s, ref, delay, action), ops);
             if t.live[ref].expiry <= t.now then left == 0 else t.now + left == t.live[ref].expiry
    ensures var passed := Run(c, Insert(c, s, ref, delay, action), ops).now - s.now;
            && (left > 0 ==> left + passed == delay)
            && (left == 0 <==> passed >= delay)
            && left >= 0
            && (ops == [] && delay >= 0 ==> left == delay)
  {
    EntryStays(c, Insert(c, s, ref, delay, action), ops, ref);
  }

  /** With an exact clock that is the delay less the ticks. */
  lemma ReadingAfterTicks(c: Config, s: State, ref: Ref, delay: int, action: Action, ops: seq<Op>, left: int)
    requires Positive(c) && s.slot < c.slots && Steady(c, Insert(c, s, ref, delay, action), ops, ref, true)
    requires ref in Run(c, Insert(c, s, ref, delay, action), ops).live
    requires var t := Run(c, Insert(c, s, ref, delay, action), ops);
             if t.live[ref].expiry <= t.now then left == 0 else t.now + left == t.live[ref].expiry
    ensures left == if delay > Ticks(ops) * c.tick then delay - Ticks(ops) * c.tick else 0
  {
    LiveTimerWaits(c, Insert(c, s, ref, delay, action), ops, ref, true);
  }

  /** The firing tick is the one the delay asks for, except on a one-slot wheel with a whole number of ticks to wait. */
  lemma OnTimeIff(c: Config, delay: nat)
    requires Positive(c)
    ensures FireTick(c, delay) == delay / c.tick + 1 <==> c.slots >= 2 || delay < c.tick || delay % c.tick != 0
  {
  }
}
