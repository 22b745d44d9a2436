/** The timing wheel: a circular list of slots, an index into it, and cancellation by marking. */
module TimingWheel {
  import opened Wrappers
  import opened TimerMap

  datatype Timer = Timer(ref: Ref, expiry: int, action: Action, cancelled: bool)

  datatype Location = Location(slot: nat, index: nat)

  type Wheel = seq<seq<Timer>>

  type Index = map<Ref, Location>

  predicate InRange(wheel: Wheel, loc: Location) {
    loc.slot < |wheel| && loc.index < |wheel[loc.slot]|
  }

  function TimerAt(wheel: Wheel, loc: Location): Timer
    requires InRange(wheel, loc)
  {
    wheel[loc.slot][loc.index]
  }

  /** Every indexed reference leads to its own timer, which is not cancelled. */
  ghost predicate Located(wheel: Wheel, index: Index) {
    forall ref :: ref in index ==>
      && InRange(wheel, index[ref])
      && TimerAt(wheel, index[ref]).ref == ref
      && !TimerAt(wheel, index[ref]).cancelled
  }

  /** Every timer that is not cancelled is indexed where it is. */
  ghost predicate Indexed(wheel: Wheel, index: Index) {
    forall s, i :: 0 <= s < |wheel| && 0 <= i < |wheel[s]| && !wheel[s][i].cancelled ==>
      wheel[s][i].ref in index && index[wheel[s][i].ref] == Location(s, i)
  }

  function EntryOf(t: Timer, slot: nat): Entry {
    Entry(t.expiry, t.action, slot)
  }

  ghost function LiveOf(wheel: Wheel, index: Index): map<Ref, Entry>
    requires Located(wheel, index)
  {
    map ref | ref in index :: EntryOf(TimerAt(wheel, index[ref]), index[ref].slot)
  }

  // ---------- What a tick does to one slot ----------

  predicate Expires(t: Timer, now: int) {
    !t.cancelled && t.expiry <= now
  }

  predicate Remains(t: Timer, now: int) {
    !t.cancelled && t.expiry > now
  }

  function Expired(ts: seq<Timer>, now: int): seq<Timer> {
    if ts == [] then []
    else
      var before := Expired(ts[..|ts| - 1], now);
      if Expires(ts[|ts| - 1], now) then before + [ts[|ts| - 1]] else before
  }

  function Remaining(ts: seq<Timer>, now: int): seq<Timer> {
    if ts == [] then []
    else
      var before := Remaining(ts[..|ts| - 1], now);
      if Remains(ts[|ts| - 1], now) then before + [ts[|ts| - 1]] else before
  }

  /** What a tick takes off a slot comes in the order of the slot. */
  lemma {:induction false} ExpiredInOrder(ts: seq<Timer>, now: int)
    ensures InOrder(Expired(ts, now), ts)
  {
    if ts != [] {
      var n := |ts| - 1;
      var before := Expired(ts[..n], now);
      ExpiredInOrder(ts[..n], now);
      var places: seq<nat> :| Places(before, ts[..n], places);
      if Expires(ts[n], now) {
        assert Places(before + [ts[n]], ts, places + [n]);
      } else {
        assert Places(before, ts, places);
      }
    } else {
      assert Places([], ts, []);
    }
  }

  ghost predicate Places(sub: seq<Timer>, ts: seq<Timer>, places: seq<nat>) {
    && |places| == |sub|
    && (forall i :: 0 <= i < |sub| ==> places[i] < |ts| && ts[places[i]] == sub[i])
    && (forall i, j :: 0 <= i < j < |sub| ==> places[i] < places[j])
  }

  /** `sub` is `ts` with some left out. */
  ghost predicate InOrder(sub: seq<Timer>, ts: seq<Timer>) {
    exists places: seq<nat> :: Places(sub, ts, places)
  }

  lemma {:induction false} SplitOf(ts: seq<Timer>, now: int)
    ensures forall t :: t in Expired(ts, now) <==> t in ts && Expires(t, now)
    ensures forall t :: t in Remaining(ts, now) <==> t in ts && Remains(t, now)
  {
    if ts != [] {
      var n := |ts| - 1;
      SplitOf(ts[..n], now);
      assert ts == ts[..n] + [ts[n]];
    }
  }

  /** No two timers that are not cancelled share a reference. */
  ghost predicate Distinct(ts: seq<Timer>) {
    forall i, j :: 0 <= i < j < |ts| && !ts[i].cancelled && !ts[j].cancelled ==> ts[i].ref != ts[j].ref
  }

  function Refs(ts: seq<Timer>): set<Ref> {
    set t | t in ts :: t.ref
  }

  lemma LastIsNew(ts: seq<Timer>)
    requires Distinct(ts) && ts != [] && !ts[|ts| - 1].cancelled
    ensures forall u :: u in ts[..|ts| - 1] && !u.cancelled ==> u.ref != ts[|ts| - 1].ref
  {
  }

  lemma AppendDistinct(ts: seq<Timer>, t: Timer)
    requires Distinct(ts) && forall u :: u in ts ==> u.ref != t.ref
    requires |Refs(ts)| == |ts|
    ensures Distinct(ts + [t]) && |Refs(ts + [t])| == |ts| + 1
  {
    assert Refs(ts + [t]) == Refs(ts) + {t.ref};
    assert t.ref !in Refs(ts);
  }

  lemma {:induction false} SplitIsDistinct(ts: seq<Timer>, now: int)
    requires Distinct(ts)
    ensures Distinct(Expired(ts, now)) && |Refs(Expired(ts, now))| == |Expired(ts, now)|
    ensures Distinct(Remaining(ts, now)) && |Refs(Remaining(ts, now))| == |Remaining(ts, now)|
  {
    if ts != [] {
      var n := |ts| - 1;
      SplitIsDistinct(ts[..n], now);
      SplitOf(ts[..n], now);
      hide Distinct, Refs;
      if !ts[n].cancelled {
        LastIsNew(ts);
        if Expires(ts[n], now) {
          AppendDistinct(Expired(ts[..n], now), ts[n]);
        } else {
          AppendDistinct(Remaining(ts[..n], now), ts[n]);
        }
      }
    } else {
      assert Refs([]) == {};
    }
  }

  lemma SlotIsDistinct(wheel: Wheel, index: Index, s: nat)
    requires Indexed(wheel, index) && s < |wheel|
    ensures Distinct(wheel[s])
  {
  }

  function Inserted(wheel: Wheel, slot: nat, t: Timer): Wheel
    requires slot < |wheel|
  {
    wheel[slot := wheel[slot] + [t]]
  }

  lemma InsertKeeps(wheel: Wheel, index: Index, slot: nat, t: Timer)
    requires Located(wheel, index) && Indexed(wheel, index) && slot < |wheel| && t.ref !in index && !t.cancelled
    ensures var wheel' := Inserted(wheel, slot, t);
            var index' := index[t.ref := Location(slot, |wheel[slot]|)];
            && Located(wheel', index') && Indexed(wheel', index')
            && LiveOf(wheel', index') == LiveOf(wheel, index)[t.ref := EntryOf(t, slot)]
  {
  }

  function Marked(wheel: Wheel, loc: Location): Wheel
    requires InRange(wheel, loc)
  {
    wheel[loc.slot := wheel[loc.slot][loc.index := TimerAt(wheel, loc).(cancelled := true)]]
  }

  lemma CancelKeeps(wheel: Wheel, index: Index, ref: Ref)
    requires Located(wheel, index) && Indexed(wheel, index) && ref in index
    ensures var wheel' := Marked(wheel, index[ref]);
            && Located(wheel', index - {ref}) && Indexed(wheel', index - {ref})
            && LiveOf(wheel', index - {ref}) == LiveOf(wheel, index) - {ref}
  {
    var wheel' := Marked(wheel, index[ref]);
    forall r | r in index - {ref}
      ensures InRange(wheel', index[r]) && TimerAt(wheel', index[r]) == TimerAt(wheel, index[r])
    {
      assert InRange(wheel, index[r]) && TimerAt(wheel, index[r]).ref == r;
      assert index[r] != index[ref];
    }
    forall s, i | 0 <= s < |wheel'| && 0 <= i < |wheel'[s]| && !wheel'[s][i].cancelled
      ensures wheel'[s][i] == wheel[s][i] && wheel[s][i].ref != ref
    {
      assert Location(s, i) != index[ref];
    }
  }

  datatype Stats = Stats(totalInserted: int, totalFired: int, totalCancelled: int, currentActive: int)

  /** Wheel and index hold the live timers of `s`, and nothing else that is not cancelled. */
  ghost predicate Holds(c: Config, wheel: Wheel, index: Index, s: State) {
    && Positive(c) && |wheel| == c.slots && s.slot < c.slots
    && Located(wheel, index) && Indexed(wheel, index) && s.live == LiveOf(wheel, index)
  }

  ghost predicate Tallied(s: State, stats: Stats) {
    Conserves(s) && stats == Stats(|s.inserted|, |s.fired|, |s.cancelled|, |s.live|)
  }

  /** Wheel, index and statistics stand for the plain map `s`. */
  ghost predicate Sound(c: Config, wheel: Wheel, index: Index, s: State, stats: Stats) {
    Holds(c, wheel, index, s) && Tallied(s, stats)
  }

  /** The totals add up, and the active count is the size of the index. */
  lemma StatsAddUp(c: Config, wheel: Wheel, index: Index, s: State, stats: Stats)
    requires Sound(c, wheel, index, s, stats)
    ensures stats.totalInserted == stats.totalFired + stats.totalCancelled + stats.currentActive
    ensures stats.currentActive == |index|
  {
    SameSize(s.live, index);
    assert |multiset(s.live.Keys)| == |s.live.Keys| == |s.live|;
  }

  lemma SameSize(live: map<Ref, Entry>, index: Index)
    requires live.Keys == index.Keys
    ensures |live| == |index|
  {
    assert |live| == |live.Keys| && |index| == |index.Keys|;
  }

  lemma StartSound(c: Config, now: int)
    requires Positive(c)
    ensures Sound(c, seq(c.slots, i => []), map[], State(map[], 0, now, multiset{}, multiset{}, multiset{}), Stats(0, 0, 0, 0))
  {
  }

  lemma InsertTallied(c: Config, s: State, st: Stats, ref: Ref, delay: int, action: Action)
    requires Positive(c) && Tallied(s, st) && ref !in s.live
    ensures Tallied(TimerMap.Insert(c, s, ref, delay, action),
                    st.(totalInserted := st.totalInserted + 1, currentActive := st.currentActive + 1))
  {
    InsertConserves(c, s, ref, delay, action);
    hide Conserves, SlotFor;
  }

  lemma CancelTallied(s: State, st: Stats, ref: Ref)
    requires Tallied(s, st) && ref in s.live
    ensures Tallied(TimerMap.Cancel(s, ref),
                    st.(totalCancelled := st.totalCancelled + 1, currentActive := st.currentActive - 1))
  {
    CancelConserves(s, ref);
    assert |s.live - {ref}| == |s.live| - 1 by {
      FewerKeys(s.live, {ref});
    }
    hide Conserves;
  }

  lemma FewerKeys(m: map<Ref, Entry>, gone: set<Ref>)
    requires gone <= m.Keys
    ensures |m - gone| == |m| - |gone|
  {
    assert m.Keys == (m - gone).Keys + gone;
    assert |m| == |m.Keys| && |m - gone| == |(m - gone).Keys|;
  }

  lemma InsertHolds(c: Config, wheel: Wheel, index: Index, s: State, ref: Ref, delay: int, action: Action)
    requires Holds(c, wheel, index, s) && ref !in s.live
    ensures Positive(c) && SlotFor(c, s.slot, delay) < |wheel| && |wheel| == c.slots
    ensures var slot := SlotFor(c, s.slot, delay);
            Holds(c, Inserted(wheel, slot, Timer(ref, s.now + delay, action, false)),
                  index[ref := Location(slot, |wheel[slot]|)], TimerMap.Insert(c, s, ref, delay, action))
  {
    var slot := SlotFor(c, s.slot, delay);
    var t := Timer(ref, s.now + delay, action, false);
    assert ref !in index;
    InsertKeeps(wheel, index, slot, t);
    assert |Inserted(wheel, slot, t)| == c.slots && EntryOf(t, slot) == Entry(s.now + delay, action, slot);
    hide Located, Indexed, LiveOf, Inserted, SlotFor;
  }

  lemma InsertSound(c: Config, wheel: Wheel, index: Index, s: State, st: Stats, ref: Ref, delay: int, action: Action)
    requires Sound(c, wheel, index, s, st) && ref !in s.live
    ensures Positive(c) && SlotFor(c, s.slot, delay) < |wheel| && |wheel| == c.slots
    ensures var slot := SlotFor(c, s.slot, delay);
            Sound(c, Inserted(wheel, slot, Timer(ref, s.now + delay, action, false)),
                  index[ref := Location(slot, |wheel[slot]|)], TimerMap.Insert(c, s, ref, delay, action),
                  st.(totalInserted := st.totalInserted + 1, currentActive := st.currentActive + 1))
  {
    hide Holds, Tallied, SlotFor, Inserted, TimerMap.Insert;
    InsertHolds(c, wheel, index, s, ref, delay, action);
    InsertTallied(c, s, st, ref, delay, action);
  }

  /** Wheel and index stand for some plain map. */
  ghost predicate Stands(c: Config, wheel: Wheel, index: Index) {
    exists s: State, st: Stats :: Sound(c, wheel, index, s, st)
  }

  lemma SlotIsThere(c: Config, wheel: Wheel, index: Index, s: State, st: Stats, delay: int)
    requires Sound(c, wheel, index, s, st)
    ensures Positive(c) && |wheel| == c.slots && SlotFor(c, s.slot, delay) < |wheel|
  {
  }

  /** Wheel and index stand for some plain map after an insertion just when the reference was not live. A live
      one is put in a second time: both timers fire, and only the second can be cancelled. */
  lemma InsertSoundIff(c: Config, wheel: Wheel, index: Index, s: State, st: Stats, ref: Ref, delay: int, action: Action)
    requires Sound(c, wheel, index, s, st)
    ensures Positive(c) && SlotFor(c, s.slot, delay) < |wheel|
    ensures var slot := SlotFor(c, s.slot, delay);
            Stands(c, Inserted(wheel, slot, Timer(ref, s.now + delay, action, false)),
                   index[ref := Location(slot, |wheel[slot]|)])
            <==> ref !in s.live
  {
    SlotIsThere(c, wheel, index, s, st, delay);
    if ref !in s.live {
      InsertSound(c, wheel, index, s, st, ref, delay, action);
    } else {
      TwoAreNotIndexed(c, wheel, index, SlotFor(c, s.slot, delay), Timer(ref, s.now + delay, action, false));
      hide Indexed, Inserted, Located, LiveOf, Tallied, SlotFor;
    }
  }

  lemma TwoAreNotIndexed(c: Config, wheel: Wheel, index: Index, slot: nat, t: Timer)
    requires Located(wheel, index) && t.ref in index && slot < |wheel|
    ensures !Indexed(Inserted(wheel, slot, t), index[t.ref := Location(slot, |wheel[slot]|)])
  {
    var loc := index[t.ref];
    assert InRange(wheel, loc) && TimerAt(wheel, loc).ref == t.ref;
    assert Inserted(wheel, slot, t)[loc.slot][loc.index] == TimerAt(wheel, loc);
  }

  lemma InsertReady(c: Config, wheel: Wheel, index: Index, s: State, st: Stats, ref: Ref, delay: int, action: Action)
    requires Sound(c, wheel, index, s, st)
    ensures Positive(c) && |wheel| == c.slots && SlotFor(c, s.slot, delay) < |wheel|
    ensures var slot, t := SlotFor(c, s.slot, delay), TimerMap.Insert(c, s, ref, delay, action);
            && t.slot == s.slot && t.now == s.now
            && (ref !in s.live ==>
                  Sound(c, Inserted(wheel, slot, Timer(ref, s.now + delay, action, false)),
                        index[ref := Location(slot, |wheel[slot]|)], t,
                        st.(totalInserted := st.totalInserted + 1, currentActive := st.currentActive + 1)))
  {
    SlotIsThere(c, wheel, index, s, st, delay);
    if ref !in s.live {
      InsertSound(c, wheel, index, s, st, ref, delay, action);
    }
    hide Sound, Inserted;
  }

  /** On the same wheel twice under one reference: cancelling it leaves the first timer, and that one fires. */
  lemma SecondInsertHidesFirst(ref: Ref, action: Action)
    ensures var t := Timer(ref, 10, action, false);
            var wheel := Inserted(Inserted([[], []], 1, t), 1, t);
            && Marked(wheel, Location(1, 1)) == [[], [t, t.(cancelled := true)]]
            && Expired(Marked(wheel, Location(1, 1))[1], 10) == [t]
  {
    var t := Timer(ref, 10, action, false);
    var u := t.(cancelled := true);
    assert [] + [t] == [t] && [t] + [t] == [t, t];
    assert Inserted([[], []], 1, t) == [[], [t]];
    assert Inserted([[], [t]], 1, t) == [[], [t, t]];
    assert [t, t][1 := u] == [t, u];
    assert Marked([[], [t, t]], Location(1, 1)) == [[], [t, u]];
    assert [t, u][..1] == [t] && [t][..0] == [];
    assert Expired([t], 10) == [t];
  }

  lemma LocatedAt(wheel: Wheel, index: Index, ref: Ref)
    requires Located(wheel, index) && ref in index
    ensures InRange(wheel, index[ref])
  {
  }

  lemma IndexIsLive(c: Config, wheel: Wheel, index: Index, s: State, st: Stats)
    requires Sound(c, wheel, index, s, st)
    ensures index.Keys == s.live.Keys
  {
  }

  lemma CancelSound(c: Config, wheel: Wheel, index: Index, s: State, st: Stats, ref: Ref)
    requires Sound(c, wheel, index, s, st) && ref in index
    ensures InRange(wheel, index[ref]) && TimerMap.Cancel(s, ref).slot == s.slot && TimerMap.Cancel(s, ref).now == s.now
    ensures Sound(c, Marked(wheel, index[ref]), index - {ref}, TimerMap.Cancel(s, ref),
                  st.(totalCancelled := st.totalCancelled + 1, currentActive := st.currentActive - 1))
  {
    IndexIsLive(c, wheel, index, s, st);
    hide Located, Indexed, LiveOf, Tallied;
    LocatedAt(wheel, index, ref);
    CancelKeeps(wheel, index, ref);
    CancelTallied(s, st, ref);
  }

  function Swept(st: Stats, fired: nat): Stats {
    st.(totalFired := st.totalFired + fired, currentActive := st.currentActive - fired)
  }

  lemma SweepOneMore(ts: seq<Timer>, i: nat, now: int)
    requires i < |ts|
    ensures Expired(ts[..i + 1], now) == Expired(ts[..i], now) + if Expires(ts[i], now) then [ts[i]] else []
    ensures Remaining(ts[..i + 1], now) == Remaining(ts[..i], now) + if Remains(ts[i], now) then [ts[i]] else []
  {
    assert ts[..i + 1][..i] == ts[..i];
  }

  lemma RefsOneMore(index: Index, ts: seq<Timer>, t: Timer)
    ensures index - Refs(ts + [t]) == index - Refs(ts) - {t.ref}
  {
    assert Refs(ts + [t]) == Refs(ts) + {t.ref};
  }

  /** `after` is `before` with the first `k` of `remaining` put at their places in slot `s`. */
  ghost predicate ReindexedTo(before: Index, after: Index, remaining: seq<Timer>, s: nat, k: nat) {
    && k <= |remaining| && after.Keys == before.Keys
    && (forall j :: 0 <= j < k && remaining[j].ref in before ==> after[remaining[j].ref] == Location(s, j))
    && (forall r :: r in before && (forall j :: 0 <= j < k ==> remaining[j].ref != r) ==> after[r] == before[r])
  }

  /** The index has the timers of `ts` in slot `s`, those it has at all. */
  ghost predicate Home(index: Index, ts: seq<Timer>, s: nat) {
    forall t :: t in ts && t.ref in index ==> index[t.ref].slot == s
  }

  /** The list a tick returns: each due timer once, as it was put in. */
  ghost predicate Returned(expired: seq<Timer>, s: State, now: int) {
    && Refs(expired) == Due(s, now) && |expired| == |Due(s, now)|
    && (forall t :: t in expired ==> t.ref in s.live && EntryOf(t, s.slot) == s.live[t.ref] && !t.cancelled)
  }

  /** In the current slot, a timer that is not cancelled is exactly a live one waiting there. */
  lemma SlotHoldsLive(c: Config, wheel: Wheel, index: Index, s: State, t: Timer)
    requires Holds(c, wheel, index, s) && t in wheel[s.slot] && !t.cancelled
    ensures t.ref in s.live && s.live[t.ref] == EntryOf(t, s.slot) && index[t.ref].slot == s.slot
    ensures InRange(wheel, index[t.ref]) && TimerAt(wheel, index[t.ref]) == t
  {
    var i :| 0 <= i < |wheel[s.slot]| && wheel[s.slot][i] == t;
  }

  lemma ExpiredAreDue(c: Config, wheel: Wheel, index: Index, s: State, now: int)
    requires Holds(c, wheel, index, s)
    ensures Returned(Expired(wheel[s.slot], now), s, now)
  {
    var slot := wheel[s.slot];
    SplitOf(slot, now);
    SlotIsDistinct(wheel, index, s.slot);
    SplitIsDistinct(slot, now);
    forall t | t in Expired(slot, now) ensures t.ref in Due(s, now) && EntryOf(t, s.slot) == s.live[t.ref] {
      SlotHoldsLive(c, wheel, index, s, t);
    }
    forall r | r in Due(s, now) ensures r in Refs(Expired(slot, now)) {
      assert TimerAt(wheel, index[r]) in slot;
      assert TimerAt(wheel, index[r]) in Expired(slot, now);
    }
    assert Refs(Expired(slot, now)) == Due(s, now);
  }

  lemma TickLocated(c: Config, wheel: Wheel, index: Index, s: State, now: int, index': Index, r: Ref)
    requires Holds(c, wheel, index, s) && r in index'
    requires ReindexedTo(index - Due(s, now), index', Remaining(wheel[s.slot], now), s.slot, |Remaining(wheel[s.slot], now)|)
    ensures var wheel' := wheel[s.slot := Remaining(wheel[s.slot], now)];
            && InRange(wheel', index'[r]) && TimerAt(wheel', index'[r]) == TimerAt(wheel, index[r])
            && index'[r].slot == index[r].slot
  {
    var rest := Remaining(wheel[s.slot], now);
    SplitOf(wheel[s.slot], now);
    var t := TimerAt(wheel, index[r]);
    if index[r].slot == s.slot {
      assert t in wheel[s.slot];
      assert t in rest;
      var j :| 0 <= j < |rest| && rest[j] == t;
    } else {
      forall j | 0 <= j < |rest| ensures rest[j].ref != r {
        assert rest[j] in rest;
        SlotHoldsLive(c, wheel, index, s, rest[j]);
      }
    }
  }

  lemma TickIndexed(c: Config, wheel: Wheel, index: Index, s: State, now: int, index': Index, k: nat, i: nat)
    requires Holds(c, wheel, index, s) && k < |wheel|
    requires ReindexedTo(index - Due(s, now), index', Remaining(wheel[s.slot], now), s.slot, |Remaining(wheel[s.slot], now)|)
    requires var slot := wheel[s.slot := Remaining(wheel[s.slot], now)][k]; i < |slot| && !slot[i].cancelled
    ensures var t := wheel[s.slot := Remaining(wheel[s.slot], now)][k][i];
            t.ref in index' && index'[t.ref] == Location(k, i)
  {
    var rest := Remaining(wheel[s.slot], now);
    SplitOf(wheel[s.slot], now);
    if k == s.slot {
      assert rest[i] in rest;
      SlotHoldsLive(c, wheel, index, s, rest[i]);
      assert rest[i].ref in index - Due(s, now);
    } else {
      var t := wheel[k][i];
      assert t.ref in index - Due(s, now);
      forall j | 0 <= j < |rest| ensures rest[j].ref != t.ref {
        assert rest[j] in rest;
        SlotHoldsLive(c, wheel, index, s, rest[j]);
      }
    }
  }

  lemma TickHolds(c: Config, wheel: Wheel, index: Index, s: State, now: int, index': Index)
    requires Holds(c, wheel, index, s)
    requires ReindexedTo(index - Due(s, now), index', Remaining(wheel[s.slot], now), s.slot, |Remaining(wheel[s.slot], now)|)
    ensures Holds(c, wheel[s.slot := Remaining(wheel[s.slot], now)], index', TimerMap.Tick(c, s, now))
  {
    var wheel' := wheel[s.slot := Remaining(wheel[s.slot], now)];
    assert Located(wheel, index);
    forall r | r in index'
      ensures InRange(wheel', index'[r]) && TimerAt(wheel', index'[r]) == TimerAt(wheel, index[r])
              && index'[r].slot == index[r].slot
    {
      TickLocated(c, wheel, index, s, now, index', r);
    }
    assert Located(wheel', index');
    assert Indexed(wheel', index') by {
      forall k, i | 0 <= k < |wheel'| && 0 <= i < |wheel'[k]| && !wheel'[k][i].cancelled
        ensures wheel'[k][i].ref in index' && index'[wheel'[k][i].ref] == Location(k, i)
      {
        TickIndexed(c, wheel, index, s, now, index', k, i);
      }
    }
    assert LiveOf(wheel', index') == s.live - Due(s, now);
  }

  lemma TickTallied(c: Config, s: State, st: Stats, now: int)
    requires Positive(c) && Tallied(s, st)
    ensures Tallied(TimerMap.Tick(c, s, now), Swept(st, |Due(s, now)|))
  {
    TickConserves(c, s, now);
    FewerKeys(s.live, Due(s, now));
    assert |s.fired + multiset(Due(s, now))| == |s.fired| + |Due(s, now)|;
    hide Conserves, Due;
  }

  lemma TickSound(c: Config, wheel: Wheel, index: Index, s: State, st: Stats, now: int, index': Index)
    requires Sound(c, wheel, index, s, st)
    requires ReindexedTo(index - Refs(Expired(wheel[s.slot], now)), index', Remaining(wheel[s.slot], now), s.slot,
                         |Remaining(wheel[s.slot], now)|)
    ensures Returned(Expired(wheel[s.slot], now), s, now)
    ensures Sound(c, wheel[s.slot := Remaining(wheel[s.slot], now)], index', TimerMap.Tick(c, s, now),
                  Swept(st, |Expired(wheel[s.slot], now)|))
  {
    ExpiredAreDue(c, wheel, index, s, now);
    TickHolds(c, wheel, index, s, now, index');
    TickTallied(c, s, st, now);
  }

  predicate Before(loc: Location, s: nat, i: nat) {
    loc.slot < s || (loc.slot == s && loc.index < i)
  }

  /** `best` is a timer of earliest expiry among those before place `(s, i)` that are not cancelled. */
  ghost predicate Earliest(wheel: Wheel, best: Option<Timer>, s: nat, i: nat) {
    && (best.Some? ==> exists loc :: InRange(wheel, loc) && TimerAt(wheel, loc) == best.value && !best.value.cancelled)
    && (forall loc :: InRange(wheel, loc) && Before(loc, s, i) && !TimerAt(wheel, loc).cancelled ==>
          best.Some? && best.value.expiry <= TimerAt(wheel, loc).expiry)
  }

  function Better(best: Option<Timer>, t: Timer): Option<Timer> {
    if !t.cancelled && (best.None? || t.expiry < best.value.expiry) then Some(t) else best
  }

  lemma EarliestStep(wheel: Wheel, best: Option<Timer>, s: nat, i: nat)
    requires Earliest(wheel, best, s, i) && s < |wheel| && i < |wheel[s]|
    ensures Earliest(wheel, Better(best, wheel[s][i]), s, i + 1)
  {
    var here := Location(s, i);
    assert InRange(wheel, here) && TimerAt(wheel, here) == wheel[s][i];
    forall loc | InRange(wheel, loc) && Before(loc, s, i + 1) ensures loc == here || Before(loc, s, i) {
    }
  }

  lemma EarliestSlotDone(wheel: Wheel, best: Option<Timer>, s: nat)
    requires s < |wheel| && Earliest(wheel, best, s, |wheel[s]|)
    ensures Earliest(wheel, best, s + 1, 0)
  {
    forall loc | InRange(wheel, loc) && Before(loc, s + 1, 0) ensures Before(loc, s, |wheel[s]|) {
    }
  }

  lemma NothingBefore(wheel: Wheel)
    ensures Earliest(wheel, None, 0, 0)
  {
  }

  lemma EarliestIsNext(c: Config, wheel: Wheel, index: Index, s: State, best: Option<Timer>)
    requires Holds(c, wheel, index, s) && Earliest(wheel, best, |wheel|, 0)
    ensures best.None? ==> s.live == map[]
    ensures best.Some? ==> best.value.ref in s.live && s.live[best.value.ref].expiry == best.value.expiry
    ensures best.Some? ==> forall r :: r in s.live ==> best.value.expiry <= s.live[r].expiry
  {
    forall r | r in s.live ensures best.Some? && best.value.expiry <= s.live[r].expiry {
      assert InRange(wheel, index[r]) && Before(index[r], |wheel|, 0);
    }
    if best.Some? {
      var loc :| InRange(wheel, loc) && TimerAt(wheel, loc) == best.value && !best.value.cancelled;
      assert wheel[loc.slot][loc.index].ref in index;
    }
  }

  lemma TickReady(c: Config, wheel: Wheel, index: Index, s: State, st: Stats, now: int)
    requires Sound(c, wheel, index, s, st)
    ensures Positive(c) && s.slot < |wheel| == c.slots
    ensures Distinct(Remaining(wheel[s.slot], now)) && forall t :: t in Remaining(wheel[s.slot], now) ==> !t.cancelled
    ensures Home(index, Remaining(wheel[s.slot], now), s.slot)
    ensures var next := TimerMap.Tick(c, s, now); next.slot == (s.slot + 1) % c.slots && next.now == now
  {
    SlotIsDistinct(wheel, index, s.slot);
    SplitIsDistinct(wheel[s.slot], now);
    SplitOf(wheel[s.slot], now);
    forall t | t in Remaining(wheel[s.slot], now) && t.ref in index ensures index[t.ref].slot == s.slot {
      SlotHoldsLive(c, wheel, index, s, t);
    }
  }

  lemma ReindexOne(before: Index, after: Index, remaining: seq<Timer>, s: nat, k: nat)
    requires ReindexedTo(before, after, remaining, s, k) && k < |remaining|
    requires Distinct(remaining) && (forall t :: t in remaining ==> !t.cancelled) && Home(before, remaining, s)
    ensures var ref := remaining[k].ref;
            ReindexedTo(before, if ref in after then after[ref := after[ref].(index := k)] else after, remaining, s, k + 1)
  {
    var ref := remaining[k].ref;
    assert forall j :: 0 <= j < k ==> remaining[j].ref != ref;
    if ref in after {
      assert after[ref] == before[ref] && remaining[k] in remaining;
    }
  }

  lemma StillHome(index: Index, gone: set<Ref>, ts: seq<Timer>, s: nat)
    requires Home(index, ts, s)
    ensures Home(index - gone, ts, s)
  {
  }

  class TimingWheel {
    const tickMs: int
    const numSlots: int
    var wheel: Wheel
    var currentSlot: nat
    var currentTimeMs: int
    var timerIndex: Index
    var stats: Stats
    /** The plain map that the wheel stands for. */
    ghost var state: State

    ghost function Conf(): Config {
      Config(tickMs, numSlots)
    }

    ghost predicate Valid()
      reads this
    {
      && Sound(Conf(), wheel, timerIndex, state, stats)
      && state.slot == currentSlot && state.now == currentTimeMs
    }

    constructor (tickMs: int, numSlots: int, now: int)
      requires tickMs > 0 && numSlots > 0
      ensures Valid() && Conf() == Config(tickMs, numSlots)
      ensures state == State(map[], 0, now, multiset{}, multiset{}, multiset{})
    {
      this.tickMs, this.numSlots := tickMs, numSlots;
      wheel := seq(numSlots, i => []);
      currentSlot, currentTimeMs, timerIndex, stats := 0, now, map[], Stats(0, 0, 0, 0);
      state := State(map[], 0, now, multiset{}, multiset{}, multiset{});
      StartSound(Config(tickMs, numSlots), now);
    }

    /** The timer goes to the end of its slot. The wheel goes on standing for a plain map unless the reference was live. */
    method InsertTimer(ref: Ref, delayMs: int, action: Action)
      requires Valid()
      modifies this`wheel, this`timerIndex, this`stats, this`state
      ensures var slot := SlotFor(Conf(), currentSlot, delayMs);
              && slot < |old(wheel)|
              && wheel == Inserted(old(wheel), slot, Timer(ref, currentTimeMs + delayMs, action, false))
              && timerIndex == old(timerIndex)[ref := Location(slot, |old(wheel)[slot]|)]
      ensures stats == old(stats).(totalInserted := old(stats).totalInserted + 1,
                                   currentActive := old(stats).currentActive + 1)
      ensures ref !in old(state).live ==> Valid() && state == TimerMap.Insert(Conf(), old(state), ref, delayMs, action)
    {
      hide Sound, TimerMap.Insert;
      InsertReady(Conf(), wheel, timerIndex, state, stats, ref, delayMs, action);
      ghost var next := TimerMap.Insert(Conf(), state, ref, delayMs, action);
      var ticks := delayMs / tickMs;
      var targetSlot := (currentSlot + ticks) % numSlots;
      assert targetSlot == SlotFor(Conf(), currentSlot, delayMs);
      hide SlotFor;
      var timer := Timer(ref, currentTimeMs + delayMs, action, false);
      wheel := wheel[targetSlot := wheel[targetSlot] + [timer]];
      timerIndex := timerIndex[ref := Location(targetSlot, |wheel[targetSlot]| - 1)];
      stats := stats.(totalInserted := stats.totalInserted + 1, currentActive := stats.currentActive + 1);
      state := next;
    }

    method CancelTimer(ref: Ref) returns (found: bool)
      requires Valid()
      modifies this
      ensures Valid() && found == (ref in old(state).live)
      ensures state == TimerMap.Cancel(old(state), ref)
    {
      IndexIsLive(Conf(), wheel, timerIndex, state, stats);
      if ref !in timerIndex {
        return false;
      }
      CancelIndexed(ref);
      found := true;
    }

    method CancelIndexed(ref: Ref)
      requires Valid() && ref in timerIndex && ref in state.live
      modifies this
      ensures Valid() && state == TimerMap.Cancel(old(state), ref)
    {
      hide Sound, TimerMap.Cancel, Marked, InRange;
      CancelSound(Conf(), wheel, timerIndex, state, stats, ref);
      ghost var next := TimerMap.Cancel(state, ref);
      MarkCancelled(timerIndex[ref]);
      timerIndex := timerIndex - {ref};
      stats := stats.(totalCancelled := stats.totalCancelled + 1, currentActive := stats.currentActive - 1);
      state := next;
    }

    method MarkCancelled(loc: Location)
      requires InRange(wheel, loc)
      modifies this`wheel
      ensures wheel == Marked(old(wheel), loc)
    {
      if loc.index < |wheel[loc.slot]| {
        var slot := wheel[loc.slot];
        wheel := wheel[loc.slot := slot[loc.index := slot[loc.index].(cancelled := true)]];
      }
    }

    method ReadTimer(ref: Ref) returns (left: Option<int>)
      requires Valid()
      ensures left.Some? <==> ref in state.live
      ensures ref in state.live ==>
                if state.live[ref].expiry <= currentTimeMs then left.value == 0
                else currentTimeMs + left.value == state.live[ref].expiry
    {
      if ref !in timerIndex {
        return None;
      }
      var loc := timerIndex[ref];
      if loc.index >= |wheel[loc.slot]| {
        return None;
      }
      var timer := wheel[loc.slot][loc.index];
      if timer.cancelled {
        return None;
      }
      var remaining := timer.expiry - currentTimeMs;
      left := Some(if remaining > 0 then remaining else 0);
    }

    /** One tick at clock time `now`: the expired timers, in the order they were put into the slot. */
    method TickWheel(now: int) returns (expired: seq<Timer>)
      requires Valid()
      modifies this
      ensures Valid() && state == TimerMap.Tick(Conf(), old(state), now)
      ensures Returned(expired, old(state), now)
      ensures old(currentSlot) < |old(wheel)| && InOrder(expired, old(wheel)[old(currentSlot)])
    {
      TickReady(Conf(), wheel, timerIndex, state, stats, now);
      ExpiredInOrder(wheel[currentSlot], now);
      hide InOrder, Sound, TimerMap.Tick, Distinct, Home, Remaining, Expired, Refs, ReindexedTo, Returned, Swept;
      ghost var next := TimerMap.Tick(Conf(), state, now);
      ghost var wheel0, index0, stats0 := wheel, timerIndex, stats;
      currentTimeMs := now;
      expired := Sweep(now);
      TickSound(Conf(), wheel0, index0, state, stats0, now, timerIndex);
      currentSlot := (currentSlot + 1) % numSlots;
      state := next;
    }

    method Sweep(now: int) returns (expired: seq<Timer>)
      requires currentSlot < |wheel| && Distinct(Remaining(wheel[currentSlot], now))
      requires forall t :: t in Remaining(wheel[currentSlot], now) ==> !t.cancelled
      requires Home(timerIndex, Remaining(wheel[currentSlot], now), currentSlot)
      modifies this`wheel, this`timerIndex, this`stats
      ensures expired == Expired(old(wheel)[currentSlot], now)
      ensures wheel == old(wheel)[currentSlot := Remaining(old(wheel)[currentSlot], now)]
      ensures ReindexedTo(old(timerIndex) - Refs(expired), timerIndex, Remaining(old(wheel)[currentSlot], now), currentSlot,
                          |Remaining(old(wheel)[currentSlot], now)|)
      ensures stats == Swept(old(stats), |expired|)
    {
      hide *;
      var slot := wheel[currentSlot];
      var remaining: seq<Timer>;
      ghost var index0 := timerIndex;
      expired, remaining := SweepSlot(slot, now);
      wheel := wheel[currentSlot := remaining];
      StillHome(index0, Refs(expired), remaining, currentSlot);
      Reindex(remaining);
    }

    /** The first loop of a tick: cancelled timers are skipped, expired ones leave the index. */
    method SweepSlot(slot: seq<Timer>, now: int) returns (expired: seq<Timer>, remaining: seq<Timer>)
      modifies this`timerIndex, this`stats
      ensures expired == Expired(slot, now) && remaining == Remaining(slot, now)
      ensures timerIndex == old(timerIndex) - Refs(expired)
      ensures stats == Swept(old(stats), |expired|)
    {
      expired, remaining := [], [];
      ghost var index0 := timerIndex;
      assert index0 - Refs([]) == index0;
      for i := 0 to |slot|
        invariant expired == Expired(slot[..i], now) && remaining == Remaining(slot[..i], now)
        invariant timerIndex == index0 - Refs(expired)
        invariant stats == Swept(old(stats), |expired|)
      {
        var timer := slot[i];
        SweepOneMore(slot, i, now);
        if timer.cancelled {
          continue;
        }
        if timer.expiry <= now {
          RefsOneMore(index0, expired, timer);
          expired := expired + [timer];
          timerIndex := timerIndex - {timer.ref};
          stats := stats.(totalFired := stats.totalFired + 1, currentActive := stats.currentActive - 1);
        } else {
          remaining := remaining + [timer];
        }
      }
      assert slot[..|slot|] == slot;
    }

    /** The second loop of a tick: the timers that stay are indexed at their new places. */
    method Reindex(remaining: seq<Timer>)
      requires Distinct(remaining) && (forall t :: t in remaining ==> !t.cancelled)
      requires Home(timerIndex, remaining, currentSlot)
      modifies this`timerIndex
      ensures ReindexedTo(old(timerIndex), timerIndex, remaining, currentSlot, |remaining|)
    {
      for idx := 0 to |remaining|
        invariant ReindexedTo(old(timerIndex), timerIndex, remaining, currentSlot, idx)
      {
        var ref := remaining[idx].ref;
        ReindexOne(old(timerIndex), timerIndex, remaining, currentSlot, idx);
        hide ReindexedTo, Home, Distinct;
        if ref in timerIndex {
          timerIndex := timerIndex[ref := timerIndex[ref].(index := idx)];
        }
      }
    }

    /** Some live timer with the earliest expiry, and the time left to it. */
    method PeekNext() returns (next: Option<(Ref, int)>)
      requires Valid()
      ensures match next
              case None => state.live == map[]
              case Some((ref, left)) =>
                && ref in state.live
                && (if state.live[ref].expiry <= currentTimeMs then left == 0
                    else currentTimeMs + left == state.live[ref].expiry)
                && forall r :: r in state.live ==> state.live[ref].expiry <= state.live[r].expiry
    {
      var best: Option<Timer> := None;
      NothingBefore(wheel);
      hide Earliest;
      for s := 0 to |wheel|
        invariant Earliest(wheel, best, s, 0)
      {
        for i := 0 to |wheel[s]|
          invariant Earliest(wheel, best, s, i)
        {
          var timer := wheel[s][i];
          EarliestStep(wheel, best, s, i);
          if !timer.cancelled && (best.None? || timer.expiry < best.value.expiry) {
            best := Some(timer);
          }
        }
        EarliestSlotDone(wheel, best, s);
      }
      EarliestIsNext(Conf(), wheel, timerIndex, state, best);
      if best.None? {
        return None;
      }
      var left := best.value.expiry - currentTimeMs;
      next := Some((best.value.ref, if left > 0 then left else 0));
    }

    method GetActiveCount() returns (n: int)
      requires Valid()
      ensures n == |timerIndex| == |state.live|
    {
      StatsAddUp(Conf(), wheel, timerIndex, state, stats);
      SameSize(state.live, timerIndex);
      n := stats.currentActive;
    }
  }
}
