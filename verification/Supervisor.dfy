/** The static supervisor: what each strategy restarts, when it gives up, and what a late DOWN can do. */
module Supervisor {
  import opened Wrappers
  import opened RestartWindow
  import P = ProcessTable

  datatype Id = Id(name: string)

  datatype Pid = Pid(name: string)

  datatype Ref = Ref(name: string)

  type Shape = P.Shape

  datatype Reason = Normal | Shutdown | SupervisorShutdown | Killed | Error(what: string)

  datatype Strategy = OneForOne | OneForAll | RestForOne | Unknown

  datatype Child = Child(pid: Option<Pid>, ref: Option<Ref>, restarts: nat)

  datatype Config = Config(maxRestarts: int, maxSeconds: int, strategy: Strategy)

  /** What starting a child came to, and the clock when the restart was recorded. */
  datatype Start = Started(pid: Pid, ref: Ref) | Failed

  datatype Try = Try(now: Time, start: Start)

  datatype Verdict = Done | Exceeded | StartFailed

  /** `history` is every restart that the intensity check let through. */
  datatype Sup = Sup(children: map<Id, Child>, order: seq<Id>, times: seq<Time>, history: seq<Time>)

  /** A child after a restart. */
  function Reborn(c: Child, start: Start): Child {
    match start
    case Failed => Child(None, None, c.restarts + 1)
    case Started(pid, ref) => Child(Some(pid), Some(ref), c.restarts + 1)
  }

  predicate Distinct(ids: seq<Id>) {
    forall i, j :: 0 <= i < j < |ids| ==> ids[i] != ids[j]
  }

  predicate Listed(s: Sup) {
    Distinct(s.order) && s.children.Keys == set id | id in s.order
  }

  function Down(c: Child): Child {
    c.(pid := None, ref := None)
  }

  function AllDown(children: map<Id, Child>, ids: seq<Id>): map<Id, Child> {
    map id | id in children :: if id in ids then Down(children[id]) else children[id]
  }

  function RestartOne(s: Sup, cfg: Config, id: Id, t: Try): (Sup, Verdict)
    requires id in s.children
  {
    var s1 := s.(times := Recorded(s.times, t.now, cfg.maxSeconds));
    if |s1.times| > cfg.maxRestarts then (s1, Exceeded)
    else
      (s1.(history := s.history + [t.now], children := s.children[id := Reborn(s.children[id], t.start)]),
       if t.start.Failed? then StartFailed else Done)
  }

  /** One after the other, until one is refused or does not start. */
  function RestartAll(s: Sup, cfg: Config, ids: seq<Id>, tries: seq<Try>): (Sup, Verdict)
    requires |ids| <= |tries| && forall id :: id in ids ==> id in s.children
    decreases |ids|
  {
    if ids == [] then (s, Done)
    else
      var (s1, v) := RestartOne(s, cfg, ids[0], tries[0]);
      if v != Done then (s1, v) else RestartAll(s1, cfg, ids[1..], tries[1..])
  }

  /** The start order from `id` on. */
  function From(order: seq<Id>, id: Id): seq<Id>
    requires id in order
  {
    if order[0] == id then order else From(order[1..], id)
  }

  function Victims(s: Sup, strategy: Strategy, dead: Id): seq<Id>
    requires dead in s.order
  {
    match strategy
    case OneForOne => [dead]
    case OneForAll => s.order
    case RestForOne => From(s.order, dead)
    case Unknown => []
  }

  /** The pids told to exit: those of `ids` that are set and, when asked, alive. */
  function Signals(children: map<Id, Child>, ids: seq<Id>, alive: seq<bool>): seq<Pid>
    requires |ids| <= |alive| && forall id :: id in ids ==> id in children
  {
    if ids == [] then []
    else (if children[ids[0]].pid.Some? && alive[0] then [children[ids[0]].pid.value] else [])
         + Signals(children, ids[1..], alive[1..])
  }

  /** Answers, long enough, to the questions a round may ask: is it alive, what time is it, how did the start go. */
  datatype World = World(alive: seq<bool>, tries: seq<Try>)

  predicate Answers(s: Sup, w: World) {
    |s.order| <= |w.alive| && |s.order| <= |w.tries|
  }

  function Round(s: Sup, cfg: Config, dead: Id, reason: Reason, w: World): (Sup, Verdict, seq<Pid>)
    requires Listed(s) && dead in s.order && Answers(s, w)
  {
    VictimsListed(s, cfg.strategy, dead);
    var victims := Victims(s, cfg.strategy, dead);
    if reason == Shutdown || reason == SupervisorShutdown then
      (s.(children := s.children[dead := Down(s.children[dead])]), Done, [])
    else if cfg.strategy == OneForOne || cfg.strategy == Unknown then
      var (t, v) := RestartAll(s, cfg, victims, w.tries);
      (t, v, [])
    else
      var (t, v) := RestartAll(s.(children := AllDown(s.children, victims)), cfg, victims, w.tries);
      (t, v, Signals(s.children, victims, w.alive))
  }

  /** The first child, in start order, that is monitored by `ref`. */
  function Find(s: Sup, order: seq<Id>, ref: Ref): Option<Id>
    requires forall id :: id in order ==> id in s.children
  {
    if order == [] then None
    else if s.children[order[0]].ref == Some(ref) then Some(order[0])
    else Find(s, order[1..], ref)
  }

  /** The child that a DOWN is for. The loop matches the tuple of five fields only, and ignores the one of four. */
  function Looked(s: Sup, shape: Shape, ref: Ref): Option<Id>
    requires Listed(s)
  {
    if shape.FiveFields? then Find(s, s.order, ref) else None
  }

  /** A DOWN message. A child named by the empty string is taken for no child. */
  function HandledDown(s: Sup, cfg: Config, shape: Shape, ref: Ref, reason: Reason, w: World): (Sup, Verdict, seq<Pid>)
    requires Listed(s) && Answers(s, w)
  {
    FindSpec(s, s.order, ref);
    match Looked(s, shape, ref)
    case None => (s, Done, [])
    case Some(id) =>
      if id.name == "" || reason == Killed || reason == Shutdown then (s, Done, []) else Round(s, cfg, id, reason, w)
  }

  lemma {:induction false} FindSpec(s: Sup, order: seq<Id>, ref: Ref)
    requires forall id :: id in order ==> id in s.children
    ensures var found := Find(s, order, ref);
            && (found.Some? ==> found.value in order && s.children[found.value].ref == Some(ref))
            && (found.None? ==> forall id :: id in order ==> s.children[id].ref != Some(ref))
  {
    if order != [] {
      FindSpec(s, order[1..], ref);
    }
  }

  // ---------- Who is a victim ----------

  lemma {:induction false} FromIsSuffix(order: seq<Id>, id: Id)
    requires id in order
    ensures |From(order, id)| <= |order| && From(order, id) == order[|order| - |From(order, id)|..]
    ensures From(order, id) != [] && From(order, id)[0] == id
    ensures id !in order[..|order| - |From(order, id)|]
  {
    if order[0] != id {
      FromIsSuffix(order[1..], id);
      var n := |order| - |From(order, id)|;
      assert order[..n] == [order[0]] + order[1..][..n - 1];
    }
  }

  /** The one child, every child, or the child and those started after it; always distinct, in start order. */
  lemma VictimsListed(s: Sup, strategy: Strategy, dead: Id)
    requires Listed(s) && dead in s.order
    ensures var victims := Victims(s, strategy, dead);
            && Distinct(victims) && |victims| <= |s.order| && (forall id :: id in victims ==> id in s.children)
            && (strategy != Unknown ==> dead in victims)
            && (strategy == OneForOne ==> victims == [dead])
            && (strategy == OneForAll ==> victims == s.order)
            && (strategy == Unknown ==> victims == [])
            && (strategy == RestForOne ==> victims == s.order[|s.order| - |victims|..])
            && (strategy == RestForOne ==> victims[0] == dead && dead !in s.order[..|s.order| - |victims|])
  {
    FromIsSuffix(s.order, dead);
  }

  // ---------- What a round does ----------

  /** The first `k` of `ids` were restarted, in order, and the round ended at the next one as `v` says. */
  ghost predicate Prefix(s: Sup, t: Sup, ids: seq<Id>, tries: seq<Try>, k: nat, v: Verdict) {
    && k <= |ids| <= |tries| && (v == Done <==> k == |ids|)
    && t.order == s.order && t.children.Keys == s.children.Keys
    && (forall i :: 0 <= i < |ids| ==> ids[i] in s.children)
    && (forall i :: 0 <= i < k ==> tries[i].start.Started? && t.children[ids[i]] == Reborn(s.children[ids[i]], tries[i].start))
    && (v == StartFailed ==> tries[k].start.Failed? && t.children[ids[k]] == Reborn(s.children[ids[k]], Failed))
    && (v == Exceeded ==> t.children[ids[k]] == s.children[ids[k]])
    && (forall i :: k < i < |ids| ==> t.children[ids[i]] == s.children[ids[i]])
    && (forall id :: id in s.children && id !in ids ==> t.children[id] == s.children[id])
  }

  lemma PrefixStep(s: Sup, s1: Sup, t: Sup, ids: seq<Id>, tries: seq<Try>, cfg: Config, k: nat, v: Verdict)
    requires ids != [] && Distinct(ids) && |ids| <= |tries| && ids[0] in s.children
    requires RestartOne(s, cfg, ids[0], tries[0]) == (s1, Done)
    requires Prefix(s1, t, ids[1..], tries[1..], k, v)
    ensures Prefix(s, t, ids, tries, k + 1, v)
  {
    forall i | 0 <= i < |ids| ensures ids[i] in s.children && (i > 0 ==> s1.children[ids[i]] == s.children[ids[i]]) {
      if i > 0 {
        assert ids[1..][i - 1] == ids[i];
      }
    }
    assert ids[0] !in ids[1..];
    forall i | 0 <= i < k + 1
      ensures tries[i].start.Started?
      ensures t.children[ids[i]] == Reborn(s.children[ids[i]], tries[i].start)
    {
      if i > 0 {
        assert ids[1..][i - 1] == ids[i] && tries[1..][i - 1] == tries[i];
      }
    }
    forall i | k + 1 < i < |ids| ensures t.children[ids[i]] == s.children[ids[i]] {
      assert ids[1..][i - 1] == ids[i];
    }
    forall id | id in s.children && id !in ids ensures t.children[id] == s.children[id] {
      assert id !in ids[1..];
    }
  }

  lemma {:induction false} RestartAllPrefix(s: Sup, cfg: Config, ids: seq<Id>, tries: seq<Try>) returns (k: nat)
    requires Distinct(ids) && |ids| <= |tries| && forall id :: id in ids ==> id in s.children
    ensures Prefix(s, RestartAll(s, cfg, ids, tries).0, ids, tries, k, RestartAll(s, cfg, ids, tries).1)
    decreases |ids|
  {
    k := 0;
    if ids != [] {
      var (s1, v1) := RestartOne(s, cfg, ids[0], tries[0]);
      if v1 == Done {
        var n := RestartAllPrefix(s1, cfg, ids[1..], tries[1..]);
        var (t, v) := RestartAll(s1, cfg, ids[1..], tries[1..]);
        PrefixStep(s, s1, t, ids, tries, cfg, n, v);
        k := n + 1;
      }
    }
  }

  /** What a victim looks like before the restarts of a round begin. */
  function Waiting(c: Child, strategy: Strategy): Child {
    if strategy == OneForOne then c else Down(c)
  }

  /** A round restarts exactly a prefix of the victims, each once and in order. The rest of them are left down (the one
      child of one-for-one as it was), and no other child is touched. The prefix is all of them unless the limit is hit
      or a start fails. */
  ghost predicate RestartedUpTo(s: Sup, t: Sup, victims: seq<Id>, strategy: Strategy, tries: seq<Try>, k: nat,
          v: Verdict) {
    && k <= |victims| <= |tries| && (v == Done <==> k == |victims|)
    && t.order == s.order && t.children.Keys == s.children.Keys
    && (forall i :: 0 <= i < |victims| ==> victims[i] in s.children)
    && (forall i :: 0 <= i < k ==>
          tries[i].start.Started? && t.children[victims[i]] == Reborn(s.children[victims[i]], tries[i].start))
    && (v == StartFailed ==> tries[k].start.Failed? && t.children[victims[k]] == Reborn(s.children[victims[k]], Failed))
    && (v == Exceeded ==> t.children[victims[k]] == Waiting(s.children[victims[k]], strategy))
    && (forall i :: k < i < |victims| ==> t.children[victims[i]] == Waiting(s.children[victims[i]], strategy))
    && (forall id :: id in s.children && id !in victims ==> t.children[id] == s.children[id])
  }

  lemma PrefixOfRound(s: Sup, s1: Sup, t: Sup, victims: seq<Id>, strategy: Strategy, tries: seq<Try>, k: nat,
          v: Verdict)
    requires Prefix(s1, t, victims, tries, k, v) && (strategy == Unknown ==> victims == [])
    requires s1 == if strategy == OneForOne || strategy == Unknown then s
                   else s.(children := AllDown(s.children, victims))
    ensures RestartedUpTo(s, t, victims, strategy, tries, k, v)
  {
    forall i | 0 <= i < |victims|
      ensures victims[i] in s.children && s1.children[victims[i]] == Waiting(s.children[victims[i]], strategy)
    {
    }
  }

  lemma RoundRestartsAPrefix(s: Sup, cfg: Config, dead: Id, reason: Reason, w: World)
    requires Listed(s) && dead in s.order && Answers(s, w)
    requires reason != Shutdown && reason != SupervisorShutdown
    ensures var (t, v, _) := Round(s, cfg, dead, reason, w);
            exists k: nat :: RestartedUpTo(s, t, Victims(s, cfg.strategy, dead), cfg.strategy, w.tries, k, v)
  {
    VictimsListed(s, cfg.strategy, dead);
    var victims := Victims(s, cfg.strategy, dead);
    var (t, v, _) := Round(s, cfg, dead, reason, w);
    var s1 := if cfg.strategy == OneForOne || cfg.strategy == Unknown then s
              else s.(children := AllDown(s.children, victims));
    assert (t, v) == RestartAll(s1, cfg, victims, w.tries);
    var k := RestartAllPrefix(s1, cfg, victims, w.tries);
    assert cfg.strategy == Unknown ==> victims == [];
    hide *;
    PrefixOfRound(s, s1, t, victims, cfg.strategy, w.tries, k, v);
  }

  // ---------- When a DOWN restarts somebody ----------

  /** Somebody was restarted, or the attempt was refused or failed. */
  ghost predicate Acted(s: Sup, t: Sup, v: Verdict) {
    v != Done || exists id :: id in s.children && id in t.children && t.children[id].restarts > s.children[id].restarts
  }

  lemma RoundActsIff(s: Sup, cfg: Config, dead: Id, reason: Reason, w: World)
    requires Listed(s) && dead in s.order && Answers(s, w)
    ensures var (t, v, _) := Round(s, cfg, dead, reason, w);
            Acted(s, t, v) <==> reason != Shutdown && reason != SupervisorShutdown && cfg.strategy != Unknown
  {
    if reason != Shutdown && reason != SupervisorShutdown && cfg.strategy != Unknown {
      RoundRestartsAPrefix(s, cfg, dead, reason, w);
      VictimsListed(s, cfg.strategy, dead);
      var victims := Victims(s, cfg.strategy, dead);
      var (t, v, _) := Round(s, cfg, dead, reason, w);
      var k: nat :| RestartedUpTo(s, t, victims, cfg.strategy, w.tries, k, v);
      hide Round, Victims, Listed, Answers;
      assert victims[0] in s.children;
    }
  }

  /** A DOWN restarts somebody, or tries to, just when it is the tuple of five fields, the child it finds has a nonempty id,
      the reason is none of the three that are passed over, and the strategy is one of the three. */
  lemma DownRestartsIff(s: Sup, cfg: Config, shape: Shape, ref: Ref, reason: Reason, w: World)
    requires Listed(s) && Answers(s, w)
    ensures var (t, v, _), found := HandledDown(s, cfg, shape, ref, reason, w), Find(s, s.order, ref);
            Acted(s, t, v) <==> shape.FiveFields? && found.Some? && found.value.name != "" && cfg.strategy != Unknown
                                && reason != Killed && reason != Shutdown && reason != SupervisorShutdown
  {
    FindSpec(s, s.order, ref);
    var found := Find(s, s.order, ref);
    if found.Some? {
      RoundActsIff(s, cfg, found.value, reason, w);
      hide Find, Round, Listed, Answers;
    }
  }

  /** So a child whose id is the empty string is never restarted. */
  lemma NamelessIsNotRestarted()
    ensures var id, w := Id(""), World([true], [Try(0, Started(Pid("q"), Ref("q")))]);
            var s := Sup(map[id := Child(Some(Pid("p")), Some(Ref("r")), 0)], [id], [], []);
            && Listed(s) && Answers(s, w) && Find(s, s.order, Ref("r")) == Some(id)
            && HandledDown(s, Config(3, 5, OneForOne), P.FiveFields, Ref("r"), Error("crash"), w) == (s, Done, [])
  {
    var id := Id("");
    var s := Sup(map[id := Child(Some(Pid("p")), Some(Ref("r")), 0)], [id], [], []);
    assert s.children.Keys == {id};
  }

  /** Told to exit: just the victims that have a pid and were found alive. */
  lemma {:induction false} SignalsReach(children: map<Id, Child>, ids: seq<Id>, alive: seq<bool>, pid: Pid)
    requires |ids| <= |alive| && forall id :: id in ids ==> id in children
    ensures pid in Signals(children, ids, alive)
            <==> exists i :: 0 <= i < |ids| && children[ids[i]].pid == Some(pid) && alive[i]
  {
    if ids != [] {
      SignalsReach(children, ids[1..], alive[1..], pid);
      if pid in Signals(children, ids[1..], alive[1..]) {
        var i :| 0 <= i < |ids[1..]| && children[ids[1..][i]].pid == Some(pid) && alive[1..][i];
        assert ids[i + 1] == ids[1..][i] && alive[i + 1];
      }
      if i :| 0 <= i < |ids| && children[ids[i]].pid == Some(pid) && alive[i] && i > 0 {
        assert ids[1..][i - 1] == ids[i] && alive[1..][i - 1];
      }
    }
  }

  /** One after the other, in the order of the list; one child is told just when it has a pid and is found alive. */
  lemma {:induction false} SignalsInOrder(children: map<Id, Child>, a: seq<Id>, b: seq<Id>, alive: seq<bool>)
    requires |a| + |b| <= |alive| && (forall id :: id in a ==> id in children) && (forall id :: id in b ==> id in children)
    ensures Signals(children, a + b, alive) == Signals(children, a, alive) + Signals(children, b, alive[|a|..])
  {
    if a == [] {
      assert a + b == b && alive[0..] == alive;
    } else {
      var whole := a + b;
      assert whole[0] == a[0] && whole[1..] == a[1..] + b && alive[1..][|a[1..]|..] == alive[|a|..];
      SignalsInOrder(children, a[1..], b, alive[1..]);
      SignalsUnfold(children, a, alive);
      SignalsUnfold(children, whole, alive);
      hide Signals;
    }
  }

  lemma SignalsUnfold(children: map<Id, Child>, ids: seq<Id>, alive: seq<bool>)
    requires ids != [] && |ids| <= |alive| && forall id :: id in ids ==> id in children
    ensures Signals(children, ids, alive) == Signals(children, [ids[0]], alive) + Signals(children, ids[1..], alive[1..])
  {
    assert Signals(children, [], alive[1..]) == [];
    assert [ids[0]][1..] == [];
  }

  lemma SignalsOne(children: map<Id, Child>, id: Id, alive: seq<bool>)
    requires id in children && alive != []
    ensures Signals(children, [id], alive)
            == match children[id].pid
               case Some(pid) => if alive[0] then [pid] else []
               case None => []
  {
    assert [id][1..] == [];
  }

  /** What a DOWN leaves alone: one of four fields, one for a child without a name, and one for either of two reasons. */
  lemma DownPassedOver(s: Sup, cfg: Config, shape: Shape, ref: Ref, reason: Reason, w: World)
    requires Listed(s) && Answers(s, w)
    requires shape.FourFields? || reason == Killed || reason == Shutdown
             || forall id :: id in s.children && s.children[id].ref == Some(ref) ==> id.name == ""
    ensures HandledDown(s, cfg, shape, ref, reason, w) == (s, Done, [])
  {
    FindSpec(s, s.order, ref);
    hide Round;
  }

  /** The child found is the first that is monitored by the reference. */
  lemma {:induction false} FindIsFirst(s: Sup, order: seq<Id>, ref: Ref, i: nat)
    requires i < |order| && forall id :: id in order ==> id in s.children
    requires s.children[order[i]].ref == Some(ref) && forall j :: 0 <= j < i ==> s.children[order[j]].ref != Some(ref)
    ensures Find(s, order, ref) == Some(order[i])
  {
    if i > 0 {
      assert forall j :: 0 <= j < i - 1 ==> order[1..][j] == order[j + 1];
      FindIsFirst(s, order[1..], ref, i - 1);
    }
  }

  /** What a round leaves of each child. Those restarted have the pid and the reference of their start and one restart more;
      a start that fails leaves neither, and counts; those not reached were stopped, except under one-for-one. */
  lemma RoundLeaves(s: Sup, cfg: Config, dead: Id, reason: Reason, w: World) returns (k: nat)
    requires Listed(s) && dead in s.order && Answers(s, w)
    requires reason != Shutdown && reason != SupervisorShutdown && cfg.strategy != Unknown
    ensures var victims, (t, v, _) := Victims(s, cfg.strategy, dead), Round(s, cfg, dead, reason, w);
            && k <= |victims| <= |w.tries| && (v == Done <==> k == |victims|)
            && t.order == s.order && t.children.Keys == s.children.Keys
            && (forall i :: 0 <= i < |victims| ==>
                  && victims[i] in s.children
                  && var c, d, start := s.children[victims[i]], t.children[victims[i]], w.tries[i].start;
                     if i < k then start.Started? && d == Child(Some(start.pid), Some(start.ref), c.restarts + 1)
                     else if i == k && v == StartFailed then start.Failed? && d == Child(None, None, c.restarts + 1)
                     else d == if cfg.strategy == OneForOne then c else Child(None, None, c.restarts))
            && (forall id :: id in s.children && id !in victims ==> t.children[id] == s.children[id])
  {
    var victims := Victims(s, cfg.strategy, dead);
    var (t, v, _) := Round(s, cfg, dead, reason, w);
    RoundRestartsAPrefix(s, cfg, dead, reason, w);
    k :| RestartedUpTo(s, t, victims, cfg.strategy, w.tries, k, v);
    hide Round, Victims, Listed, Answers;
  }

  /** Whom a round stops: nobody under one-for-one; the living of all the children, or of those from the dead one on. */
  lemma RoundStops(s: Sup, cfg: Config, dead: Id, reason: Reason, w: World, pid: Pid) returns (n: nat)
    requires Listed(s) && dead in s.order && Answers(s, w)
    ensures n < |s.order| <= |w.alive| && s.order[n] == dead && forall id :: id in s.order ==> id in s.children
    ensures pid in Round(s, cfg, dead, reason, w).2
            <==> && reason != Shutdown && reason != SupervisorShutdown
                 && (|| (cfg.strategy == OneForAll
                         && exists i :: 0 <= i < |s.order| && s.children[s.order[i]].pid == Some(pid) && w.alive[i])
                     || (cfg.strategy == RestForOne
                         && exists i :: n <= i < |s.order| && s.children[s.order[i]].pid == Some(pid) && w.alive[i - n]))
  {
    FromIsSuffix(s.order, dead);
    var from := From(s.order, dead);
    n := |s.order| - |from|;
    assert from[0] == s.order[n];
    VictimsListed(s, cfg.strategy, dead);
    var graceful := reason == Shutdown || reason == SupervisorShutdown;
    assert Round(s, cfg, dead, reason, w).2
           == if graceful || cfg.strategy == OneForOne || cfg.strategy == Unknown then []
              else Signals(s.children, if cfg.strategy == OneForAll then s.order else from, w.alive);
    hide *;
    SignalsReach(s.children, s.order, w.alive, pid);
    SignalsReach(s.children, from, w.alive, pid);
    SuffixReach(s, from, n, w, pid);
  }

  lemma SuffixReach(s: Sup, from: seq<Id>, n: nat, w: World, pid: Pid)
    requires n + |from| == |s.order| <= |w.alive| && from == s.order[n..] && forall id :: id in s.order ==> id in s.children
    ensures (exists i :: 0 <= i < |from| && s.children[from[i]].pid == Some(pid) && w.alive[i])
            <==> exists i :: n <= i < |s.order| && s.children[s.order[i]].pid == Some(pid) && w.alive[i - n]
  {
    if i :| n <= i < |s.order| && s.children[s.order[i]].pid == Some(pid) && w.alive[i - n] {
      assert from[i - n] == s.order[i];
    }
  }

  /** A child that ends for a graceful reason is marked down, and that is all. */
  lemma GracefulEnd(s: Sup, cfg: Config, dead: Id, reason: Reason, w: World)
    requires Listed(s) && dead in s.order && Answers(s, w) && (reason == Shutdown || reason == SupervisorShutdown)
    ensures Round(s, cfg, dead, reason, w)
            == (s.(children := s.children[dead := Child(None, None, s.children[dead].restarts)]), Done, [])
  {
  }

  // ---------- Stale DOWN messages ----------

  ghost predicate RefsDistinct(s: Sup) {
    forall a, b :: a in s.children && b in s.children && a != b && s.children[a].ref.Some? ==>
      s.children[a].ref != s.children[b].ref
  }

  /** Monitor references given out by a round are new, and different from each other. */
  ghost predicate FreshRefs(s: Sup, tries: seq<Try>) {
    && (forall i, id :: 0 <= i < |tries| && id in s.children && tries[i].start.Started? ==>
          s.children[id].ref != Some(tries[i].start.ref))
    && (forall i, j :: 0 <= i < j < |tries| && tries[i].start.Started? && tries[j].start.Started? ==>
          tries[i].start.ref != tries[j].start.ref)
  }

  predicate Gives(tries: seq<Try>, ref: Ref) {
    exists i :: 0 <= i < |tries| && tries[i].start.Started? && tries[i].start.ref == ref
  }

  /** With distinct references a DOWN finds its child, and no other. */
  lemma FindIsExact(s: Sup, id: Id, ref: Ref)
    requires Listed(s) && RefsDistinct(s)
    ensures Find(s, s.order, ref) == Some(id) <==> id in s.children && s.children[id].ref == Some(ref)
  {
    FindSpec(s, s.order, ref);
  }

  /** A reference after a round is one the round gave out, or the one that child had before. */
  lemma RoundRefs(s: Sup, t: Sup, victims: seq<Id>, strategy: Strategy, tries: seq<Try>, k: nat, v: Verdict, id: Id,
          ref: Ref)
    requires RestartedUpTo(s, t, victims, strategy, tries, k, v) && id in t.children && t.children[id].ref == Some(ref)
    requires strategy == OneForOne ==> |victims| == 1
    ensures Gives(tries, ref) || s.children[id].ref == Some(ref)
    ensures Gives(tries, ref) || id !in victims || (v == Exceeded && strategy == OneForOne)
  {
    if id in victims {
      var i :| 0 <= i < |victims| && victims[i] == id;
      if i < k {
        assert tries[i].start.ref == ref;
      }
    }
  }

  /** After a round, a DOWN for the monitor of any victim finds nobody; nor does one that already found nobody. The only
      exception is the child whose own restart was refused, where the supervisor stops anyway. */
  lemma StaleDownsFindNobody(s: Sup, cfg: Config, dead: Id, reason: Reason, w: World, ref: Ref)
    requires Listed(s) && dead in s.order && Answers(s, w) && RefsDistinct(s) && !Gives(w.tries, ref)
    requires reason != Shutdown && reason != SupervisorShutdown
    requires Round(s, cfg, dead, reason, w).1 != Exceeded || cfg.strategy != OneForOne
    requires (exists id :: id in Victims(s, cfg.strategy, dead) && id in s.children && s.children[id].ref == Some(ref))
             || Find(s, s.order, ref) == None
    ensures Listed(Round(s, cfg, dead, reason, w).0) && Round(s, cfg, dead, reason, w).0.order == s.order
    ensures Find(Round(s, cfg, dead, reason, w).0, s.order, ref) == None
  {
    var (t, v, _) := Round(s, cfg, dead, reason, w);
    var victims := Victims(s, cfg.strategy, dead);
    RoundRestartsAPrefix(s, cfg, dead, reason, w);
    var k: nat :| RestartedUpTo(s, t, victims, cfg.strategy, w.tries, k, v);
    FindSpec(s, s.order, ref);
    FindSpec(t, s.order, ref);
    hide Round, Victims, Find, Answers;
    forall id | id in t.children ensures t.children[id].ref != Some(ref) {
      if t.children[id].ref == Some(ref) {
        RoundRefs(s, t, victims, cfg.strategy, w.tries, k, v, id, ref);
      }
    }
  }

  lemma RoundKeepsRefsDistinct(s: Sup, t: Sup, victims: seq<Id>, strategy: Strategy, tries: seq<Try>, k: nat,
          v: Verdict)
    requires RestartedUpTo(s, t, victims, strategy, tries, k, v) && Distinct(victims)
    requires RefsDistinct(s) && FreshRefs(s, tries)
    ensures RefsDistinct(t)
  {
    forall a, b | a in t.children && b in t.children && a != b && t.children[a].ref.Some?
      ensures t.children[a].ref != t.children[b].ref
    {
      var i := RefComesFrom(s, t, victims, strategy, tries, k, v, a);
      var j := RefComesFrom(s, t, victims, strategy, tries, k, v, b);
      hide RestartedUpTo;
    }
  }

  /** Where the reference of a child comes from: its own try, or before. */
  lemma RefComesFrom(s: Sup, t: Sup, victims: seq<Id>, strategy: Strategy, tries: seq<Try>, k: nat, v: Verdict, id: Id)
    returns (i: nat)
    requires RestartedUpTo(s, t, victims, strategy, tries, k, v) && id in t.children
    ensures id in s.children
    ensures || (i < |victims| && i < |tries| && victims[i] == id && tries[i].start.Started?
                && t.children[id].ref == Some(tries[i].start.ref))
            || t.children[id].ref == s.children[id].ref
            || t.children[id].ref == None
  {
    i := 0;
    if id in victims {
      i :| 0 <= i < |victims| && victims[i] == id;
    }
  }

  // ---------- The restart limit over a whole run ----------

  function Nows(tries: seq<Try>): (r: seq<Time>)
    ensures |r| == |tries|
  {
    if tries == [] then [] else [tries[0].now] + Nows(tries[1..])
  }

  /** The queue holds the part of the history inside the window, and the history was let through rightly. */
  ghost predicate Sound(s: Sup, cfg: Config) {
    && Sorted(s.history) && s.times == Window(s.history, cfg.maxSeconds)
    && Admitted(s.history, cfg.maxRestarts, cfg.maxSeconds)
  }

  /** A restart is refused just when it would be one too many in the window that ends now. */
  lemma RestartOneSound(s: Sup, cfg: Config, id: Id, t: Try)
    requires id in s.children && Sound(s, cfg) && Sorted(s.history + [t.now])
    ensures var (u, v) := RestartOne(s, cfg, id, t);
            && (v == Exceeded <==> |Window(s.history + [t.now], cfg.maxSeconds)| > cfg.maxRestarts)
            && (v != Exceeded ==> Sound(u, cfg) && u.history == s.history + [t.now])
            && (v == Exceeded ==> u.history == s.history)
  {
    RecordedIsWindow(s.history, t.now, cfg.maxSeconds);
    hide Window, Recorded, Sorted;
    if |Window(s.history + [t.now], cfg.maxSeconds)| <= cfg.maxRestarts {
      AdmitOne(s.history, t.now, cfg.maxRestarts, cfg.maxSeconds);
    }
  }

  lemma SortedPart(a: seq<Time>, b: seq<Time>, c: seq<Time>, m: nat)
    requires Sorted(a + b + c) && m <= |b|
    ensures Sorted(a + b[..m] + c)
  {
    var long, short := a + b + c, a + b[..m] + c;
    forall i, j | 0 <= i < j < |short| ensures short[i] <= short[j] {
      var gap := |b| - m;
      var i', j' := if i < |a| + m then i else i + gap, if j < |a| + m then j else j + gap;
      assert short[i] == long[i'] && short[j] == long[j'];
    }
  }

  lemma NextIsSorted(h: seq<Time>, now: Time, rest: seq<Time>)
    requires Sorted(h + ([now] + rest))
    ensures Sorted(h + [now]) && h + [now] + rest == h + ([now] + rest)
  {
    var all := h + ([now] + rest);
    forall i, j | 0 <= i < j < |h| + 1 ensures (h + [now])[i] <= (h + [now])[j] {
      assert (h + [now])[i] == all[i] && (h + [now])[j] == all[j];
    }
  }

  lemma OneMore(h: seq<Time>, now: Time, rest: seq<Time>, m: nat)
    requires m <= |rest|
    ensures h + [now] + rest[..m] == h + ([now] + rest)[..m + 1]
  {
    assert ([now] + rest)[..m + 1] == [now] + rest[..m];
  }

  /** The restarts of a round that were let through are a prefix of its tries. */
  lemma {:induction false} RestartAllSound(s: Sup, cfg: Config, ids: seq<Id>, tries: seq<Try>) returns (m: nat)
    requires |ids| <= |tries| && forall id :: id in ids ==> id in s.children
    requires Sound(s, cfg) && Sorted(s.history + Nows(tries))
    ensures m <= |tries|
    ensures var (t, v) := RestartAll(s, cfg, ids, tries);
            && t.history == s.history + Nows(tries)[..m]
            && Sorted(t.history) && Admitted(t.history, cfg.maxRestarts, cfg.maxSeconds)
            && (v != Exceeded ==> Sound(t, cfg))
    decreases |ids|
  {
    m := 0;
    if ids != [] {
      var now := tries[0].now;
      NextIsSorted(s.history, now, Nows(tries[1..]));
      RestartOneSound(s, cfg, ids[0], tries[0]);
      var (s1, v1) := RestartOne(s, cfg, ids[0], tries[0]);
      assert s1.children.Keys == s.children.Keys;
      hide Sorted, RestartOne, Sound, Admitted;
      if v1 == Done {
        m := RestartAllSound(s1, cfg, ids[1..], tries[1..]);
        OneMore(s.history, now, Nows(tries[1..]), m);
        m := m + 1;
      } else if v1 == StartFailed {
        OneMore(s.history, now, Nows(tries[1..]), 0);
        m := 1;
      }
    }
  }

  lemma HandledDownKeepsListed(s: Sup, cfg: Config, shape: Shape, ref: Ref, reason: Reason, w: World)
    requires Listed(s) && Answers(s, w)
    ensures var t := HandledDown(s, cfg, shape, ref, reason, w).0; Listed(t) && t.order == s.order
  {
    FindSpec(s, s.order, ref);
    match Looked(s, shape, ref)
    case None =>
    case Some(id) =>
      if reason != Shutdown && reason != SupervisorShutdown {
        RoundRestartsAPrefix(s, cfg, id, reason, w);
        hide Round, Victims;
      }
  }

  /** A DOWN adds a prefix of its tries to the history; the queue stays right as long as nothing was refused. */
  lemma HandledDownSound(s: Sup, cfg: Config, shape: Shape, ref: Ref, reason: Reason, w: World) returns (m: nat)
    requires Listed(s) && Answers(s, w) && Sound(s, cfg) && Sorted(s.history + Nows(w.tries))
    ensures m <= |w.tries|
    ensures var (t, v, _) := HandledDown(s, cfg, shape, ref, reason, w);
            && t.history == s.history + Nows(w.tries)[..m]
            && Sorted(t.history) && Admitted(t.history, cfg.maxRestarts, cfg.maxSeconds)
            && (v != Exceeded ==> Sound(t, cfg))
  {
    m := 0;
    FindSpec(s, s.order, ref);
    var found := Looked(s, shape, ref);
    if found.Some? && found.value.name != "" && reason != Killed && reason != Shutdown && reason != SupervisorShutdown {
      VictimsListed(s, cfg.strategy, found.value);
      var victims := Victims(s, cfg.strategy, found.value);
      var s1 := if cfg.strategy == OneForOne || cfg.strategy == Unknown then s
                else s.(children := AllDown(s.children, victims));
      m := RestartAllSound(s1, cfg, victims, w.tries);
    }
  }

  datatype Msg = DownMsg(shape: Shape, ref: Ref, reason: Reason, world: World) | ShutdownMsg | OtherMsg

  predicate Answered(s: Sup, msgs: seq<Msg>) {
    forall i :: 0 <= i < |msgs| && msgs[i].DownMsg? ==> Answers(s, msgs[i].world)
  }

  /** The loop stops at a shutdown message, and when the limit is exceeded. */
  function RunLoop(s: Sup, cfg: Config, msgs: seq<Msg>): Sup
    requires Listed(s) && Answered(s, msgs)
    decreases |msgs|
  {
    if msgs == [] || msgs[0].ShutdownMsg? then s
    else if msgs[0].OtherMsg? then RunLoop(s, cfg, msgs[1..])
    else
      HandledDownKeepsListed(s, cfg, msgs[0].shape, msgs[0].ref, msgs[0].reason, msgs[0].world);
      var (t, v, _) := HandledDown(s, cfg, msgs[0].shape, msgs[0].ref, msgs[0].reason, msgs[0].world);
      if v == Exceeded then t else RunLoop(t, cfg, msgs[1..])
  }

  /** Every clock reading that a run may take, in order. */
  function Clock(msgs: seq<Msg>): seq<Time> {
    if msgs == [] then []
    else (if msgs[0].DownMsg? then Nows(msgs[0].world.tries) else []) + Clock(msgs[1..])
  }

  lemma {:induction false} RunIsAdmitted(s: Sup, cfg: Config, msgs: seq<Msg>)
    requires Listed(s) && Answered(s, msgs) && Sound(s, cfg) && Sorted(s.history + Clock(msgs))
    ensures var h := RunLoop(s, cfg, msgs).history; Sorted(h) && Admitted(h, cfg.maxRestarts, cfg.maxSeconds)
    decreases |msgs|
  {
    if msgs != [] && msgs[0].DownMsg? {
      var w, rest := msgs[0].world, Clock(msgs[1..]);
      assert s.history + Clock(msgs) == s.history + Nows(w.tries) + rest;
      SortedPart(s.history + Nows(w.tries), rest, [], 0);
      assert s.history + Nows(w.tries) + rest + [] == s.history + Nows(w.tries) + rest;
      assert s.history + Nows(w.tries) + rest[..0] + [] == s.history + Nows(w.tries);
      var m := HandledDownSound(s, cfg, msgs[0].shape, msgs[0].ref, msgs[0].reason, w);
      var (t, v, _) := HandledDown(s, cfg, msgs[0].shape, msgs[0].ref, msgs[0].reason, w);
      HandledDownKeepsListed(s, cfg, msgs[0].shape, msgs[0].ref, msgs[0].reason, w);
      SortedPart(s.history, Nows(w.tries), rest, m);
      hide HandledDown, Listed, Sorted, Sound, Admitted;
      if v != Exceeded {
        RunIsAdmitted(t, cfg, msgs[1..]);
      }
    } else if msgs != [] && msgs[0].OtherMsg? {
      assert Clock(msgs) == Clock(msgs[1..]);
      RunIsAdmitted(s, cfg, msgs[1..]);
    }
  }

  /** With a clock that never goes back, no interval of `maxSeconds` of any run, wherever it starts, holds more than
      `maxRestarts` restarts. */
  lemma RunIsBounded(s: Sup, cfg: Config, msgs: seq<Msg>)
    requires Listed(s) && Answered(s, msgs) && s.times == [] && s.history == []
    requires Sorted(Clock(msgs)) && cfg.maxRestarts >= 0
    ensures Bounded(RunLoop(s, cfg, msgs).history, cfg.maxRestarts, cfg.maxSeconds)
  {
    assert s.history + Clock(msgs) == Clock(msgs);
    RunIsAdmitted(s, cfg, msgs);
    AdmittedIff(RunLoop(s, cfg, msgs).history, cfg.maxRestarts, cfg.maxSeconds);
  }

  // ---------- The supervisor process ----------

  lemma SignalsStep(children: map<Id, Child>, ids: seq<Id>, alive: seq<bool>, i: nat, told: seq<Pid>)
    requires i < |ids| <= |alive| && forall id :: id in ids ==> id in children
    ensures told + Signals(children, ids[i..], alive[i..])
            == (if children[ids[i]].pid.Some? && alive[i] then told + [children[ids[i]].pid.value] else told)
               + Signals(children, ids[i + 1..], alive[i + 1..])
  {
    assert ids[i..][1..] == ids[i + 1..] && alive[i..][1..] == alive[i + 1..];
  }

  lemma AllDownStep(children: map<Id, Child>, ids: seq<Id>, i: nat)
    requires i < |ids| && Distinct(ids) && ids[i] in children
    ensures AllDown(children, ids[..i])[ids[i]] == children[ids[i]]
    ensures AllDown(children, ids[..i + 1]) == AllDown(children, ids[..i])[ids[i] := Down(children[ids[i]])]
  {
    assert ids[..i + 1] == ids[..i] + [ids[i]];
    assert ids[i] !in ids[..i];
  }

  class SupervisorLoop {
    var children: map<Id, Child>
    const startOrder: seq<Id>
    var intensityTimes: seq<Time>
    const cfg: Config
    ghost var history: seq<Time>

    ghost function State(): Sup
      reads this
    {
      Sup(children, startOrder, intensityTimes, history)
    }

    /** The children as `init` lists them, all started. */
    constructor (order: seq<Id>, children: map<Id, Child>, cfg: Config)
      requires Distinct(order) && children.Keys == set id | id in order
      ensures State() == Sup(children, order, [], []) && this.cfg == cfg && Listed(State())
    {
      this.children, startOrder, intensityTimes, this.cfg, history := children, order, [], cfg, [];
    }

    method MarkDown(id: Id)
      requires id in children
      modifies this`children
      ensures children == old(children)[id := Down(old(children)[id])]
    {
      children := children[id := children[id].(pid := None, ref := None)];
    }

    method StartChild(id: Id, start: Start) returns (ok: bool)
      requires id in children
      modifies this`children
      ensures ok == start.Started?
      ensures children == if ok then old(children)[id := old(children)[id].(pid := Some(start.pid), ref := Some(start.ref))]
                          else old(children)
    {
      if start.Failed? {
        return false;
      }
      children := children[id := children[id].(pid := Some(start.pid), ref := Some(start.ref))];
      return true;
    }

    method RestartChild(id: Id, t: Try) returns (v: Verdict)
      requires id in children
      modifies this`children, this`intensityTimes, this`history
      ensures (State(), v) == RestartOne(old(State()), cfg, id, t)
    {
      var kept, exceeded := RecordRestart(intensityTimes, t.now, cfg.maxRestarts, cfg.maxSeconds);
      intensityTimes := kept;
      if exceeded {
        return Exceeded;
      }
      ghost var c := children[id];
      history := history + [t.now];
      MarkDown(id);
      children := children[id := children[id].(restarts := children[id].restarts + 1)];
      var ok := StartChild(id, t.start);
      assert children[id] == Reborn(c, t.start);
      assert children == old(children)[id := Reborn(c, t.start)];
      return if ok then Done else StartFailed;
    }

    method RestartChildren(ids: seq<Id>, tries: seq<Try>) returns (v: Verdict)
      requires |ids| <= |tries| && forall id :: id in ids ==> id in children
      modifies this`children, this`intensityTimes, this`history
      ensures (State(), v) == RestartAll(old(State()), cfg, ids, tries)
    {
      ghost var s0 := State();
      for i := 0 to |ids|
        invariant forall id :: id in ids ==> id in children
        invariant RestartAll(State(), cfg, ids[i..], tries[i..]) == RestartAll(s0, cfg, ids, tries)
      {
        assert ids[i..][1..] == ids[i + 1..] && tries[i..][1..] == tries[i + 1..];
        v := RestartChild(ids[i], tries[i]);
        if v != Done {
          return;
        }
      }
      v := Done;
    }

    /** Tells the living among `ids` to exit and marks each of them down. */
    method StopChildren(ids: seq<Id>, alive: seq<bool>) returns (told: seq<Pid>)
      requires Distinct(ids) && |ids| <= |alive| && forall id :: id in ids ==> id in children
      modifies this`children
      ensures told == Signals(old(children), ids, alive) && children == AllDown(old(children), ids)
    {
      told := [];
      ghost var c0 := children;
      for i := 0 to |ids|
        invariant children == AllDown(c0, ids[..i])
        invariant told + Signals(c0, ids[i..], alive[i..]) == Signals(c0, ids, alive)
      {
        SignalsStep(c0, ids, alive, i, told);
        AllDownStep(c0, ids, i);
        assert children[ids[i]] == c0[ids[i]];
        hide Signals, AllDown;
        if children[ids[i]].pid.Some? && alive[i] {
          told := told + [children[ids[i]].pid.value];
        }
        MarkDown(ids[i]);
      }
      assert ids[..|ids|] == ids;
    }

    method IndexOf(id: Id) returns (k: nat)
      requires id in startOrder
      ensures k < |startOrder| && startOrder[k..] == From(startOrder, id)
    {
      k := 0;
      while startOrder[k] != id
        invariant k < |startOrder| && id in startOrder[k..] && From(startOrder[k..], id) == From(startOrder, id)
        decreases |startOrder| - k
      {
        assert startOrder[k..][1..] == startOrder[k + 1..];
        k := k + 1;
      }
    }

    method HandleChildExit(dead: Id, reason: Reason, w: World) returns (v: Verdict, told: seq<Pid>)
      requires Listed(State()) && dead in startOrder && Answers(State(), w)
      modifies this`children, this`intensityTimes, this`history
      ensures (State(), v, told) == Round(old(State()), cfg, dead, reason, w)
    {
      told := [];
      if reason == Shutdown || reason == SupervisorShutdown {
        MarkDown(dead);
        return Done, [];
      }
      VictimsListed(State(), cfg.strategy, dead);
      if cfg.strategy == OneForOne {
        v := RestartChildren([dead], w.tries);
      } else if cfg.strategy == OneForAll {
        told := StopChildren(startOrder, w.alive);
        v := RestartChildren(startOrder, w.tries);
      } else if cfg.strategy == RestForOne {
        var k := IndexOf(dead);
        told := StopChildren(startOrder[k..], w.alive);
        v := RestartChildren(startOrder[k..], w.tries);
      } else {
        v := Done;
      }
    }

    method FindChild(ref: Ref) returns (found: Option<Id>)
      requires Listed(State())
      ensures found == Find(State(), startOrder, ref)
    {
      for i := 0 to |startOrder|
        invariant Find(State(), startOrder[i..], ref) == Find(State(), startOrder, ref)
      {
        assert startOrder[i..][1..] == startOrder[i + 1..];
        if children[startOrder[i]].ref == Some(ref) {
          return Some(startOrder[i]);
        }
      }
      return None;
    }

    method HandleDown(shape: Shape, ref: Ref, reason: Reason, w: World) returns (v: Verdict, told: seq<Pid>)
      requires Listed(State()) && Answers(State(), w)
      modifies this`children, this`intensityTimes, this`history
      ensures (State(), v, told) == HandledDown(old(State()), cfg, shape, ref, reason, w)
      ensures Listed(State())
    {
      HandledDownKeepsListed(State(), cfg, shape, ref, reason, w);
      if shape.FourFields? {
        return Done, [];
      }
      FindSpec(State(), startOrder, ref);
      var found := FindChild(ref);
      if found.None? || found.value.name == "" || reason == Killed || reason == Shutdown {
        return Done, [];
      }
      v, told := HandleChildExit(found.value, reason, w);
    }

    /** At the end: every child that is still alive is told to exit, in order. */
    method ShutdownChildren(alive: seq<bool>) returns (told: seq<Pid>)
      requires Listed(State()) && |startOrder| <= |alive|
      ensures told == Signals(children, startOrder, alive)
    {
      told := [];
      for i := 0 to |startOrder|
        invariant told + Signals(children, startOrder[i..], alive[i..]) == Signals(children, startOrder, alive)
      {
        SignalsStep(children, startOrder, alive, i, told);
        hide Signals;
        if children[startOrder[i]].pid.Some? && alive[i] {
          told := told + [children[startOrder[i]].pid.value];
        }
      }
    }
  }
}
