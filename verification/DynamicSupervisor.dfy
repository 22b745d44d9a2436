/** The dynamic supervisor: children that come and go, one restart window for each child, and the strategies over both
    the static and the dynamic children. */
module DynamicSupervisor {
  import opened Wrappers
  import opened RestartWindow
  import P = ProcessTable
  import S = Supervisor

  type Id = S.Id
  type Pid = S.Pid
  type Ref = S.Ref
  type Shape = S.Shape

  datatype Restart = Permanent | Transient | Temporary

  /** `history` is every failure of this child that the intensity check let through. */
  datatype Child = Child(pid: Option<Pid>, ref: Option<Ref>, restarts: nat, times: seq<Time>, dynamic: bool,
                         restart: Restart, history: seq<Time>)

  datatype Sup = Sup(children: map<Id, Child>, startOrder: seq<Id>, dynamicOrder: seq<Id>, pending: map<Id, Pid>)

  /** The class of the exception that a failed start raises. */
  datatype Kind = RuntimeError | ValueError | OtherError

  datatype Start = Started(pid: Pid, ref: Ref) | Failed(kind: Kind)

  datatype Verdict = Done | Exceeded | StartFailed(kind: Kind)

  function Everyone(s: Sup): seq<Id> {
    s.startOrder + s.dynamicOrder
  }

  /** Those of `ids` that are static children. */
  function Statics(children: map<Id, Child>, ids: seq<Id>): (r: seq<Id>)
    ensures |r| <= |ids|
    ensures forall id :: id in r <==> id in ids && id in children && !children[id].dynamic
  {
    if ids == [] then []
    else (if ids[0] in children && !children[ids[0]].dynamic then [ids[0]] else []) + Statics(children, ids[1..])
  }

  /** The children in the order in which they entered the table. */
  function Items(s: Sup): seq<Id> {
    Statics(s.children, s.startOrder) + s.dynamicOrder
  }

  /** Every child is in its list, and the dynamic list holds children only. */
  ghost predicate Tracked(s: Sup) {
    && S.Distinct(s.startOrder) && S.Distinct(s.dynamicOrder)
    && (forall id :: id in s.children ==> id in if s.children[id].dynamic then s.dynamicOrder else s.startOrder)
    && (forall id :: id in s.dynamicOrder ==> id in s.children && s.children[id].dynamic)
  }

  /** The lists and the table agree: the start order, too, holds children only, and only dynamic ones await their end. */
  ghost predicate Listed(s: Sup) {
    && Tracked(s)
    && (forall id :: id in s.startOrder ==> id in s.children && !s.children[id].dynamic)
    && (forall id :: id in s.pending ==> id in s.dynamicOrder)
  }

  function Without(ids: seq<Id>, id: Id): seq<Id> {
    if ids == [] then [] else if ids[0] == id then ids[1..] else [ids[0]] + Without(ids[1..], id)
  }

  /** A child that is not restarted: a dynamic one is forgotten, a static one is marked down. */
  function Gone(s: Sup, id: Id): Sup
    requires id in s.children
  {
    if s.children[id].dynamic then
      s.(children := s.children - {id}, dynamicOrder := Without(s.dynamicOrder, id))
    else s.(children := s.children[id := s.children[id].(pid := None, ref := None)])
  }

  /** Counted first, then started; a failed start leaves the old pid and reference in place. */
  function RestartOne(s: Sup, id: Id, start: Start): (Sup, Verdict)
    requires id in s.children
  {
    var c := s.children[id].(restarts := s.children[id].restarts + 1);
    match start
    case Started(pid, ref) => (s.(children := s.children[id := c.(pid := Some(pid), ref := Some(ref))]), Done)
    case Failed(kind) => (s.(children := s.children[id := c]), StartFailed(kind))
  }

  /** In order, passing over ids that are not in the table, until a start fails. */
  function RestartAll(s: Sup, ids: seq<Id>, starts: seq<Start>): (Sup, Verdict)
    requires |ids| <= |starts|
    decreases |ids|
  {
    if ids == [] then (s, Done)
    else if ids[0] !in s.children then RestartAll(s, ids[1..], starts[1..])
    else
      var (s1, v) := RestartOne(s, ids[0], starts[0]);
      if v != Done then (s1, v) else RestartAll(s1, ids[1..], starts[1..])
  }

  /** The pids killed: those of `ids`, except `skip`, that are in the table, set, and alive when asked. */
  function Kills(children: map<Id, Child>, ids: seq<Id>, skip: Option<Id>, alive: seq<bool>): seq<Pid>
    requires |ids| <= |alive|
  {
    if ids == [] then []
    else
      (if Some(ids[0]) != skip && ids[0] in children && children[ids[0]].pid.Some? && alive[0]
       then [children[ids[0]].pid.value] else [])
      + Kills(children, ids[1..], skip, alive[1..])
  }

  datatype Config = Config(maxRestarts: int, maxSeconds: int, strategy: S.Strategy)

  datatype World = World(now: Time, alive: seq<bool>, starts: seq<Start>)

  /** One start more than there are children: see `Round`. */
  predicate Answers(s: Sup, w: World) {
    |Everyone(s)| <= |w.alive| && |Everyone(s)| < |w.starts|
  }

  function Victims(s: Sup, strategy: S.Strategy, id: Id): seq<Id>
    requires id in Everyone(s)
  {
    match strategy
    case OneForOne => [id]
    case OneForAll => Everyone(s)
    case RestForOne => S.From(Everyone(s), id)
    case Unknown => []
  }

  /** The strategy, once the failure has been admitted. Under rest-for-one a ValueError of a start is taken for a child
      that is not listed: the failed child is restarted once more. */
  function Round(s: Sup, strategy: S.Strategy, id: Id, w: World): (Sup, Verdict, seq<Pid>)
    requires Tracked(s) && id in s.children && Answers(s, w)
  {
    S.FromIsSuffix(Everyone(s), id);
    var victims := Victims(s, strategy, id);
    RestartAllKeepsLists(s, victims, w.starts);
    var (t, v) := RestartAll(s, victims, w.starts);
    match strategy
    case OneForOne => (t, v, [])
    case OneForAll => (t, v, Kills(s.children, Items(s), Some(id), w.alive))
    case RestForOne =>
      var killed := Kills(s.children, victims[1..], None, w.alive);
      if v != StartFailed(ValueError) then (t, v, killed)
      else
        var (t', v') := RestartOne(t, id, w.starts[|victims|]);
        (t', v', killed)
    case Unknown => (t, v, [])
  }

  predicate Stays(reason: S.Reason, restart: Restart) {
    && reason != S.Shutdown && reason != S.SupervisorShutdown && reason != S.Killed
    && (restart == Permanent || (restart == Transient && reason != S.Normal))
  }

  /** The state in which an admitted failure starts its round. */
  function Noted(s: Sup, cfg: Config, id: Id, now: Time): Sup
    requires id in s.children
  {
    var c := s.children[id];
    s.(children := s.children[id := c.(times := Recorded(c.times, now, cfg.maxSeconds), history := c.history + [now])])
  }

  function HandledExit(s: Sup, cfg: Config, id: Id, reason: S.Reason, w: World): (Sup, Verdict, seq<Pid>)
    requires Tracked(s) && id in s.children && Answers(s, w)
  {
    var c := s.children[id];
    if !Stays(reason, c.restart) then (Gone(s, id), Done, [])
    else
      var c1 := c.(times := Recorded(c.times, w.now, cfg.maxSeconds));
      if |c1.times| > cfg.maxRestarts then (s.(children := s.children[id := c1]), Exceeded, [])
      else Round(Noted(s, cfg, id, w.now), cfg.strategy, id, w)
  }

  /** The first child of `ids` that is monitored by `ref`. */
  function Find(s: Sup, ids: seq<Id>, ref: Ref): (found: Option<Id>)
    ensures found.Some? ==>
              found.value in ids && found.value in s.children && s.children[found.value].ref == Some(ref)
  {
    if ids == [] then None
    else if ids[0] in s.children && s.children[ids[0]].ref == Some(ref) then Some(ids[0])
    else Find(s, ids[1..], ref)
  }

  /** The child that a DOWN is for. The loop matches the tuple of five fields only, and ignores the one of four. */
  function Looked(s: Sup, shape: Shape, ref: Ref): (found: Option<Id>)
    ensures found.Some? ==> shape.FiveFields? && found.value in s.children && s.children[found.value].ref == Some(ref)
  {
    if shape.FiveFields? then Find(s, Items(s), ref) else None
  }

  /** A DOWN message, and the caller of `terminate_child` that hears of it. A child named by the empty string is taken for
      no child. */
  function HandledDown(s: Sup, cfg: Config, shape: Shape, ref: Ref, reason: S.Reason, w: World)
    : (Sup, Verdict, seq<Pid>, Option<Pid>)
    requires Tracked(s) && Answers(s, w)
  {
    match Looked(s, shape, ref)
    case None => (s, Done, [], None)
    case Some(id) =>
      if id.name == "" then (s, Done, [], None)
      else
        var (t, v, killed) := HandledExit(s.(pending := s.pending - {id}), cfg, id, reason, w);
        (t, v, killed, if id in s.pending then Some(s.pending[id]) else None)
  }

  datatype Reply = Added(pid: Pid) | Fine | NotFound | Refused

  /** What `start_child` is asked to add. An invalid spec may not even have an id. */
  datatype Spec = Valid(id: Id, restart: Restart) | Invalid(under: Option<Id>)

  /** The id leaves the table and the dynamic list, whatever it stood for. */
  function Dropped(s: Sup, id: Id): Sup {
    s.(children := s.children - {id}, dynamicOrder := Without(s.dynamicOrder, id))
  }

  /** A child whose start fails is taken out again; and so is whoever has the id of an invalid spec. Without an id the
      clean-up fails as well, and nobody is answered. */
  function AddedChild(s: Sup, spec: Spec, start: Start): (Sup, Option<Reply>) {
    match spec
    case Invalid(None) => (s, None)
    case Invalid(Some(id)) => (Dropped(s, id), Some(Refused))
    case Valid(id, restart) =>
      if id in s.children || start.Failed? then (s, Some(Refused))
      else
        (s.(children := s.children[id := Child(Some(start.pid), Some(start.ref), 0, [], true, restart, [])],
            dynamicOrder := s.dynamicOrder + [id]),
         Some(Added(start.pid)))
  }

  /** Only a living dynamic child is told to exit; its caller is answered by the DOWN. */
  function TerminatedChild(s: Sup, id: Id, alive: bool, caller: Pid): (Sup, Option<Reply>, Option<Pid>) {
    if id !in s.children then (s, Some(NotFound), None)
    else if s.children[id].dynamic && s.children[id].pid.Some? && alive then
      (s.(pending := s.pending[id := caller]), None, s.children[id].pid)
    else (s, Some(Fine), None)
  }

  // ---------- The lists and the table ----------

  lemma {:induction false} FindMisses(s: Sup, ids: seq<Id>, ref: Ref)
    ensures Find(s, ids, ref) == None <==> forall id :: id in ids && id in s.children ==> s.children[id].ref != Some(ref)
  {
    if ids != [] {
      FindMisses(s, ids[1..], ref);
    }
  }

  /** A DOWN finds nobody just when no child is monitored by its reference. */
  lemma DownMisses(s: Sup, ref: Ref)
    requires Tracked(s)
    ensures Find(s, Items(s), ref) == None <==> forall id :: id in s.children ==> s.children[id].ref != Some(ref)
  {
    FindMisses(s, Items(s), ref);
  }

  lemma ListedIsDistinct(s: Sup)
    requires Listed(s)
    ensures S.Distinct(Everyone(s)) && forall id :: id in Everyone(s) <==> id in s.children
  {
    DistinctWhole(s.startOrder, s.dynamicOrder);
  }

  /** The failed child, everyone, or the failed child and everyone after it: static children first, then dynamic ones. */
  lemma VictimsListed(s: Sup, strategy: S.Strategy, id: Id)
    requires Listed(s) && id in s.children
    ensures var victims, all := Victims(s, strategy, id), Everyone(s);
            && S.Distinct(victims) && |victims| <= |all| && (forall v :: v in victims ==> v in s.children)
            && all == s.startOrder + s.dynamicOrder
            && (strategy != S.Unknown ==> id in victims)
            && (strategy == S.OneForOne ==> victims == [id])
            && (strategy == S.OneForAll ==> victims == all)
            && (strategy == S.Unknown ==> victims == [])
            && (strategy == S.RestForOne ==> victims == all[|all| - |victims|..])
            && (strategy == S.RestForOne ==> victims[0] == id && id !in all[..|all| - |victims|])
  {
    ListedIsDistinct(s);
    S.FromIsSuffix(Everyone(s), id);
  }

  predicate SameBook(c: Child, d: Child) {
    d.dynamic == c.dynamic && d.times == c.times && d.history == c.history && d.restart == c.restart
  }

  /** Same children, same lists, same windows: at most pids, references and counts differ. */
  ghost predicate SameLists(s: Sup, t: Sup) {
    && t.startOrder == s.startOrder && t.dynamicOrder == s.dynamicOrder && t.pending == s.pending
    && t.children.Keys == s.children.Keys
    && (forall id :: id in s.children ==> SameBook(s.children[id], t.children[id]))
  }

  lemma {:induction false} RestartAllKeepsLists(s: Sup, ids: seq<Id>, starts: seq<Start>)
    requires |ids| <= |starts|
    ensures SameLists(s, RestartAll(s, ids, starts).0)
    decreases |ids|
  {
    if ids != [] {
      if ids[0] !in s.children {
        RestartAllKeepsLists(s, ids[1..], starts[1..]);
      } else {
        var (s1, v) := RestartOne(s, ids[0], starts[0]);
        if v == Done {
          RestartAllKeepsLists(s1, ids[1..], starts[1..]);
        }
      }
    }
  }

  lemma SameListsKeeps(s: Sup, t: Sup)
    requires Tracked(s) && SameLists(s, t)
    ensures Tracked(t) && (Listed(s) ==> Listed(t))
  {
    forall id | id in t.children ensures id in s.children && t.children[id].dynamic == s.children[id].dynamic {
      assert SameBook(s.children[id], t.children[id]);
    }
  }

  lemma RoundKeepsLists(s: Sup, strategy: S.Strategy, id: Id, w: World)
    requires Tracked(s) && id in s.children && Answers(s, w)
    ensures SameLists(s, Round(s, strategy, id, w).0)
  {
    S.FromIsSuffix(Everyone(s), id);
    var victims := Victims(s, strategy, id);
    RestartAllKeepsLists(s, victims, w.starts);
  }

  lemma {:induction false} WithoutIsOthers(ids: seq<Id>, id: Id)
    requires S.Distinct(ids)
    ensures S.Distinct(Without(ids, id))
    ensures forall x :: x in Without(ids, id) <==> x in ids && x != id
  {
    if ids != [] {
      assert ids[0] !in ids[1..];
      if ids[0] != id {
        WithoutIsOthers(ids[1..], id);
        DistinctWhole([ids[0]], Without(ids[1..], id));
      }
    }
  }

  lemma DistinctWhole(a: seq<Id>, b: seq<Id>)
    requires S.Distinct(a) && S.Distinct(b) && forall x :: x in a ==> x !in b
    ensures S.Distinct(a + b)
  {
    var c := a + b;
    forall i, j | 0 <= i < j < |c| ensures c[i] != c[j] {
      if i < |a| <= j {
        assert c[i] in a && c[j] in b;
      }
    }
  }

  lemma GoneKeeps(s: Sup, id: Id)
    requires Tracked(s) && id in s.children && id !in s.pending
    ensures Tracked(Gone(s, id)) && (Listed(s) ==> Listed(Gone(s, id)))
  {
    WithoutIsOthers(s.dynamicOrder, id);
  }

  lemma HandledExitKeeps(s: Sup, cfg: Config, id: Id, reason: S.Reason, w: World)
    requires Tracked(s) && id in s.children && id !in s.pending && Answers(s, w)
    ensures var t := HandledExit(s, cfg, id, reason, w).0;
            Tracked(t) && (Listed(s) ==> Listed(t))
  {
    var c := s.children[id];
    if !Stays(reason, c.restart) {
      GoneKeeps(s, id);
    } else if |Recorded(c.times, w.now, cfg.maxSeconds)| <= cfg.maxRestarts {
      var s2 := Noted(s, cfg, id, w.now);
      RoundKeepsLists(s2, cfg.strategy, id, w);
      SameListsKeeps(s2, Round(s2, cfg.strategy, id, w).0);
    }
  }

  lemma HandledDownKeeps(s: Sup, cfg: Config, shape: Shape, ref: Ref, reason: S.Reason, w: World)
    requires Tracked(s) && Answers(s, w)
    ensures var t := HandledDown(s, cfg, shape, ref, reason, w).0;
            Tracked(t) && (Listed(s) ==> Listed(t))
  {
    var found := Looked(s, shape, ref);
    hide Looked, HandledExit, Items;
    if found.Some? && found.value.name != "" {
      var s1 := s.(pending := s.pending - {found.value});
      assert Tracked(s1) && Answers(s1, w) && (Listed(s) ==> Listed(s1));
      hide Tracked, Listed, Answers;
      HandledExitKeeps(s1, cfg, found.value, reason, w);
    }
  }

  lemma AddKeepsTracked(s: Sup, spec: Spec, start: Start)
    requires Tracked(s)
    ensures Tracked(AddedChild(s, spec, start).0)
  {
    match spec
    case Invalid(None) =>
    case Invalid(Some(id)) => WithoutIsOthers(s.dynamicOrder, id);
    case Valid(id, restart) =>
      if id !in s.children {
        assert S.Distinct(s.dynamicOrder + [id]);
      }
  }

  /** An invalid spec under the id of a static child, or of a child that awaits its end. */
  predicate Tears(s: Sup, spec: Spec) {
    spec.Invalid? && spec.under.Some? && (spec.under.value in s.startOrder || spec.under.value in s.pending)
  }

  /** An invalid spec takes out whoever has its id, and so the lists and the table agree after an addition just when that
      was neither a static child nor one that awaits its end. */
  lemma AddKeepsListedIff(s: Sup, spec: Spec, start: Start)
    requires Listed(s)
    ensures Listed(AddedChild(s, spec, start).0) <==> !Tears(s, spec)
  {
    AddKeepsTracked(s, spec, start);
    if spec.Invalid? && spec.under.Some? {
      WithoutIsOthers(s.dynamicOrder, spec.under.value);
    }
  }

  /** A refused addition changes nothing, except that an invalid spec under the id of a child takes that child out. */
  lemma RefusedAddIff(s: Sup, spec: Spec, start: Start)
    requires Tracked(s)
    ensures var (t, reply) := AddedChild(s, spec, start);
            reply.None? || reply == Some(Refused) ==>
              (t == s <==> !(spec.Invalid? && spec.under.Some? && spec.under.value in s.children))
  {
    if spec.Invalid? && spec.under.Some? && spec.under.value !in s.children {
      WithoutAbsent(s.dynamicOrder, spec.under.value);
      assert s.children - {spec.under.value} == s.children;
    }
  }

  lemma {:induction false} WithoutAbsent(ids: seq<Id>, id: Id)
    requires id !in ids
    ensures Without(ids, id) == ids
  {
    if ids != [] {
      WithoutAbsent(ids[1..], id);
    }
  }

  lemma TerminateKeeps(s: Sup, id: Id, alive: bool, caller: Pid)
    requires Tracked(s)
    ensures var t := TerminatedChild(s, id, alive, caller).0;
            Tracked(t) && (Listed(s) ==> Listed(t))
  {
  }

  // ---------- What a round does ----------

  function Reborn(c: Child, start: Start): Child {
    match start
    case Failed(_) => c.(restarts := c.restarts + 1)
    case Started(pid, ref) => c.(pid := Some(pid), ref := Some(ref), restarts := c.restarts + 1)
  }

  /** The first `k` of `ids` were restarted, each once and in order; the next one failed to start, unless there was none;
      nothing else was touched. */
  ghost predicate RestartedUpTo(s: Sup, t: Sup, ids: seq<Id>, starts: seq<Start>, k: nat, v: Verdict) {
    && k <= |ids| <= |starts| && (v == Done <==> k == |ids|) && v != Exceeded
    && t.startOrder == s.startOrder && t.dynamicOrder == s.dynamicOrder && t.pending == s.pending
    && t.children.Keys == s.children.Keys
    && (forall i :: 0 <= i < |ids| ==> ids[i] in s.children)
    && (forall i :: 0 <= i < k ==> starts[i].Started? && t.children[ids[i]] == Reborn(s.children[ids[i]], starts[i]))
    && (v.StartFailed? ==> starts[k] == Failed(v.kind) && t.children[ids[k]] == Reborn(s.children[ids[k]], starts[k]))
    && (forall i :: k < i < |ids| ==> t.children[ids[i]] == s.children[ids[i]])
    && (forall id :: id in s.children && id !in ids ==> t.children[id] == s.children[id])
  }

  lemma RestartedStep(s: Sup, s1: Sup, t: Sup, ids: seq<Id>, starts: seq<Start>, k: nat, v: Verdict)
    requires ids != [] && S.Distinct(ids) && |ids| <= |starts| && ids[0] in s.children
    requires RestartOne(s, ids[0], starts[0]) == (s1, Done)
    requires RestartedUpTo(s1, t, ids[1..], starts[1..], k, v)
    ensures RestartedUpTo(s, t, ids, starts, k + 1, v)
  {
    forall i | 0 < i < |ids| ensures ids[i] in s.children && s1.children[ids[i]] == s.children[ids[i]] {
      assert ids[1..][i - 1] == ids[i];
    }
    assert ids[0] !in ids[1..];
    forall i | 0 <= i < k + 1 ensures starts[i].Started? && t.children[ids[i]] == Reborn(s.children[ids[i]], starts[i]) {
      if i > 0 {
        assert ids[1..][i - 1] == ids[i] && starts[1..][i - 1] == starts[i];
      }
    }
    forall i | k + 1 < i < |ids| ensures t.children[ids[i]] == s.children[ids[i]] {
      assert ids[1..][i - 1] == ids[i];
    }
    forall id | id in s.children && id !in ids ensures t.children[id] == s.children[id] {
      assert id !in ids[1..];
    }
  }

  lemma {:induction false} RestartAllInOrder(s: Sup, ids: seq<Id>, starts: seq<Start>) returns (k: nat)
    requires S.Distinct(ids) && |ids| <= |starts| && forall id :: id in ids ==> id in s.children
    ensures RestartedUpTo(s, RestartAll(s, ids, starts).0, ids, starts, k, RestartAll(s, ids, starts).1)
    decreases |ids|
  {
    k := 0;
    if ids != [] {
      var (s1, v1) := RestartOne(s, ids[0], starts[0]);
      if v1 == Done {
        var n := RestartAllInOrder(s1, ids[1..], starts[1..]);
        var (t, v) := RestartAll(s1, ids[1..], starts[1..]);
        RestartedStep(s, s1, t, ids, starts, n, v);
        k := n + 1;
      }
    }
  }

  /** `u` is what restarting the victims in order came to; `t` is that, or one more restart of the failed child. */
  ghost predicate InOrder(s: Sup, t: Sup, v: Verdict, strategy: S.Strategy, id: Id, victims: seq<Id>, w: World,
          k: nat, u: Sup, v': Verdict) {
    && RestartedUpTo(s, u, victims, w.starts, k, v')
    && (if strategy == S.RestForOne && v' == StartFailed(ValueError)
        then id in u.children && |victims| < |w.starts| && (t, v) == RestartOne(u, id, w.starts[|victims|])
        else (t, v) == (u, v'))
  }

  /** An admitted failure restarts exactly the victims of the strategy, each once and in order, up to the first start that
      fails. Rest-for-one adds one more restart of the failed child just when that failure is a ValueError. */
  lemma RoundRestartsInOrder(s: Sup, strategy: S.Strategy, id: Id, w: World)
    requires Listed(s) && id in s.children && Answers(s, w)
    ensures var victims, (t, v, _) := Victims(s, strategy, id), Round(s, strategy, id, w);
            exists k: nat, u: Sup, v': Verdict :: InOrder(s, t, v, strategy, id, victims, w, k, u, v')
  {
    VictimsListed(s, strategy, id);
    var victims := Victims(s, strategy, id);
    var k := RestartAllInOrder(s, victims, w.starts);
    var (u, v') := RestartAll(s, victims, w.starts);
    var (t, v, _) := Round(s, strategy, id, w);
    assert id in u.children && |victims| < |w.starts|;
    assert (t, v) == if strategy == S.RestForOne && v' == StartFailed(ValueError) then RestartOne(u, id, w.starts[|victims|])
                     else (u, v');
    hide Listed, Victims, RestartAll, RestartedUpTo, Round, RestartOne;
    assert InOrder(s, t, v, strategy, id, victims, w, k, u, v');
  }

  /** The first of the `n` starts to fail does so with `kind`. */
  ghost predicate FirstFailure(starts: seq<Start>, n: nat, kind: Kind) {
    exists k :: 0 <= k < n <= |starts| && starts[k] == Failed(kind) && forall i :: 0 <= i < k ==> starts[i].Started?
  }

  lemma FailureIsFirst(s: Sup, t: Sup, ids: seq<Id>, starts: seq<Start>, k: nat, v: Verdict, kind: Kind)
    requires RestartedUpTo(s, t, ids, starts, k, v)
    ensures v == StartFailed(kind) <==> FirstFailure(starts, |ids|, kind)
  {
    if j :| 0 <= j < |ids| && starts[j] == Failed(kind) && forall i :: 0 <= i < j ==> starts[i].Started? {
      assert j >= k;
      assert v != Done && starts[k] == Failed(v.kind);
      assert j == k;
    }
  }

  /** So one failure can restart the failed child twice: just under rest-for-one, when the first start to fail raises a
      ValueError. */
  lemma RestartedTwiceIff(s: Sup, strategy: S.Strategy, id: Id, w: World)
    requires Listed(s) && id in s.children && Answers(s, w)
    ensures var t, victims := Round(s, strategy, id, w).0, Victims(s, strategy, id);
            && id in t.children
            && (t.children[id].restarts == s.children[id].restarts + 2
                <==> strategy == S.RestForOne && FirstFailure(w.starts, |victims|, ValueError))
            && t.children[id].restarts <= s.children[id].restarts + 2
  {
    VictimsListed(s, strategy, id);
    var victims := Victims(s, strategy, id);
    var k := RestartAllInOrder(s, victims, w.starts);
    var (u, v) := RestartAll(s, victims, w.starts);
    var t := Round(s, strategy, id, w).0;
    assert id in u.children;
    assert t == if strategy == S.RestForOne && v == StartFailed(ValueError) then RestartOne(u, id, w.starts[|victims|]).0 else u;
    assert strategy == S.RestForOne ==> victims[0] == id;
    RestartCounts(u, id, w.starts[|victims|]);
    hide *;
    FailureIsFirst(s, u, victims, w.starts, k, v, ValueError);
    RestartedCount(s, u, victims, w.starts, k, v, id);
  }

  lemma RestartCounts(s: Sup, id: Id, start: Start)
    requires id in s.children
    ensures var t := RestartOne(s, id, start).0;
            t.children.Keys == s.children.Keys && t.children[id].restarts == s.children[id].restarts + 1
  {
  }

  lemma RestartedCount(s: Sup, t: Sup, ids: seq<Id>, starts: seq<Start>, k: nat, v: Verdict, id: Id)
    requires RestartedUpTo(s, t, ids, starts, k, v) && id in s.children
    ensures id in t.children && s.children[id].restarts <= t.children[id].restarts <= s.children[id].restarts + 1
    ensures ids != [] && ids[0] == id && v != Exceeded ==> t.children[id].restarts == s.children[id].restarts + 1
  {
    if id in ids {
      var i :| 0 <= i < |ids| && ids[i] == id;
    }
  }

  /** Killed for the round: just the children of `ids`, but for `skip`, that have a pid and were found alive. */
  lemma {:induction false} KillsReach(children: map<Id, Child>, ids: seq<Id>, skip: Option<Id>, alive: seq<bool>,
          pid: Pid)
    requires |ids| <= |alive|
    ensures pid in Kills(children, ids, skip, alive)
            <==> exists i :: 0 <= i < |ids| && Killed(children, ids[i], skip, alive[i], pid)
  {
    if ids != [] {
      KillsReach(children, ids[1..], skip, alive[1..], pid);
      if pid in Kills(children, ids[1..], skip, alive[1..]) {
        var i :| 0 <= i < |ids[1..]| && Killed(children, ids[1..][i], skip, alive[1..][i], pid);
        assert ids[i + 1] == ids[1..][i] && alive[i + 1] == alive[1..][i];
      }
      if i :| 0 <= i < |ids| && Killed(children, ids[i], skip, alive[i], pid) && i > 0 {
        assert ids[1..][i - 1] == ids[i] && alive[1..][i - 1] == alive[i];
      }
    }
  }

  predicate Killed(children: map<Id, Child>, id: Id, skip: Option<Id>, alive: bool, pid: Pid) {
    Some(id) != skip && id in children && children[id].pid == Some(pid) && alive
  }

  // ---------- When a DOWN restarts somebody ----------

  lemma {:induction false} RestartAllActs(s: Sup, ids: seq<Id>, starts: seq<Start>, id: Id)
    requires |ids| <= |starts| && id in s.children
    ensures var (t, v) := RestartAll(s, ids, starts);
            && id in t.children && t.children[id].restarts >= s.children[id].restarts
            && (id in ids ==> v != Done || t.children[id].restarts > s.children[id].restarts)
    decreases |ids|
  {
    if ids != [] {
      if ids[0] !in s.children {
        RestartAllActs(s, ids[1..], starts[1..], id);
      } else {
        var (s1, v) := RestartOne(s, ids[0], starts[0]);
        if v == Done {
          RestartAllActs(s1, ids[1..], starts[1..], id);
        }
      }
    }
  }

  /** Somebody was restarted, or the attempt was refused or failed. */
  ghost predicate Acted(s: Sup, t: Sup, v: Verdict) {
    v != Done || exists id :: id in s.children && id in t.children && t.children[id].restarts > s.children[id].restarts
  }

  lemma RoundActsIff(s: Sup, strategy: S.Strategy, id: Id, w: World)
    requires Tracked(s) && id in s.children && Answers(s, w)
    ensures var (t, v, _) := Round(s, strategy, id, w);
            && id in t.children
            && (strategy != S.Unknown ==> v != Done || t.children[id].restarts > s.children[id].restarts)
            && (strategy == S.Unknown ==> v == Done && t == s)
  {
    S.FromIsSuffix(Everyone(s), id);
    RestartAllActs(s, Victims(s, strategy, id), w.starts, id);
  }

  lemma ExitActsIff(s: Sup, cfg: Config, id: Id, reason: S.Reason, w: World)
    requires Tracked(s) && id in s.children && Answers(s, w)
    ensures var (t, v, _), c := HandledExit(s, cfg, id, reason, w), s.children[id];
            Acted(s, t, v)
            <==> Stays(reason, c.restart)
                 && (cfg.strategy != S.Unknown || |Recorded(c.times, w.now, cfg.maxSeconds)| > cfg.maxRestarts)
  {
    var s1 := Noted(s, cfg, id, w.now);
    assert Tracked(s1) && id in s1.children && Answers(s1, w) && s1.children[id].restarts == s.children[id].restarts;
    RoundActsIff(s1, cfg.strategy, id, w);
    hide Round, Stays, Recorded, Tracked, Answers;
  }

  /** A DOWN restarts somebody, or tries to, just when it is the tuple of five fields and the child it finds has a nonempty
      id and is to stay. A strategy the code does not know only counts the failures. */
  lemma DownRestartsIff(s: Sup, cfg: Config, shape: Shape, ref: Ref, reason: S.Reason, w: World)
    requires Tracked(s) && Answers(s, w)
    ensures var (t, v, _, _), found := HandledDown(s, cfg, shape, ref, reason, w), Find(s, Items(s), ref);
            Acted(s, t, v) <==> shape.FiveFields? && found.Some? && found.value.name != ""
                                && reason != S.Shutdown && reason != S.SupervisorShutdown && reason != S.Killed
                                && (s.children[found.value].restart == Permanent
                                    || (s.children[found.value].restart == Transient && reason != S.Normal))
                                && (cfg.strategy != S.Unknown
                                    || |Recorded(s.children[found.value].times, w.now, cfg.maxSeconds)| > cfg.maxRestarts)
  {
    var found := Looked(s, shape, ref);
    if found.Some? && found.value.name != "" {
      var s1 := s.(pending := s.pending - {found.value});
      assert Tracked(s1) && Answers(s1, w);
      ExitActsIff(s1, cfg, found.value, reason, w);
      hide Looked, HandledExit, Recorded, Items, Tracked, Answers;
    }
  }

  const PLAIN: Child := Child(Some(S.Pid("p")), Some(S.Ref("r")), 0, [], false, Permanent, [])

  /** So a permanent child whose id is the empty string is never restarted. */
  lemma NamelessIsNotRestarted()
    ensures var id, w := S.Id(""), World(0, [true], [Started(S.Pid("q"), S.Ref("q")), Failed(OtherError)]);
            var s := Sup(map[id := PLAIN], [id], [], map[]);
            && Listed(s) && Answers(s, w) && Find(s, Items(s), S.Ref("r")) == Some(id)
            && Stays(S.Error("crash"), s.children[id].restart)
            && HandledDown(s, Config(3, 5, S.OneForOne), P.FiveFields, S.Ref("r"), S.Error("crash"), w) == (s, Done, [], None)
  {
    var id := S.Id("");
    var s := Sup(map[id := PLAIN], [id], [], map[]);
    assert Items(s) == [id];
  }

  /** One crash under rest-for-one, and the child has been restarted twice. */
  lemma OneCrashTwoRestarts()
    ensures var id, w := S.Id("a"), World(0, [true], [Failed(ValueError), Started(S.Pid("q"), S.Ref("q"))]);
            var s := Sup(map[id := PLAIN], [id], [], map[]);
            && Listed(s) && Answers(s, w)
            && var t := HandledDown(s, Config(3, 5, S.RestForOne), P.FiveFields, S.Ref("r"), S.Error("crash"), w).0;
               id in t.children && t.children[id].restarts == 2
  {
    var id := S.Id("a");
    var w := World(0, [true], [Failed(ValueError), Started(S.Pid("q"), S.Ref("q"))]);
    var s := Sup(map[id := PLAIN], [id], [], map[]);
    var cfg := Config(3, 5, S.RestForOne);
    assert Items(s) == [id] && Find(s, Items(s), S.Ref("r")) == Some(id);
    assert Recorded([], 0, 5) == [0];
    var s1 := Noted(s.(pending := map[]), cfg, id, 0);
    assert s.pending - {id} == map[];
    assert HandledDown(s, cfg, P.FiveFields, S.Ref("r"), S.Error("crash"), w).0 == Round(s1, S.RestForOne, id, w).0;
    assert Everyone(s1) == [id] && Victims(s1, S.RestForOne, id) == [id];
    var (u, v) := RestartOne(s1, id, w.starts[0]);
    assert RestartAll(s1, [id], w.starts) == (u, StartFailed(ValueError));
  }

  // ---------- Who comes, goes and is told, in what order ----------

  lemma {:induction false} WithoutFirst(ids: seq<Id>, id: Id) returns (i: nat)
    ensures id !in ids ==> Without(ids, id) == ids
    ensures id in ids ==> i < |ids| && ids[i] == id && Without(ids, id) == ids[..i] + ids[i + 1..]
  {
    i := 0;
    if ids != [] && ids[0] != id {
      var k := WithoutFirst(ids[1..], id);
      i := k + 1;
      if id in ids {
        assert ids[1..][k] == id && ids[..i] == [ids[0]] + ids[1..][..k];
        assert [ids[0]] + (ids[1..][..k] + ids[1..][k + 1..]) == ids[..i] + ids[i + 1..];
      } else {
        assert [ids[0]] + ids[1..] == ids;
      }
    }
  }

  /** A child that is not to stay: a dynamic one leaves the table and its list, in which the others keep their order, and a
      static one has neither pid nor reference. Nobody else is touched. */
  lemma GoneIs(s: Sup, cfg: Config, id: Id, reason: S.Reason, w: World) returns (i: nat)
    requires Tracked(s) && id in s.children && Answers(s, w)
    requires s.children[id].restart == Temporary || (s.children[id].restart == Transient && reason == S.Normal)
             || reason == S.Shutdown || reason == S.SupervisorShutdown || reason == S.Killed
    ensures var (t, v, killed) := HandledExit(s, cfg, id, reason, w);
            && v == Done && killed == []
            && (!s.children[id].dynamic ==>
                  t == s.(children := s.children[id := s.children[id].(pid := None, ref := None)]))
            && (s.children[id].dynamic ==>
                  && i < |s.dynamicOrder| && s.dynamicOrder[i] == id
                  && t == s.(children := s.children - {id}, dynamicOrder := s.dynamicOrder[..i] + s.dynamicOrder[i + 1..]))
  {
    i := WithoutFirst(s.dynamicOrder, id);
  }

  /** A child that is added comes last, alive, with an empty window; an id that is taken, or a start that fails, adds
      nobody. */
  lemma AddedIsLast(s: Sup, id: Id, restart: Restart, start: Start)
    ensures var (t, reply) := AddedChild(s, Valid(id, restart), start);
            if id !in s.children && start.Started? then
              && reply == Some(Added(start.pid))
              && t.children == s.children[id := Child(Some(start.pid), Some(start.ref), 0, [], true, restart, [])]
              && t.startOrder == s.startOrder && t.dynamicOrder == s.dynamicOrder + [id] && t.pending == s.pending
            else t == s && reply == Some(Refused)
  {
  }

  /** One after the other, in the order of the list; one child is killed just when it is not spared, has a pid and is found
      alive. */
  lemma {:induction false} KillsInOrder(children: map<Id, Child>, a: seq<Id>, b: seq<Id>, skip: Option<Id>, alive: seq<bool>)
    requires |a| + |b| <= |alive|
    ensures Kills(children, a + b, skip, alive) == Kills(children, a, skip, alive) + Kills(children, b, skip, alive[|a|..])
  {
    if a == [] {
      assert a + b == b && alive[0..] == alive;
    } else {
      var whole := a + b;
      assert whole[0] == a[0] && whole[1..] == a[1..] + b && alive[1..][|a[1..]|..] == alive[|a|..];
      KillsInOrder(children, a[1..], b, skip, alive[1..]);
      KillsUnfold(children, a, skip, alive);
      KillsUnfold(children, whole, skip, alive);
      hide Kills;
    }
  }

  lemma KillsUnfold(children: map<Id, Child>, ids: seq<Id>, skip: Option<Id>, alive: seq<bool>)
    requires ids != [] && |ids| <= |alive|
    ensures Kills(children, ids, skip, alive)
            == Kills(children, [ids[0]], skip, alive) + Kills(children, ids[1..], skip, alive[1..])
  {
    assert Kills(children, [], skip, alive[1..]) == [];
    assert [ids[0]][1..] == [];
  }

  lemma KillsOne(children: map<Id, Child>, id: Id, skip: Option<Id>, alive: seq<bool>)
    requires alive != []
    ensures Kills(children, [id], skip, alive)
            == if id in children && children[id].pid.Some? && alive[0] && skip != Some(id) then [children[id].pid.value]
               else []
  {
    assert [id][1..] == [];
  }

  lemma {:induction false} AllStatic(children: map<Id, Child>, ids: seq<Id>)
    requires forall id :: id in ids ==> id in children && !children[id].dynamic
    ensures Statics(children, ids) == ids
  {
    if ids != [] {
      AllStatic(children, ids[1..]);
      assert [ids[0]] + ids[1..] == ids;
    }
  }

  /** Whom a round kills: all the other living children under one-for-all, the living ones after the failed child under
      rest-for-one, and else nobody. */
  lemma RoundKills(s: Sup, strategy: S.Strategy, id: Id, w: World, pid: Pid) returns (n: nat)
    requires Listed(s) && id in s.children && Answers(s, w)
    ensures var all := s.startOrder + s.dynamicOrder;
            && n < |all| <= |w.alive| && all[n] == id && (forall x :: x in all ==> x in s.children)
            && (pid in Round(s, strategy, id, w).2
                <==> || (strategy == S.OneForAll
                         && exists i :: 0 <= i < |all| && i != n && s.children[all[i]].pid == Some(pid) && w.alive[i])
                     || (strategy == S.RestForOne
                         && exists i :: n < i < |all| && s.children[all[i]].pid == Some(pid) && w.alive[i - n - 1]))
  {
    var all := Everyone(s);
    ListedIsDistinct(s);
    AllStatic(s.children, s.startOrder);
    S.FromIsSuffix(all, id);
    var from := S.From(all, id);
    n := |all| - |from|;
    assert from[0] == all[n];
    assert Items(s) == all == s.startOrder + s.dynamicOrder && |all| <= |w.alive|;
    assert Round(s, strategy, id, w).2
           == match strategy
              case OneForAll => Kills(s.children, all, Some(id), w.alive)
              case RestForOne => Kills(s.children, from[1..], None, w.alive)
              case _ => [];
    assert S.Distinct(all) && forall x :: x in all ==> x in s.children;
    hide *;
    KillsReach(s.children, all, Some(id), w.alive, pid);
    KillsReach(s.children, from[1..], None, w.alive, pid);
    OthersKilled(s, all, id, n, w, pid);
    LaterKilled(s, all, from, n, w, pid);
  }

  lemma OthersKilled(s: Sup, all: seq<Id>, id: Id, n: nat, w: World, pid: Pid)
    requires S.Distinct(all) && n < |all| <= |w.alive| && all[n] == id && forall x :: x in all ==> x in s.children
    ensures (exists i :: 0 <= i < |all| && Killed(s.children, all[i], Some(id), w.alive[i], pid))
            <==> exists i :: 0 <= i < |all| && i != n && s.children[all[i]].pid == Some(pid) && w.alive[i]
  {
    if i :| 0 <= i < |all| && Killed(s.children, all[i], Some(id), w.alive[i], pid) {
      assert i != n && s.children[all[i]].pid == Some(pid);
    }
    if i :| 0 <= i < |all| && i != n && s.children[all[i]].pid == Some(pid) && w.alive[i] {
      assert all[i] != id;
      assert Killed(s.children, all[i], Some(id), w.alive[i], pid);
    }
  }

  lemma LaterKilled(s: Sup, all: seq<Id>, from: seq<Id>, n: nat, w: World, pid: Pid)
    requires from != [] && n + |from| == |all| <= |w.alive| && from == all[n..] && forall x :: x in all ==> x in s.children
    ensures (exists i :: 0 <= i < |from[1..]| && Killed(s.children, from[1..][i], None, w.alive[i], pid))
            <==> exists i :: n < i < |all| && s.children[all[i]].pid == Some(pid) && w.alive[i - n - 1]
  {
    if i :| 0 <= i < |from[1..]| && Killed(s.children, from[1..][i], None, w.alive[i], pid) {
      assert all[n + 1 + i] == from[1..][i] && w.alive[(n + 1 + i) - n - 1];
    }
    if i :| n < i < |all| && s.children[all[i]].pid == Some(pid) && w.alive[i - n - 1] {
      assert from[1..][i - n - 1] == all[i];
      assert Killed(s.children, from[1..][i - n - 1], None, w.alive[i - n - 1], pid);
    }
  }

  /** What a round leaves of each child, under the strategies that restart nobody twice: a restarted child has the pid and
      the reference of its start; one whose start fails keeps its old ones, and both count one restart more. */
  lemma RoundLeaves(s: Sup, strategy: S.Strategy, id: Id, w: World) returns (k: nat)
    requires Listed(s) && id in s.children && Answers(s, w) && (strategy == S.OneForOne || strategy == S.OneForAll)
    ensures var victims := if strategy == S.OneForOne then [id] else s.startOrder + s.dynamicOrder;
            var (t, v, _) := Round(s, strategy, id, w);
            && k <= |victims| <= |w.starts| && (v == Done <==> k == |victims|)
            && t == s.(children := t.children) && t.children.Keys == s.children.Keys
            && (forall i :: 0 <= i < |victims| ==>
                  && victims[i] in s.children
                  && var c, d, start := s.children[victims[i]], t.children[victims[i]], w.starts[i];
                     if i < k then
                       start.Started? && d == c.(pid := Some(start.pid), ref := Some(start.ref), restarts := c.restarts + 1)
                     else if i == k then start.Failed? && v == StartFailed(start.kind) && d == c.(restarts := c.restarts + 1)
                     else d == c)
            && (forall x :: x in s.children && x !in victims ==> t.children[x] == s.children[x])
  {
    VictimsListed(s, strategy, id);
    var victims := Victims(s, strategy, id);
    k := RestartAllInOrder(s, victims, w.starts);
    var (t, v) := RestartAll(s, victims, w.starts);
    assert Round(s, strategy, id, w).0 == t && Round(s, strategy, id, w).1 == v;
    hide *;
    RestartsLeave(s, t, victims, w.starts, k, v);
  }

  lemma RestartsLeave(s: Sup, t: Sup, ids: seq<Id>, starts: seq<Start>, k: nat, v: Verdict)
    requires RestartedUpTo(s, t, ids, starts, k, v)
    ensures k <= |ids| <= |starts| && (v == Done <==> k == |ids|)
    ensures t == s.(children := t.children) && t.children.Keys == s.children.Keys
    ensures forall i :: 0 <= i < |ids| ==>
              && ids[i] in s.children
              && var c, d, start := s.children[ids[i]], t.children[ids[i]], starts[i];
                 if i < k then
                   start.Started? && d == c.(pid := Some(start.pid), ref := Some(start.ref), restarts := c.restarts + 1)
                 else if i == k then start.Failed? && v == StartFailed(start.kind) && d == c.(restarts := c.restarts + 1)
                 else d == c
    ensures forall x :: x in s.children && x !in ids ==> t.children[x] == s.children[x]
  {
  }

  lemma {:induction false} FindFirst(s: Sup, ids: seq<Id>, ref: Ref, i: nat)
    requires i < |ids| && ids[i] in s.children && s.children[ids[i]].ref == Some(ref)
    requires forall j :: 0 <= j < i ==> !(ids[j] in s.children && s.children[ids[j]].ref == Some(ref))
    ensures Find(s, ids, ref) == Some(ids[i])
  {
    if i > 0 {
      assert forall j :: 0 <= j < i - 1 ==> ids[1..][j] == ids[j + 1];
      FindFirst(s, ids[1..], ref, i - 1);
    }
  }

  /** A DOWN is for the first child under its reference, the static ones first. */
  lemma FindIsFirst(s: Sup, ref: Ref, i: nat)
    requires Listed(s)
    ensures var all := s.startOrder + s.dynamicOrder;
            (forall x :: x in all ==> x in s.children)
            && (i < |all| && s.children[all[i]].ref == Some(ref)
                && (forall j :: 0 <= j < i ==> s.children[all[j]].ref != Some(ref)) ==>
                  Find(s, Items(s), ref) == Some(all[i]))
  {
    var all := s.startOrder + s.dynamicOrder;
    AllStatic(s.children, s.startOrder);
    if i < |all| && s.children[all[i]].ref == Some(ref) && (forall j :: 0 <= j < i ==> s.children[all[j]].ref != Some(ref)) {
      FindFirst(s, all, ref, i);
    }
  }

  /** Whoever asked to terminate a living dynamic child is not answered at once: the child is told, and the DOWN of its end,
      for whatever reason, goes to the caller, once. */
  lemma TerminationIsAnswered(s: Sup, cfg: Config, id: Id, caller: Pid, ref: Ref, reason: S.Reason, w: World)
    requires Tracked(s) && Answers(s, w) && id in s.children && s.children[id].dynamic && s.children[id].pid.Some?
    requires Find(s, Items(s), ref) == Some(id) && id.name != ""
    ensures var (t, reply, told) := TerminatedChild(s, id, true, caller);
            && reply == None && told == s.children[id].pid && t == s.(pending := s.pending[id := caller])
            && Tracked(t) && Answers(t, w)
            && var (u, _, _, answered) := HandledDown(t, cfg, P.FiveFields, ref, reason, w);
               answered == Some(caller) && u.pending == s.pending - {id}
  {
    var t := TerminatedChild(s, id, true, caller).0;
    TerminateKeeps(s, id, true, caller);
    SameFind(s, t, Items(s), ref);
    assert Items(t) == Items(s) && Everyone(t) == Everyone(s);
    assert t == s.(pending := s.pending[id := caller]) && Answers(t, w);
    assert s.pending[id := caller] - {id} == s.pending - {id};
    hide Find, Items, Everyone, Tracked, Answers, HandledDown;
    DownAnswers(t, cfg, id, ref, reason, w);
  }

  lemma DownAnswers(s: Sup, cfg: Config, id: Id, ref: Ref, reason: S.Reason, w: World)
    requires Tracked(s) && Answers(s, w) && Find(s, Items(s), ref) == Some(id) && id.name != "" && id in s.pending
    ensures var (t, _, _, answered) := HandledDown(s, cfg, P.FiveFields, ref, reason, w);
            answered == Some(s.pending[id]) && t.pending == s.pending - {id}
  {
    var s1 := s.(pending := s.pending - {id});
    assert Tracked(s1) && Answers(s1, w) && id in s1.children;
    ExitKeepsPending(s1, cfg, id, reason, w);
    hide Find, Items, Tracked, Answers, HandledExit;
  }

  lemma {:induction false} SameFind(s: Sup, t: Sup, ids: seq<Id>, ref: Ref)
    requires t.children == s.children
    ensures Find(t, ids, ref) == Find(s, ids, ref)
  {
    if ids != [] {
      SameFind(s, t, ids[1..], ref);
    }
  }

  lemma ExitKeepsPending(s: Sup, cfg: Config, id: Id, reason: S.Reason, w: World)
    requires Tracked(s) && id in s.children && Answers(s, w)
    ensures HandledExit(s, cfg, id, reason, w).0.pending == s.pending
  {
    var s1 := Noted(s, cfg, id, w.now);
    assert Tracked(s1) && Answers(s1, w);
    RoundKeepsLists(s1, cfg.strategy, id, w);
    hide Round, Recorded, Stays, Tracked, Answers;
  }

  /** A DOWN of four fields, or for a child without a name, or for nobody, changes nothing and answers nobody. */
  lemma DownPassedOver(s: Sup, cfg: Config, shape: Shape, ref: Ref, reason: S.Reason, w: World)
    requires Tracked(s) && Answers(s, w)
    requires shape.FourFields? || forall id :: id in s.children && s.children[id].ref == Some(ref) ==> id.name == ""
    ensures HandledDown(s, cfg, shape, ref, reason, w) == (s, Done, [], None)
  {
    hide HandledExit;
  }

  // ---------- One window for each child, over a whole run ----------

  /** A child's queue holds the part of its own history inside the window; nothing in it lies after `now`. */
  ghost predicate Book(c: Child, cfg: Config, now: Time) {
    && Sorted(c.history) && c.times == Window(c.history, cfg.maxSeconds)
    && Admitted(c.history, cfg.maxRestarts, cfg.maxSeconds)
    && (forall i :: 0 <= i < |c.history| ==> c.history[i] <= now)
  }

  ghost predicate Books(s: Sup, cfg: Config, now: Time) {
    forall id :: id in s.children ==> Book(s.children[id], cfg, now)
  }

  /** A failure is refused just when it is one too many in the child's own window. */
  lemma FailureIsBooked(c: Child, cfg: Config, last: Time, now: Time)
    requires Book(c, cfg, last) && last <= now
    ensures |Recorded(c.times, now, cfg.maxSeconds)| > cfg.maxRestarts
            <==> |Window(c.history + [now], cfg.maxSeconds)| > cfg.maxRestarts
    ensures |Recorded(c.times, now, cfg.maxSeconds)| <= cfg.maxRestarts ==>
              Book(c.(times := Recorded(c.times, now, cfg.maxSeconds), history := c.history + [now]), cfg, now)
  {
    RecordedIsWindow(c.history, now, cfg.maxSeconds);
    if |Recorded(c.times, now, cfg.maxSeconds)| <= cfg.maxRestarts {
      AdmitOne(c.history, now, cfg.maxRestarts, cfg.maxSeconds);
    }
  }

  lemma SameListsKeepsBooks(s: Sup, t: Sup, cfg: Config, now: Time)
    requires Books(s, cfg, now) && SameLists(s, t)
    ensures Books(t, cfg, now)
  {
    forall id | id in t.children ensures Book(t.children[id], cfg, now) {
      assert Book(s.children[id], cfg, now) && SameBook(s.children[id], t.children[id]);
    }
  }

  lemma LaterBooks(s: Sup, cfg: Config, last: Time, now: Time)
    requires Books(s, cfg, last) && last <= now
    ensures Books(s, cfg, now)
  {
    forall id | id in s.children ensures Book(s.children[id], cfg, now) {
      assert Book(s.children[id], cfg, last);
    }
  }

  lemma GoneKeepsBooks(s: Sup, cfg: Config, id: Id, now: Time)
    requires Books(s, cfg, now) && id in s.children
    ensures Books(Gone(s, id), cfg, now)
  {
    var t := Gone(s, id);
    forall x | x in t.children ensures Book(t.children[x], cfg, now) {
      assert Book(s.children[x], cfg, now);
    }
  }

  lemma NotedKeepsBooks(s: Sup, cfg: Config, id: Id, last: Time, now: Time)
    requires Tracked(s) && Books(s, cfg, last) && id in s.children && last <= now
    ensures |Recorded(s.children[id].times, now, cfg.maxSeconds)| > cfg.maxRestarts
            <==> |Window(s.children[id].history + [now], cfg.maxSeconds)| > cfg.maxRestarts
    ensures |Recorded(s.children[id].times, now, cfg.maxSeconds)| <= cfg.maxRestarts ==> Books(Noted(s, cfg, id, now), cfg, now)
    ensures Tracked(Noted(s, cfg, id, now))
  {
    LaterBooks(s, cfg, last, now);
    assert Book(s.children[id], cfg, last);
    FailureIsBooked(s.children[id], cfg, last, now);
    hide Book, Recorded, Window;
  }

  lemma HandledExitUnfolds(s: Sup, cfg: Config, id: Id, reason: S.Reason, w: World)
    requires Tracked(s) && id in s.children && Answers(s, w)
    ensures var c, (t, v, _) := s.children[id], HandledExit(s, cfg, id, reason, w);
            && Tracked(Noted(s, cfg, id, w.now)) && Everyone(Noted(s, cfg, id, w.now)) == Everyone(s)
            && (if !Stays(reason, c.restart) then t == Gone(s, id) && v == Done
                else if |Recorded(c.times, w.now, cfg.maxSeconds)| > cfg.maxRestarts then v == Exceeded
                else (t, v) == (Round(Noted(s, cfg, id, w.now), cfg.strategy, id, w).0,
                                Round(Noted(s, cfg, id, w.now), cfg.strategy, id, w).1))
  {
    hide Round, Gone, Recorded, Stays;
  }

  lemma ExitKeepsBooks(s: Sup, cfg: Config, id: Id, reason: S.Reason, w: World, last: Time)
    requires Tracked(s) && id in s.children && Answers(s, w) && Books(s, cfg, last) && last <= w.now
    ensures HandledExit(s, cfg, id, reason, w).1 != Exceeded ==> Books(HandledExit(s, cfg, id, reason, w).0, cfg, w.now)
    ensures HandledExit(s, cfg, id, reason, w).1 == Exceeded
            <==> Stays(reason, s.children[id].restart)
                 && |Window(s.children[id].history + [w.now], cfg.maxSeconds)| > cfg.maxRestarts
  {
    HandledExitUnfolds(s, cfg, id, reason, w);
    NotedKeepsBooks(s, cfg, id, last, w.now);
    LaterBooks(s, cfg, last, w.now);
    GoneKeepsBooks(s, cfg, id, w.now);
    var s1 := Noted(s, cfg, id, w.now);
    assert Answers(s1, w);
    hide *;
    RoundIsNotExceeded(s1, cfg.strategy, id, w);
    RoundKeepsLists(s1, cfg.strategy, id, w);
    if Stays(reason, s.children[id].restart) && |Recorded(s.children[id].times, w.now, cfg.maxSeconds)| <= cfg.maxRestarts {
      SameListsKeepsBooks(s1, Round(s1, cfg.strategy, id, w).0, cfg, w.now);
    }
  }

  lemma {:induction false} RestartAllIsNotExceeded(s: Sup, ids: seq<Id>, starts: seq<Start>)
    requires |ids| <= |starts|
    ensures RestartAll(s, ids, starts).1 != Exceeded
    decreases |ids|
  {
    if ids != [] {
      if ids[0] !in s.children {
        RestartAllIsNotExceeded(s, ids[1..], starts[1..]);
      } else {
        RestartAllIsNotExceeded(RestartOne(s, ids[0], starts[0]).0, ids[1..], starts[1..]);
      }
    }
  }

  lemma RoundIsNotExceeded(s: Sup, strategy: S.Strategy, id: Id, w: World)
    requires Tracked(s) && id in s.children && Answers(s, w)
    ensures Round(s, strategy, id, w).1 != Exceeded
  {
    S.FromIsSuffix(Everyone(s), id);
    RestartAllIsNotExceeded(s, Victims(s, strategy, id), w.starts);
  }

  datatype Msg =
    | DownMsg(shape: Shape, ref: Ref, reason: S.Reason, world: World)
    | AddMsg(spec: Spec, start: Start)
    | TerminateMsg(id: Id, alive: bool, caller: Pid)
    | OtherMsg

  /** What a message makes of the state, and whether the loop stops: at the limit, or at a RuntimeError of a start. */
  function Handled(s: Sup, cfg: Config, msg: Msg): (Sup, bool)
    requires Tracked(s) && (msg.DownMsg? ==> Answers(s, msg.world))
  {
    match msg
    case DownMsg(shape, ref, reason, w) =>
      var (t, v, _, _) := HandledDown(s, cfg, shape, ref, reason, w);
      (t, v == Exceeded || v == StartFailed(RuntimeError))
    case AddMsg(spec, start) => (AddedChild(s, spec, start).0, false)
    case TerminateMsg(id, alive, caller) => (TerminatedChild(s, id, alive, caller).0, false)
    case OtherMsg => (s, false)
  }

  lemma HandledKeeps(s: Sup, cfg: Config, msg: Msg)
    requires Tracked(s) && (msg.DownMsg? ==> Answers(s, msg.world))
    ensures Tracked(Handled(s, cfg, msg).0)
    ensures Listed(s) ==> (Listed(Handled(s, cfg, msg).0) <==> !(msg.AddMsg? && Tears(s, msg.spec)))
  {
    match msg
    case DownMsg(shape, ref, reason, w) => HandledDownKeeps(s, cfg, shape, ref, reason, w);
    case AddMsg(spec, start) =>
      AddKeepsTracked(s, spec, start);
      if Listed(s) {
        AddKeepsListedIff(s, spec, start);
      }
    case TerminateMsg(id, alive, caller) => TerminateKeeps(s, id, alive, caller);
    case OtherMsg =>
  }

  /** `t` is reached from `s` by `msgs`, none of which but the last may stop the loop, with a clock that does not go back. */
  ghost predicate Reaches(s: Sup, cfg: Config, msgs: seq<Msg>, now: Time, t: Sup)
    requires Tracked(s)
    decreases |msgs|
  {
    if msgs == [] then t == s
    else
      && (msgs[0].DownMsg? ==> Answers(s, msgs[0].world) && now <= msgs[0].world.now)
      && var (s1, stop) := Handled(s, cfg, msgs[0]);
         HandledKeeps(s, cfg, msgs[0]);
         if stop then t == s1 && |msgs| == 1
         else Reaches(s1, cfg, msgs[1..], if msgs[0].DownMsg? then msgs[0].world.now else now, t)
  }

  /** Every child's history, after the last message too. */
  ghost predicate AllAdmitted(s: Sup, cfg: Config) {
    forall id :: id in s.children ==>
      Sorted(s.children[id].history) && Admitted(s.children[id].history, cfg.maxRestarts, cfg.maxSeconds)
  }

  lemma BooksAreAdmitted(s: Sup, cfg: Config, now: Time)
    requires Books(s, cfg, now)
    ensures AllAdmitted(s, cfg)
  {
    forall id | id in s.children
      ensures Sorted(s.children[id].history) && Admitted(s.children[id].history, cfg.maxRestarts, cfg.maxSeconds)
    {
      assert Book(s.children[id], cfg, now);
    }
  }

  lemma DownKeepsBooks(s: Sup, cfg: Config, shape: Shape, ref: Ref, reason: S.Reason, w: World, last: Time)
    requires Tracked(s) && Answers(s, w) && Books(s, cfg, last) && last <= w.now
    ensures var (t, v, _, _) := HandledDown(s, cfg, shape, ref, reason, w);
            AllAdmitted(t, cfg) && (v != Exceeded ==> Books(t, cfg, w.now))
  {
    LaterBooks(s, cfg, last, w.now);
    BooksAreAdmitted(s, cfg, last);
    var found := Looked(s, shape, ref);
    if found.Some? && found.value.name != "" {
      var id := found.value;
      var s1 := s.(pending := s.pending - {id});
      assert Everyone(s1) == Everyone(s) && Tracked(s1);
      ExitKeepsBooks(s1, cfg, id, reason, w, last);
      var (t, v, _) := HandledExit(s1, cfg, id, reason, w);
      if v != Exceeded {
        BooksAreAdmitted(t, cfg, w.now);
      } else {
        RefusedChangesTimesOnly(s1, cfg, id, reason, w);
      }
    }
  }

  lemma RefusedChangesTimesOnly(s: Sup, cfg: Config, id: Id, reason: S.Reason, w: World)
    requires Tracked(s) && id in s.children && Answers(s, w) && HandledExit(s, cfg, id, reason, w).1 == Exceeded
    ensures var t := HandledExit(s, cfg, id, reason, w).0;
            t.children.Keys == s.children.Keys
            && forall x :: x in s.children ==> t.children[x] == s.children[x].(times := t.children[x].times)
  {
    var c := s.children[id];
    var c1 := c.(times := Recorded(c.times, w.now, cfg.maxSeconds), history := c.history + [w.now]);
    if Stays(reason, c.restart) && |c1.times| <= cfg.maxRestarts {
      RoundIsNotExceeded(s.(children := s.children[id := c1]), cfg.strategy, id, w);
    }
  }

  /** Adding starts a child with an empty book; nothing else writes one. */
  lemma OtherKeepsBooks(s: Sup, cfg: Config, msg: Msg, now: Time)
    requires Tracked(s) && Books(s, cfg, now) && !msg.DownMsg?
    ensures Books(Handled(s, cfg, msg).0, cfg, now)
  {
    var t := Handled(s, cfg, msg).0;
    forall id | id in t.children ensures Book(t.children[id], cfg, now) {
      if id in s.children {
        assert Book(s.children[id], cfg, now);
      }
    }
  }

  lemma {:induction false} RunIsAdmitted(s: Sup, cfg: Config, msgs: seq<Msg>, now: Time, t: Sup)
    requires Tracked(s) && Books(s, cfg, now) && Reaches(s, cfg, msgs, now, t)
    ensures Tracked(t) && AllAdmitted(t, cfg)
    decreases |msgs|
  {
    BooksAreAdmitted(s, cfg, now);
    if msgs != [] {
      var (s1, stop) := Handled(s, cfg, msgs[0]);
      HandledKeeps(s, cfg, msgs[0]);
      if msgs[0].DownMsg? {
        DownKeepsBooks(s, cfg, msgs[0].shape, msgs[0].ref, msgs[0].reason, msgs[0].world, now);
      } else {
        OtherKeepsBooks(s, cfg, msgs[0], now);
      }
      hide HandledDown, Listed, Tracked, Books, AllAdmitted, AddedChild, TerminatedChild, Tears;
      if !stop {
        RunIsAdmitted(s1, cfg, msgs[1..], if msgs[0].DownMsg? then msgs[0].world.now else now, t);
      }
    }
  }

  /** In every state a run reaches, whatever is added or torn out on the way, no child has more than `maxRestarts` admitted
      failures in any interval of `maxSeconds`, and every child is in its list. */
  lemma RunIsBounded(s: Sup, cfg: Config, msgs: seq<Msg>, now: Time, t: Sup)
    requires Tracked(s) && (forall id :: id in s.children ==> s.children[id].history == [] && s.children[id].times == [])
    requires Reaches(s, cfg, msgs, now, t) && cfg.maxRestarts >= 0
    ensures Tracked(t)
    ensures forall id :: id in t.children ==> Bounded(t.children[id].history, cfg.maxRestarts, cfg.maxSeconds)
  {
    assert Books(s, cfg, now);
    RunIsAdmitted(s, cfg, msgs, now, t);
    forall id | id in t.children ensures Bounded(t.children[id].history, cfg.maxRestarts, cfg.maxSeconds) {
      AdmittedIff(t.children[id].history, cfg.maxRestarts, cfg.maxSeconds);
    }
  }

  // ---------- What an invalid spec tears out ----------

  /** The lists and the table agree now and after each of `msgs`. */
  ghost predicate StaysListed(s: Sup, cfg: Config, msgs: seq<Msg>)
    requires Tracked(s)
    decreases |msgs|
  {
    && Listed(s)
    && (msgs != [] && (msgs[0].DownMsg? ==> Answers(s, msgs[0].world)) ==>
          var (s1, stop) := Handled(s, cfg, msgs[0]);
          HandledKeeps(s, cfg, msgs[0]);
          if stop then Listed(s1) else StaysListed(s1, cfg, msgs[1..]))
  }

  /** None of `msgs` asks for an invalid spec under the id of a static child, or of one that awaits its end. */
  ghost predicate Spares(s: Sup, cfg: Config, msgs: seq<Msg>)
    requires Tracked(s)
    decreases |msgs|
  {
    msgs != [] && (msgs[0].DownMsg? ==> Answers(s, msgs[0].world)) ==>
      && !(msgs[0].AddMsg? && Tears(s, msgs[0].spec))
      && var (s1, stop) := Handled(s, cfg, msgs[0]);
         HandledKeeps(s, cfg, msgs[0]);
         stop || Spares(s1, cfg, msgs[1..])
  }

  /** Over a whole run the lists and the table agree throughout just when no addition tears. */
  lemma {:induction false} RunStaysListedIff(s: Sup, cfg: Config, msgs: seq<Msg>)
    requires Listed(s)
    ensures StaysListed(s, cfg, msgs) <==> Spares(s, cfg, msgs)
    decreases |msgs|
  {
    if msgs != [] && (msgs[0].DownMsg? ==> Answers(s, msgs[0].world)) {
      HandledKeeps(s, cfg, msgs[0]);
      var (s1, stop) := Handled(s, cfg, msgs[0]);
      if !stop && Listed(s1) {
        RunStaysListedIff(s1, cfg, msgs[1..]);
      }
      hide HandledDown, Tracked, AddedChild, TerminatedChild, Tears;
    }
  }

  /** A place in the start order whose child is gone. */
  predicate Lost(s: Sup, id: Id) {
    id in s.startOrder && (id in s.children ==> s.children[id].dynamic)
  }

  lemma SameListsKeepsLost(s: Sup, t: Sup, id: Id)
    requires Lost(s, id) && SameLists(s, t)
    ensures Lost(t, id)
  {
    assert id in s.children ==> SameBook(s.children[id], t.children[id]);
  }

  lemma ExitKeepsLost(s: Sup, cfg: Config, id: Id, reason: S.Reason, w: World, lost: Id)
    requires Tracked(s) && id in s.children && Answers(s, w) && Lost(s, lost)
    ensures Lost(HandledExit(s, cfg, id, reason, w).0, lost)
  {
    var s1 := Noted(s, cfg, id, w.now);
    assert Tracked(s1) && id in s1.children && Answers(s1, w) && Lost(s1, lost);
    var t := Round(s1, cfg.strategy, id, w).0;
    assert Lost(t, lost) by {
      hide *;
      RoundKeepsLists(s1, cfg.strategy, id, w);
      SameListsKeepsLost(s1, t, lost);
    }
    hide Round, Recorded, Tracked, Answers, Stays;
  }

  lemma DownKeepsLost(s: Sup, cfg: Config, shape: Shape, ref: Ref, reason: S.Reason, w: World, lost: Id)
    requires Tracked(s) && Answers(s, w) && Lost(s, lost)
    ensures Lost(HandledDown(s, cfg, shape, ref, reason, w).0, lost)
  {
    var found := Looked(s, shape, ref);
    if found.Some? && found.value.name != "" {
      var s1 := s.(pending := s.pending - {found.value});
      assert Tracked(s1) && Answers(s1, w) && Lost(s1, lost);
      ExitKeepsLost(s1, cfg, found.value, reason, w, lost);
      hide Looked, HandledExit, Items, Tracked, Answers;
    }
  }

  /** A static child that was torn out never comes back: nothing starts it, and no DOWN of its finds it. */
  lemma {:induction false} LostStaysLost(s: Sup, cfg: Config, msgs: seq<Msg>, now: Time, t: Sup, id: Id)
    requires Tracked(s) && Reaches(s, cfg, msgs, now, t) && Lost(s, id)
    ensures Lost(t, id)
    decreases |msgs|
  {
    if msgs != [] {
      var (s1, stop) := Handled(s, cfg, msgs[0]);
      HandledKeeps(s, cfg, msgs[0]);
      if msgs[0].DownMsg? {
        DownKeepsLost(s, cfg, msgs[0].shape, msgs[0].ref, msgs[0].reason, msgs[0].world, id);
      }
      assert Lost(s1, id);
      hide HandledDown, Tracked, Listed, AddedChild, TerminatedChild, Tears, Lost;
      if !stop {
        LostStaysLost(s1, cfg, msgs[1..], if msgs[0].DownMsg? then msgs[0].world.now else now, t, id);
      }
    }
  }

  /** A run that comes to this: one static child, alive, and one invalid spec under its id. Its later DOWN finds nobody. */
  lemma InvalidSpecOrphans()
    ensures var id := S.Id("a");
            var s := Sup(map[id := PLAIN], [id], [], map[]);
            var (t, reply) := AddedChild(s, Invalid(Some(id)), Failed(OtherError));
            && Listed(s) && Find(s, Items(s), S.Ref("r")) == Some(id)
            && reply == Some(Refused) && !Listed(t) && Lost(t, id) && Tracked(t)
            && Find(t, Items(t), S.Ref("r")) == None
  {
    var id := S.Id("a");
    var s := Sup(map[id := PLAIN], [id], [], map[]);
    assert Items(s) == [id];
    AddKeepsListedIff(s, Invalid(Some(id)), Failed(OtherError));
  }

  // ---------- Stale DOWN messages ----------

  predicate Gives(starts: seq<Start>, ref: Ref) {
    exists i :: 0 <= i < |starts| && starts[i].Started? && starts[i].ref == ref
  }

  ghost predicate RefsDistinct(s: Sup) {
    forall a, b :: a in s.children && b in s.children && a != b && s.children[a].ref.Some? ==>
      s.children[a].ref != s.children[b].ref
  }

  /** `x` gets a new monitor: its start comes before any that fails, or it is the failed child and its second start goes
      well. */
  ghost predicate Replaced(s: Sup, strategy: S.Strategy, id: Id, x: Id, starts: seq<Start>)
    requires id in Everyone(s)
  {
    var victims := Victims(s, strategy, id);
    || StartedAt(victims, starts, x)
    || (strategy == S.RestForOne && x == id && FirstFailure(starts, |victims|, ValueError)
        && |victims| < |starts| && starts[|victims|].Started?)
  }

  ghost predicate StartedAt(ids: seq<Id>, starts: seq<Start>, x: Id) {
    exists i :: 0 <= i < |ids| <= |starts| && ids[i] == x && forall j :: 0 <= j <= i ==> starts[j].Started?
  }

  /** Whose reference a child has after the restarts of a round. */
  lemma RefAfter(s: Sup, t: Sup, ids: seq<Id>, starts: seq<Start>, k: nat, v: Verdict, x: Id, stale: Ref)
    requires RestartedUpTo(s, t, ids, starts, k, v) && S.Distinct(ids) && v != Exceeded
    requires x in s.children && !Gives(starts, stale)
    ensures x in t.children
    ensures t.children[x].ref == Some(stale) <==> s.children[x].ref == Some(stale) && !StartedAt(ids, starts, x)
  {
    if x in ids {
      var i :| 0 <= i < |ids| && ids[i] == x;
      StartedAtIff(ids, starts, x, i);
    }
  }

  lemma StartedAtIff(ids: seq<Id>, starts: seq<Start>, x: Id, i: nat)
    requires S.Distinct(ids) && i < |ids| <= |starts| && ids[i] == x
    ensures StartedAt(ids, starts, x) <==> forall j :: 0 <= j <= i ==> starts[j].Started?
  {
  }

  /** After a round the DOWN of a child's old monitor is for nobody, just when the round gave the child a new one or the
      DOWN has four fields; otherwise it is for that child. A failed start leaves the old reference in place. */
  lemma StaleDownFinds(s: Sup, strategy: S.Strategy, id: Id, w: World, x: Id, shape: Shape, stale: Ref)
    requires Listed(s) && id in s.children && Answers(s, w) && RefsDistinct(s)
    requires x in s.children && s.children[x].ref == Some(stale) && !Gives(w.starts, stale)
    ensures id in Everyone(s)
    ensures var t := Round(s, strategy, id, w).0;
            Looked(t, shape, stale)
            == if shape.FourFields? || Replaced(s, strategy, id, x, w.starts) then None else Some(x)
  {
    ListedIsDistinct(s);
    RoundKeepsLists(s, strategy, id, w);
    var t := Round(s, strategy, id, w).0;
    SameListsKeeps(s, t);
    DownMisses(t, stale);
    forall y | y in s.children
      ensures y in t.children && (t.children[y].ref == Some(stale) <==> y == x && !Replaced(s, strategy, id, x, w.starts))
    {
      WhoKeepsRef(s, strategy, id, w, x, y, stale);
    }
    hide Round, RefsDistinct, Replaced, Listed, Everyone, Answers, Gives;
  }

  lemma WhoKeepsRef(s: Sup, strategy: S.Strategy, id: Id, w: World, x: Id, y: Id, stale: Ref)
    requires Listed(s) && id in s.children && Answers(s, w) && RefsDistinct(s) && id in Everyone(s)
    requires x in s.children && s.children[x].ref == Some(stale) && !Gives(w.starts, stale) && y in s.children
    ensures var t := Round(s, strategy, id, w).0;
            y in t.children && (t.children[y].ref == Some(stale) <==> y == x && !Replaced(s, strategy, id, x, w.starts))
  {
    VictimsListed(s, strategy, id);
    var victims := Victims(s, strategy, id);
    var k := RestartAllInOrder(s, victims, w.starts);
    var (u, v) := RestartAll(s, victims, w.starts);
    RestartAllIsNotExceeded(s, victims, w.starts);
    FailureIsFirst(s, u, victims, w.starts, k, v, ValueError);
    var t := Round(s, strategy, id, w).0;
    assert id in u.children && y in u.children && |victims| < |w.starts|;
    assert t == if strategy == S.RestForOne && v == StartFailed(ValueError) then RestartOne(u, id, w.starts[|victims|]).0 else u;
    hide *;
    RefAfter(s, u, victims, w.starts, k, v, y, stale);
    assert t.children.Keys == u.children.Keys by {
      RestartCounts(u, id, w.starts[|victims|]);
    }
    OldRefAfter(s, u, t, strategy, id, victims, w.starts, v, x, y, stale);
  }

  lemma OldRefAfter(s: Sup, u: Sup, t: Sup, strategy: S.Strategy, id: Id, victims: seq<Id>, starts: seq<Start>, v: Verdict,
          x: Id, y: Id, stale: Ref)
    requires RefsDistinct(s) && x in s.children && y in s.children && s.children[x].ref == Some(stale)
    requires id in Everyone(s) && victims == Victims(s, strategy, id) && id in u.children && |victims| < |starts|
    requires !Gives(starts, stale) && y in u.children && t.children.Keys == u.children.Keys
    requires u.children[y].ref == Some(stale) <==> s.children[y].ref == Some(stale) && !StartedAt(victims, starts, y)
    requires v == StartFailed(ValueError) <==> FirstFailure(starts, |victims|, ValueError)
    requires t == if strategy == S.RestForOne && v == StartFailed(ValueError)
                  then RestartOne(u, id, starts[|victims|]).0 else u
    ensures y in t.children && (t.children[y].ref == Some(stale) <==> y == x && !Replaced(s, strategy, id, x, starts))
  {
    assert s.children[y].ref == Some(stale) <==> y == x;
    hide StartedAt, FirstFailure, Victims, RefsDistinct;
  }

  // ---------- The supervisor process ----------

  lemma KillsStep(children: map<Id, Child>, ids: seq<Id>, skip: Option<Id>, alive: seq<bool>, i: nat, killed: seq<Pid>)
    requires i < |ids| <= |alive|
    ensures killed + Kills(children, ids[i..], skip, alive[i..])
            == (if Some(ids[i]) != skip && ids[i] in children && children[ids[i]].pid.Some? && alive[i]
                then killed + [children[ids[i]].pid.value] else killed)
               + Kills(children, ids[i + 1..], skip, alive[i + 1..])
  {
    assert ids[i..][1..] == ids[i + 1..] && alive[i..][1..] == alive[i + 1..];
  }

  class DynamicSupervisorLoop {
    var children: map<Id, Child>
    const startOrder: seq<Id>
    var dynamicChildren: seq<Id>
    var pendingTerminations: map<Id, Pid>
    const opts: Config

    ghost function State(): Sup
      reads this
    {
      Sup(children, startOrder, dynamicChildren, pendingTerminations)
    }

    constructor (order: seq<Id>, children: map<Id, Child>, opts: Config)
      requires S.Distinct(order) && forall id :: id in children <==> id in order
      requires forall id :: id in children ==> !children[id].dynamic
      ensures State() == Sup(children, order, [], map[]) && this.opts == opts && Listed(State())
    {
      this.children, startOrder, dynamicChildren, pendingTerminations, this.opts := children, order, [], map[], opts;
      new;
      assert Everyone(State()) == order;
    }

    method StartChild(id: Id, start: Start) returns (v: Verdict)
      requires id in children
      modifies this`children
      ensures v == if start.Failed? then StartFailed(start.kind) else Done
      ensures children == if start.Failed? then old(children)
                          else old(children)[id := old(children)[id].(pid := Some(start.pid), ref := Some(start.ref))]
    {
      if start.Failed? {
        return StartFailed(start.kind);
      }
      children := children[id := children[id].(pid := Some(start.pid), ref := Some(start.ref))];
      return Done;
    }

    method RestartChild(id: Id, start: Start) returns (v: Verdict)
      requires id in children
      modifies this`children
      ensures (State(), v) == RestartOne(old(State()), id, start)
    {
      var c := children[id].(restarts := children[id].restarts + 1);
      children := children[id := c];
      v := StartChild(id, start);
      assert v == Done ==> children == old(children)[id := c.(pid := Some(start.pid), ref := Some(start.ref))];
    }

    method RestartChildren(ids: seq<Id>, starts: seq<Start>) returns (v: Verdict)
      requires |ids| <= |starts|
      modifies this`children
      ensures (State(), v) == RestartAll(old(State()), ids, starts)
    {
      ghost var s0 := State();
      for i := 0 to |ids|
        invariant RestartAll(State(), ids[i..], starts[i..]) == RestartAll(s0, ids, starts)
      {
        assert ids[i..][1..] == ids[i + 1..] && starts[i..][1..] == starts[i + 1..];
        if ids[i] in children {
          v := RestartChild(ids[i], starts[i]);
          if v != Done {
            return;
          }
        }
      }
      v := Done;
    }

    method KillChildren(ids: seq<Id>, skip: Option<Id>, alive: seq<bool>) returns (killed: seq<Pid>)
      requires |ids| <= |alive|
      ensures killed == Kills(children, ids, skip, alive)
    {
      killed := [];
      for i := 0 to |ids|
        invariant killed + Kills(children, ids[i..], skip, alive[i..]) == Kills(children, ids, skip, alive)
      {
        KillsStep(children, ids, skip, alive, i, killed);
        hide Kills;
        if Some(ids[i]) != skip && ids[i] in children && children[ids[i]].pid.Some? && alive[i] {
          killed := killed + [children[ids[i]].pid.value];
        }
      }
    }

    method Forget(id: Id)
      requires id in children
      modifies this`children, this`dynamicChildren
      ensures State() == Gone(old(State()), id)
    {
      if children[id].dynamic {
        children := children - {id};
        dynamicChildren := Without(dynamicChildren, id);
      } else {
        children := children[id := children[id].(pid := None, ref := None)];
      }
    }

    method ApplyStrategy(id: Id, w: World) returns (v: Verdict, killed: seq<Pid>)
      requires Tracked(State()) && id in children && Answers(State(), w)
      modifies this`children
      ensures (State(), v, killed) == Round(old(State()), opts.strategy, id, w)
    {
      ghost var s0 := State();
      S.FromIsSuffix(Everyone(s0), id);
      killed := [];
      var all := startOrder + dynamicChildren;
      if opts.strategy == S.OneForOne {
        v := RestartChildren([id], w.starts);
      } else if opts.strategy == S.OneForAll {
        killed := KillChildren(Statics(children, startOrder) + dynamicChildren, Some(id), w.alive);
        v := RestartChildren(all, w.starts);
      } else if opts.strategy == S.RestForOne {
        var k := IndexOf(all, id);
        assert all[k..][1..] == all[k + 1..];
        killed := KillChildren(all[k + 1..], None, w.alive);
        RestartAllKeepsLists(s0, all[k..], w.starts);
        v := RestartChildren(all[k..], w.starts);
        if v == StartFailed(ValueError) {
          v := RestartChild(id, w.starts[|all[k..]|]);
        }
      } else {
        v := Done;
      }
    }

    method IndexOf(all: seq<Id>, id: Id) returns (k: nat)
      requires id in all
      ensures k < |all| && all[k..] == S.From(all, id)
    {
      k := 0;
      while all[k] != id
        invariant k < |all| && id in all[k..] && S.From(all[k..], id) == S.From(all, id)
        decreases |all| - k
      {
        assert all[k..][1..] == all[k + 1..];
        k := k + 1;
      }
    }

    method HandleChildExit(id: Id, reason: S.Reason, w: World) returns (v: Verdict, killed: seq<Pid>)
      requires Tracked(State()) && id in children && Answers(State(), w)
      modifies this`children, this`dynamicChildren
      ensures (State(), v, killed) == HandledExit(old(State()), opts, id, reason, w)
    {
      ghost var s0 := State();
      var restart := reason != S.Shutdown && reason != S.SupervisorShutdown && reason != S.Killed;
      if restart {
        if children[id].restart == Transient && reason == S.Normal {
          restart := false;
        } else if children[id].restart == Temporary {
          restart := false;
        }
      }
      if !restart {
        Forget(id);
        return Done, [];
      }
      var kept, exceeded := RecordRestart(children[id].times, w.now, opts.maxRestarts, opts.maxSeconds);
      if exceeded {
        children := children[id := children[id].(times := kept)];
        return Exceeded, [];
      }
      children := children[id := children[id].(times := kept, history := children[id].history + [w.now])];
      assert State() == Noted(s0, opts, id, w.now);
      HandledExitUnfolds(s0, opts, id, reason, w);
      v, killed := ApplyStrategy(id, w);
    }

    method FindChild(ref: Ref) returns (found: Option<Id>)
      ensures found == Find(State(), Items(State()), ref)
    {
      var items := Statics(children, startOrder) + dynamicChildren;
      for i := 0 to |items|
        invariant Find(State(), items[i..], ref) == Find(State(), items, ref)
      {
        assert items[i..][1..] == items[i + 1..];
        if items[i] in children && children[items[i]].ref == Some(ref) {
          return Some(items[i]);
        }
      }
      return None;
    }

    method HandleDown(shape: Shape, ref: Ref, reason: S.Reason, w: World)
      returns (v: Verdict, killed: seq<Pid>, told: Option<Pid>)
      requires Tracked(State()) && Answers(State(), w)
      modifies this`children, this`dynamicChildren, this`pendingTerminations
      ensures (State(), v, killed, told) == HandledDown(old(State()), opts, shape, ref, reason, w)
      ensures Tracked(State())
    {
      HandledDownKeeps(State(), opts, shape, ref, reason, w);
      if shape.FourFields? {
        return Done, [], None;
      }
      var found := FindChild(ref);
      if found.None? || found.value.name == "" {
        return Done, [], None;
      }
      told := if found.value in pendingTerminations then Some(pendingTerminations[found.value]) else None;
      pendingTerminations := pendingTerminations - {found.value};
      assert Everyone(State()) == Everyone(old(State())) && Tracked(State());
      v, killed := HandleChildExit(found.value, reason, w);
    }

    method CleanUp(id: Id)
      modifies this`children, this`dynamicChildren
      ensures State() == Dropped(old(State()), id)
    {
      children := children - {id};
      dynamicChildren := Without(dynamicChildren, id);
    }

    method AddChild(spec: Spec, start: Start) returns (reply: Option<Reply>)
      requires Tracked(State())
      modifies this`children, this`dynamicChildren
      ensures (State(), reply) == AddedChild(old(State()), spec, start)
      ensures Tracked(State())
    {
      AddKeepsTracked(State(), spec, start);
      if spec.Invalid? {
        if spec.under.None? {
          return None;
        }
        CleanUp(spec.under.value);
        return Some(Refused);
      }
      var id := spec.id;
      assert id !in children ==> id !in dynamicChildren;
      hide Tracked;
      if id in children {
        return Some(Refused);
      }
      children := children[id := Child(None, None, 0, [], true, spec.restart, [])];
      dynamicChildren := dynamicChildren + [id];
      var v := StartChild(id, start);
      if v != Done {
        WithoutLast(old(dynamicChildren), id);
        CleanUp(id);
        assert children == old(children);
        return Some(Refused);
      }
      assert children == old(children)[id := Child(Some(start.pid), Some(start.ref), 0, [], true, spec.restart, [])];
      return Some(Added(start.pid));
    }

    method TerminateChild(id: Id, alive: bool, caller: Pid) returns (reply: Option<Reply>, told: Option<Pid>)
      modifies this`pendingTerminations
      ensures (State(), reply, told) == TerminatedChild(old(State()), id, alive, caller)
    {
      if id !in children {
        return Some(NotFound), None;
      }
      if !children[id].dynamic {
        return Some(Fine), None;
      }
      if children[id].pid.Some? && alive {
        pendingTerminations := pendingTerminations[id := caller];
        return None, children[id].pid;
      }
      return Some(Fine), None;
    }
  }

  lemma {:induction false} WithoutLast(ids: seq<Id>, id: Id)
    requires id !in ids
    ensures Without(ids + [id], id) == ids
  {
    if ids != [] {
      assert (ids + [id])[1..] == ids[1..] + [id];
      WithoutLast(ids[1..], id);
    }
  }
}
