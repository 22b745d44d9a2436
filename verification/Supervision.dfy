/** Whether the end of a child reaches its supervisor: the backend's DOWN tuples on one side, the loops on the other. */
module Supervision {
  import opened Wrappers
  import P = ProcessTable
  import E = ExitPaths
  import L = Lifecycle
  import S = Supervisor
  import D = DynamicSupervisor
  import RestartWindow

  /** What the supervisors, which only compare it with four others, make of a reason. */
  function Told(reason: P.Reason): S.Reason {
    match reason
    case Normal => S.Normal
    case Shutdown => S.Shutdown
    case SupervisorShutdown => S.SupervisorShutdown
    case Killed => S.Killed
    case NoReason => S.Error("None")
    case Error(what) => S.Error(what)
  }

  /** `sup` has a mailbox, and monitors `kid` under `ref`. */
  predicate Watches(procs: P.Table, sup: P.Pid, kid: P.Pid, ref: P.Ref) {
    && P.HasMailbox(procs, sup) && kid in procs
    && ref in procs[kid].monitoredBy && procs[kid].monitoredBy[ref] == sup
  }

  /** In this step process `sup` gets a DOWN about `kid`, of this shape and for this reason. */
  predicate Gets(a: L.Sys, b: L.Sys, sup: P.Pid, kid: P.Pid, ref: P.Ref, reason: P.Reason, shape: P.Shape) {
    sup in a.procs && sup in b.procs && L.More(a, b, sup, P.Down(shape, ref, kid, reason)) > 0
  }

  /** Such a DOWN makes the static supervisor restart somebody, or try to. */
  ghost predicate Acts(shape: P.Shape, ref: S.Ref, reason: P.Reason, s: S.Sup, cfg: S.Config, w: S.World)
    requires S.Listed(s) && S.Answers(s, w)
  {
    var (t, v, _) := S.HandledDown(s, cfg, shape, ref, Told(reason), w);
    S.Acted(s, t, v)
  }

  /** And the dynamic one. */
  ghost predicate ActsToo(shape: P.Shape, ref: D.Ref, reason: P.Reason, s: D.Sup, cfg: D.Config, w: D.World)
    requires D.Tracked(s) && D.Answers(s, w)
  {
    var (t, v, _, _) := D.HandledDown(s, cfg, shape, ref, Told(reason), w);
    D.Acted(s, t, v)
  }

  /** Which tuple the supervisor of a process gets when that process ends. */
  lemma EndIsToldIff(a: L.Sys, b: L.Sys, sup: P.Pid, kid: P.Pid, ref: P.Ref, reason: P.Reason)
    requires L.LinksOk(a.procs) && Watches(a.procs, sup, kid, ref) && L.Next(a, L.End(kid, reason), b)
    ensures Gets(a, b, sup, kid, ref, reason, P.FiveFields) <==> reason != P.Killed && L.EndsAlone(a.procs, kid, reason)
    ensures Gets(a, b, sup, kid, ref, reason, P.FourFields) <==> reason != P.Killed && !L.EndsAlone(a.procs, kid, reason)
    ensures reason != P.SupervisorShutdown
  {
    if reason != P.Killed {
      L.EndShapeIff(a, kid, reason, b, ref, sup);
    }
  }

  lemma ActsIff(shape: P.Shape, known: S.Ref, reason: P.Reason, s: S.Sup, cfg: S.Config, w: S.World, id: S.Id)
    requires S.Listed(s) && S.Answers(s, w) && S.RefsDistinct(s) && id in s.children && s.children[id].ref == Some(known)
    requires reason != P.SupervisorShutdown
    ensures Acts(shape, known, reason, s, cfg, w)
            <==> shape == P.FiveFields && id.name != "" && cfg.strategy != S.Unknown
                 && reason != P.Killed && reason != P.Shutdown
  {
    S.FindIsExact(s, id, known);
    S.DownRestartsIff(s, cfg, shape, known, Told(reason), w);
    hide S.HandledDown, S.Acted, S.Listed, S.Answers, S.RefsDistinct, S.Find;
  }

  lemma ActsTooIff(shape: P.Shape, known: D.Ref, reason: P.Reason, s: D.Sup, cfg: D.Config, w: D.World, id: D.Id)
    requires D.Tracked(s) && D.Answers(s, w) && D.RefsDistinct(s) && id in s.children && s.children[id].ref == Some(known)
    ensures ActsToo(shape, known, reason, s, cfg, w)
            <==> shape == P.FiveFields && id.name != "" && D.Stays(Told(reason), s.children[id].restart)
                 && (cfg.strategy != S.Unknown
                     || |RestartWindow.Recorded(s.children[id].times, w.now, cfg.maxSeconds)| > cfg.maxRestarts)
    ensures reason == P.Killed ==> !D.Stays(Told(reason), s.children[id].restart)
  {
    assert reason == P.Killed ==> !D.Stays(Told(reason), s.children[id].restart);
    D.DownMisses(s, known);
    assert D.Find(s, D.Items(s), known) == Some(id);
    D.DownRestartsIff(s, cfg, shape, known, Told(reason), w);
    hide D.HandledDown, D.Acted, D.Tracked, D.Answers, D.RefsDistinct, D.Find, D.Items, D.Stays, RestartWindow.Recorded, Told;
  }

  /** A child that ends is restarted, or its restart is refused or fails, just when its id is not empty, the strategy is a
      known one, the reason is neither KILLED nor SHUTDOWN, and the end does not come back to it through a neighbour. */
  lemma EndIsHeardIff(a: L.Sys, b: L.Sys, sup: P.Pid, kid: P.Pid, ref: P.Ref, reason: P.Reason, s: S.Sup, cfg: S.Config,
          w: S.World, id: S.Id, known: S.Ref)
    requires L.LinksOk(a.procs) && Watches(a.procs, sup, kid, ref) && L.Next(a, L.End(kid, reason), b)
    requires S.Listed(s) && S.Answers(s, w) && S.RefsDistinct(s) && id in s.children && s.children[id].ref == Some(known)
    ensures (exists shape :: Gets(a, b, sup, kid, ref, reason, shape) && Acts(shape, known, reason, s, cfg, w))
            <==> id.name != "" && cfg.strategy != S.Unknown && reason != P.Killed && reason != P.Shutdown
                 && L.EndsAlone(a.procs, kid, reason)
  {
    hide *;
    EndIsToldIff(a, b, sup, kid, ref, reason);
    ActsIff(P.FiveFields, known, reason, s, cfg, w, id);
    ActsIff(P.FourFields, known, reason, s, cfg, w, id);
    if shape :| Gets(a, b, sup, kid, ref, reason, shape) && Acts(shape, known, reason, s, cfg, w) {
      assert shape == P.FourFields || shape == P.FiveFields;
    }
  }

  /** The same for the dynamic supervisor, which also asks whether the child is to stay. A strategy it does not know only
      counts failures, until the limit is exceeded. */
  lemma EndIsHeardTooIff(a: L.Sys, b: L.Sys, sup: P.Pid, kid: P.Pid, ref: P.Ref, reason: P.Reason, s: D.Sup,
          cfg: D.Config, w: D.World, id: D.Id, known: D.Ref)
    requires L.LinksOk(a.procs) && Watches(a.procs, sup, kid, ref) && L.Next(a, L.End(kid, reason), b)
    requires D.Tracked(s) && D.Answers(s, w) && D.RefsDistinct(s) && id in s.children && s.children[id].ref == Some(known)
    ensures (exists shape :: Gets(a, b, sup, kid, ref, reason, shape) && ActsToo(shape, known, reason, s, cfg, w))
            <==> id.name != "" && D.Stays(Told(reason), s.children[id].restart) && L.EndsAlone(a.procs, kid, reason)
                 && (cfg.strategy != S.Unknown
                     || |RestartWindow.Recorded(s.children[id].times, w.now, cfg.maxSeconds)| > cfg.maxRestarts)
  {
    hide *;
    EndIsToldIff(a, b, sup, kid, ref, reason);
    ActsTooIff(P.FiveFields, known, reason, s, cfg, w, id);
    ActsTooIff(P.FourFields, known, reason, s, cfg, w, id);
    if shape :| Gets(a, b, sup, kid, ref, reason, shape) && ActsToo(shape, known, reason, s, cfg, w) {
      assert shape == P.FourFields || shape == P.FiveFields;
    }
  }

  /** What `exit` tells a supervisor, about whichever child, no supervisor acts on. */
  lemma ExitIsNotHeard(a: L.Sys, b: L.Sys, target: P.Pid, sender: P.Sender, reason: P.Reason, sup: P.Pid, kid: P.Pid,
          ref: P.Ref, r: P.Reason, shape: P.Shape)
    requires Watches(a.procs, sup, kid, ref) && L.Next(a, L.ExitCall(target, sender, reason), b) && target in a.procs
    requires Gets(a, b, sup, kid, ref, r, shape)
    ensures shape == P.FourFields && r == reason && !L.IsGraceful(reason) && kid in P.Closure(a.procs, target)
    ensures forall known, s, cfg, w :: S.Listed(s) && S.Answers(s, w) ==> !Acts(shape, known, r, s, cfg, w)
    ensures forall known, s, cfg, w :: D.Tracked(s) && D.Answers(s, w) ==> !ActsToo(shape, known, r, s, cfg, w)
  {
    L.ExitShapeIff(a, target, sender, reason, b, P.DownKey(sup, ref, kid));
    hide L.Next, P.Closure, L.IsGraceful;
    assert shape == P.FourFields;
    forall known: S.Ref, s: S.Sup, cfg: S.Config, w: S.World | S.Listed(s) && S.Answers(s, w)
      ensures !Acts(shape, known, r, s, cfg, w)
    {
      S.DownRestartsIff(s, cfg, shape, known, Told(r), w);
    }
    forall known: D.Ref, s: D.Sup, cfg: D.Config, w: D.World | D.Tracked(s) && D.Answers(s, w)
      ensures !ActsToo(shape, known, r, s, cfg, w)
    {
      D.DownRestartsIff(s, cfg, shape, known, Told(r), w);
    }
  }

  /** And a child that a notification has visited is never restarted later either, however it ends: nothing more is sent for
      its monitor, unless it is set up anew. */
  lemma VisitedIsLost(a: L.Sys, b: L.Sys, target: P.Pid, sender: P.Sender, reason: P.Reason, sup: P.Pid, kid: P.Pid,
          ref: P.Ref, states: seq<L.Sys>, events: seq<L.Event>)
    requires Watches(a.procs, sup, kid, ref) && L.Next(a, L.ExitCall(target, sender, reason), b) && target in a.procs
    requires !L.IsGraceful(reason) && kid in P.Closure(a.procs, target)
    requires L.IsRun(states, events) && states[0] == b
    requires forall i :: 0 <= i < |events| ==> L.SetsUp(states[i], events[i], P.DownKey(sup, ref, kid)) == 0
    ensures forall i :: 0 <= i < |events| ==> L.Mailed(states[i], events[i], states[i + 1], P.DownKey(sup, ref, kid)) == 0
  {
    L.ExitShapeIff(a, target, sender, reason, b, P.DownKey(sup, ref, kid));
    hide L.Next, L.Mailed, L.SetsUp, P.Closure;
    L.AnsweredIsSilent(states, events, P.DownKey(sup, ref, kid));
  }

  // ---------- Runs that show what fails ----------

  const SUP := L.NewProcess(true, true, None)
  const KID := L.NewProcess(false, true, None)

  /** Process 0, which traps exits, and two more: who is linked, and what 0 monitors. */
  function Kin(a: set<P.Pid>, b: set<P.Pid>, c: set<P.Pid>, monitors: map<P.Ref, P.Pid>,
          watchers: map<P.Ref, P.Pid>): L.Sys {
    L.Sys(map[0 := SUP.(links := a, monitors := monitors), 1 := KID.(links := b, monitoredBy := watchers), 2 := KID.(links := c)],
          multiset{})
  }

  /** Process 0 supervises 1, to which it is linked; 1 has linked to 2. */
  function Family(): L.Sys {
    Kin({1}, {0, 2}, {1}, map[P.Ref(0, 0) := 1], map[P.Ref(0, 0) := 0])
  }

  lemma Spawns()
    ensures var s1, s2 := L.Sys(map[0 := SUP], multiset{}), L.Sys(map[0 := SUP, 1 := KID], multiset{});
            && L.Next(L.NOTHING, L.Spawn(0, true, true, None), s1) && L.Next(s1, L.Spawn(1, false, true, None), s2)
            && L.Next(s2, L.Spawn(2, false, true, None), Kin({}, {}, {}, map[], map[]))
  {
    assert map[0 := SUP][1 := KID] == map[0 := SUP, 1 := KID];
    assert map[0 := SUP, 1 := KID][2 := KID] == Kin({}, {}, {}, map[], map[]).procs;
  }

  lemma Links()
    ensures L.Next(Kin({}, {}, {}, map[], map[]), L.Link(1, 2), Kin({}, {2}, {1}, map[], map[]))
    ensures L.Next(Kin({}, {2}, {1}, map[], map[]), L.Link(0, 1), Kin({1}, {0, 2}, {1}, map[], map[]))
  {
    assert {} + {2} == {2} && {} + {1} == {1} && {2} + {0} == {0, 2};
    assert L.Linked(Kin({}, {}, {}, map[], map[]).procs, 1, 2) == Kin({}, {2}, {1}, map[], map[]).procs;
    assert L.Linked(Kin({}, {2}, {1}, map[], map[]).procs, 0, 1) == Kin({1}, {0, 2}, {1}, map[], map[]).procs;
  }

  lemma Monitors()
    ensures L.Next(Kin({1}, {0, 2}, {1}, map[], map[]), L.Monitor(0, 1), Family())
  {
    var S := Kin({1}, {0, 2}, {1}, map[], map[]).procs;
    assert |S[0].monitors| == 0;
    assert map[][P.Ref(0, 0) := 1] == map[P.Ref(0, 0) := 1] && map[][P.Ref(0, 0) := 0] == map[P.Ref(0, 0) := 0];
    assert L.Monitored(S, 0, 1) == Family().procs;
  }

  lemma FamilyIsReached()
    ensures exists states, events :: L.IsRun(states, events) && states[0] == L.NOTHING && states[|events|] == Family()
  {
    hide *;
    var states := [L.NOTHING, L.Sys(map[0 := SUP], multiset{}), L.Sys(map[0 := SUP, 1 := KID], multiset{}),
                   Kin({}, {}, {}, map[], map[]), Kin({}, {2}, {1}, map[], map[]), Kin({1}, {0, 2}, {1}, map[], map[]),
                   Family()];
    var events := [L.Spawn(0, true, true, None), L.Spawn(1, false, true, None), L.Spawn(2, false, true, None), L.Link(1, 2),
                   L.Link(0, 1), L.Monitor(0, 1)];
    Spawns();
    Links();
    Monitors();
    L.SixSteps(states, events);
  }

  lemma FamilyIs()
    ensures L.LinksOk(Family().procs) && Watches(Family().procs, 0, 1, P.Ref(0, 0)) && 1 in Family().procs
    ensures forall reason :: L.EndsAlone(Family().procs, 1, reason) <==> E.IsNormalExit(reason)
    ensures 1 in P.Closure(Family().procs, 1)
  {
    P.ReachesItself(Family().procs, 1);
    var S := Family().procs;
    assert 2 in S[1].links && 2 in S && !S[2].traps && !P.Shielded(S[1]);
  }

  /** What reached the supervisor, if anything did, makes no supervisor act, and its monitor is gone. */
  ghost predicate Unheard(b: L.Sys, reason: P.Reason) {
    && Gets(Family(), b, 0, 1, P.Ref(0, 0), reason, P.FourFields)
    && !Gets(Family(), b, 0, 1, P.Ref(0, 0), reason, P.FiveFields)
    && L.Pending(b.procs, P.DownKey(0, P.Ref(0, 0), 1)) == 0
  }

  /** A child that is told to exit with an error: its supervisor gets the tuple it ignores, and never anything else. */
  lemma ExitedChildIsUnheard(what: string) returns (b: L.Sys)
    ensures L.Next(Family(), L.ExitCall(1, P.System, P.Error(what)), b) && Unheard(b, P.Error(what))
  {
    hide *;
    FamilyIs();
    b := L.ExitIsPossible(Family(), 1, P.System, P.Error(what));
    ExitIsUnheard(b, what);
  }

  lemma ExitIsUnheard(b: L.Sys, what: string)
    requires L.Next(Family(), L.ExitCall(1, P.System, P.Error(what)), b)
    ensures Unheard(b, P.Error(what))
  {
    FamilyIs();
    hide Family, L.Next, P.Closure;
    L.ExitShapeIff(Family(), 1, P.System, P.Error(what), b, P.DownKey(0, P.Ref(0, 0), 1));
  }

  /** A child that crashes by itself while linked to a process that does not trap exits: the same. */
  lemma CrashedChildIsUnheard(what: string) returns (b: L.Sys)
    ensures L.Next(Family(), L.End(1, P.Error(what)), b) && Unheard(b, P.Error(what))
  {
    FamilyIs();
    hide Family, L.Next, L.EndsAlone;
    b := L.EndIsPossible(Family(), 1, P.Error(what));
    L.EndClears(Family(), 1, P.Error(what), b);
    EndIsToldIff(Family(), b, 0, 1, P.Ref(0, 0), P.Error(what));
  }
}
