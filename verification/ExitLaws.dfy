/** What the events of the process table do to one process, field by field and reason by reason. */
module ExitLaws {
  import opened Wrappers
  import opened ProcessTable
  import opened ExitPaths
  import opened Lifecycle

  // ---------- The end of a process ----------

  /** A process that ends normally brings nobody down: the others keep their links and hear nothing but a DOWN. */
  lemma NormalEndSparesOthers(s: Sys, pid: Pid, reason: Reason, t: Sys, p: Pid)
    requires Next(s, End(pid, reason), t) && p in s.procs
    requires reason == Normal || reason == Shutdown || reason == NoReason
    ensures t.procs.Keys == s.procs.Keys
    ensures t.procs[p].links == s.procs[p].links && t.procs[p].cancelled == s.procs[p].cancelled
    ensures forall from, r :: multiset(t.procs[p].inbox)[Exit(from, r)] == multiset(s.procs[p].inbox)[Exit(from, r)]
    ensures forall ref :: ref in t.procs[p].monitors
                          <==> ref in s.procs[p].monitors
                               && !(pid in s.procs && ref in s.procs[pid].monitoredBy && s.procs[pid].monitoredBy[ref] == p)
  {
    if pid in s.procs {
      assert EndedAt(s.procs, t.procs[p], p, pid, {}, reason);
      assert ToldBy(s.procs, pid, reason) == {} && ExitsTo(s.procs, {}, p, reason) == {};
      assert LinksAfter(s.procs, p, {}) == s.procs[p].links;
      MonitorsLeft(s.procs, p, {pid});
      assert {} + {pid} == {pid};
      hide Next, MailAt, DownsTo, ExitsTo, ToldBy, LinksAfter, MonitorsAfter, Ended;
    }
  }

  lemma MonitorsLeft(S: Table, w: Pid, V: set<Pid>)
    requires w in S
    ensures forall ref :: ref in MonitorsAfter(S, w, V)
                          <==> ref in S[w].monitors
                               && forall v :: v in V && v in S && ref in S[v].monitoredBy ==> S[v].monitoredBy[ref] != w
    ensures forall ref :: ref in MonitorsAfter(S, w, V) ==> MonitorsAfter(S, w, V)[ref] == S[w].monitors[ref]
  {
  }

  /** A living neighbour that does not trap exits is cancelled just when the process ended with an error. */
  lemma CrashCancelsIff(s: Sys, pid: Pid, reason: Reason, t: Sys, l: Pid)
    requires Next(s, End(pid, reason), t) && pid in s.procs && l in s.procs && l in s.procs[pid].links
    requires s.procs[l].taskLive && !s.procs[l].cancelled && !s.procs[l].traps
    ensures l in t.procs && (t.procs[l].cancelled <==> reason.Error?)
  {
    if reason != Killed {
      var W := Casualties(s.procs, pid, reason);
      assert EndedAt(s.procs, t.procs[l], l, pid, W, reason);
      ReachesItself(s.procs, l);
      hide MailAt, ExitsAt, Reachable;
    }
  }

  /** The EXIT messages that a crash sends a neighbour that traps exits: one from the crashed process, and one more when
      the crash comes back to it through a neighbour. Another end sends none. */
  lemma CrashTellsIff(s: Sys, pid: Pid, reason: Reason, t: Sys, p: Pid, r: Reason)
    requires LinksOk(s.procs) && Next(s, End(pid, reason), t) && pid in s.procs
    requires p in s.procs && s.procs[p].traps && s.procs[p].hasMailbox
    ensures p in t.procs
    ensures More(s, t, p, Exit(Process(pid), r))
            == if !reason.Error? || r != reason || p !in s.procs[pid].links then 0
               else if (s.procs[pid].traps && s.procs[pid].hasMailbox)
                       || forall l :: l in s.procs[pid].links && l in s.procs ==> s.procs[l].traps then 1
               else 2
  {
    if reason != Killed {
      var S, W := s.procs, Casualties(s.procs, pid, reason);
      assert EndedAt(S, t.procs[p], p, pid, W, reason);
      DyingRootIsHitToo(S, pid);
      assert Exit(Process(pid), r) in ExitsTo(S, W, p, reason) <==> pid in W && p in S[pid].links && r == reason;
      hide MailAt, CrashSet, LinksAfter, MonitorsAfter, ExitsTo, Next, LinksOk;
    }
  }

  const TRAPS := NewProcess(true, true, None)

  /** Three processes and their links; the third traps exits. */
  function Trio(of1: set<Pid>, of2: set<Pid>, of3: set<Pid>): Sys {
    Sys(map[1 := PLAIN.(links := of1), 2 := PLAIN.(links := of2), 3 := TRAPS.(links := of3)], multiset{})
  }

  /** When 1 crashes, 3 is told twice. */
  lemma CrashIsToldTwice(t: Sys, what: string)
    requires Next(Trio({2, 3}, {1}, {1}), End(1, Error(what)), t)
    ensures 3 in t.procs && multiset(t.procs[3].inbox)[Exit(Process(1), Error(what))] == 2
  {
    var s := Trio({2, 3}, {1}, {1});
    assert 2 in s.procs[1].links && !s.procs[2].traps;
    CrashTellsIff(s, 1, Error(what), t, 3, Error(what));
    assert s.procs[3].inbox == [];
    hide Next;
  }

  lemma TrioSteps()
    ensures var s1, s2 := Sys(map[1 := PLAIN], multiset{}), Sys(map[1 := PLAIN, 2 := PLAIN], multiset{});
            && Next(NOTHING, Spawn(1, false, true, None), s1) && Next(s1, Spawn(2, false, true, None), s2)
            && Next(s2, Spawn(3, true, true, None), Trio({}, {}, {}))
  {
    assert map[][1 := PLAIN] == map[1 := PLAIN];
    assert map[1 := PLAIN][2 := PLAIN] == map[1 := PLAIN, 2 := PLAIN];
    assert PLAIN.(links := {}) == PLAIN && TRAPS.(links := {}) == TRAPS;
    assert map[1 := PLAIN, 2 := PLAIN][3 := TRAPS] == Trio({}, {}, {}).procs;
  }

  lemma TrioLinks()
    ensures Next(Trio({}, {}, {}), Link(1, 2), Trio({2}, {1}, {}))
    ensures Next(Trio({2}, {1}, {}), Link(1, 3), Trio({2, 3}, {1}, {1}))
  {
    var none: set<Pid> := {};
    assert none + {2} == {2} && none + {1} == {1} && {2} + {3} == {2, 3};
    assert Linked(Trio({}, {}, {}).procs, 1, 2) == Trio({2}, {1}, {}).procs;
    assert Linked(Trio({2}, {1}, {}).procs, 1, 3) == Trio({2, 3}, {1}, {1}).procs;
  }

  lemma TrioIsReached()
    ensures exists states, events :: IsRun(states, events) && states[0] == NOTHING && states[|events|] == Trio({2, 3}, {1}, {1})
  {
    hide *;
    var s1, s2 := Sys(map[1 := PLAIN], multiset{}), Sys(map[1 := PLAIN, 2 := PLAIN], multiset{});
    var states := [NOTHING, s1, s2, Trio({}, {}, {}), Trio({2}, {1}, {}), Trio({2, 3}, {1}, {1})];
    var events := [Spawn(1, false, true, None), Spawn(2, false, true, None), Spawn(3, true, true, None), Link(1, 2), Link(1, 3)];
    TrioSteps();
    TrioLinks();
    FiveSteps(states, events);
  }

  lemma FiveSteps(states: seq<Sys>, events: seq<Event>)
    requires |states| == 6 && |events| == 5
    requires Next(states[0], events[0], states[1]) && Next(states[1], events[1], states[2])
    requires Next(states[2], events[2], states[3]) && Next(states[3], events[3], states[4])
    requires Next(states[4], events[4], states[5])
    ensures IsRun(states, events)
  {
    hide Next;
  }

  /** Others send it one each if the crash brings them down and they were linked to it. */
  lemma CrashSpreads(s: Sys, pid: Pid, reason: Reason, t: Sys, p: Pid, v: Pid, r: Reason)
    requires Next(s, End(pid, reason), t) && pid in s.procs && v != pid && v in s.procs
    requires p in s.procs && s.procs[p].traps && s.procs[p].hasMailbox
    ensures p in t.procs
    ensures More(s, t, p, Exit(Process(v), r))
            == if reason.Error? && r == reason && p in s.procs[v].links
                  && exists l :: l in s.procs[pid].links && l in s.procs && !s.procs[l].traps && Reachable(s.procs, l, v)
               then 1 else 0
  {
    if reason != Killed {
      var S, W := s.procs, Casualties(s.procs, pid, reason);
      assert EndedAt(S, t.procs[p], p, pid, W, reason);
      assert Exit(Process(v), r) in ExitsTo(S, W, p, reason) <==> v in W && p in S[v].links && r == reason;
      hide MailAt, LinksAfter, MonitorsAfter, ExitsTo, Next, Reachable;
    }
  }

  // ---------- `exit` ----------

  /** A target is cancelled if it lives, unless it traps exits; KILLED cancels it all the same. */
  lemma ExitCancelsIff(s: Sys, target: Pid, sender: Sender, reason: Reason, t: Sys)
    requires Next(s, ExitCall(target, sender, reason), t) && target in s.procs
    ensures target in t.procs
    ensures t.procs[target].cancelled
            <==> s.procs[target].cancelled
                 || (s.procs[target].taskLive
                     && (reason == Killed || !(s.procs[target].traps && s.procs[target].hasMailbox)))
  {
    var S := ExitSignalled(s.procs, target, sender, reason);
    if !IsGraceful(reason) {
      assert CascadedAt(S, t.procs[target], target, Closure(S, target), reason);
      hide Closure, SeveredAt, DownsTo, ExitsTo;
    }
  }

  /** One that traps exits has the message instead. */
  lemma ExitTellsIff(s: Sys, target: Pid, reason: Reason, t: Sys, r: Reason)
    requires Next(s, ExitCall(target, System, reason), t) && target in s.procs
    ensures target in t.procs
    ensures More(s, t, target, Exit(System, r))
            == if r == reason && reason != Killed && s.procs[target].traps && s.procs[target].hasMailbox then 1 else 0
  {
    var S := ExitSignalled(s.procs, target, System, reason);
    SignalTells(s.procs, target, reason, r);
    if !IsGraceful(reason) {
      hide ExitSignalled, Closure;
      CascadeTellsNone(S, t.procs, target, reason, r);
    }
  }

  lemma SignalTells(S: Table, target: Pid, reason: Reason, r: Reason)
    requires target in S
    ensures var T := ExitSignalled(S, target, System, reason);
            target in T
            && multiset(T[target].inbox)[Exit(System, r)]
               == multiset(S[target].inbox)[Exit(System, r)]
                  + if r == reason && reason != Killed && S[target].traps && S[target].hasMailbox then 1 else 0
  {
    assert multiset(S[target].inbox + [Exit(System, reason)]) == multiset(S[target].inbox) + multiset{Exit(System, reason)};
  }

  lemma CascadeTellsNone(S: Table, T: Table, root: Pid, reason: Reason, r: Reason)
    requires root in S && Cascaded(S, T, Closure(S, root), reason)
    ensures root in T && multiset(T[root].inbox)[Exit(System, r)] == multiset(S[root].inbox)[Exit(System, r)]
  {
    assert CascadedAt(S, T[root], root, Closure(S, root), reason);
    hide Closure, SeveredAt;
  }

  /** A living neighbour that traps no exits is cancelled just when the reason is not a graceful one. */
  lemma ExitSpreadsIff(s: Sys, target: Pid, sender: Sender, reason: Reason, t: Sys, l: Pid)
    requires Next(s, ExitCall(target, sender, reason), t) && target in s.procs && l in s.procs && l != target
    requires l in s.procs[target].links && s.procs[l].taskLive && !s.procs[l].cancelled && !s.procs[l].traps
    ensures l in t.procs && (t.procs[l].cancelled <==> reason != Shutdown && reason != SupervisorShutdown)
  {
    var S := ExitSignalled(s.procs, target, sender, reason);
    assert S[l] == s.procs[l] && S[target].links == s.procs[target].links;
    if !IsGraceful(reason) {
      ReachesItself(S, target);
      assert CascadedAt(S, t.procs[l], l, Closure(S, target), reason);
      assert target in Closure(S, target) && l in S[target].links;
      assert LinkedFrom(S, Closure(S, target), l);
      hide Closure, SeveredAt, DownsTo, ExitsTo, ExitSignalled;
    }
  }

  /** It goes on from each process that it cancels: that one has lost its links, and a living neighbour of it is cancelled
      just when it does not trap exits. */
  lemma ExitGoesOn(s: Sys, target: Pid, sender: Sender, reason: Reason, t: Sys, a: Pid, b: Pid)
    requires LinksOk(s.procs) && Next(s, ExitCall(target, sender, reason), t) && target in s.procs
    requires a in s.procs && a != target && !s.procs[a].cancelled && a in t.procs && t.procs[a].cancelled
    requires b in s.procs && b != target && s.procs[b].taskLive && !s.procs[b].cancelled && a in s.procs[b].links
    ensures t.procs[a].links == {}
    ensures b in t.procs && (t.procs[b].cancelled <==> !(s.procs[b].traps && s.procs[b].hasMailbox))
  {
    SignalTouchesOne(s.procs, target, sender, reason);
    if !IsGraceful(reason) {
      var S := ExitSignalled(s.procs, target, sender, reason);
      hide ExitSignalled, Cascaded, Closure, LinksOk;
      Reaches(S, t.procs, target, reason, a, b);
    }
  }

  /** Nobody is cancelled but by a neighbour that was reached, and cut off; or for being the target. */
  lemma ExitComesFrom(s: Sys, target: Pid, sender: Sender, reason: Reason, t: Sys, b: Pid) returns (a: Pid)
    requires LinksOk(s.procs) && Next(s, ExitCall(target, sender, reason), t) && target in s.procs
    requires b in s.procs && b != target && !s.procs[b].cancelled && b in t.procs && t.procs[b].cancelled
    ensures a in s.procs && a in t.procs && b in s.procs[a].links && t.procs[a].links == {}
    ensures a == target || !(s.procs[a].traps && s.procs[a].hasMailbox)
  {
    SignalTouchesOne(s.procs, target, sender, reason);
    var S := ExitSignalled(s.procs, target, sender, reason);
    hide ExitSignalled;
    assert !IsGraceful(reason) by {
      assert S[b] == s.procs[b];
    }
    assert CascadedAt(S, t.procs[b], b, Closure(S, target), reason);
    a :| a in Closure(S, target) && a in S && b in S[a].links;
    ReachedIsCut(S, t.procs, target, reason, a);
  }

  lemma SignalTouchesOne(S: Table, target: Pid, sender: Sender, reason: Reason)
    requires target in S
    ensures var T := ExitSignalled(S, target, sender, reason);
            && T.Keys == S.Keys && (LinksOk(S) ==> LinksOk(T))
            && forall x :: x in S ==> T[x].links == S[x].links && T[x].traps == S[x].traps && T[x].hasMailbox == S[x].hasMailbox
    ensures forall x :: x in S && x != target ==> ExitSignalled(S, target, sender, reason)[x] == S[x]
  {
    if LinksOk(S) {
      SignalKeepsLinks(S, target, sender, reason);
    }
    hide LinksOk;
  }

  lemma Reaches(S: Table, T: Table, root: Pid, reason: Reason, a: Pid, b: Pid)
    requires LinksOk(S) && Cascaded(S, T, Closure(S, root), reason) && a in S && b in S && a in S[b].links && a != root
    requires !S[a].cancelled && T[a].cancelled && S[b].taskLive && !S[b].cancelled
    ensures T[a].links == {} && (T[b].cancelled <==> !Shielded(S[b]))
  {
    var V := Closure(S, root);
    assert CascadedAt(S, T[a], a, V, reason) && CascadedAt(S, T[b], b, V, reason);
    var v :| v in V && v in S && a in S[v].links;
    assert Reachable(S, root, v) && Edge(S, v, a);
    ReachableStep(S, root, v, a);
    assert a in V && b in S[a].links;
    assert LinkedFrom(S, V, b);
    hide Closure, DownsTo, ExitsTo, MonitorsAfter;
  }

  lemma ReachedIsCut(S: Table, T: Table, root: Pid, reason: Reason, a: Pid)
    requires Cascaded(S, T, Closure(S, root), reason) && a in Closure(S, root)
    ensures a in S && T[a].links == {} && (a == root || !Shielded(S[a]))
  {
    assert CascadedAt(S, T[a], a, Closure(S, root), reason);
    if a != root {
      HasPredecessor(S, root, a);
    }
  }

  /** One notification takes the visited processes' links, in both directions, and their watchers; every other link and
      every unanswered monitor stays. */
  lemma CascadeCuts(S: Table, T: Table, root: Pid, reason: Reason, p: Pid)
    requires LinksOk(S) && Cascaded(S, T, Closure(S, root), reason) && p in S
    ensures p in T && T[p].links == if p in Closure(S, root) then {} else S[p].links - Closure(S, root)
    ensures T[p].monitoredBy == if p in Closure(S, root) then map[] else S[p].monitoredBy
    ensures forall ref :: ref in T[p].monitors
                          <==> ref in S[p].monitors
                               && forall v :: v in Closure(S, root) && ref in S[v].monitoredBy ==> S[v].monitoredBy[ref] != p
    ensures T[p].traps == S[p].traps && T[p].hasMailbox == S[p].hasMailbox && T[p].name == S[p].name
            && T[p].taskLive == S[p].taskLive
  {
    var V := Closure(S, root);
    assert CascadedAt(S, T[p], p, V, reason);
    MonitorsLeft(S, p, V);
    hide Closure, DownsTo, ExitsTo, MonitorsAfter;
  }

  // ---------- Mail ----------

  /** A message goes to the end of one mailbox, if there is one. */
  lemma SendAppends(S: Table, w: Pid, m: Message, p: Pid)
    requires p in S
    ensures p in Delivered(S, w, m) && Delivered(S, w, m).Keys == S.Keys
    ensures Delivered(S, w, m)[p] == if p == w && S[w].hasMailbox then S[w].(inbox := S[w].inbox + [m]) else S[p]
  {
  }

  /** A mailbox only grows at its end, whatever happens, except where its owner reads it. */
  lemma MailOnlyGrows(s: Sys, e: Event, t: Sys, p: Pid)
    requires Next(s, e, t) && !(e.Mail? && e.pid == p) && p in s.procs && p in t.procs
    ensures s.procs[p].inbox <= t.procs[p].inbox
  {
    match e
    case ExitCall(target, sender, reason) => ExitAddsMail(s, target, sender, reason, t, p);
    case End(pid, reason) => EndAddsMail(s, pid, reason, t, p);
    case _ =>
  }

  lemma ExitAddsMail(s: Sys, target: Pid, sender: Sender, reason: Reason, t: Sys, p: Pid)
    requires NextExit(s, target, sender, reason, t) && p in s.procs
    ensures p in t.procs && s.procs[p].inbox <= t.procs[p].inbox
  {
    if target in s.procs {
      var S := ExitSignalled(s.procs, target, sender, reason);
      assert s.procs[p].inbox <= S[p].inbox;
      if !IsGraceful(reason) {
        assert CascadedAt(S, t.procs[p], p, Closure(S, target), reason);
        hide Closure, SeveredAt, DownsTo, ExitsTo, ExitSignalled;
      }
    }
  }

  lemma EndAddsMail(s: Sys, pid: Pid, reason: Reason, t: Sys, p: Pid)
    requires NextEnd(s, pid, reason, t) && p in s.procs
    ensures p in t.procs && s.procs[p].inbox <= t.procs[p].inbox
  {
    if pid in s.procs && reason != Killed {
      assert EndedAt(s.procs, t.procs[p], p, pid, Casualties(s.procs, pid, reason), reason);
      hide ExitsAt;
    }
  }

  lemma {:induction false} RunOnlyAddsMail(states: seq<Sys>, events: seq<Event>, p: Pid)
    requires IsRun(states, events)
    requires forall i :: 0 <= i < |states| ==> p in states[i].procs
    requires forall i :: 0 <= i < |events| ==> !(events[i].Mail? && events[i].pid == p)
    ensures states[0].procs[p].inbox <= states[|events|].procs[p].inbox
  {
    if events != [] {
      var n := |events| - 1;
      hide Next;
      assert Next(states[n], events[n], states[n + 1]);
      RunOnlyAddsMail(states[..n + 1], events[..n], p);
      MailOnlyGrows(states[n], events[n], states[n + 1], p);
      assert states[0].procs[p].inbox <= states[n].procs[p].inbox <= states[n + 1].procs[p].inbox;
    }
  }

  // ---------- The beginning and the cleanup ----------

  /** A new process has nothing and is running; spawning it touches no other. */
  lemma SpawnIsFresh(s: Sys, pid: Pid, traps: bool, mailbox: bool, name: Option<Name>, t: Sys, p: Pid)
    requires Next(s, Spawn(pid, traps, mailbox, name), t)
    ensures p in t.procs <==> p == pid || p in s.procs
    ensures p in t.procs ==>
              t.procs[p] == if p == pid then Proc(traps, mailbox, [], {}, map[], map[], name, true, false) else s.procs[p]
  {
  }

  /** A process that is cleaned up is gone, and with it every link to it and each monitor on it. */
  lemma CleanupCuts(s: Sys, pid: Pid, t: Sys, p: Pid)
    requires LinksOk(s.procs) && Next(s, Cleanup(pid), t)
    ensures p in t.procs <==> p != pid && p in s.procs
    ensures p in t.procs ==>
              && t.procs[p].links == s.procs[p].links - {pid}
              && t.procs[p] == s.procs[p].(links := t.procs[p].links, monitors := t.procs[p].monitors)
    ensures p in t.procs ==>
              forall ref :: ref in t.procs[p].monitors
                            <==> ref in s.procs[p].monitors
                                 && !(pid in s.procs && ref in s.procs[pid].monitoredBy && s.procs[pid].monitoredBy[ref] == p)
    ensures LinksOk(t.procs)
  {
    NextKeepsLinks(s, Cleanup(pid), t);
    hide LinksOk;
    if p in t.procs && pid in s.procs && pid in s.procs[p].links {
      LinksBack(s.procs, p, pid);
    }
  }

  lemma LinksBack(S: Table, p: Pid, l: Pid)
    requires LinksOk(S) && p in S && l in S[p].links
    ensures l in S && p in S[l].links
  {
  }

  // ---------- Links and monitors ----------

  /** Linking is between two processes that exist, both ways; unlinking takes the link from whichever of them exists. */
  lemma LinkJoins(s: Sys, a: Pid, b: Pid, t: Sys, x: Pid, l: Pid)
    requires x in s.procs
    ensures Next(s, Link(a, b), t) ==>
              && t.procs.Keys == s.procs.Keys && t.procs[x] == s.procs[x].(links := t.procs[x].links)
              && (l in t.procs[x].links <==> l in s.procs[x].links
                                             || (a in s.procs && b in s.procs && ((x == a && l == b) || (x == b && l == a))))
    ensures Next(s, Unlink(a, b), t) ==>
              && t.procs.Keys == s.procs.Keys && t.procs[x] == s.procs[x].(links := t.procs[x].links)
              && (l in t.procs[x].links <==> l in s.procs[x].links && !((x == a && l == b) || (x == b && l == a)))
  {
  }

  /** Monitoring is between two processes that exist; the reference has the watcher's pid and its number of monitors. */
  lemma MonitorJoins(s: Sys, w: Pid, v: Pid, t: Sys, x: Pid)
    requires Next(s, Monitor(w, v), t) && x in s.procs
    ensures t.procs.Keys == s.procs.Keys
    ensures w !in s.procs || v !in s.procs ==> t == s
    ensures w in s.procs && v in s.procs ==>
              var ref := Ref(w, |s.procs[w].monitors|);
              t.procs[x] == s.procs[x].(
                monitors := if x == w then s.procs[x].monitors[ref := v] else s.procs[x].monitors,
                monitoredBy := if x == v then s.procs[x].monitoredBy[ref := w] else s.procs[x].monitoredBy)
  {
  }

  /** Only who watches can stop watching; then both sides drop the reference. */
  lemma DemonitorParts(s: Sys, w: Pid, ref: Ref, t: Sys, x: Pid)
    requires Next(s, Demonitor(w, ref), t) && x in s.procs
    ensures t.procs.Keys == s.procs.Keys
    ensures w !in s.procs || ref !in s.procs[w].monitors ==> t == s
    ensures w in s.procs && ref in s.procs[w].monitors ==>
              t.procs[x] == s.procs[x].(
                monitors := if x == w then s.procs[x].monitors - {ref} else s.procs[x].monitors,
                monitoredBy := if x == s.procs[w].monitors[ref] then s.procs[x].monitoredBy - {ref}
                               else s.procs[x].monitoredBy)
  {
  }
}