/** Whole runs of the process table: spawns, links, monitors, exits and cleanups in any order. */
module Lifecycle {
  import opened Wrappers
  import opened ProcessTable
  import opened ExitPaths

  function NewProcess(traps: bool, mailbox: bool, name: Option<Name>): Proc {
    Proc(traps, mailbox, [], {}, map[], map[], name, true, false)
  }

  function Linked(S: Table, a: Pid, b: Pid): Table {
    if a in S && b in S then
      var S1 := S[a := S[a].(links := S[a].links + {b})];
      S1[b := S1[b].(links := S1[b].links + {a})]
    else S
  }

  function Discarded(S: Table, p: Pid, l: Pid): Table {
    if p in S then S[p := S[p].(links := S[p].links - {l})] else S
  }

  function Unlinked(S: Table, a: Pid, b: Pid): Table {
    Discarded(Discarded(S, a, b), b, a)
  }

  function NextRef(S: Table, w: Pid): Ref
    requires w in S
  {
    Ref(w, |S[w].monitors|)
  }

  function Monitored(S: Table, w: Pid, v: Pid): Table {
    if w in S && v in S then
      var ref := NextRef(S, w);
      var S1 := S[w := S[w].(monitors := S[w].monitors[ref := v])];
      S1[v := S1[v].(monitoredBy := S1[v].monitoredBy[ref := w])]
    else S
  }

  function Demonitored(S: Table, w: Pid, ref: Ref): Table {
    if w in S && ref in S[w].monitors then
      var v := S[w].monitors[ref];
      var S1 := S[w := S[w].(monitors := S[w].monitors - {ref})];
      if v in S1 then S1[v := S1[v].(monitoredBy := S1[v].monitoredBy - {ref})] else S1
    else S
  }

  function CleanedUp(S: Table, pid: Pid): Table {
    if pid in S then
      map p | p in S && p != pid :: S[p].(
        links := if p in S[pid].links then S[p].links - {pid} else S[p].links,
        monitors := S[p].monitors - RefsHeldBy(S[pid].monitoredBy, p))
    else S
  }

  // ---------- What one call undoes ----------

  /** Unlinking undoes linking just when the two were not linked, on either side, before. */
  lemma UnlinkUndoesLinkIff(S: Table, a: Pid, b: Pid)
    requires a in S && b in S
    ensures Unlinked(Linked(S, a, b), a, b) == S <==> b !in S[a].links && a !in S[b].links
  {
    var T := Unlinked(Linked(S, a, b), a, b);
    assert T[a].links == S[a].links - {b} - (if a == b then {a} else {});
    assert T[b].links == S[b].links - {a} - (if a == b then {b} else {});
    if b !in S[a].links && a !in S[b].links {
      assert T[a].links == S[a].links && T[b].links == S[b].links;
      assert T == S;
    }
  }

  /** Monitoring and then demonitoring takes the reference from both sides, whether or not it was there before. */
  lemma MonitorThenDemonitor(S: Table, w: Pid, v: Pid, x: Pid)
    requires w in S && v in S && x in S
    ensures var ref := NextRef(S, w);
            var T := Demonitored(Monitored(S, w, v), w, ref);
            && T.Keys == S.Keys
            && T[x] == S[x].(monitors := if x == w then S[x].monitors - {ref} else S[x].monitors,
                             monitoredBy := if x == v then S[x].monitoredBy - {ref} else S[x].monitoredBy)
  {
    var ref := NextRef(S, w);
    var M := Monitored(S, w, v);
    assert M.Keys == S.Keys && M[w].monitors[ref] == v;
    assert M[w].monitors - {ref} == S[w].monitors - {ref};
    assert M[v].monitoredBy - {ref} == S[v].monitoredBy - {ref};
  }

  /** Demonitoring undoes monitoring just when the new reference was in use on neither side: a reference can repeat. */
  lemma DemonitorUndoesMonitorIff(S: Table, w: Pid, v: Pid)
    requires w in S && v in S
    ensures var ref := NextRef(S, w);
            Demonitored(Monitored(S, w, v), w, ref) == S <==> ref !in S[w].monitors && ref !in S[v].monitoredBy
  {
    var ref := NextRef(S, w);
    var T := Demonitored(Monitored(S, w, v), w, ref);
    MonitorThenDemonitor(S, w, v, w);
    MonitorThenDemonitor(S, w, v, v);
    hide *;
    if ref !in S[w].monitors && ref !in S[v].monitoredBy {
      assert S[w].monitors - {ref} == S[w].monitors && S[v].monitoredBy - {ref} == S[v].monitoredBy;
      forall x | x in S ensures x in T && T[x] == S[x] {
        MonitorThenDemonitor(S, w, v, x);
      }
      assert T == S;
    } else {
      assert ref !in T[w].monitors && ref !in T[v].monitoredBy;
    }
  }

  datatype Event =
    | Spawn(pid: Pid, traps: bool, mailbox: bool, name: Option<Name>)
    | Link(a: Pid, b: Pid)
    | Unlink(a: Pid, b: Pid)
    | Monitor(watcher: Pid, subject: Pid)
    | Demonitor(watcher: Pid, ref: Ref)
    | ExitCall(target: Pid, sender: Sender, reason: Reason)
    | End(pid: Pid, reason: Reason)
    | Cleanup(pid: Pid)
    | Mail(pid: Pid, inbox: seq<Message>)

  /** `downs` counts the DOWN messages put into mailboxes so far. */
  datatype Sys = Sys(procs: Table, downs: multiset<DownKey>)

  ghost predicate Next(s: Sys, e: Event, t: Sys) {
    match e
    case Spawn(pid, traps, mailbox, name) =>
      pid !in s.procs && t == s.(procs := s.procs[pid := NewProcess(traps, mailbox, name)])
    case Link(a, b) => t == s.(procs := Linked(s.procs, a, b))
    case Unlink(a, b) => t == s.(procs := Unlinked(s.procs, a, b))
    case Monitor(w, v) => t == s.(procs := Monitored(s.procs, w, v))
    case Demonitor(w, ref) => t == s.(procs := Demonitored(s.procs, w, ref))
    case ExitCall(target, sender, reason) => NextExit(s, target, sender, reason, t)
    case End(pid, reason) => NextEnd(s, pid, reason, t)
    case Cleanup(pid) => t == s.(procs := CleanedUp(s.procs, pid))
    case Mail(pid, inbox) => pid in s.procs && t == s.(procs := s.procs[pid := s.procs[pid].(inbox := inbox)])
  }

  ghost predicate NextExit(s: Sys, target: Pid, sender: Sender, reason: Reason, t: Sys) {
    if target !in s.procs then t == s
    else
      var S := ExitSignalled(s.procs, target, sender, reason);
      if reason == Shutdown || reason == SupervisorShutdown then t == s.(procs := S)
      else
        && Cascaded(S, t.procs, Closure(S, target), reason)
        && t.downs == s.downs + multiset(DownsOf(S, Closure(S, target)))
  }

  ghost predicate NextEnd(s: Sys, pid: Pid, reason: Reason, t: Sys) {
    if pid !in s.procs || reason == Killed then t == s
    else
      && reason != SupervisorShutdown
      && Ended(s.procs, t.procs, pid, Casualties(s.procs, pid, reason), reason)
      && t.downs == s.downs + multiset(DownsOf(s.procs, Casualties(s.procs, pid, reason) + {pid}))
  }

  ghost predicate IsRun(states: seq<Sys>, events: seq<Event>) {
    |states| == |events| + 1 && forall i :: 0 <= i < |events| ==> Next(states[i], events[i], states[i + 1])
  }

  // ---------- Exits and ends always have an outcome ----------

  ghost function Row(ms: set<Message>): (r: seq<Message>)
    ensures multiset(r) == multiset(ms)
  {
    if ms == {} then []
    else
      var m :| m in ms;
      assert ms == ms - {m} + {m};
      [m] + Row(ms - {m})
  }

  ghost function Appended(inbox: seq<Message>, a: set<Message>, b: set<Message>, c: set<Message>): (r: seq<Message>)
    ensures inbox <= r
    ensures multiset(r) == multiset(inbox) + multiset(a) + multiset(b) + multiset(c)
  {
    inbox + Row(a) + Row(b) + Row(c)
  }

  ghost function CascadeMail(S: Table, p: Pid, V: set<Pid>, reason: Reason): (r: seq<Message>)
    requires p in S
    ensures S[p].inbox <= r
    ensures multiset(r) == multiset(S[p].inbox)
                           + multiset(if Shielded(S[p]) then ExitsTo(S, V, p, reason) else {})
                           + multiset(if S[p].hasMailbox then DownsTo(S, V, p, reason, {}) else {})
  {
    var exits := if Shielded(S[p]) then ExitsTo(S, V, p, reason) else {};
    var downs := if S[p].hasMailbox then DownsTo(S, V, p, reason, {}) else {};
    Appended(S[p].inbox, exits, downs, {})
  }

  ghost function CascadedProc(S: Table, p: Pid, V: set<Pid>, reason: Reason): (q: Proc)
    requires p in S
    ensures CascadedAt(S, q, p, V, reason)
  {
    S[p].(links := LinksAfter(S, p, V), monitors := MonitorsAfter(S, p, V),
          monitoredBy := if p in V then map[] else S[p].monitoredBy,
          cancelled := S[p].cancelled || (S[p].taskLive && !Shielded(S[p]) && LinkedFrom(S, V, p)),
          inbox := CascadeMail(S, p, V, reason))
  }

  lemma CascadeIsPossible(S: Table, V: set<Pid>, reason: Reason) returns (T: Table)
    ensures Cascaded(S, T, V, reason)
  {
    T := map p | p in S :: CascadedProc(S, p, V, reason);
    hide CascadedProc, CascadedAt;
  }

  lemma ExitIsPossible(s: Sys, target: Pid, sender: Sender, reason: Reason) returns (t: Sys)
    ensures Next(s, ExitCall(target, sender, reason), t)
  {
    t := s;
    if target in s.procs {
      var S := ExitSignalled(s.procs, target, sender, reason);
      t := s.(procs := S);
      if reason != Shutdown && reason != SupervisorShutdown {
        var T := CascadeIsPossible(S, Closure(S, target), reason);
        t := Sys(T, s.downs + multiset(DownsOf(S, Closure(S, target))));
      }
    }
  }

  ghost predicate GetsExit(S: Table, p: Pid, pid: Pid, reason: Reason)
    requires p in S && pid in S
  {
    p in ToldBy(S, pid, reason) && Shielded(S[p])
  }

  ghost function EndDowns(S: Table, p: Pid, pid: Pid, W: set<Pid>, reason: Reason): set<Message>
    requires p in S && pid in S
  {
    if S[p].hasMailbox then DownsTo(S, W + {pid}, p, reason, {pid} - W) else {}
  }

  ghost function EndExits(S: Table, p: Pid, W: set<Pid>, reason: Reason): set<Message>
    requires p in S
  {
    if Shielded(S[p]) then ExitsTo(S, W, p, reason) else {}
  }

  ghost function EndMail(S: Table, p: Pid, pid: Pid, W: set<Pid>, reason: Reason): seq<Message>
    requires p in S && pid in S
  {
    Appended(S[p].inbox, EndDowns(S, p, pid, W, reason), EndExits(S, p, W, reason),
             if GetsExit(S, p, pid, reason) then {Exit(Process(pid), reason)} else {})
  }

  lemma EndMailCounts(S: Table, p: Pid, pid: Pid, W: set<Pid>, reason: Reason, m: Message)
    requires p in S && pid in S
    ensures var before, after := multiset(S[p].inbox)[m], multiset(EndMail(S, p, pid, W, reason))[m];
            && (m.Down? ==> after == before + if m in EndDowns(S, p, pid, W, reason) then 1 else 0)
            && (m.Exit? ==>
                  after == before + (if m in EndExits(S, p, W, reason) then 1 else 0)
                           + (if GetsExit(S, p, pid, reason) && m == Exit(Process(pid), reason) then 1 else 0))
  {
    assert m.Down? ==> m !in EndExits(S, p, W, reason);
    assert m.Exit? ==> m !in EndDowns(S, p, pid, W, reason);
    hide Appended, EndDowns, EndExits, GetsExit;
  }

  lemma MailFrom(S: Table, inbox: seq<Message>, p: Pid, V: set<Pid>, reason: Reason, last: set<Pid>, downs: set<Message>)
    requires p in S && S[p].inbox <= inbox && downs == if S[p].hasMailbox then DownsTo(S, V, p, reason, last) else {}
    requires forall m: Message :: m.Down? ==> multiset(inbox)[m] == multiset(S[p].inbox)[m] + if m in downs then 1 else 0
    ensures MailAt(S, inbox, p, V, reason, last)
  {
    hide DownsTo;
  }

  lemma ExitsFrom(S: Table, inbox: seq<Message>, p: Pid, V: set<Pid>, from: Sender, told: bool, reason: Reason,
                  exits: set<Message>, direct: bool)
    requires p in S && exits == (if Shielded(S[p]) then ExitsTo(S, V, p, reason) else {}) && direct == (told && Shielded(S[p]))
    requires forall m: Message :: m.Exit? ==>
               multiset(inbox)[m]
               == multiset(S[p].inbox)[m] + (if m in exits then 1 else 0)
                  + (if direct && m == Exit(from, reason) then 1 else 0)
    ensures ExitsAt(S, inbox, p, V, from, told, reason)
  {
    hide ExitsTo, Shielded;
  }

  lemma EndMailIsRight(S: Table, p: Pid, pid: Pid, W: set<Pid>, reason: Reason)
    requires p in S && pid in S
    ensures MailAt(S, EndMail(S, p, pid, W, reason), p, W + {pid}, reason, {pid} - W)
    ensures ExitsAt(S, EndMail(S, p, pid, W, reason), p, W, Process(pid), p in ToldBy(S, pid, reason), reason)
  {
    var inbox, direct := EndMail(S, p, pid, W, reason), GetsExit(S, p, pid, reason);
    var downs, exits := EndDowns(S, p, pid, W, reason), EndExits(S, p, W, reason);
    hide DownsTo, ExitsTo, Shielded, MailAt, ExitsAt, ToldBy;
    forall m: Message
      ensures m.Down? ==> multiset(inbox)[m] == multiset(S[p].inbox)[m] + if m in downs then 1 else 0
      ensures m.Exit? ==> multiset(inbox)[m]
                          == multiset(S[p].inbox)[m] + (if m in exits then 1 else 0)
                             + (if direct && m == Exit(Process(pid), reason) then 1 else 0)
    {
      hide EndMail, EndDowns, EndExits, GetsExit;
      EndMailCounts(S, p, pid, W, reason, m);
    }
    MailFrom(S, inbox, p, W + {pid}, reason, {pid} - W, downs);
    ExitsFrom(S, inbox, p, W, Process(pid), p in ToldBy(S, pid, reason), reason, exits, direct);
  }

  ghost function EndedProc(S: Table, p: Pid, pid: Pid, W: set<Pid>, reason: Reason): (q: Proc)
    requires p in S && pid in S
    ensures EndedAt(S, q, p, pid, W, reason)
  {
    EndMailIsRight(S, p, pid, W, reason);
    S[p].(links := LinksAfter(S, p, W), monitors := MonitorsAfter(S, p, W + {pid}),
          monitoredBy := if p in W + {pid} then map[] else S[p].monitoredBy,
          cancelled := S[p].cancelled || (S[p].taskLive && p in W),
          inbox := EndMail(S, p, pid, W, reason))
  }

  lemma EndedIsPossible(S: Table, pid: Pid, W: set<Pid>, reason: Reason) returns (T: Table)
    requires pid in S
    ensures Ended(S, T, pid, W, reason)
  {
    T := map p | p in S :: EndedProc(S, p, pid, W, reason);
    hide EndedProc, EndedAt;
  }

  lemma EndIsPossible(s: Sys, pid: Pid, reason: Reason) returns (t: Sys)
    requires reason != SupervisorShutdown
    ensures Next(s, End(pid, reason), t)
  {
    t := s;
    if pid in s.procs && reason != Killed {
      hide Ended, Casualties, DownsOf;
      var W := Casualties(s.procs, pid, reason);
      var T := EndedIsPossible(s.procs, pid, W, reason);
      t := Sys(T, s.downs + multiset(DownsOf(s.procs, W + {pid})));
    }
  }

  // ---------- Links stay symmetric ----------

  predicate LinksOk(S: Table) {
    forall p, l :: p in S && l in S[p].links ==> l in S && p in S[l].links
  }

  /** Cutting off any set of processes leaves the links of the others symmetric, with none into the set. */
  lemma CutKeepsLinks(S: Table, T: Table, V: set<Pid>)
    requires LinksOk(S) && T.Keys == S.Keys && forall p :: p in S ==> T[p].links == LinksAfter(S, p, V)
    ensures LinksOk(T)
    ensures forall p :: p in S ==> T[p].links == (if p in V then {} else S[p].links - V)
  {
  }

  lemma SignalKeepsLinks(S: Table, target: Pid, sender: Sender, reason: Reason)
    requires LinksOk(S) && target in S
    ensures LinksOk(ExitSignalled(S, target, sender, reason))
  {
    var T := ExitSignalled(S, target, sender, reason);
    assert T.Keys == S.Keys && forall p :: p in S ==> T[p].links == S[p].links;
  }

  lemma CascadeKeepsLinks(S: Table, T: Table, V: set<Pid>, reason: Reason)
    requires LinksOk(S) && Cascaded(S, T, V, reason)
    ensures LinksOk(T)
  {
    CascadeSevers(S, T, V, reason);
    forall p | p in S ensures T[p].links == LinksAfter(S, p, V) {
      assert SeveredAt(S, T[p], p, V);
    }
    CutKeepsLinks(S, T, V);
  }

  lemma ExitKeepsLinks(s: Sys, target: Pid, sender: Sender, reason: Reason, t: Sys)
    requires LinksOk(s.procs) && NextExit(s, target, sender, reason, t)
    ensures LinksOk(t.procs)
  {
    if target in s.procs {
      hide LinksOk, ExitSignalled, Cascaded, Closure, DownsOf;
      SignalKeepsLinks(s.procs, target, sender, reason);
      if reason != Shutdown && reason != SupervisorShutdown {
        var S := ExitSignalled(s.procs, target, sender, reason);
        CascadeKeepsLinks(S, t.procs, Closure(S, target), reason);
      }
    }
  }

  lemma EndKeepsLinks(s: Sys, pid: Pid, reason: Reason, t: Sys)
    requires LinksOk(s.procs) && NextEnd(s, pid, reason, t)
    ensures LinksOk(t.procs)
  {
    if pid in s.procs && reason != Killed {
      var W := Casualties(s.procs, pid, reason);
      forall p | p in s.procs ensures t.procs[p].links == LinksAfter(s.procs, p, W) {
        assert EndedAt(s.procs, t.procs[p], p, pid, W, reason);
      }
      CutKeepsLinks(s.procs, t.procs, W);
    }
  }

  lemma SameLinksOk(S: Table, T: Table)
    requires LinksOk(S) && T.Keys == S.Keys && forall p :: p in S ==> T[p].links == S[p].links
    ensures LinksOk(T)
  {
  }

  lemma LinkKeepsLinks(S: Table, a: Pid, b: Pid)
    requires LinksOk(S)
    ensures LinksOk(Linked(S, a, b)) && LinksOk(Unlinked(S, a, b))
  {
  }

  lemma SimpleKeepsLinks(s: Sys, e: Event, t: Sys)
    requires LinksOk(s.procs) && Next(s, e, t) && !e.ExitCall? && !e.End?
    ensures LinksOk(t.procs)
  {
    match e
    case Monitor(_, _) => SameLinksOk(s.procs, t.procs);
    case Demonitor(_, _) => SameLinksOk(s.procs, t.procs);
    case Mail(_, _) => SameLinksOk(s.procs, t.procs);
    case Link(a, b) => LinkKeepsLinks(s.procs, a, b);
    case Unlink(a, b) => LinkKeepsLinks(s.procs, a, b);
    case _ =>
  }

  lemma NextKeepsLinks(s: Sys, e: Event, t: Sys)
    requires LinksOk(s.procs) && Next(s, e, t)
    ensures LinksOk(t.procs)
  {
    match e
    case ExitCall(target, sender, reason) => ExitKeepsLinks(s, target, sender, reason, t);
    case End(pid, reason) => EndKeepsLinks(s, pid, reason, t);
    case _ => SimpleKeepsLinks(s, e, t);
  }

  /** In every state of every run, local links are symmetric and none points to a removed process. */
  lemma {:induction false} RunKeepsLinks(states: seq<Sys>, events: seq<Event>)
    requires IsRun(states, events) && LinksOk(states[0].procs)
    ensures forall i :: 0 <= i < |states| ==> LinksOk(states[i].procs)
  {
    if events != [] {
      var n := |events| - 1;
      hide Next, LinksOk;
      assert Next(states[n], events[n], states[n + 1]);
      RunKeepsLinks(states[..n + 1], events[..n]);
      assert states[..n + 1][n] == states[n];
      NextKeepsLinks(states[n], events[n], states[n + 1]);
      forall i | 0 <= i < |states| ensures LinksOk(states[i].procs) {
        assert i <= n ==> states[..n + 1][i] == states[i];
      }
    }
  }

  // ---------- At most one DOWN for each monitor ----------

  /** Is the monitor `k` set up and not yet answered? */
  function Pending(S: Table, k: DownKey): nat {
    if k.subject in S && k.ref in S[k.subject].monitoredBy && S[k.subject].monitoredBy[k.ref] == k.watcher then 1 else 0
  }

  function Credit(s: Sys, k: DownKey): nat {
    s.downs[k] + Pending(s.procs, k)
  }

  /** How often the run sets up the monitor `k`. */
  function TimesSet(states: seq<Sys>, events: seq<Event>, k: DownKey): nat
    requires |states| == |events| + 1
  {
    if events == [] then 0
    else
      var n := |events| - 1;
      TimesSet(states[..n + 1], events[..n], k) + SetsUp(states[n], events[n], k)
  }

  function SetsUp(s: Sys, e: Event, k: DownKey): nat {
    if e.Monitor? && e.watcher in s.procs && k == DownKey(e.watcher, NextRef(s.procs, e.watcher), e.subject) then 1 else 0
  }

  lemma AnsweredOnce(S: Table, T: Table, V: set<Pid>, k: DownKey)
    requires T.Keys == S.Keys
    requires forall p :: p in S ==> T[p].monitoredBy == if p in V then map[] else S[p].monitoredBy
    ensures multiset(DownsOf(S, V))[k] + Pending(T, k) <= Pending(S, k)
  {
    if k in DownsOf(S, V) {
      assert k.subject in V && k.subject in S;
    }
  }

  lemma ExitCredit(s: Sys, target: Pid, sender: Sender, reason: Reason, t: Sys, k: DownKey)
    requires NextExit(s, target, sender, reason, t)
    ensures Credit(t, k) <= Credit(s, k)
  {
    if target in s.procs {
      var S := ExitSignalled(s.procs, target, sender, reason);
      assert Pending(S, k) == Pending(s.procs, k);
      if reason != Shutdown && reason != SupervisorShutdown {
        var V := Closure(S, target);
        CascadeSevers(S, t.procs, V, reason);
        forall p | p in S ensures t.procs[p].monitoredBy == if p in V then map[] else S[p].monitoredBy {
          assert SeveredAt(S, t.procs[p], p, V);
        }
        AnsweredOnce(S, t.procs, V, k);
      }
    }
  }

  lemma EndCredit(s: Sys, pid: Pid, reason: Reason, t: Sys, k: DownKey)
    requires NextEnd(s, pid, reason, t)
    ensures Credit(t, k) <= Credit(s, k)
  {
    if pid in s.procs && reason != Killed {
      var W := Casualties(s.procs, pid, reason);
      forall p | p in s.procs
        ensures t.procs[p].monitoredBy == if p in W + {pid} then map[] else s.procs[p].monitoredBy
      {
        assert EndedAt(s.procs, t.procs[p], p, pid, W, reason);
      }
      AnsweredOnce(s.procs, t.procs, W + {pid}, k);
    }
  }

  lemma NextCredit(s: Sys, e: Event, t: Sys, k: DownKey)
    requires Next(s, e, t)
    ensures Credit(t, k) <= Credit(s, k) + SetsUp(s, e, k)
  {
    match e
    case ExitCall(target, sender, reason) => ExitCredit(s, target, sender, reason, t, k);
    case End(pid, reason) => EndCredit(s, pid, reason, t, k);
    case _ =>
  }

  /** The DOWN messages of `ref` for `subject` in a mailbox, whatever their reason. */
  function DownsIn(inbox: seq<Message>, ref: Ref, subject: Pid): seq<Message> {
    if inbox == [] then []
    else
      var m := inbox[|inbox| - 1];
      DownsIn(inbox[..|inbox| - 1], ref, subject) + if m.Down? && m.ref == ref && m.subject == subject then [m] else []
  }

  lemma {:induction false} DownsInCounts(inbox: seq<Message>, ref: Ref, subject: Pid, m: Message)
    ensures multiset(DownsIn(inbox, ref, subject))[m]
            == if m.Down? && m.ref == ref && m.subject == subject then multiset(inbox)[m] else 0
  {
    if inbox != [] {
      DownsInCounts(inbox[..|inbox| - 1], ref, subject, m);
      assert inbox == inbox[..|inbox| - 1] + [inbox[|inbox| - 1]];
    }
  }

  /** If just the messages of one shape and reason became more, by `d`, then so did the DOWN messages. */
  lemma DownsInGrow(a: seq<Message>, b: seq<Message>, shape: Shape, ref: Ref, subject: Pid, reason: Reason, d: nat)
    requires forall sh: Shape, r: Reason ::
               multiset(b)[Down(sh, ref, subject, r)]
               == multiset(a)[Down(sh, ref, subject, r)] + if sh == shape && r == reason then d else 0
    ensures |DownsIn(b, ref, subject)| == |DownsIn(a, ref, subject)| + d
  {
    var x, y := multiset(DownsIn(a, ref, subject)), multiset(DownsIn(b, ref, subject));
    var n := Down(shape, ref, subject, reason);
    forall m: Message ensures y[m] == if m == n then x[m] + d else x[m] {
      DownsInCounts(a, ref, subject, m);
      DownsInCounts(b, ref, subject, m);
      assert m.Down? && m.ref == ref && m.subject == subject ==> m == Down(m.shape, ref, subject, m.reason);
    }
    hide *;
    BagGrows(x, y, n, d);
    assert |x| == |DownsIn(a, ref, subject)| && |y| == |DownsIn(b, ref, subject)|;
  }

  lemma BagGrows(x: multiset<Message>, y: multiset<Message>, n: Message, d: nat)
    requires forall m: Message :: y[m] == if m == n then x[m] + d else x[m]
    ensures |y| == |x| + d
  {
    assert y == x[n := x[n] + d];
  }

  /** How many DOWN messages for the monitor `k` an event puts into its watcher's mailbox. Reading mail puts none. */
  function Mailed(s: Sys, e: Event, t: Sys, k: DownKey): int {
    if e.Mail? || k.watcher !in s.procs || k.watcher !in t.procs then 0
    else |DownsIn(t.procs[k.watcher].inbox, k.ref, k.subject)| - |DownsIn(s.procs[k.watcher].inbox, k.ref, k.subject)|
  }

  lemma CutMails(S: Table, inbox: seq<Message>, V: set<Pid>, reason: Reason, last: set<Pid>, k: DownKey)
    requires k.watcher in S && MailAt(S, inbox, k.watcher, V, reason, last)
    ensures |DownsIn(inbox, k.ref, k.subject)|
            == |DownsIn(S[k.watcher].inbox, k.ref, k.subject)| + multiset(DownsOf(S, V))[k]
  {
    var d, shape := multiset(DownsOf(S, V))[k], ShapeOf(k.subject, last);
    forall sh: Shape, r: Reason
      ensures multiset(inbox)[Down(sh, k.ref, k.subject, r)]
              == multiset(S[k.watcher].inbox)[Down(sh, k.ref, k.subject, r)] + if sh == shape && r == reason then d else 0
    {
      var m := Down(sh, k.ref, k.subject, r);
      assert m in DownsTo(S, V, k.watcher, reason, last) && S[k.watcher].hasMailbox
             <==> sh == shape && r == reason && k in DownsOf(S, V);
    }
    hide MailAt, DownsTo, DownsOf;
    DownsInGrow(S[k.watcher].inbox, inbox, shape, k.ref, k.subject, reason, d);
  }

  lemma NobodyToMail(S: Table, V: set<Pid>, k: DownKey)
    requires k.watcher !in S
    ensures multiset(DownsOf(S, V))[k] == 0
  {
  }

  lemma SignalMails(S: Table, target: Pid, sender: Sender, reason: Reason, k: DownKey)
    requires target in S && k.watcher in S
    ensures var T := ExitSignalled(S, target, sender, reason);
            T.Keys == S.Keys
            && DownsIn(T[k.watcher].inbox, k.ref, k.subject) == DownsIn(S[k.watcher].inbox, k.ref, k.subject)
  {
    var inbox := S[k.watcher].inbox;
    assert (inbox + [Exit(sender, reason)])[..|inbox|] == inbox;
  }

  lemma ExitMails(s: Sys, target: Pid, sender: Sender, reason: Reason, t: Sys, k: DownKey)
    requires NextExit(s, target, sender, reason, t)
    ensures Mailed(s, ExitCall(target, sender, reason), t, k) == t.downs[k] - s.downs[k]
  {
    if target in s.procs {
      var S := ExitSignalled(s.procs, target, sender, reason);
      if k.watcher !in s.procs {
        NobodyToMail(S, Closure(S, target), k);
      } else {
        SignalMails(s.procs, target, sender, reason, k);
        if reason != Shutdown && reason != SupervisorShutdown {
          var V := Closure(S, target);
          CascadeTells(S, t.procs, V, reason);
          assert MailAt(S, t.procs[k.watcher].inbox, k.watcher, V, reason, {});
          CutMails(S, t.procs[k.watcher].inbox, V, reason, {}, k);
        }
      }
      hide ExitSignalled, Closure, Cascaded, DownsOf, MailAt, DownsIn;
    }
  }

  lemma EndMails(s: Sys, pid: Pid, reason: Reason, t: Sys, k: DownKey)
    requires NextEnd(s, pid, reason, t)
    ensures Mailed(s, End(pid, reason), t, k) == t.downs[k] - s.downs[k]
  {
    if pid in s.procs && reason != Killed {
      var V := Casualties(s.procs, pid, reason) + {pid};
      if k.watcher !in s.procs {
        NobodyToMail(s.procs, V, k);
      } else {
        assert EndedAt(s.procs, t.procs[k.watcher], k.watcher, pid, Casualties(s.procs, pid, reason), reason);
        CutMails(s.procs, t.procs[k.watcher].inbox, V, reason, {pid} - Casualties(s.procs, pid, reason), k);
      }
      hide Casualties, Ended, DownsOf, MailAt, DownsIn;
    }
  }

  /** What the tally `downs` says is what the mailboxes get, on every path. */
  lemma NextMails(s: Sys, e: Event, t: Sys, k: DownKey)
    requires Next(s, e, t)
    ensures e.Mail? || Mailed(s, e, t, k) == t.downs[k] - s.downs[k]
    ensures e.Mail? ==> t.downs == s.downs
  {
    match e
    case ExitCall(target, sender, reason) => ExitMails(s, target, sender, reason, t, k);
    case End(pid, reason) => EndMails(s, pid, reason, t, k);
    case Mail(_, _) =>
    case _ =>
      hide DownsIn;
      assert k.watcher in s.procs && k.watcher in t.procs ==> t.procs[k.watcher].inbox == s.procs[k.watcher].inbox;
  }

  function TimesMailed(states: seq<Sys>, events: seq<Event>, k: DownKey): int
    requires |states| == |events| + 1
  {
    if events == [] then 0
    else
      var n := |events| - 1;
      TimesMailed(states[..n + 1], events[..n], k) + Mailed(states[n], events[n], states[n + 1], k)
  }

  lemma {:induction false} RunMailsDowns(states: seq<Sys>, events: seq<Event>, k: DownKey)
    requires IsRun(states, events)
    ensures TimesMailed(states, events, k) + states[0].downs[k] == states[|events|].downs[k]
  {
    if events != [] {
      var n := |events| - 1;
      hide Next, Mailed;
      RunMailsDowns(states[..n + 1], events[..n], k);
      assert Next(states[n], events[n], states[n + 1]);
      NextMails(states[n], events[n], states[n + 1], k);
      MailIsRead(states[n], events[n], states[n + 1], k);
    }
  }

  lemma MailIsRead(s: Sys, e: Event, t: Sys, k: DownKey)
    ensures e.Mail? ==> Mailed(s, e, t, k) == 0
  {
  }

  lemma {:induction false} RunKeepsCredit(states: seq<Sys>, events: seq<Event>, k: DownKey)
    requires IsRun(states, events)
    ensures Credit(states[|events|], k) <= Credit(states[0], k) + TimesSet(states, events, k)
  {
    if events != [] {
      var n := |events| - 1;
      hide Next, Credit;
      RunKeepsCredit(states[..n + 1], events[..n], k);
      assert Next(states[n], events[n], states[n + 1]);
      NextCredit(states[n], events[n], states[n + 1], k);
    }
  }

  /** Over any run, each time a monitor is set up pays for at most one DOWN message in its watcher's mailbox, whatever
      exit path sends it. */
  lemma RunSendsOneDown(states: seq<Sys>, events: seq<Event>, k: DownKey)
    requires IsRun(states, events)
    ensures TimesMailed(states, events, k) + Pending(states[|events|].procs, k)
            <= Pending(states[0].procs, k) + TimesSet(states, events, k)
  {
    RunKeepsCredit(states, events, k);
    RunMailsDowns(states, events, k);
  }

  // ---------- What one exit notification sends ----------

  /** On a symmetric table, a process that traps exits gets one EXIT from each visited neighbour, others get none. */
  lemma OneExitPerVisitedNeighbour(S: Table, T: Table, root: Pid, reason: Reason, p: Pid, v: Pid, r: Reason)
    requires LinksOk(S) && Cascaded(S, T, Closure(S, root), reason) && p in S
    ensures multiset(T[p].inbox)[Exit(Process(v), r)]
            == multiset(S[p].inbox)[Exit(Process(v), r)]
               + if Shielded(S[p]) && v in Closure(S, root) && v in S[p].links && r == reason then 1 else 0
    ensures v in Closure(S, root) ==> v !in T[p].links && T[v].links == {}
  {
    var V := Closure(S, root);
    assert CascadedAt(S, T[p], p, V, reason);
    assert Exit(Process(v), r) in ExitsTo(S, V, p, reason) <==> v in V && v in S[p].links && r == reason;
    if v in V {
      assert CascadedAt(S, T[v], v, V, reason);
    }
  }

  /** A watcher gets one DOWN, of four fields, for each of its monitors on a visited process, and none else. */
  lemma OneDownPerVisitedMonitor(S: Table, T: Table, root: Pid, reason: Reason, w: Pid, shape: Shape, ref: Ref, v: Pid,
                                 r: Reason)
    requires Cascaded(S, T, Closure(S, root), reason) && w in S
    ensures multiset(T[w].inbox)[Down(shape, ref, v, r)]
            == multiset(S[w].inbox)[Down(shape, ref, v, r)]
               + if S[w].hasMailbox && v in Closure(S, root) && ref in S[v].monitoredBy && S[v].monitoredBy[ref] == w
                    && shape == FourFields && r == reason
                 then 1 else 0
  {
    assert CascadedAt(S, T[w], w, Closure(S, root), reason);
  }

  /** The crashed process is itself cancelled just when it could be, and a neighbour of it is. */
  lemma DyingRootIsHitToo(S: Table, pid: Pid)
    requires LinksOk(S) && pid in S
    ensures pid in CrashSet(S, S[pid].links) <==> !Shielded(S[pid]) && exists l :: l in S[pid].links && !S[l].traps
  {
    if pid in CrashSet(S, S[pid].links) {
      var l :| l in S[pid].links && l in S && !S[l].traps && Reachable(S, l, pid);
      if l != pid {
        HasPredecessor(S, l, pid);
      }
    }
    if !Shielded(S[pid]) && exists l :: l in S[pid].links && !S[l].traps {
      var l :| l in S[pid].links && !S[l].traps;
      assert Edge(S, l, pid);
      ReachesItself(S, l);
      ReachableStep(S, l, l, pid);
    }
  }

  // ---------- Which of the two DOWN tuples is sent ----------

  predicate IsGraceful(reason: Reason) {
    reason == Shutdown || reason == SupervisorShutdown
  }

  /** Nothing comes back to a process that ends normally, that is shielded, or whose neighbours all trap exits. */
  predicate EndsAlone(S: Table, pid: Pid, reason: Reason)
    requires pid in S
  {
    reason == Normal || reason == Shutdown || reason == NoReason || Shielded(S[pid]) || forall l :: l in S[pid].links && l in S ==> S[l].traps
  }

  /** How many more messages `m` process `w` has in `t` than in `s`. */
  function More(s: Sys, t: Sys, w: Pid, m: Message): int
    requires w in s.procs && w in t.procs
  {
    multiset(t.procs[w].inbox)[m] as int - multiset(s.procs[w].inbox)[m] as int
  }

  /** When a process ends, each watcher of it that has a mailbox gets one DOWN: of five fields just when the process ends
      alone, and else of four, from a notification that came back to it through a neighbour. */
  lemma EndShapeIff(s: Sys, pid: Pid, reason: Reason, t: Sys, ref: Ref, w: Pid)
    requires LinksOk(s.procs) && Next(s, End(pid, reason), t) && pid in s.procs && reason != Killed
    requires ref in s.procs[pid].monitoredBy && s.procs[pid].monitoredBy[ref] == w && HasMailbox(s.procs, w)
    ensures w in t.procs
    ensures More(s, t, w, Down(FiveFields, ref, pid, reason)) == (if EndsAlone(s.procs, pid, reason) then 1 else 0)
    ensures More(s, t, w, Down(FourFields, ref, pid, reason)) == (if EndsAlone(s.procs, pid, reason) then 0 else 1)
  {
    var S, W := s.procs, Casualties(s.procs, pid, reason);
    assert EndedAt(S, t.procs[w], w, pid, W, reason);
    DyingRootIsHitToo(S, pid);
    assert pid in W <==> !EndsAlone(S, pid, reason);
    hide Next, NextEnd, Ended, Casualties, LinksOk, EndsAlone, LinksAfter, MonitorsAfter, MailAt, CrashSet;
    EndMailShape(S, t.procs[w].inbox, w, pid, W, reason, ref);
  }

  lemma EndMailShape(S: Table, inbox: seq<Message>, w: Pid, pid: Pid, W: set<Pid>, reason: Reason, ref: Ref)
    requires w in S && pid in S && S[w].hasMailbox && MailAt(S, inbox, w, W + {pid}, reason, {pid} - W)
    requires ref in S[pid].monitoredBy && S[pid].monitoredBy[ref] == w
    ensures multiset(inbox)[Down(FiveFields, ref, pid, reason)]
            == multiset(S[w].inbox)[Down(FiveFields, ref, pid, reason)] + if pid in W then 0 else 1
    ensures multiset(inbox)[Down(FourFields, ref, pid, reason)]
            == multiset(S[w].inbox)[Down(FourFields, ref, pid, reason)] + if pid in W then 1 else 0
  {
    var m, n := Down(FiveFields, ref, pid, reason), Down(FourFields, ref, pid, reason);
    assert m in DownsTo(S, W + {pid}, w, reason, {pid} - W) <==> pid !in W;
    assert n in DownsTo(S, W + {pid}, w, reason, {pid} - W) <==> pid in W;
    hide DownsTo;
  }

  /** Either way the monitors on the process are gone. */
  lemma EndClears(s: Sys, pid: Pid, reason: Reason, t: Sys)
    requires Next(s, End(pid, reason), t) && pid in s.procs && reason != Killed
    ensures pid in t.procs && t.procs[pid].monitoredBy == map[]
  {
    assert EndedAt(s.procs, t.procs[pid], pid, pid, Casualties(s.procs, pid, reason), reason);
  }

  lemma SignalKeepsClosure(S: Table, target: Pid, sender: Sender, reason: Reason)
    requires target in S
    ensures Closure(ExitSignalled(S, target, sender, reason), target) == Closure(S, target)
  {
    var T := ExitSignalled(S, target, sender, reason);
    assert forall a, b :: Edge(T, a, b) <==> Edge(S, a, b);
    hide Edge;
    assert forall path :: IsPath(T, path) <==> IsPath(S, path);
  }

  /** `exit` answers a monitor just when its reason is not a graceful one and a notification visits the subject; then the
      watcher gets four fields. It never sends five. */
  lemma ExitShapeIff(s: Sys, target: Pid, sender: Sender, reason: Reason, t: Sys, k: DownKey)
    requires Next(s, ExitCall(target, sender, reason), t) && target in s.procs
    requires Pending(s.procs, k) == 1 && HasMailbox(s.procs, k.watcher)
    ensures k.watcher in t.procs
    ensures Pending(t.procs, k) == (if IsGraceful(reason) || k.subject !in Closure(s.procs, target) then 1 else 0)
    ensures forall r: Reason ::
              More(s, t, k.watcher, Down(FourFields, k.ref, k.subject, r)) == if r == reason then 1 - Pending(t.procs, k) else 0
    ensures forall r: Reason :: More(s, t, k.watcher, Down(FiveFields, k.ref, k.subject, r)) == 0
  {
    hide ExitSignalled, Closure, Cascaded, DownsOf;
    var S := ExitSignalled(s.procs, target, sender, reason);
    SignalKeepsClosure(s.procs, target, sender, reason);
    ExitIsNoDownHere(s.procs, target, sender, reason, k.watcher);
    if !IsGraceful(reason) {
      CascadeAnswers(S, t.procs, target, reason, k);
    } else {
      assert t.procs == S;
    }
  }

  lemma CascadeAnswers(S: Table, T: Table, target: Pid, reason: Reason, k: DownKey)
    requires target in S && Cascaded(S, T, Closure(S, target), reason)
    requires Pending(S, k) == 1 && HasMailbox(S, k.watcher)
    ensures T.Keys == S.Keys && Pending(T, k) == if k.subject in Closure(S, target) then 0 else 1
    ensures forall shape: Shape, r: Reason ::
              multiset(T[k.watcher].inbox)[Down(shape, k.ref, k.subject, r)]
              == multiset(S[k.watcher].inbox)[Down(shape, k.ref, k.subject, r)]
                 + if k.subject in Closure(S, target) && shape == FourFields && r == reason then 1 else 0
  {
    assert CascadedAt(S, T[k.subject], k.subject, Closure(S, target), reason);
    assert Pending(T, k) == if k.subject in Closure(S, target) then 0 else 1;
    forall shape: Shape, r: Reason
      ensures multiset(T[k.watcher].inbox)[Down(shape, k.ref, k.subject, r)]
              == multiset(S[k.watcher].inbox)[Down(shape, k.ref, k.subject, r)]
                 + if k.subject in Closure(S, target) && shape == FourFields && r == reason then 1 else 0
    {
      hide Closure, CascadedAt;
      OneDownPerVisitedMonitor(S, T, target, reason, k.watcher, shape, k.ref, k.subject, r);
    }
  }

  lemma ExitIsNoDownHere(S: Table, target: Pid, sender: Sender, reason: Reason, w: Pid)
    requires target in S && w in S
    ensures var T := ExitSignalled(S, target, sender, reason);
            && T.Keys == S.Keys && (forall p :: p in S ==> T[p].monitoredBy == S[p].monitoredBy)
            && T[w].hasMailbox == S[w].hasMailbox
            && forall m: Message :: m.Down? ==> multiset(T[w].inbox)[m] == multiset(S[w].inbox)[m]
  {
    assert multiset(S[w].inbox + [Exit(sender, reason)]) == multiset(S[w].inbox) + multiset{Exit(sender, reason)};
  }

  lemma TallyGrows(s: Sys, e: Event, t: Sys, k: DownKey)
    requires Next(s, e, t)
    ensures t.downs[k] >= s.downs[k]
  {
    hide Cascaded, Ended, ExitSignalled, Closure, Casualties, DownsOf;
  }

  /** A monitor that was answered, and is not set up again, is never heard of again, however its subject ends. */
  lemma {:induction false} AnsweredIsSilent(states: seq<Sys>, events: seq<Event>, k: DownKey)
    requires IsRun(states, events) && Pending(states[0].procs, k) == 0
    requires forall i :: 0 <= i < |events| ==> SetsUp(states[i], events[i], k) == 0
    ensures Pending(states[|events|].procs, k) == 0
    ensures forall i :: 0 <= i < |events| ==> Mailed(states[i], events[i], states[i + 1], k) == 0
  {
    if events != [] {
      var n := |events| - 1;
      hide Next, Mailed, SetsUp, Pending;
      AnsweredIsSilent(states[..n + 1], events[..n], k);
      assert Next(states[n], events[n], states[n + 1]);
      SilentStep(states[n], events[n], states[n + 1], k);
      forall i | 0 <= i < n ensures Mailed(states[i], events[i], states[i + 1], k) == 0 {
        assert states[..n + 1][i] == states[i] && states[..n + 1][i + 1] == states[i + 1] && events[..n][i] == events[i];
      }
    }
  }

  lemma SilentStep(s: Sys, e: Event, t: Sys, k: DownKey)
    requires Next(s, e, t) && Pending(s.procs, k) == 0 && SetsUp(s, e, k) == 0
    ensures Pending(t.procs, k) == 0 && Mailed(s, e, t, k) == 0
  {
    hide Next, Pending, Mailed;
    NextCredit(s, e, t, k);
    NextMails(s, e, t, k);
    TallyGrows(s, e, t, k);
    MailIsRead(s, e, t, k);
  }

  // ---------- `exit` on a process that traps exits ----------

  /** What `exit` does to the table and to the names. */
  ghost predicate ExitDone(S: Table, names: map<Name, Pid>, T: Table, names': map<Name, Pid>, target: Pid, sender: Sender,
                           reason: Reason)
    requires target in S
  {
    var S1 := ExitSignalled(S, target, sender, reason);
    if IsGraceful(reason) then T == S1 && names' == names
    else Cascaded(S1, T, Closure(S1, target), reason) && names' == names - NamesOf(S1, Closure(S1, target))
  }

  predicate IsRegistered(p: Proc, names: map<Name, Pid>) {
    p.name.Some? && p.name.value in names
  }

  /** The root of a cascade keeps its mail and its task, and loses its ties. */
  lemma RootIsCut(S: Table, T: Table, root: Pid, reason: Reason, m: Message)
    requires root in S && Cascaded(S, T, Closure(S, root), reason) && m in S[root].inbox
    ensures root in T && T[root].links == {} && T[root].monitoredBy == map[] && m in T[root].inbox
    ensures Shielded(S[root]) ==> T[root].cancelled == S[root].cancelled
    ensures S[root].name.Some? ==> S[root].name.value in NamesOf(S, Closure(S, root))
  {
    ClosureIsClosed(S, root);
    assert CascadedAt(S, T[root], root, Closure(S, root), reason);
    assert multiset(T[root].inbox)[m] >= multiset(S[root].inbox)[m] > 0;
    assert m in multiset(T[root].inbox);
  }

  /** A process that traps exits gets the EXIT and is not cancelled; but it keeps its links, its watchers and its name
      just when the reason is a graceful one, or there was nothing to keep. */
  lemma TrapperKeepsTiesIff(S: Table, names: map<Name, Pid>, T: Table, names': map<Name, Pid>, target: Pid, sender: Sender,
                            reason: Reason)
    requires target in S && Shielded(S[target]) && reason != Killed
    requires ExitDone(S, names, T, names', target, sender, reason)
    ensures target in T && T[target].cancelled == S[target].cancelled && Exit(sender, reason) in T[target].inbox
    ensures && T[target].links == S[target].links && T[target].monitoredBy == S[target].monitoredBy
            && IsRegistered(T[target], names') == IsRegistered(S[target], names)
            <==> IsGraceful(reason)
                 || (S[target].links == {} && S[target].monitoredBy == map[] && !IsRegistered(S[target], names))
  {
    var S1 := ExitSignalled(S, target, sender, reason);
    if !IsGraceful(reason) {
      RootIsCut(S1, T, target, reason, Exit(sender, reason));
      hide Closure, Cascaded, NamesOf;
    }
  }

  // ---------- Names over a cascade ----------

  /** A process that an exit does not visit keeps its registered name just when no visited process ever had that name. */
  lemma NameKeptIff(S: Table, names: map<Name, Pid>, T: Table, names': map<Name, Pid>, target: Pid, sender: Sender,
                    reason: Reason, p: Pid, name: Name)
    requires target in S && ExitDone(S, names, T, names', target, sender, reason)
    requires p in S && name in names && names[name] == p
    ensures name in names' && names'[name] == p
            <==> IsGraceful(reason) || forall v :: v in Closure(S, target) ==> S[v].name != Some(name)
  {
    SignalKeepsClosure(S, target, sender, reason);
    var S1, V := ExitSignalled(S, target, sender, reason), Closure(S, target);
    forall v | v in S ensures v in S1 && S1[v].name == S[v].name {
    }
    if v :| v in V && S[v].name == Some(name) {
      assert name in NamesOf(S1, V);
    }
    hide Closure, Cascaded;
  }

  /** Process 2 has taken the name over from 1. When 1 is told to exit the name goes, although 2 lives. */
  lemma NamesakeLosesItsName(T: Table, names': map<Name, Pid>, name: Name, what: string)
    requires var p := NewProcess(false, true, Some(name));
             ExitDone(map[1 := p, 2 := p], map[name := 2], T, names', 1, System, Error(what))
    ensures 2 in T && T[2] == NewProcess(false, true, Some(name)) && name !in names'
  {
    var p := NewProcess(false, true, Some(name));
    var S: Table := map[1 := p, 2 := p];
    NameKeptIff(S, map[name := 2], T, names', 1, System, Error(what), 2, name);
    SignalKeepsClosure(S, 1, System, Error(what));
    ReachesItself(S, 1);
    assert 1 in Closure(S, 1);
    var S1 := ExitSignalled(S, 1, System, Error(what));
    ClosureIsLeastHere(S1);
    assert CascadedAt(S1, T[2], 2, {1}, Error(what));
    assert MonitorsAfter(S1, 2, {1}) == map[];
  }

  lemma ClosureIsLeastHere(S: Table)
    requires 1 in S && S[1].links == {}
    ensures Closure(S, 1) == {1}
  {
    ReachesItself(S, 1);
    ClosureIsLeast(S, 1, {1});
  }

  // ---------- Runs that show what fails ----------

  const NOTHING := Sys(map[], multiset{})

  /** Processes 1 and 2, linked to each other. */
  function LinkedPair(traps: bool): Sys {
    Sys(map[1 := NewProcess(traps, true, None).(links := {2}), 2 := NewProcess(false, true, None).(links := {1})], multiset{})
  }

  lemma LinkedPairIsReached(traps: bool)
    ensures exists states, events :: IsRun(states, events) && states[0] == NOTHING && states[|events|] == LinkedPair(traps)
  {
    var p, q := NewProcess(traps, true, None), NewProcess(false, true, None);
    var s1, s2 := Sys(map[1 := p], multiset{}), Sys(map[1 := p, 2 := q], multiset{});
    var states := [NOTHING, s1, s2, LinkedPair(traps)];
    var events := [Spawn(1, traps, true, None), Spawn(2, false, true, None), Link(1, 2)];
    assert Next(NOTHING, events[0], s1) && Next(s1, events[1], s2);
    assert p.links + {2} == {2} && q.links + {1} == {1};
    assert Linked(s2.procs, 1, 2) == LinkedPair(traps).procs;
    assert Next(s2, events[2], states[3]);
    assert IsRun(states, events);
  }

  /** `exit` on a living process that traps exits takes its link away. */
  lemma TrapperLosesItsLink(t: Sys, what: string)
    requires Next(LinkedPair(true), ExitCall(1, System, Error(what)), t)
    ensures 1 in t.procs && !t.procs[1].cancelled && t.procs[1].links == {}
  {
    var S := LinkedPair(true).procs;
    var S1 := ExitSignalled(S, 1, System, Error(what));
    var names' := map[] - NamesOf(S1, Closure(S1, 1));
    assert ExitDone(S, map[], t.procs, names', 1, System, Error(what));
    TrapperKeepsTiesIff(S, map[], t.procs, names', 1, System, Error(what));
    ClosureIsClosed(S1, 1);
    assert CascadedAt(S1, t.procs[1], 1, Closure(S1, 1), Error(what));
  }

  /** Process 1 crashes, and is among those it brings down. */
  lemma CrashHitsItsOwnRoot()
    ensures var S := LinkedPair(false).procs; 1 in CrashSet(S, S[1].links)
  {
    var S := LinkedPair(false).procs;
    assert LinksOk(S);
    assert 2 in S[1].links && !S[2].traps;
    DyingRootIsHitToo(S, 1);
  }

  /** Process 1 has watched 2 and 3, and then stopped watching 2. */
  function WatchesThree(): Sys {
    var p := NewProcess(false, true, None);
    Sys(map[1 := p.(monitors := map[Ref(1, 1) := 3]), 2 := p, 3 := p.(monitoredBy := map[Ref(1, 1) := 1])], multiset{})
  }

  const PLAIN := NewProcess(false, true, None)

  function Watching(monitors: map<Ref, Pid>, of2: map<Ref, Pid>, of3: map<Ref, Pid>): Sys {
    Sys(map[1 := PLAIN.(monitors := monitors), 2 := PLAIN.(monitoredBy := of2), 3 := PLAIN.(monitoredBy := of3)], multiset{})
  }

  lemma WatchSteps()
    ensures Next(Watching(map[], map[], map[]), Monitor(1, 2), Watching(map[Ref(1, 0) := 2], map[Ref(1, 0) := 1], map[]))
    ensures Next(Watching(map[Ref(1, 0) := 2], map[Ref(1, 0) := 1], map[]), Monitor(1, 3),
                 Watching(map[Ref(1, 0) := 2, Ref(1, 1) := 3], map[Ref(1, 0) := 1], map[Ref(1, 1) := 1]))
  {
    assert map[][Ref(1, 0) := 2] == map[Ref(1, 0) := 2] && map[Ref(1, 0) := 2][Ref(1, 1) := 3] == map[Ref(1, 0) := 2, Ref(1, 1) := 3];
  }

  lemma UnwatchStep()
    ensures Next(Watching(map[Ref(1, 0) := 2, Ref(1, 1) := 3], map[Ref(1, 0) := 1], map[Ref(1, 1) := 1]),
                 Demonitor(1, Ref(1, 0)), WatchesThree())
  {
    assert map[Ref(1, 0) := 2, Ref(1, 1) := 3] - {Ref(1, 0)} == map[Ref(1, 1) := 3];
    assert map[Ref(1, 0) := 1] - {Ref(1, 0)} == map[];
    var s := Watching(map[Ref(1, 0) := 2, Ref(1, 1) := 3], map[Ref(1, 0) := 1], map[Ref(1, 1) := 1]);
    assert s.procs[1].monitors[Ref(1, 0)] == 2;
    assert Demonitored(s.procs, 1, Ref(1, 0)) == WatchesThree().procs;
  }

  lemma SpawnSteps()
    ensures var s1, s2 := Sys(map[1 := PLAIN], multiset{}), Sys(map[1 := PLAIN, 2 := PLAIN], multiset{});
            && Next(NOTHING, Spawn(1, false, true, None), s1) && Next(s1, Spawn(2, false, true, None), s2)
            && Next(s2, Spawn(3, false, true, None), Watching(map[], map[], map[]))
  {
    assert map[][1 := PLAIN] == map[1 := PLAIN];
    assert map[1 := PLAIN][2 := PLAIN] == map[1 := PLAIN, 2 := PLAIN];
    assert map[1 := PLAIN, 2 := PLAIN][3 := PLAIN] == Watching(map[], map[], map[]).procs;
  }

  lemma WatchesThreeIsReached()
    ensures exists states, events :: IsRun(states, events) && states[0] == NOTHING && states[|events|] == WatchesThree()
  {
    hide *;
    var s1, s2 := Sys(map[1 := PLAIN], multiset{}), Sys(map[1 := PLAIN, 2 := PLAIN], multiset{});
    var s3 := Watching(map[], map[], map[]);
    var s4 := Watching(map[Ref(1, 0) := 2], map[Ref(1, 0) := 1], map[]);
    var s5 := Watching(map[Ref(1, 0) := 2, Ref(1, 1) := 3], map[Ref(1, 0) := 1], map[Ref(1, 1) := 1]);
    var states := [NOTHING, s1, s2, s3, s4, s5, WatchesThree()];
    var events := [Spawn(1, false, true, None), Spawn(2, false, true, None), Spawn(3, false, true, None),
                   Monitor(1, 2), Monitor(1, 3), Demonitor(1, Ref(1, 0))];
    SpawnSteps();
    WatchSteps();
    UnwatchStep();
    SixSteps(states, events);
  }

  lemma SixSteps(states: seq<Sys>, events: seq<Event>)
    requires |states| == 7 && |events| == 6
    requires Next(states[0], events[0], states[1]) && Next(states[1], events[1], states[2])
    requires Next(states[2], events[2], states[3]) && Next(states[3], events[3], states[4])
    requires Next(states[4], events[4], states[5]) && Next(states[5], events[5], states[6])
    ensures IsRun(states, events)
  {
    hide Next;
  }

  /** Now watching 2 again and giving it up takes the monitor on 3 away too. */
  lemma DemonitorTakesAnother()
    ensures var S := WatchesThree().procs;
            NextRef(S, 1) == Ref(1, 1) && Demonitored(Monitored(S, 1, 2), 1, NextRef(S, 1)) != S
  {
    var S := WatchesThree().procs;
    assert S[1].monitors.Keys == {Ref(1, 1)};
    assert |S[1].monitors| == |S[1].monitors.Keys|;
    DemonitorUndoesMonitorIff(S, 1, 2);
  }
}
