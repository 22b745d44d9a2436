/** The SPAM scheduler as a step protocol over ready queues, slices and message queues. */
module Spam {
  import opened Wrappers

  datatype Pid = Pid(name: string)

  type Message = int

  type Core = nat

  datatype ProcessState = READY | RUNNING | WAITING | MIGRATING | SUSPENDED | TERMINATED

  datatype Process = Process(state: ProcessState, queue: seq<Message>, core: Core)

  /** `procs` holds every process object, `table` the registered ones; `active` and `ready` are per core.
      A slice is `pending` from its start until it begins, and `running` until it ends. */
  datatype Sched = Sched(
    procs: map<Pid, Process>,
    table: set<Pid>,
    active: seq<set<Pid>>,
    ready: seq<seq<Pid>>,
    pending: multiset<Pid>,
    running: multiset<Pid>)

  datatype Step =
    | Spawn(pid: Pid, queue: seq<Message>, core: Core)
    | Send(pid: Pid, message: Message)
    | Next(core: Core)
    | Begin(pid: Pid)
    | Handle(pid: Pid, stop: bool)
    | Yield(pid: Pid)
    | Preempt(pid: Pid)
    | Crash(pid: Pid)
    | Terminate(pid: Pid)

  function Queued(s: Sched, pid: Pid): Sched
    requires pid in s.procs && s.procs[pid].core < |s.ready|
  {
    var c := s.procs[pid].core;
    s.(ready := s.ready[c := s.ready[c] + [pid]])
  }

  function WithState(s: Sched, pid: Pid, state: ProcessState): Sched
    requires pid in s.procs
  {
    s.(procs := s.procs[pid := s.procs[pid].(state := state)])
  }

  /** `deque.remove`: the first occurrence goes. */
  function Removed(q: seq<Pid>, pid: Pid): seq<Pid> {
    if q == [] then [] else if q[0] == pid then q[1..] else [q[0]] + Removed(q[1..], pid)
  }

  /** Stale entries are dropped from the front until a ready process is found. */
  function PopReady(s: Sched, core: Core, q: seq<Pid>): (Option<Pid>, seq<Pid>)
    requires core < |s.active|
  {
    if q == [] then (None, [])
    else if q[0] in s.active[core] && q[0] in s.procs && s.procs[q[0]].state == READY then (Some(q[0]), q[1..])
    else PopReady(s, core, q[1..])
  }

  /** Sizes fit, and every process object has one of the cores. */
  predicate Shaped(s: Sched) {
    && |s.active| == |s.ready| && |s.ready| > 0
    && (forall p :: p in s.procs ==> s.procs[p].core < |s.ready|)
    && (forall p :: p in s.table ==> p in s.procs)
    && (forall p :: p in s.pending ==> p in s.procs)
    && (forall p :: p in s.running ==> p in s.procs)
  }

  /** A process that arrives with `queue`, on the core chosen for it. */
  function DoSpawn(s: Sched, pid: Pid, queue: seq<Message>, core: Core): Sched
    requires Shaped(s) && core < |s.ready|
  {
    Queued(s.(procs := s.procs[pid := Process(READY, queue, core)], table := s.table + {pid},
              active := s.active[core := s.active[core] + {pid}]), pid)
  }

  function DoSend(s: Sched, pid: Pid, message: Message): Sched
    requires Shaped(s) && pid in s.procs
  {
    var p := s.procs[pid];
    var s1 := s.(procs := s.procs[pid := p.(queue := p.queue + [message])]);
    if p.state != WAITING then s1
    else
      var s2 := WithState(s1, pid, READY);
      if pid in s2.ready[p.core] then s2 else Queued(s2, pid)
  }

  function DoNext(s: Sched, core: Core): Sched
    requires Shaped(s) && core < |s.ready|
  {
    var (found, rest) := PopReady(s, core, s.ready[core]);
    var s1 := s.(ready := s.ready[core := rest]);
    if found.Some? then s1.(pending := s1.pending + multiset{found.value}) else s1
  }

  function DoBegin(s: Sched, pid: Pid): Sched
    requires pid in s.procs
  {
    WithState(s, pid, RUNNING).(pending := s.pending - multiset{pid}, running := s.running + multiset{pid})
  }

  function DoHandle(s: Sched, pid: Pid, stop: bool): Sched
    requires pid in s.procs
  {
    var p := s.procs[pid];
    if p.queue == [] then s
    else s.(procs := s.procs[pid := p.(queue := p.queue[1..], state := if stop then TERMINATED else p.state)])
  }

  function DoYield(s: Sched, pid: Pid): Sched
    requires Shaped(s) && pid in s.procs
  {
    var s1 := s.(running := s.running - multiset{pid});
    if s.procs[pid].queue != [] then Queued(WithState(s1, pid, READY), pid) else WithState(s1, pid, WAITING)
  }

  function DoPreempt(s: Sched, pid: Pid): Sched
    requires Shaped(s) && pid in s.procs
  {
    var s1 := s.(running := s.running - multiset{pid});
    if s.procs[pid].state == RUNNING then Queued(WithState(s1, pid, READY), pid) else s1
  }

  function DoCrash(s: Sched, pid: Pid): Sched
    requires pid in s.procs
  {
    WithState(s, pid, TERMINATED).(running := s.running - multiset{pid})
  }

  /** `remove_process` on core `c`. */
  function DroppedFrom(s: Sched, pid: Pid, c: Core): Sched
    requires Shaped(s) && pid in s.procs && c < |s.ready|
  {
    if pid in s.active[c] then
      WithState(s, pid, TERMINATED).(active := s.active[c := s.active[c] - {pid}],
                                     ready := s.ready[c := Removed(s.ready[c], pid)])
    else s
  }

  function Dropped(s: Sched, pid: Pid): Sched
    requires Shaped(s) && pid in s.procs
  {
    DroppedFrom(s, pid, s.procs[pid].core)
  }

  function DoTerminate(s: Sched, pid: Pid): Sched
    requires Shaped(s)
  {
    if pid !in s.table then s else Dropped(s, pid).(table := s.table - {pid})
  }

  /** When a step can be taken. Pids are not reused; a slice begins after its start and ends after it began. */
  predicate Enabled(s: Sched, step: Step) {
    match step
    case Spawn(pid, _, core) => pid !in s.procs && core < |s.ready|
    case Send(pid, _) => pid in s.procs
    case Next(core) => core < |s.ready|
    case Begin(pid) => pid in s.pending
    case Handle(pid, _) => pid in s.running
    case Yield(pid) => pid in s.running
    case Preempt(pid) => pid in s.running
    case Crash(pid) => pid in s.running
    case Terminate(pid) => true
  }

  function Apply(s: Sched, step: Step): Sched
    requires Shaped(s) && Enabled(s, step)
  {
    match step
    case Spawn(pid, queue, core) => DoSpawn(s, pid, queue, core)
    case Send(pid, message) => DoSend(s, pid, message)
    case Next(core) => DoNext(s, core)
    case Begin(pid) => DoBegin(s, pid)
    case Handle(pid, stop) => DoHandle(s, pid, stop)
    case Yield(pid) => DoYield(s, pid)
    case Preempt(pid) => DoPreempt(s, pid)
    case Crash(pid) => DoCrash(s, pid)
    case Terminate(pid) => DoTerminate(s, pid)
  }

  // ---------- No lost wake-up, no double run ----------

  function Count(q: seq<Pid>, pid: Pid): nat {
    multiset(q)[pid]
  }

  /** How often `pid` waits in some ready queue, and how many of its slices are out. */
  predicate Placed(state: ProcessState, idle: bool, queued: nat, pending: nat, running: nat) {
    match state
    case READY => queued + pending == 1 && running == 0
    case RUNNING => queued == 0 && pending == 0 && running == 1
    case WAITING => queued == 0 && pending == 0 && running == 0 && idle
    case TERMINATED => queued == 0 && pending == 0 && running <= 1
    case _ => false
  }

  predicate WellPlaced(s: Sched, pid: Pid)
    requires Shaped(s) && pid in s.procs
  {
    var p := s.procs[pid];
    && pid in s.active[p.core]
    && Placed(p.state, p.queue == [], Count(s.ready[p.core], pid), s.pending[pid], s.running[pid])
    && (forall c :: 0 <= c < |s.ready| && c != p.core ==> Count(s.ready[c], pid) == 0)
  }

  ghost predicate Inv(s: Sched) {
    && Shaped(s)
    && (forall p :: p in s.table ==> WellPlaced(s, p))
    && (forall p, c :: 0 <= c < |s.ready| && p in s.ready[c] ==> p in s.procs)
  }

  predicate IsQueued(s: Sched, pid: Pid)
    requires Shaped(s) && pid in s.procs
  {
    Count(s.ready[s.procs[pid].core], pid) == 1 && s.pending[pid] + s.running[pid] == 0
  }

  predicate IsSliced(s: Sched, pid: Pid)
    requires Shaped(s) && pid in s.procs
  {
    Count(s.ready[s.procs[pid].core], pid) == 0 && s.pending[pid] + s.running[pid] == 1
  }

  predicate IsIdle(s: Sched, pid: Pid)
    requires Shaped(s) && pid in s.procs
  {
    && Count(s.ready[s.procs[pid].core], pid) == 0 && s.pending[pid] + s.running[pid] == 0
    && s.procs[pid].state == WAITING && s.procs[pid].queue == []
  }

  /** Exactly one of: in its core's ready queue once, in one outstanding slice, waiting with an empty mailbox; and in no
      other core's queue. */
  predicate InOnePlace(s: Sched, pid: Pid)
    requires Shaped(s) && pid in s.procs
  {
    && (if IsQueued(s, pid) then !IsSliced(s, pid) && !IsIdle(s, pid) else IsSliced(s, pid) != IsIdle(s, pid))
    && (forall c :: 0 <= c < |s.ready| && c != s.procs[pid].core ==> Count(s.ready[c], pid) == 0)
  }

  /** What the invariant says of a registered process that has not terminated. */
  lemma ExactlyOnePlace(s: Sched, pid: Pid)
    requires Inv(s) && pid in s.table && s.procs[pid].state != TERMINATED
    ensures InOnePlace(s, pid)
  {
    assert WellPlaced(s, pid);
  }

  lemma {:induction false} RemovedCount(q: seq<Pid>, pid: Pid, p: Pid)
    ensures Count(Removed(q, pid), p) == if p == pid && p in q then Count(q, p) - 1 else Count(q, p)
  {
    if q != [] {
      assert q == [q[0]] + q[1..];
      if q[0] != pid {
        RemovedCount(q[1..], pid, p);
        assert multiset([q[0]] + Removed(q[1..], pid)) == multiset{q[0]} + multiset(Removed(q[1..], pid));
      }
    }
  }

  /** Popping takes the found process out once, and drops only processes that are not ready here. */
  lemma {:induction false} PopCount(s: Sched, core: Core, q: seq<Pid>, p: Pid)
    requires core < |s.active|
    ensures var (found, rest) := PopReady(s, core, q);
            && (found.Some? ==> found.value in s.active[core] && found.value in s.procs && s.procs[found.value].state == READY)
            && (p in s.active[core] && p in s.procs && s.procs[p].state == READY ==>
                  Count(rest, p) == Count(q, p) - if found == Some(p) then 1 else 0)
            && Count(rest, p) <= Count(q, p)
  {
    if q != [] {
      assert q == [q[0]] + q[1..];
      PopCount(s, core, q[1..], p);
    }
  }

  /** A process that a step does not touch stays well placed. */
  lemma Untouched(s: Sched, t: Sched, p: Pid)
    requires Shaped(s) && Shaped(t) && p in s.procs && WellPlaced(s, p)
    requires p in t.procs && t.procs[p] == s.procs[p] && |t.ready| == |s.ready|
    requires forall c :: 0 <= c < |s.ready| ==>
               (p in s.active[c] ==> p in t.active[c]) && Count(t.ready[c], p) == Count(s.ready[c], p)
    requires t.pending[p] == s.pending[p] && t.running[p] == s.running[p]
    ensures WellPlaced(t, p)
  {
  }

  lemma AppendCount(q: seq<Pid>, x: Pid, p: Pid)
    ensures Count(q + [x], p) == Count(q, p) + if x == p then 1 else 0
  {
  }

  lemma QueuedCounts(s: Sched, pid: Pid, p: Pid, c: Core)
    requires pid in s.procs && s.procs[pid].core < |s.ready| && c < |s.ready|
    ensures Count(Queued(s, pid).ready[c], p)
            == Count(s.ready[c], p) + if c == s.procs[pid].core && p == pid then 1 else 0
  {
    AppendCount(s.ready[s.procs[pid].core], pid, p);
  }

  /** The new state of one process, and its place, decide whether the invariant holds again. */
  lemma InvAfter(s: Sched, t: Sched, pid: Pid)
    requires Inv(s) && Shaped(t) && |t.ready| == |s.ready| && t.table <= s.table + {pid}
    requires pid in t.table ==> WellPlaced(t, pid)
    requires forall p :: p in s.procs && p != pid ==> p in t.procs && t.procs[p] == s.procs[p]
    requires forall p, c :: p != pid && 0 <= c < |s.ready| ==>
               (p in s.active[c] ==> p in t.active[c]) && Count(t.ready[c], p) == Count(s.ready[c], p)
    requires forall p :: p != pid ==> t.pending[p] == s.pending[p] && t.running[p] == s.running[p]
    requires forall c, p :: 0 <= c < |t.ready| && p in t.ready[c] ==> p in t.procs
    ensures Inv(t)
  {
    forall p | p in t.table ensures WellPlaced(t, p) {
      if p != pid {
        Untouched(s, t, p);
      }
    }
  }

  lemma SpawnKeeps(s: Sched, pid: Pid, queue: seq<Message>, c: Core)
    requires Inv(s) && pid !in s.procs && c < |s.ready|
    ensures Inv(DoSpawn(s, pid, queue, c))
  {
    var t := DoSpawn(s, pid, queue, c);
    forall p, d | 0 <= d < |s.ready|
      ensures Count(t.ready[d], p) == Count(s.ready[d], p) + if d == c && p == pid then 1 else 0
      ensures p in s.active[d] ==> p in t.active[d]
    {
      AppendCount(s.ready[c], pid, p);
    }
    forall d | 0 <= d < |s.ready| ensures Count(s.ready[d], pid) == 0 {
      assert pid !in s.ready[d];
    }
    assert WellPlaced(t, pid);
    InvAfter(s, t, pid);
  }

  lemma NextShape(s: Sched, core: Core)
    requires Shaped(s) && core < |s.ready|
    ensures var t := DoNext(s, core);
            Shaped(t) && t.procs == s.procs && t.table == s.table && |t.ready| == |s.ready|
    ensures forall p, c :: 0 <= c < |s.ready| && p in DoNext(s, core).ready[c] ==> p in s.ready[c]
  {
    var found := PopReady(s, core, s.ready[core]).0;
    if found.Some? {
      PopCount(s, core, s.ready[core], found.value);
    }
    forall p | p in DoNext(s, core).ready[core] ensures p in s.ready[core] {
      PopCount(s, core, s.ready[core], p);
    }
  }

  lemma NextPlaces(s: Sched, core: Core, p: Pid)
    requires Shaped(s) && core < |s.ready| && p in s.procs && WellPlaced(s, p)
    ensures Shaped(DoNext(s, core)) && WellPlaced(DoNext(s, core), p)
  {
    NextShape(s, core);
    PopCount(s, core, s.ready[core], p);
    var found := PopReady(s, core, s.ready[core]).0;
    if found.Some? {
      PopCount(s, core, s.ready[core], found.value);
    }
    hide PopReady;
  }

  lemma NextKeeps(s: Sched, core: Core)
    requires Inv(s) && core < |s.ready|
    ensures Inv(DoNext(s, core))
  {
    NextShape(s, core);
    forall p | p in s.table ensures WellPlaced(DoNext(s, core), p) {
      assert WellPlaced(s, p);
      NextPlaces(s, core, p);
    }
    hide DoNext, WellPlaced, Shaped;
  }

  /** A slice changes hands or ends: only counts of `pid` and its own queue move. */
  lemma SliceKeeps(s: Sched, t: Sched, pid: Pid)
    requires Inv(s) && pid in s.procs && Shaped(t)
    requires t.table == s.table && t.active == s.active && |t.ready| == |s.ready|
    requires t.procs.Keys == s.procs.Keys && forall p :: p in s.procs && p != pid ==> t.procs[p] == s.procs[p]
    requires forall p :: p != pid ==> t.pending[p] == s.pending[p] && t.running[p] == s.running[p]
    requires t.procs[pid].core == s.procs[pid].core
    requires t.ready == s.ready || t.ready == Queued(s, pid).ready
    requires pid in s.table ==> WellPlaced(t, pid)
    ensures Inv(t)
  {
    forall p, c | 0 <= c < |s.ready| ensures p != pid ==> Count(t.ready[c], p) == Count(s.ready[c], p) {
      QueuedCounts(s, pid, p, c);
    }
    InvAfter(s, t, pid);
  }

  lemma BeginKeeps(s: Sched, pid: Pid)
    requires Inv(s) && pid in s.pending
    ensures Inv(DoBegin(s, pid))
  {
    var t := DoBegin(s, pid);
    if pid in s.table {
      assert WellPlaced(s, pid);
      assert WellPlaced(t, pid);
    }
    SliceKeeps(s, t, pid);
  }

  lemma HandleKeeps(s: Sched, pid: Pid, stop: bool)
    requires Inv(s) && pid in s.running
    ensures Inv(DoHandle(s, pid, stop))
  {
    var t := DoHandle(s, pid, stop);
    if pid in s.table {
      assert WellPlaced(s, pid);
      assert WellPlaced(t, pid);
    }
    SliceKeeps(s, t, pid);
  }

  lemma SendPlaces(s: Sched, pid: Pid, message: Message)
    requires Shaped(s) && pid in s.procs && WellPlaced(s, pid)
    ensures Shaped(DoSend(s, pid, message)) && WellPlaced(DoSend(s, pid, message), pid)
  {
    var c := s.procs[pid].core;
    var t := DoSend(s, pid, message);
    if s.procs[pid].state == WAITING {
      AppendCount(s.ready[c], pid, pid);
      assert t.ready == s.ready[c := s.ready[c] + [pid]];
    } else {
      assert t.ready == s.ready;
    }
  }

  lemma SendFrame(s: Sched, pid: Pid, message: Message)
    requires Shaped(s) && pid in s.procs
    ensures var t := DoSend(s, pid, message);
            && Shaped(t) && t.table == s.table && t.active == s.active && t.pending == s.pending && t.running == s.running
            && t.procs.Keys == s.procs.Keys && (forall p :: p in s.procs && p != pid ==> t.procs[p] == s.procs[p])
            && t.procs[pid].core == s.procs[pid].core
            && (t.ready == s.ready || t.ready == Queued(s, pid).ready)
  {
  }

  lemma SendKeeps(s: Sched, pid: Pid, message: Message)
    requires Inv(s) && pid in s.procs
    ensures Inv(DoSend(s, pid, message))
  {
    if pid in s.table {
      assert WellPlaced(s, pid);
      SendPlaces(s, pid, message);
    }
    SendFrame(s, pid, message);
    hide WellPlaced, DoSend;
    SliceKeeps(s, DoSend(s, pid, message), pid);
  }

  lemma YieldKeeps(s: Sched, pid: Pid)
    requires Inv(s) && pid in s.running
    ensures Inv(DoYield(s, pid))
  {
    var t := DoYield(s, pid);
    if pid in s.table {
      assert WellPlaced(s, pid);
      QueuedCounts(s, pid, pid, s.procs[pid].core);
      assert WellPlaced(t, pid);
    }
    SliceKeeps(s, t, pid);
  }

  lemma PreemptKeeps(s: Sched, pid: Pid)
    requires Inv(s) && pid in s.running
    ensures Inv(DoPreempt(s, pid))
  {
    var t := DoPreempt(s, pid);
    if pid in s.table {
      assert WellPlaced(s, pid);
      QueuedCounts(s, pid, pid, s.procs[pid].core);
      assert WellPlaced(t, pid);
    }
    SliceKeeps(s, t, pid);
  }

  lemma CrashKeeps(s: Sched, pid: Pid)
    requires Inv(s) && pid in s.running
    ensures Inv(DoCrash(s, pid))
  {
    var t := DoCrash(s, pid);
    if pid in s.table {
      assert WellPlaced(s, pid);
      assert WellPlaced(t, pid);
    }
    SliceKeeps(s, t, pid);
  }

  lemma TerminateKeeps(s: Sched, pid: Pid)
    requires Inv(s)
    ensures Inv(DoTerminate(s, pid))
  {
    if pid in s.table {
      var t := DoTerminate(s, pid);
      var c := s.procs[pid].core;
      forall p, d | 0 <= d < |s.ready|
        ensures p != pid ==> Count(t.ready[d], p) == Count(s.ready[d], p)
        ensures p != pid && p in s.active[d] ==> p in t.active[d]
        ensures p in t.ready[d] ==> p in s.ready[d]
      {
        RemovedCount(s.ready[c], pid, p);
      }
      InvAfter(s, t, pid);
    }
  }

  lemma StepKeeps(s: Sched, step: Step)
    requires Inv(s) && Enabled(s, step)
    ensures Inv(Apply(s, step))
  {
    match step
    case Spawn(pid, queue, core) => SpawnKeeps(s, pid, queue, core);
    case Send(pid, message) => SendKeeps(s, pid, message);
    case Next(core) => NextKeeps(s, core);
    case Begin(pid) => BeginKeeps(s, pid);
    case Handle(pid, stop) => HandleKeeps(s, pid, stop);
    case Yield(pid) => YieldKeeps(s, pid);
    case Preempt(pid) => PreemptKeeps(s, pid);
    case Crash(pid) => CrashKeeps(s, pid);
    case Terminate(pid) => TerminateKeeps(s, pid);
  }

  /** A state of some run: the steps taken, in any interleaving, were enabled one after the other. */
  ghost predicate Follows(s: Sched, steps: seq<Step>, t: Sched)
    requires Inv(s)
    decreases |steps|
  {
    if steps == [] then t == s
    else
      Enabled(s, steps[0]) && (StepKeeps(s, steps[0]); Follows(Apply(s, steps[0]), steps[1..], t))
  }

  /** With stealing and migration off, the invariant holds in every reachable state. */
  lemma {:induction false} RunKeeps(s: Sched, steps: seq<Step>, t: Sched)
    requires Inv(s) && Follows(s, steps, t)
    ensures Inv(t)
    ensures forall p :: p in t.table && t.procs[p].state != TERMINATED ==> InOnePlace(t, p)
    decreases |steps|
  {
    if steps == [] {
      forall p | p in t.table && t.procs[p].state != TERMINATED ensures InOnePlace(t, p) {
        ExactlyOnePlace(t, p);
      }
    } else {
      StepKeeps(s, steps[0]);
      hide Inv, Apply, InOnePlace;
      RunKeeps(Apply(s, steps[0]), steps[1..], t);
    }
  }

  // ---------- Order of messages and of turns ----------

  /** The messages that a step puts into the mailbox of `pid`: a spawn's first ones, or one that is sent. */
  function Arriving(step: Step, pid: Pid): seq<Message> {
    match step
    case Spawn(p, queue, _) => if p == pid then queue else []
    case Send(p, message) => if p == pid then [message] else []
    case _ => []
  }

  /** The message of `pid` that a step handles. */
  function Handled(s: Sched, step: Step, pid: Pid): seq<Message> {
    if step.Handle? && step.pid == pid && pid in s.procs && s.procs[pid].queue != [] then [s.procs[pid].queue[0]] else []
  }

  function MailOf(s: Sched, pid: Pid): seq<Message> {
    if pid in s.procs then s.procs[pid].queue else []
  }

  function SentTo(steps: seq<Step>, pid: Pid): seq<Message> {
    if steps == [] then [] else Arriving(steps[0], pid) + SentTo(steps[1..], pid)
  }

  ghost function HandledBy(s: Sched, steps: seq<Step>, t: Sched, pid: Pid): seq<Message>
    requires Inv(s) && Follows(s, steps, t)
    decreases |steps|
  {
    if steps == [] then []
    else
      StepKeeps(s, steps[0]);
      Handled(s, steps[0], pid) + HandledBy(Apply(s, steps[0]), steps[1..], t, pid)
  }

  lemma SendMail(s: Sched, p: Pid, message: Message, pid: Pid)
    requires Shaped(s) && p in s.procs
    ensures MailOf(DoSend(s, p, message), pid) == MailOf(s, pid) + if p == pid then [message] else []
  {
  }

  lemma StepMail(s: Sched, step: Step, pid: Pid)
    requires Shaped(s) && Enabled(s, step)
    ensures MailOf(s, pid) + Arriving(step, pid) == Handled(s, step, pid) + MailOf(Apply(s, step), pid)
  {
    hide Apply, MailOf, Shaped, Enabled;
    if step.Spawn? || step.Send? {
      ArrivalMail(s, step, pid);
    } else if step.Handle? {
      HandleMail(s, step, pid);
    } else if step.Next? || step.Terminate? {
      TableMail(s, step, pid);
    } else {
      SliceMail(s, step, pid);
    }
  }

  lemma TableMail(s: Sched, step: Step, pid: Pid)
    requires Shaped(s) && Enabled(s, step) && (step.Next? || step.Terminate?)
    ensures MailOf(Apply(s, step), pid) == MailOf(s, pid)
  {
  }

  lemma ArrivalMail(s: Sched, step: Step, pid: Pid)
    requires Shaped(s) && Enabled(s, step) && (step.Spawn? || step.Send?)
    ensures MailOf(Apply(s, step), pid) == MailOf(s, pid) + Arriving(step, pid)
  {
    if step.Send? {
      SendMail(s, step.pid, step.message, pid);
    }
  }

  lemma HandleMail(s: Sched, step: Step, pid: Pid)
    requires Shaped(s) && Enabled(s, step) && step.Handle?
    ensures MailOf(s, pid) == Handled(s, step, pid) + MailOf(Apply(s, step), pid)
  {
    var q := s.procs[step.pid].queue;
    assert q != [] ==> q == [q[0]] + q[1..];
  }

  lemma SliceMail(s: Sched, step: Step, pid: Pid)
    requires Shaped(s) && Enabled(s, step) && (step.Begin? || step.Yield? || step.Preempt? || step.Crash?)
    ensures MailOf(Apply(s, step), pid) == MailOf(s, pid)
  {
    match step
    case Begin(p) =>
    case Yield(p) =>
    case Preempt(p) =>
    case _ =>
  }

  lemma Chained<T>(a: seq<T>, b: seq<T>, c: seq<T>, h: seq<T>, m: seq<T>, g: seq<T>, n: seq<T>)
    requires a + b == h + m && m + c == g + n
    ensures a + (b + c) == (h + g) + n
  {
    assert a + (b + c) == (a + b) + c;
    assert (h + m) + c == h + (m + c);
    assert h + (g + n) == (h + g) + n;
  }

  /** No message is lost, doubled or overtaken: what was there and what came is what was handled and what is left. */
  lemma {:induction false} RunKeepsMailInOrder(s: Sched, steps: seq<Step>, t: Sched, pid: Pid)
    requires Inv(s) && Follows(s, steps, t)
    ensures MailOf(s, pid) + SentTo(steps, pid) == HandledBy(s, steps, t, pid) + MailOf(t, pid)
    decreases |steps|
  {
    if steps == [] {
      assert MailOf(s, pid) + [] == [] + MailOf(s, pid);
    } else {
      StepKeeps(s, steps[0]);
      var s1 := Apply(s, steps[0]);
      StepMail(s, steps[0], pid);
      RunKeepsMailInOrder(s1, steps[1..], t, pid);
      Chained(MailOf(s, pid), Arriving(steps[0], pid), SentTo(steps[1..], pid), Handled(s, steps[0], pid), MailOf(s1, pid),
              HandledBy(s1, steps[1..], t, pid), MailOf(t, pid));
      hide Apply, Inv, Enabled, MailOf, Arriving, Handled;
    }
  }

  /** Turns are taken in order: the process found is the first in the queue that is ready, and all before it were stale. */
  lemma {:induction false} PopTakesFirst(s: Sched, core: Core, q: seq<Pid>) returns (i: nat)
    requires core < |s.active|
    ensures var (found, rest) := PopReady(s, core, q);
            && i <= |q|
            && (forall j :: 0 <= j < i ==> !(q[j] in s.active[core] && q[j] in s.procs && s.procs[q[j]].state == READY))
            && (if i == |q| then found == None && rest == [] else found == Some(q[i]) && rest == q[i + 1..])
  {
    if q == [] || (q[0] in s.active[core] && q[0] in s.procs && s.procs[q[0]].state == READY) {
      i := 0;
    } else {
      var k := PopTakesFirst(s, core, q[1..]);
      i := k + 1;
      assert forall j :: 0 < j < |q| ==> q[j] == q[1..][j - 1];
    }
  }

  // ---------- First in, first out ----------

  /** What a step puts into the ready queue of core `c`: a new process, one that a message wakes up, one that yields with
      messages left, or one that is preempted while it runs. */
  function QueuedIn(s: Sched, step: Step, c: Core): seq<Pid>
    requires Shaped(s) && Enabled(s, step) && c < |s.ready|
  {
    match step
    case Spawn(pid, _, core) => if core == c then [pid] else []
    case Send(pid, _) =>
      if s.procs[pid].core == c && s.procs[pid].state == WAITING && pid !in s.ready[c] then [pid] else []
    case Yield(pid) => if s.procs[pid].core == c && s.procs[pid].queue != [] then [pid] else []
    case Preempt(pid) => if s.procs[pid].core == c && s.procs[pid].state == RUNNING then [pid] else []
    case _ => []
  }

  /** What is taken off the front of `q` until a process is found that is ready on core `c`, that one included. */
  function UpToReady(s: Sched, c: Core, q: seq<Pid>): seq<Pid>
    requires c < |s.active|
  {
    if q == [] then []
    else if q[0] in s.active[c] && q[0] in s.procs && s.procs[q[0]].state == READY then [q[0]]
    else [q[0]] + UpToReady(s, c, q[1..])
  }

  /** What a step takes off the front of that queue. */
  function TakenOff(s: Sched, step: Step, c: Core): seq<Pid>
    requires Shaped(s) && c < |s.ready|
  {
    if step == Next(c) then UpToReady(s, c, s.ready[c]) else []
  }

  function Without(q: seq<Pid>, gone: set<Pid>): seq<Pid> {
    if q == [] then [] else (if q[0] in gone then [] else [q[0]]) + Without(q[1..], gone)
  }

  lemma {:induction false} WithoutBoth(a: seq<Pid>, b: seq<Pid>, gone: set<Pid>)
    ensures Without(a + b, gone) == Without(a, gone) + Without(b, gone)
  {
    if a == [] {
      assert a + b == b;
    } else {
      assert (a + b)[1..] == a[1..] + b;
      WithoutBoth(a[1..], b, gone);
    }
  }

  lemma {:induction false} WithoutRemoved(q: seq<Pid>, pid: Pid, gone: set<Pid>)
    requires pid in gone
    ensures Without(Removed(q, pid), gone) == Without(q, gone)
  {
    if q != [] && q[0] != pid {
      WithoutRemoved(q[1..], pid, gone);
      assert ([q[0]] + Removed(q[1..], pid))[1..] == Removed(q[1..], pid);
    }
  }

  lemma {:induction false} WithoutNobody(q: seq<Pid>)
    ensures Without(q, {}) == q
  {
    if q != [] {
      WithoutNobody(q[1..]);
      assert [q[0]] + q[1..] == q;
    }
  }

  lemma {:induction false} PopSplits(s: Sched, c: Core, q: seq<Pid>)
    requires c < |s.active|
    ensures q == UpToReady(s, c, q) + PopReady(s, c, q).1
  {
    if q != [] {
      PopSplits(s, c, q[1..]);
      assert q == [q[0]] + q[1..];
    }
  }

  /** A step adds to a queue at its end only, and takes from it at its front only, unless it terminates somebody. */
  lemma StepKeepsTurns(s: Sched, step: Step, c: Core, gone: set<Pid>)
    requires Shaped(s) && Enabled(s, step) && c < |s.ready|
    requires step.Terminate? && step.pid in s.table && s.procs[step.pid].core == c ==> step.pid in gone
    ensures |Apply(s, step).ready| == |s.ready|
    ensures Without(s.ready[c] + QueuedIn(s, step, c), gone)
            == Without(TakenOff(s, step, c) + Apply(s, step).ready[c], gone)
  {
    if step.Next? {
      PopSplits(s, step.core, s.ready[step.core]);
      assert s.ready[c] + [] == s.ready[c] == [] + s.ready[c];
    } else if step.Terminate? {
      TerminateKeepsTurns(s, step.pid, c, gone);
      assert s.ready[c] + [] == s.ready[c];
      assert [] + Apply(s, step).ready[c] == Apply(s, step).ready[c];
    } else {
      StepAppends(s, step, c);
      hide Apply, QueuedIn, Without;
      assert [] + Apply(s, step).ready[c] == Apply(s, step).ready[c];
    }
  }

  lemma TerminateKeepsTurns(s: Sched, pid: Pid, c: Core, gone: set<Pid>)
    requires Shaped(s) && c < |s.ready| && (pid in s.table && s.procs[pid].core == c ==> pid in gone)
    ensures var t := DoTerminate(s, pid); |t.ready| == |s.ready| && Without(t.ready[c], gone) == Without(s.ready[c], gone)
  {
    if pid in s.table && s.procs[pid].core == c {
      WithoutRemoved(s.ready[c], pid, gone);
    }
  }

  lemma StepAppends(s: Sched, step: Step, c: Core)
    requires Shaped(s) && Enabled(s, step) && c < |s.ready| && !step.Next? && !step.Terminate?
    ensures |Apply(s, step).ready| == |s.ready| && Apply(s, step).ready[c] == s.ready[c] + QueuedIn(s, step, c)
  {
    assert s.ready[c] + [] == s.ready[c];
    match step
    case Spawn(_, _, _) =>
    case Send(pid, message) => SendAppends(s, pid, message, c);
    case Yield(_) =>
    case Preempt(_) =>
    case _ => SameQueues(s, step);
  }

  lemma SendAppends(s: Sched, pid: Pid, message: Message, c: Core)
    requires Shaped(s) && pid in s.procs && c < |s.ready|
    ensures var t := DoSend(s, pid, message);
            && |t.ready| == |s.ready|
            && t.ready[c] == s.ready[c] + if s.procs[pid].core == c && s.procs[pid].state == WAITING && pid !in s.ready[c]
                                          then [pid] else []
  {
    assert s.ready[c] + [] == s.ready[c];
  }

  lemma SameQueues(s: Sched, step: Step)
    requires Shaped(s) && Enabled(s, step) && (step.Begin? || step.Handle? || step.Crash?)
    ensures Apply(s, step).ready == s.ready
  {
  }

  lemma StepKeepsCores(s: Sched, step: Step)
    requires Shaped(s) && Enabled(s, step)
    ensures |Apply(s, step).ready| == |s.ready|
  {
    hide Apply;
    StepKeepsTurns(s, step, 0, if step.Terminate? then {step.pid} else {});
  }

  /** Everything that a run puts into the ready queue of core `c`, in order. */
  ghost function QueuedBy(s: Sched, steps: seq<Step>, t: Sched, c: Core): seq<Pid>
    requires Inv(s) && Follows(s, steps, t) && c < |s.ready|
    decreases |steps|
  {
    if steps == [] then []
    else
      StepKeeps(s, steps[0]);
      StepKeepsCores(s, steps[0]);
      QueuedIn(s, steps[0], c) + QueuedBy(Apply(s, steps[0]), steps[1..], t, c)
  }

  /** Everything that it takes off the front. */
  ghost function TakenBy(s: Sched, steps: seq<Step>, t: Sched, c: Core): seq<Pid>
    requires Inv(s) && Follows(s, steps, t) && c < |s.ready|
    decreases |steps|
  {
    if steps == [] then []
    else
      StepKeeps(s, steps[0]);
      StepKeepsCores(s, steps[0]);
      TakenOff(s, steps[0], c) + TakenBy(Apply(s, steps[0]), steps[1..], t, c)
  }

  predicate Terminates(steps: seq<Step>, gone: set<Pid>) {
    forall step :: step in steps && step.Terminate? ==> step.pid in gone
  }

  lemma ChainedTurns(a: seq<Pid>, b: seq<Pid>, c: seq<Pid>, h: seq<Pid>, m: seq<Pid>, g: seq<Pid>, n: seq<Pid>, gone: set<Pid>)
    requires Without(a + b, gone) == Without(h + m, gone) && Without(m + c, gone) == Without(g + n, gone)
    ensures Without(a + (b + c), gone) == Without((h + g) + n, gone)
  {
    WithoutBoth(a, b, gone);
    WithoutBoth(b, c, gone);
    WithoutBoth(a, b + c, gone);
    WithoutBoth(h, m, gone);
    WithoutBoth(m, c, gone);
    WithoutBoth(g, n, gone);
    WithoutBoth(h, g, gone);
    WithoutBoth(h + g, n, gone);
    hide *;
    Chained(Without(a, gone), Without(b, gone), Without(c, gone), Without(h, gone), Without(m, gone), Without(g, gone),
            Without(n, gone));
  }

  /** First in, first out, on every core: what was in the ready queue and what was put in since, in that order, is what was
      taken off and what is left; but for the processes that were terminated, which are taken out from the middle. */
  lemma {:induction false} RunKeepsTurns(s: Sched, steps: seq<Step>, t: Sched, c: Core, gone: set<Pid>)
    requires Inv(s) && Follows(s, steps, t) && c < |s.ready| && Terminates(steps, gone)
    ensures |t.ready| == |s.ready|
    ensures Without(s.ready[c] + QueuedBy(s, steps, t, c), gone) == Without(TakenBy(s, steps, t, c) + t.ready[c], gone)
    decreases |steps|
  {
    if steps == [] {
      assert s.ready[c] + [] == s.ready[c] == [] + s.ready[c];
    } else {
      StepKeeps(s, steps[0]);
      var s1 := Apply(s, steps[0]);
      StepKeepsTurns(s, steps[0], c, gone);
      RunKeepsTurns(s1, steps[1..], t, c, gone);
      ChainedTurns(s.ready[c], QueuedIn(s, steps[0], c), QueuedBy(s1, steps[1..], t, c),
                   TakenOff(s, steps[0], c), s1.ready[c], TakenBy(s1, steps[1..], t, c), t.ready[c], gone);
      hide Apply, Inv, Enabled, Without, QueuedIn, TakenOff, Shaped;
    }
  }

  /** If nobody was terminated, nothing is left out. */
  lemma RunKeepsAllTurns(s: Sched, steps: seq<Step>, t: Sched, c: Core)
    requires Inv(s) && Follows(s, steps, t) && c < |s.ready| && forall step :: step in steps ==> !step.Terminate?
    ensures |t.ready| == |s.ready|
    ensures s.ready[c] + QueuedBy(s, steps, t, c) == TakenBy(s, steps, t, c) + t.ready[c]
  {
    RunKeepsTurns(s, steps, t, c, {});
    WithoutNobody(s.ready[c] + QueuedBy(s, steps, t, c));
    WithoutNobody(TakenBy(s, steps, t, c) + t.ready[c]);
    hide *;
  }

  /** Wherever `x` stands in `q`, `p` stands before it. */
  predicate Precedes(p: Pid, x: Pid, q: seq<Pid>) {
    forall j :: 0 <= j < |q| && q[j] == x ==> p in q[..j]
  }

  lemma {:induction false} PrecedesWithout(p: Pid, x: Pid, q: seq<Pid>, gone: set<Pid>)
    requires p != x && p !in gone && x !in gone
    ensures Precedes(p, x, Without(q, gone)) <==> Precedes(p, x, q)
  {
    if q != [] {
      PrecedesWithout(p, x, q[1..], gone);
      PrecedesUnfolds(p, x, q);
      var rest := Without(q[1..], gone);
      if q[0] !in gone {
        PrecedesUnfolds(p, x, [q[0]] + rest);
        assert ([q[0]] + rest)[1..] == rest;
      } else {
        assert [] + rest == rest;
      }
      hide Precedes;
    }
  }

  lemma PrecedesUnfolds(p: Pid, x: Pid, q: seq<Pid>)
    requires q != [] && p != x
    ensures Precedes(p, x, q) <==> q[0] == p || (q[0] != x && Precedes(p, x, q[1..]))
  {
    if q[0] == p {
      forall j | 0 <= j < |q| && q[j] == x ensures p in q[..j] {
        assert q[..j][0] == p;
      }
    } else if q[0] != x {
      forall j | 0 < j < |q| ensures p in q[..j] <==> p in q[1..][..j - 1] {
        assert q[..j] == [q[0]] + q[1..][..j - 1];
      }
      if Precedes(p, x, q) {
        forall j | 0 <= j < |q[1..]| && q[1..][j] == x ensures p in q[1..][..j] {
          assert q[j + 1] == x;
        }
      }
    } else {
      assert q[..0] == [];
    }
  }

  lemma PrecedesInFront(p: Pid, x: Pid, a: seq<Pid>, b: seq<Pid>)
    ensures p in a && x !in a ==> Precedes(p, x, a + b)
    ensures Precedes(p, x, a + b) ==> Precedes(p, x, a)
  {
    if p in a && x !in a {
      forall j | 0 <= j < |a + b| && (a + b)[j] == x ensures p in (a + b)[..j] {
        assert j >= |a|;
        assert (a + b)[..j] == a + b[..j - |a|];
      }
    }
    if Precedes(p, x, a + b) {
      forall j | 0 <= j < |a| && a[j] == x ensures p in a[..j] {
        assert (a + b)[j] == x && (a + b)[..j] == a[..j];
      }
    }
  }

  /** Nobody is overtaken: a process that was waiting before another was put into the queue, by a yield, a preemption, a
      message or a spawn, is taken off before it, unless one of the two is terminated. */
  lemma NobodyIsOvertaken(s: Sched, steps: seq<Step>, t: Sched, c: Core, p: Pid, x: Pid)
    requires Inv(s) && Follows(s, steps, t) && c < |s.ready| && p in s.ready[c] && x !in s.ready[c]
    requires forall step :: step in steps && step.Terminate? ==> step.pid != p && step.pid != x
    ensures forall j :: 0 <= j < |TakenBy(s, steps, t, c)| && TakenBy(s, steps, t, c)[j] == x ==> p in TakenBy(s, steps, t, c)[..j]
  {
    var gone := set step | step in steps && step.Terminate? :: step.pid;
    var before, queued := s.ready[c], QueuedBy(s, steps, t, c);
    RunKeepsTurns(s, steps, t, c, gone);
    var taken, left := TakenBy(s, steps, t, c), t.ready[c];
    assert p !in gone && x !in gone;
    assert Precedes(p, x, taken) by {
      hide *;
      PrecedesInFront(p, x, before, queued);
      PrecedesWithout(p, x, before + queued, gone);
      PrecedesWithout(p, x, taken + left, gone);
      PrecedesInFront(p, x, taken, left);
    }
  }

  // ---------- A process that stops ----------

  /** A handler that stops takes its message and marks the process; the slice goes on. */
  lemma StopMarks(s: Sched, pid: Pid, stop: bool)
    requires pid in s.procs && s.procs[pid].queue != []
    ensures var p, q := s.procs[pid], DoHandle(s, pid, stop).procs[pid];
            && q.queue == p.queue[1..] && q.core == p.core
            && q.state == if stop then TERMINATED else p.state
  {
  }

  /** One that has stopped stays so over every step but the yield at the end of its slice. */
  lemma StoppedStepIff(s: Sched, step: Step, pid: Pid)
    requires Inv(s) && Enabled(s, step) && pid in s.table && s.procs[pid].state == TERMINATED
    ensures pid in Apply(s, step).procs
    ensures Apply(s, step).procs[pid].state == TERMINATED <==> step != Yield(pid)
  {
    if step.Next? || step.pid != pid {
      OthersKeepState(s, step, pid);
    } else {
      assert WellPlaced(s, pid);
      StoppedHere(s, step, pid);
    }
    hide Apply;
  }

  lemma OthersKeepState(s: Sched, step: Step, pid: Pid)
    requires Shaped(s) && Enabled(s, step) && pid in s.procs && (step.Next? || step.pid != pid)
    ensures pid in Apply(s, step).procs && Apply(s, step).procs[pid].state == s.procs[pid].state
  {
    match step
    case Send(p, message) => SendFrame(s, p, message);
    case Next(_) =>
    case Terminate(_) =>
    case Spawn(_, _, _) =>
    case _ => SliceSteps(s, step, pid);
  }

  lemma SliceSteps(s: Sched, step: Step, pid: Pid)
    requires Shaped(s) && Enabled(s, step) && pid in s.procs
    requires step.Begin? || step.Handle? || step.Yield? || step.Preempt? || step.Crash?
    ensures pid in Apply(s, step).procs && (step.pid != pid ==> Apply(s, step).procs[pid].state == s.procs[pid].state)
    ensures step.pid == pid && s.procs[pid].state == TERMINATED && !step.Begin? ==>
              (Apply(s, step).procs[pid].state == TERMINATED <==> !step.Yield?)
  {
  }

  lemma StoppedHere(s: Sched, step: Step, pid: Pid)
    requires Shaped(s) && Enabled(s, step) && !step.Next? && step.pid == pid && pid in s.procs
    requires s.procs[pid].state == TERMINATED && s.pending[pid] == 0
    ensures pid in Apply(s, step).procs && (Apply(s, step).procs[pid].state == TERMINATED <==> !step.Yield?)
  {
    match step
    case Send(_, _) =>
    case Terminate(_) =>
    case _ => SliceSteps(s, step, pid);
  }

  /** So it stays terminated over a run in which no slice of it ends with a yield. */
  lemma {:induction false} RunStaysStopped(s: Sched, steps: seq<Step>, t: Sched, pid: Pid)
    requires Inv(s) && Follows(s, steps, t) && pid in s.table && s.procs[pid].state == TERMINATED
    requires Yield(pid) !in steps && Terminate(pid) !in steps
    ensures pid in t.procs && t.procs[pid].state == TERMINATED
    decreases |steps|
  {
    if steps != [] {
      StepKeeps(s, steps[0]);
      StoppedStepIff(s, steps[0], pid);
      StaysRegistered(s, steps[0], pid);
      hide Inv, Apply, Enabled;
      RunStaysStopped(Apply(s, steps[0]), steps[1..], t, pid);
    }
  }

  lemma StaysRegistered(s: Sched, step: Step, pid: Pid)
    requires Shaped(s) && Enabled(s, step) && pid in s.table && step != Terminate(pid)
    ensures pid in Apply(s, step).table
  {
    if step.Send? {
      SendFrame(s, step.pid, step.message);
    }
  }

  /** One core with one process on it. */
  function Alone(pid: Pid, p: Process, waiting: seq<Pid>, pending: multiset<Pid>, running: multiset<Pid>): Sched {
    Sched(map[pid := p], {pid}, [{pid}], [waiting], pending, running)
  }

  lemma FollowsOn(s: Sched, step: Step, s1: Sched, steps: seq<Step>, t: Sched)
    requires Inv(s) && Enabled(s, step) && Apply(s, step) == s1
    ensures Inv(s1)
    ensures Follows(s1, steps, t) ==> Follows(s, [step] + steps, t)
  {
    StepKeeps(s, step);
    assert ([step] + steps)[1..] == steps;
    hide Inv, Apply, Enabled;
  }

  lemma SpawnAlone(pid: Pid, queue: seq<Message>)
    ensures Enabled(Fresh(1), Spawn(pid, queue, 0))
    ensures Apply(Fresh(1), Spawn(pid, queue, 0)) == Alone(pid, Process(READY, queue, 0), [pid], multiset{}, multiset{})
  {
    assert {} + {pid} == {pid} && [] + [pid] == [pid];
    assert [{}][0 := {pid}] == [{pid}] && [[]][0 := [pid]] == [[pid]];
  }

  lemma NextAlone(pid: Pid, queue: seq<Message>)
    ensures var p := Process(READY, queue, 0);
            Enabled(Alone(pid, p, [pid], multiset{}, multiset{}), Next(0))
            && Apply(Alone(pid, p, [pid], multiset{}, multiset{}), Next(0)) == Alone(pid, p, [], multiset{pid}, multiset{})
  {
    assert [pid][1..] == [] && [[pid]][0 := []] == [[]];
  }

  lemma SliceAlone(pid: Pid, queue: seq<Message>, m: Message)
    ensures Enabled(Alone(pid, Process(READY, queue, 0), [], multiset{pid}, multiset{}), Begin(pid))
    ensures Enabled(Alone(pid, Process(RUNNING, [m] + queue, 0), [], multiset{}, multiset{pid}), Handle(pid, true))
    ensures Apply(Alone(pid, Process(READY, queue, 0), [], multiset{pid}, multiset{}), Begin(pid))
            == Alone(pid, Process(RUNNING, queue, 0), [], multiset{}, multiset{pid})
    ensures Apply(Alone(pid, Process(RUNNING, [m] + queue, 0), [], multiset{}, multiset{pid}), Handle(pid, true))
            == Alone(pid, Process(TERMINATED, queue, 0), [], multiset{}, multiset{pid})
  {
    assert ([m] + queue)[1..] == queue;
    assert multiset{pid} - multiset{pid} == multiset{};
  }

  lemma YieldAlone(pid: Pid, queue: seq<Message>)
    requires queue != []
    ensures Enabled(Alone(pid, Process(TERMINATED, queue, 0), [], multiset{}, multiset{pid}), Yield(pid))
    ensures Apply(Alone(pid, Process(TERMINATED, queue, 0), [], multiset{}, multiset{pid}), Yield(pid))
            == Alone(pid, Process(READY, queue, 0), [pid], multiset{}, multiset{})
  {
    assert [] + [pid] == [pid] && [[]][0 := [pid]] == [[pid]];
    assert multiset{pid} - multiset{pid} == multiset{};
  }

  /** With one message more in its mailbox, a process that has stopped yields, is queued, and runs again. */
  lemma StoppedRunsAgain(pid: Pid, m: Message, n: Message)
    ensures Inv(Fresh(1))
    ensures Follows(Fresh(1), [Spawn(pid, [m, n], 0), Next(0), Begin(pid), Handle(pid, true), Yield(pid), Next(0), Begin(pid)],
                    Alone(pid, Process(RUNNING, [n], 0), [], multiset{}, multiset{pid}))
  {
    hide *;
    FreshIsSound(1);
    SpawnAlone(pid, [m, n]);
    var s1 := Alone(pid, Process(READY, [m, n], 0), [pid], multiset{}, multiset{});
    var s4 := Alone(pid, Process(TERMINATED, [n], 0), [], multiset{}, multiset{pid});
    var s7 := Alone(pid, Process(RUNNING, [n], 0), [], multiset{}, multiset{pid});
    var again := [Yield(pid), Next(0), Begin(pid)];
    FollowsOn(Fresh(1), Spawn(pid, [m, n], 0), s1, [Next(0)] + ([Begin(pid)] + ([Handle(pid, true)] + again)), s7);
    StopsAlone(pid, m, n, again, s7);
    YieldsAlone(pid, n);
    Spelled(Spawn(pid, [m, n], 0), Next(0), Begin(pid), Handle(pid, true), Yield(pid), Next(0), Begin(pid));
  }

  lemma StopsAlone(pid: Pid, m: Message, n: Message, steps: seq<Step>, t: Sched)
    requires Inv(Alone(pid, Process(READY, [m, n], 0), [pid], multiset{}, multiset{}))
    ensures Inv(Alone(pid, Process(TERMINATED, [n], 0), [], multiset{}, multiset{pid}))
    ensures Follows(Alone(pid, Process(TERMINATED, [n], 0), [], multiset{}, multiset{pid}), steps, t) ==>
              Follows(Alone(pid, Process(READY, [m, n], 0), [pid], multiset{}, multiset{}),
                      [Next(0)] + ([Begin(pid)] + ([Handle(pid, true)] + steps)), t)
  {
    hide *;
    var s1 := Alone(pid, Process(READY, [m, n], 0), [pid], multiset{}, multiset{});
    var s2 := Alone(pid, Process(READY, [m, n], 0), [], multiset{pid}, multiset{});
    var s3 := Alone(pid, Process(RUNNING, [m, n], 0), [], multiset{}, multiset{pid});
    var s4 := Alone(pid, Process(TERMINATED, [n], 0), [], multiset{}, multiset{pid});
    NextAlone(pid, [m, n]);
    SliceAlone(pid, [m, n], m);
    assert [m] + [n] == [m, n];
    SliceAlone(pid, [n], m);
    var e3 := [Handle(pid, true)] + steps;
    var e2 := [Begin(pid)] + e3;
    FollowsOn(s1, Next(0), s2, e2, t);
    FollowsOn(s2, Begin(pid), s3, e3, t);
    FollowsOn(s3, Handle(pid, true), s4, steps, t);
  }

  lemma YieldsAlone(pid: Pid, n: Message)
    requires Inv(Alone(pid, Process(TERMINATED, [n], 0), [], multiset{}, multiset{pid}))
    ensures Follows(Alone(pid, Process(TERMINATED, [n], 0), [], multiset{}, multiset{pid}),
                    [Yield(pid), Next(0), Begin(pid)], Alone(pid, Process(RUNNING, [n], 0), [], multiset{}, multiset{pid}))
  {
    hide *;
    var s4 := Alone(pid, Process(TERMINATED, [n], 0), [], multiset{}, multiset{pid});
    var s5 := Alone(pid, Process(READY, [n], 0), [pid], multiset{}, multiset{});
    var s6 := Alone(pid, Process(READY, [n], 0), [], multiset{pid}, multiset{});
    var s7 := Alone(pid, Process(RUNNING, [n], 0), [], multiset{}, multiset{pid});
    YieldAlone(pid, [n]);
    NextAlone(pid, [n]);
    SliceAlone(pid, [n], n);
    FollowsOn(s4, Yield(pid), s5, [Next(0)] + [Begin(pid)], s7);
    FollowsOn(s5, Next(0), s6, [Begin(pid)], s7);
    FollowsOn(s6, Begin(pid), s7, [], s7);
    StaysThere(s7);
    assert [Begin(pid)] + [] == [Begin(pid)];
    assert [Yield(pid)] + ([Next(0)] + [Begin(pid)]) == [Yield(pid), Next(0), Begin(pid)];
  }

  lemma Spelled(a: Step, b: Step, c: Step, d: Step, e: Step, f: Step, g: Step)
    ensures [a] + ([b] + ([c] + ([d] + [e, f, g]))) == [a, b, c, d, e, f, g]
  {
  }

  lemma StaysThere(s: Sched)
    requires Inv(s)
    ensures Follows(s, [], s)
  {
  }

  /** The first `pid` of a queue is removed, and the others keep their order. */
  lemma {:induction false} RemovedFirst(q: seq<Pid>, pid: Pid) returns (i: nat)
    ensures pid !in q ==> Removed(q, pid) == q
    ensures pid in q ==> i < |q| && q[i] == pid && pid !in q[..i] && Removed(q, pid) == q[..i] + q[i + 1..]
  {
    i := 0;
    if q != [] && q[0] != pid {
      var k := RemovedFirst(q[1..], pid);
      i := k + 1;
      if pid in q {
        assert q[1..][k] == pid && q[..i] == [q[0]] + q[1..][..k];
        assert [q[0]] + (q[1..][..k] + q[1..][k + 1..]) == q[..i] + q[i + 1..];
      } else {
        assert [q[0]] + q[1..] == q;
      }
    }
  }

  /** A terminated process is known nowhere: not registered, not active, in no ready queue. */
  lemma TerminatedIsGone(s: Sched, pid: Pid)
    requires Inv(s) && pid in s.table
    ensures var t := DoTerminate(s, pid);
            && pid !in t.table && t.procs[pid].state == TERMINATED && pid !in t.active[s.procs[pid].core]
            && forall c :: 0 <= c < |t.ready| ==> pid !in t.ready[c]
  {
    assert WellPlaced(s, pid);
    var c := s.procs[pid].core;
    RemovedCount(s.ready[c], pid, pid);
    assert Count(Removed(s.ready[c], pid), pid) == 0;
  }

  function Fresh(cores: nat): Sched {
    Sched(map[], {}, seq(cores, i => {}), seq(cores, i => []), multiset{}, multiset{})
  }

  lemma FreshIsSound(cores: nat)
    requires cores > 0
    ensures Inv(Fresh(cores)) && |Fresh(cores).ready| == cores && Fresh(cores).procs == map[] && Fresh(cores).table == {}
  {
  }
}
