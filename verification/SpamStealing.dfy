/** Work stealing and migration: who owns a process, and why stealing must stop. */
module SpamStealing {
  import opened Wrappers
  import opened Spam

  // ---------- Steps that move a process to another core ----------

  /** What else a steal asks of a process: a migration cost below 0.8, and recent activity. */
  datatype Eligible = Eligible(cheap: set<Pid>, recent: set<Pid>)

  predicate CanBeStolen(s: Sched, pid: Pid, eligible: Eligible) {
    && pid in s.procs && s.procs[pid].state in {READY, WAITING}
    && pid in eligible.cheap && (s.procs[pid].queue != [] || pid in eligible.recent)
  }

  /** The last process of the queue that may be stolen. */
  function LastStealable(s: Sched, victim: Core, q: seq<Pid>, eligible: Eligible): Option<Pid>
    requires victim < |s.active|
  {
    if q == [] then None
    else
      var p := q[|q| - 1];
      if p in s.active[victim] && CanBeStolen(s, p, eligible) then Some(p)
      else LastStealable(s, victim, q[..|q| - 1], eligible)
  }

  /** One steal: the process goes from the back of the victim's queue to the end of the thief's. */
  function DoSteal(s: Sched, thief: Core, victim: Core, eligible: Eligible): (r: (Sched, Option<Pid>))
    requires Shaped(s) && thief < |s.ready| && victim < |s.ready| && thief != victim
  {
    var stolen := LastStealable(s, victim, s.ready[victim], eligible);
    match stolen
    case None => (s, None)
    case Some(p) =>
      LastStealableIsThere(s, victim, s.ready[victim], eligible);
      var s1 := s.(active := s.active[victim := s.active[victim] - {p}],
                   ready := s.ready[victim := Removed(s.ready[victim], p)]);
      (s1.(procs := s.procs[p := s.procs[p].(core := thief, state := READY)],
           active := s1.active[thief := s1.active[thief] + {p}],
           ready := s1.ready[thief := s1.ready[thief] + [p]]),
       stolen)
  }

  lemma {:induction false} LastStealableIsThere(s: Sched, victim: Core, q: seq<Pid>, eligible: Eligible)
    requires victim < |s.active|
    ensures var p := LastStealable(s, victim, q, eligible);
            p.Some? ==> p.value in q && p.value in s.active[victim] && CanBeStolen(s, p.value, eligible)
  {
    if q != [] {
      LastStealableIsThere(s, victim, q[..|q| - 1], eligible);
    }
  }

  /** From the back of the queue: every process behind the stolen one could not be stolen. */
  lemma {:induction false} StealTakesLast(s: Sched, victim: Core, q: seq<Pid>, eligible: Eligible) returns (i: int)
    requires victim < |s.active|
    ensures var found := LastStealable(s, victim, q, eligible);
            && -1 <= i < |q|
            && (if i == -1 then found == None else found == Some(q[i]) && q[i] in s.active[victim] && CanBeStolen(s, q[i], eligible))
            && (forall j :: i < j < |q| ==> !(q[j] in s.active[victim] && CanBeStolen(s, q[j], eligible)))
  {
    i := |q| - 1;
    if q != [] && !(q[|q| - 1] in s.active[victim] && CanBeStolen(s, q[|q| - 1], eligible)) {
      i := StealTakesLast(s, victim, q[..|q| - 1], eligible);
    }
  }

  /** `migrate_process`: false when there is no such process. */
  function DoMigrate(s: Sched, pid: Pid, target: Core): (Sched, bool)
    requires Shaped(s) && target < |s.ready|
  {
    if pid !in s.table then (s, false)
    else if s.procs[pid].core == target then (s, true)
    else
      var s1 := Dropped(s, pid);
      if pid in s1.active[target] then (s1, false)
      else
        (s1.(procs := s1.procs[pid := s1.procs[pid].(core := target, state := READY)],
             active := s1.active[target := s1.active[target] + {pid}],
             ready := s1.ready[target := s1.ready[target] + [pid]]),
         true)
  }

  // ---------- The cores partition the registered processes ----------

  ghost predicate Partitioned(s: Sched) {
    && Shaped(s)
    && (forall p :: p in s.table ==> p in s.active[s.procs[p].core])
    && (forall c, p :: 0 <= c < |s.active| && p in s.active[c] ==> p in s.table && s.procs[p].core == c)
  }

  /** A step that leaves the table, the active processes and every core alone. */
  lemma SameOwners(s: Sched, t: Sched)
    requires Partitioned(s) && Shaped(t)
    requires t.table == s.table && t.active == s.active && t.procs.Keys == s.procs.Keys
    requires forall p :: p in s.procs ==> t.procs[p].core == s.procs[p].core
    ensures Partitioned(t)
  {
  }

  lemma BeginKeepsPartition(s: Sched, pid: Pid)
    requires Partitioned(s) && pid in s.pending
    ensures Partitioned(DoBegin(s, pid))
  {
    SameOwners(s, DoBegin(s, pid));
  }

  lemma HandleKeepsPartition(s: Sched, pid: Pid, stop: bool)
    requires Partitioned(s) && pid in s.running
    ensures Partitioned(DoHandle(s, pid, stop))
  {
    SameOwners(s, DoHandle(s, pid, stop));
  }

  lemma YieldKeepsPartition(s: Sched, pid: Pid)
    requires Partitioned(s) && pid in s.running
    ensures Partitioned(DoYield(s, pid))
  {
    SameOwners(s, DoYield(s, pid));
  }

  lemma PreemptKeepsPartition(s: Sched, pid: Pid)
    requires Partitioned(s) && pid in s.running
    ensures Partitioned(DoPreempt(s, pid))
  {
    SameOwners(s, DoPreempt(s, pid));
  }

  lemma CrashKeepsPartition(s: Sched, pid: Pid)
    requires Partitioned(s) && pid in s.running
    ensures Partitioned(DoCrash(s, pid))
  {
    SameOwners(s, DoCrash(s, pid));
  }

  lemma SendKeepsPartition(s: Sched, pid: Pid, message: Message)
    requires Partitioned(s) && pid in s.procs
    ensures Partitioned(DoSend(s, pid, message))
  {
    SendFrame(s, pid, message);
    hide DoSend;
    SameOwners(s, DoSend(s, pid, message));
  }

  lemma NextKeepsPartition(s: Sched, core: Core)
    requires Partitioned(s) && core < |s.ready|
    ensures Partitioned(DoNext(s, core))
  {
    var found := PopReady(s, core, s.ready[core]).0;
    if found.Some? {
      PopCount(s, core, s.ready[core], found.value);
    }
    SameOwners(s, DoNext(s, core));
  }

  lemma SpawnKeepsPartition(s: Sched, pid: Pid, queue: seq<Message>, core: Core)
    requires Partitioned(s) && pid !in s.procs && core < |s.ready|
    ensures Partitioned(DoSpawn(s, pid, queue, core))
  {
  }

  lemma TerminateKeepsPartition(s: Sched, pid: Pid)
    requires Partitioned(s)
    ensures Partitioned(DoTerminate(s, pid))
  {
  }

  lemma StepKeepsPartition(s: Sched, step: Step)
    requires Partitioned(s) && Enabled(s, step)
    ensures Partitioned(Apply(s, step))
  {
    match step
    case Spawn(pid, queue, core) => SpawnKeepsPartition(s, pid, queue, core);
    case Send(pid, message) => SendKeepsPartition(s, pid, message);
    case Next(core) => NextKeepsPartition(s, core);
    case Terminate(pid) => TerminateKeepsPartition(s, pid);
    case Begin(pid) => BeginKeepsPartition(s, pid);
    case Handle(pid, stop) => HandleKeepsPartition(s, pid, stop);
    case Yield(pid) => YieldKeepsPartition(s, pid);
    case Preempt(pid) => PreemptKeepsPartition(s, pid);
    case Crash(pid) => CrashKeepsPartition(s, pid);
  }

  lemma StealKeepsPartition(s: Sched, thief: Core, victim: Core, eligible: Eligible)
    requires Partitioned(s) && thief < |s.ready| && victim < |s.ready| && thief != victim
    ensures Partitioned(DoSteal(s, thief, victim, eligible).0)
  {
    LastStealableIsThere(s, victim, s.ready[victim], eligible);
  }

  lemma MigrateMoves(s: Sched, pid: Pid, target: Core)
    requires Partitioned(s) && target < |s.ready| && pid in s.table && s.procs[pid].core != target
    ensures var (t, ok), c := DoMigrate(s, pid, target), s.procs[pid].core;
            && ok && t.table == s.table && t.pending == s.pending && t.running == s.running && |t.ready| == |s.ready|
            && t.procs == s.procs[pid := s.procs[pid].(core := target, state := READY)]
            && t.active == s.active[c := s.active[c] - {pid}][target := s.active[target] + {pid}]
            && t.ready == s.ready[c := Removed(s.ready[c], pid)][target := s.ready[target] + [pid]]
  {
    assert pid !in s.active[target];
  }

  lemma MigrateKeepsPartition(s: Sched, pid: Pid, target: Core)
    requires Partitioned(s) && target < |s.ready|
    ensures Partitioned(DoMigrate(s, pid, target).0)
    ensures DoMigrate(s, pid, target).1 == (pid in s.table)
    ensures pid in s.table ==> DoMigrate(s, pid, target).0.procs[pid].core == target
  {
    if pid in s.table && s.procs[pid].core != target {
      MigrateMoves(s, pid, target);
      hide DoMigrate, Dropped, Removed;
    }
  }

  datatype Move =
    | Ordinary(step: Step)
    | Steal(thief: Core, victim: Core, eligible: Eligible)
    | Migrate(pid: Pid, target: Core)

  ghost predicate CanMove(s: Sched, m: Move) {
    match m
    case Ordinary(step) => Enabled(s, step)
    case Steal(thief, victim, _) => thief < |s.ready| && victim < |s.ready| && thief != victim
    case Migrate(_, target) => target < |s.ready|
  }

  function Moved(s: Sched, m: Move): Sched
    requires Shaped(s) && CanMove(s, m)
  {
    match m
    case Ordinary(step) => Apply(s, step)
    case Steal(thief, victim, eligible) => DoSteal(s, thief, victim, eligible).0
    case Migrate(pid, target) => DoMigrate(s, pid, target).0
  }

  ghost predicate MovesTo(s: Sched, moves: seq<Move>, t: Sched)
    requires Partitioned(s)
    decreases |moves|
  {
    if moves == [] then t == s
    else CanMove(s, moves[0]) && (MoveKeepsPartition(s, moves[0]); MovesTo(Moved(s, moves[0]), moves[1..], t))
  }

  lemma MoveKeepsPartition(s: Sched, m: Move)
    requires Partitioned(s) && CanMove(s, m)
    ensures Partitioned(Moved(s, m))
  {
    match m
    case Ordinary(step) => StepKeepsPartition(s, step);
    case Steal(thief, victim, eligible) => StealKeepsPartition(s, thief, victim, eligible);
    case Migrate(pid, target) => MigrateKeepsPartition(s, pid, target);
  }

  /** Over every run with steals and migrations, the cores partition the registered processes by `core`. */
  lemma {:induction false} RunKeepsPartition(s: Sched, moves: seq<Move>, t: Sched)
    requires Partitioned(s) && MovesTo(s, moves, t)
    ensures Partitioned(t)
    decreases |moves|
  {
    if moves != [] {
      MoveKeepsPartition(s, moves[0]);
      RunKeepsPartition(Moved(s, moves[0]), moves[1..], t);
    }
  }

  // ---------- First in, first out, with steals and migrations ----------

  /** What a move puts into the ready queue of core `c`: a stolen or migrated process comes in at the end as well. */
  function QueuedIn(s: Sched, m: Move, c: Core): seq<Pid>
    requires Shaped(s) && CanMove(s, m) && c < |s.ready|
  {
    match m
    case Ordinary(step) => Spam.QueuedIn(s, step, c)
    case Steal(thief, victim, eligible) =>
      var stolen := LastStealable(s, victim, s.ready[victim], eligible);
      if thief == c && stolen.Some? then [stolen.value] else []
    case Migrate(pid, target) => if target == c && pid in s.table && s.procs[pid].core != c then [pid] else []
  }

  function TakenOff(s: Sched, m: Move, c: Core): seq<Pid>
    requires Shaped(s) && c < |s.ready|
  {
    if m.Ordinary? then Spam.TakenOff(s, m.step, c) else []
  }

  /** Who may leave that queue from the middle: a process of core `c` that is terminated, stolen or migrated. */
  function Leaving(s: Sched, m: Move, c: Core): set<Pid>
    requires Shaped(s) && CanMove(s, m)
  {
    match m
    case Ordinary(step) => if step.Terminate? && step.pid in s.table && s.procs[step.pid].core == c then {step.pid} else {}
    case Steal(_, victim, eligible) =>
      var stolen := LastStealable(s, victim, s.ready[victim], eligible);
      if victim == c && stolen.Some? then {stolen.value} else {}
    case Migrate(pid, _) => if pid in s.table && s.procs[pid].core == c then {pid} else {}
  }

  lemma MoveKeepsTurns(s: Sched, m: Move, c: Core, gone: set<Pid>)
    requires Partitioned(s) && CanMove(s, m) && c < |s.ready| && Leaving(s, m, c) <= gone
    ensures |Moved(s, m).ready| == |s.ready|
    ensures Without(s.ready[c] + QueuedIn(s, m, c), gone) == Without(TakenOff(s, m, c) + Moved(s, m).ready[c], gone)
  {
    match m
    case Ordinary(step) => StepKeepsTurns(s, step, c, gone);
    case Steal(thief, victim, eligible) => StealKeepsTurns(s, thief, victim, eligible, c, gone);
    case Migrate(pid, target) => MigrateKeepsTurns(s, pid, target, c, gone);
  }

  lemma StealKeepsTurns(s: Sched, thief: Core, victim: Core, eligible: Eligible, c: Core, gone: set<Pid>)
    requires Partitioned(s) && thief < |s.ready| && victim < |s.ready| && thief != victim && c < |s.ready|
    requires Leaving(s, Steal(thief, victim, eligible), c) <= gone
    ensures var t := DoSteal(s, thief, victim, eligible).0;
            && |t.ready| == |s.ready|
            && Without(s.ready[c] + QueuedIn(s, Steal(thief, victim, eligible), c), gone) == Without([] + t.ready[c], gone)
  {
    assert s.ready[c] + [] == s.ready[c];
    var t := DoSteal(s, thief, victim, eligible).0;
    assert [] + t.ready[c] == t.ready[c];
    var stolen := LastStealable(s, victim, s.ready[victim], eligible);
    if stolen.Some? && victim == c {
      WithoutRemoved(s.ready[c], stolen.value, gone);
    }
  }

  lemma MigrateKeepsTurns(s: Sched, pid: Pid, target: Core, c: Core, gone: set<Pid>)
    requires Partitioned(s) && target < |s.ready| && c < |s.ready|
    requires Leaving(s, Migrate(pid, target), c) <= gone
    ensures var t := DoMigrate(s, pid, target).0;
            && |t.ready| == |s.ready|
            && Without(s.ready[c] + QueuedIn(s, Migrate(pid, target), c), gone) == Without([] + t.ready[c], gone)
  {
    assert s.ready[c] + [] == s.ready[c];
    var t := DoMigrate(s, pid, target).0;
    assert [] + t.ready[c] == t.ready[c];
    if pid in s.table && s.procs[pid].core != target {
      MigrateMoves(s, pid, target);
      if s.procs[pid].core == c {
        WithoutRemoved(s.ready[c], pid, gone);
      }
    }
    hide DoMigrate, Without, Removed, Partitioned;
  }

  ghost function QueuedBy(s: Sched, moves: seq<Move>, t: Sched, c: Core): seq<Pid>
    requires Partitioned(s) && MovesTo(s, moves, t) && c < |s.ready|
    decreases |moves|
  {
    if moves == [] then []
    else
      MoveKeepsPartition(s, moves[0]);
      MoveKeepsTurns(s, moves[0], c, Leaving(s, moves[0], c));
      QueuedIn(s, moves[0], c) + QueuedBy(Moved(s, moves[0]), moves[1..], t, c)
  }

  ghost function TakenBy(s: Sched, moves: seq<Move>, t: Sched, c: Core): seq<Pid>
    requires Partitioned(s) && MovesTo(s, moves, t) && c < |s.ready|
    decreases |moves|
  {
    if moves == [] then []
    else
      MoveKeepsPartition(s, moves[0]);
      MoveKeepsTurns(s, moves[0], c, Leaving(s, moves[0], c));
      TakenOff(s, moves[0], c) + TakenBy(Moved(s, moves[0]), moves[1..], t, c)
  }

  ghost function LeavingBy(s: Sched, moves: seq<Move>, t: Sched, c: Core): set<Pid>
    requires Partitioned(s) && MovesTo(s, moves, t)
    decreases |moves|
  {
    if moves == [] then {}
    else
      MoveKeepsPartition(s, moves[0]);
      Leaving(s, moves[0], c) + LeavingBy(Moved(s, moves[0]), moves[1..], t, c)
  }

  /** On every core, over every run with steals and migrations: what was in the ready queue and what came in since, in that
      order, is what was taken off the front and what is left, but for the processes that left the core. */
  lemma {:induction false} RunKeepsTurns(s: Sched, moves: seq<Move>, t: Sched, c: Core, gone: set<Pid>)
    requires Partitioned(s) && MovesTo(s, moves, t) && c < |s.ready| && LeavingBy(s, moves, t, c) <= gone
    ensures |t.ready| == |s.ready|
    ensures Without(s.ready[c] + QueuedBy(s, moves, t, c), gone) == Without(TakenBy(s, moves, t, c) + t.ready[c], gone)
    decreases |moves|
  {
    if moves == [] {
      assert s.ready[c] + [] == s.ready[c] == [] + s.ready[c];
    } else {
      MoveKeepsPartition(s, moves[0]);
      var s1 := Moved(s, moves[0]);
      MoveKeepsTurns(s, moves[0], c, gone);
      RunKeepsTurns(s1, moves[1..], t, c, gone);
      ChainedTurns(s.ready[c], QueuedIn(s, moves[0], c), QueuedBy(s1, moves[1..], t, c),
                   TakenOff(s, moves[0], c), s1.ready[c], TakenBy(s1, moves[1..], t, c), t.ready[c], gone);
      hide Moved, Partitioned, CanMove, Without, QueuedIn, TakenOff, Leaving;
    }
  }

  // ---------- Load, in tenths ----------

  function Load(s: Sched, c: Core): int
    requires c < |s.ready| && |s.active| == |s.ready|
  {
    6 * |s.ready[c]| + 4 * |s.active[c]|
  }

  function Loads(s: Sched): seq<int>
    requires |s.active| == |s.ready|
  {
    seq(|s.ready|, c requires 0 <= c < |s.ready| => Load(s, c))
  }

  function Sum(loads: seq<int>): int {
    if loads == [] then 0 else loads[0] + Sum(loads[1..])
  }

  function SumOfSquares(loads: seq<int>): int {
    if loads == [] then 0 else loads[0] * loads[0] + SumOfSquares(loads[1..])
  }

  lemma {:induction false} UpdateSums(loads: seq<int>, i: nat, x: int)
    requires i < |loads|
    ensures Sum(loads[i := x]) == Sum(loads) - loads[i] + x
    ensures SumOfSquares(loads[i := x]) == SumOfSquares(loads) - loads[i] * loads[i] + x * x
  {
    if i > 0 {
      UpdateSums(loads[1..], i - 1, x);
      assert loads[i := x][1..] == loads[1..][i - 1 := x];
    } else {
      assert loads[0 := x][1..] == loads[1..];
    }
  }

  lemma {:induction false} SquaresNotNegative(loads: seq<int>)
    ensures SumOfSquares(loads) >= 0
  {
    if loads != [] {
      SquaresNotNegative(loads[1..]);
      assert loads[0] * loads[0] >= 0;
    }
  }

  lemma {:induction false} RemovedLength(q: seq<Pid>, pid: Pid)
    requires pid in q
    ensures |Removed(q, pid)| == |q| - 1
  {
    if q[0] != pid {
      assert pid in q[1..];
      RemovedLength(q[1..], pid);
    }
  }

  /** A successful steal takes ten tenths of load from the victim to the thief and leaves the rest alone. */
  lemma StealMovesLoad(s: Sched, thief: Core, victim: Core, eligible: Eligible)
    requires Partitioned(s) && thief < |s.ready| && victim < |s.ready| && thief != victim
    requires DoSteal(s, thief, victim, eligible).1.Some?
    ensures var l := Loads(s);
            Loads(DoSteal(s, thief, victim, eligible).0) == l[victim := l[victim] - 10][thief := l[thief] + 10]
  {
    LastStealableIsThere(s, victim, s.ready[victim], eligible);
    var p := DoSteal(s, thief, victim, eligible).1.value;
    RemovedLength(s.ready[victim], p);
    assert p !in s.active[thief];
  }

  /** Ten tenths from one entry to another. */
  lemma Transfer(l: seq<int>, from: nat, to: nat)
    requires from < |l| && to < |l| && from != to
    ensures var l' := l[from := l[from] - 10][to := l[to] + 10];
            && Sum(l') == Sum(l)
            && SumOfSquares(l') == SumOfSquares(l) - 20 * (l[from] - l[to] - 10)
  {
    var m := l[from := l[from] - 10];
    UpdateSums(l, from, l[from] - 10);
    UpdateSums(m, to, m[to] + 10);
    Square(l[from], -10);
    Square(l[to], 10);
    hide *;
  }

  lemma Square(x: int, d: int)
    ensures (x + d) * (x + d) == x * x + 2 * d * x + d * d
  {
  }

  /** Its effect on the potential, exactly. */
  lemma StealChangesPotential(s: Sched, thief: Core, victim: Core, eligible: Eligible)
    requires Partitioned(s) && thief < |s.ready| && victim < |s.ready| && thief != victim
    requires DoSteal(s, thief, victim, eligible).1.Some?
    ensures var l, l' := Loads(s), Loads(DoSteal(s, thief, victim, eligible).0);
            && Sum(l') == Sum(l)
            && SumOfSquares(l') == SumOfSquares(l) - 20 * (l[victim] - l[thief] - 10)
            && l'[victim] - l'[thief] == l[victim] - l[thief] - 20
  {
    StealMovesLoad(s, thief, victim, eligible);
    Transfer(Loads(s), victim, thief);
    hide *;
  }

  /** The potential goes down just when the victim is more than one unit heavier: so for any threshold of at least one,
      and the victim stays heavier just when it was more than two units heavier: so for the default threshold. */
  lemma StealHelpsIff(s: Sched, thief: Core, victim: Core, eligible: Eligible)
    requires Partitioned(s) && thief < |s.ready| && victim < |s.ready| && thief != victim
    requires DoSteal(s, thief, victim, eligible).1.Some?
    ensures var l, l' := Loads(s), Loads(DoSteal(s, thief, victim, eligible).0);
            && (SumOfSquares(l') < SumOfSquares(l) <==> l[victim] > l[thief] + 10)
            && (l'[victim] > l'[thief] <==> l[victim] > l[thief] + 20)
  {
    StealChangesPotential(s, thief, victim, eligible);
  }

  /** A steal that the threshold allows, from `s` to `t`. */
  ghost predicate StealStep(s: Sched, t: Sched, threshold: int) {
    && Partitioned(s)
    && exists thief: Core, victim: Core, eligible: Eligible ::
         && thief < |s.ready| && victim < |s.ready| && thief != victim
         && Load(s, victim) > Load(s, thief) + 10 * threshold
         && DoSteal(s, thief, victim, eligible).1.Some?
         && t == DoSteal(s, thief, victim, eligible).0
  }

  lemma LoadGap(s: Sched, thief: Core, victim: Core)
    requires |s.active| == |s.ready| && thief < |s.ready| && victim < |s.ready|
    requires Load(s, victim) > Load(s, thief) + 10
    ensures Loads(s)[victim] - Loads(s)[thief] >= 12
  {
  }

  lemma StealCosts(s: Sched, thief: Core, victim: Core, eligible: Eligible)
    requires Partitioned(s) && thief < |s.ready| && victim < |s.ready| && thief != victim
    requires Load(s, victim) > Load(s, thief) + 10
    requires DoSteal(s, thief, victim, eligible).1.Some?
    ensures var t := DoSteal(s, thief, victim, eligible).0;
            Sum(Loads(t)) == Sum(Loads(s)) && SumOfSquares(Loads(t)) + 40 <= SumOfSquares(Loads(s))
  {
    LoadGap(s, thief, victim);
    StealChangesPotential(s, thief, victim, eligible);
  }

  lemma StealStepCosts(s: Sched, t: Sched, threshold: int)
    requires StealStep(s, t, threshold) && threshold >= 1
    ensures Partitioned(t)
    ensures Sum(Loads(t)) == Sum(Loads(s)) && SumOfSquares(Loads(t)) + 40 <= SumOfSquares(Loads(s))
  {
    var thief: Core, victim: Core, eligible: Eligible :|
      && thief < |s.ready| && victim < |s.ready| && thief != victim
      && Load(s, victim) > Load(s, thief) + 10 * threshold
      && DoSteal(s, thief, victim, eligible).1.Some?
      && t == DoSteal(s, thief, victim, eligible).0;
    hide DoSteal, Loads, Load, Sum, SumOfSquares;
    StealKeepsPartition(s, thief, victim, eligible);
    StealCosts(s, thief, victim, eligible);
  }

  /** With a threshold of at least one, consecutive steals are bounded by the potential at their start. */
  lemma {:induction false} StealsAreFew(states: seq<Sched>, threshold: int)
    requires states != [] && threshold >= 1 && Partitioned(states[0])
    requires forall i :: 0 <= i < |states| - 1 ==> StealStep(states[i], states[i + 1], threshold)
    ensures Partitioned(states[|states| - 1])
    ensures 40 * (|states| - 1) <= SumOfSquares(Loads(states[0])) - SumOfSquares(Loads(states[|states| - 1]))
                               <= SumOfSquares(Loads(states[0]))
    ensures Sum(Loads(states[|states| - 1])) == Sum(Loads(states[0]))
  {
    var n := |states| - 1;
    if n > 0 {
      assert StealStep(states[n - 1], states[n], threshold);
      StealsAreFew(states[..n], threshold);
      StealStepCosts(states[n - 1], states[n], threshold);
    }
    SquaresNotNegative(Loads(states[n]));
  }

  /** What may be stolen: a process of the victim, in its ready queue, that is ready or waiting, cheap to move, and has mail
      or was active lately. Nothing is stolen just when there is none. */
  lemma StealIff(s: Sched, thief: Core, victim: Core, eligible: Eligible)
    requires Shaped(s) && thief < |s.ready| && victim < |s.ready| && thief != victim
    ensures var (t, stolen) := DoSteal(s, thief, victim, eligible);
            && (stolen.None? ==> t == s)
            && (stolen.Some? <==>
                  exists p :: p in s.ready[victim] && p in s.active[victim] && p in s.procs
                              && (s.procs[p].state == READY || s.procs[p].state == WAITING)
                              && p in eligible.cheap && (s.procs[p].queue != [] || p in eligible.recent))
            && (stolen.Some? ==>
                  var p := stolen.value;
                  && p in s.ready[victim] && p in s.active[victim] && p in s.procs && p in eligible.cheap
                  && (s.procs[p].state == READY || s.procs[p].state == WAITING)
                  && (s.procs[p].queue != [] || p in eligible.recent)
                  && t.ready[thief] == s.ready[thief] + [p]
                  && t.procs == s.procs[p := Process(READY, s.procs[p].queue, thief)])
  {
    var q := s.ready[victim];
    LastStealableIsThere(s, victim, q, eligible);
    var i := StealTakesLast(s, victim, q, eligible);
    hide LastStealable;
    if p :| p in q && p in s.active[victim] && CanBeStolen(s, p, eligible) {
      var j :| 0 <= j < |q| && q[j] == p;
      assert i != -1;
    }
  }

  /** Six tenths for a place in the ready queue, and four for being one of the core's processes. */
  lemma LoadCounts(s: Sched, pid: Pid, queue: seq<Message>, c: Core)
    requires Shaped(s) && c < |s.ready|
    ensures pid !in s.procs && pid !in s.active[c] ==> Load(DoSpawn(s, pid, queue, c), c) == Load(s, c) + 10
    ensures pid in s.procs && s.procs[pid].core == c && s.procs[pid].queue != [] ==>
              Load(DoYield(s, pid), c) == Load(s, c) + 6
    ensures s.ready[c] == [] ==> Load(s, c) == 4 * |s.active[c]|
  {
  }
}