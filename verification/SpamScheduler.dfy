/** The scheduler object: its process table, its cores' queues, and the methods that move processes between them. */
module SpamScheduler {
  import opened Wrappers
  import opened Spam
  import opened SpamStealing

  /** What a list comprehension over the queue keeps, and what `[-1]` takes from it. */
  function Stealable(s: Sched, victim: Core, q: seq<Pid>, eligible: Eligible): seq<Pid>
    requires victim < |s.active|
  {
    if q == [] then []
    else
      var p := q[|q| - 1];
      Stealable(s, victim, q[..|q| - 1], eligible)
      + if p in s.active[victim] && CanBeStolen(s, p, eligible) then [p] else []
  }

  lemma {:induction false} StealableEndsWithLast(s: Sched, victim: Core, q: seq<Pid>, eligible: Eligible)
    requires victim < |s.active|
    ensures var found := Stealable(s, victim, q, eligible);
            LastStealable(s, victim, q, eligible) == if found == [] then None else Some(found[|found| - 1])
  {
    if q != [] {
      StealableEndsWithLast(s, victim, q[..|q| - 1], eligible);
    }
  }

  lemma PopUnfolds(s: Sched, core: Core, q: seq<Pid>)
    requires core < |s.active| && q != []
    ensures PopReady(s, core, q)
            == if q[0] in s.active[core] && q[0] in s.procs && s.procs[q[0]].state == READY then (Some(q[0]), q[1..])
               else PopReady(s, core, q[1..])
  {
  }

  lemma TwiceWritten(procs: map<Pid, Process>, pid: Pid, first: Process, second: Process)
    ensures procs[pid := first][pid := second] == procs[pid := second]
  {
  }

  class WorkStealingScheduler {
    var procs: map<Pid, Process>
    var table: set<Pid>
    var active: seq<set<Pid>>
    var ready: seq<seq<Pid>>
    var nextCore: nat
    const workStealing: bool
    ghost var pending: multiset<Pid>
    ghost var running: multiset<Pid>

    ghost function State(): Sched
      reads this
    {
      Sched(procs, table, active, ready, pending, running)
    }

    constructor (cores: nat, workStealing: bool)
      requires cores > 0
      ensures State() == Fresh(cores) && nextCore == 0 && this.workStealing == workStealing
    {
      procs, table := map[], {};
      active, ready := seq(cores, i => {}), seq(cores, i => []);
      nextCore := 0;
      this.workStealing := workStealing;
      pending, running := multiset{}, multiset{};
    }

    method GetLoadFactor(core: Core) returns (load: int)
      requires Shaped(State()) && core < |ready|
      ensures load == Load(State(), core)
    {
      load := 6 * |ready[core]| + 4 * |active[core]|;
    }

    /** Round robin; or, with stealing on, the first of the least loaded cores, whatever the hash of the pid adds. */
    method SelectCore(hash: nat) returns (core: Core)
      requires Shaped(State())
      modifies this`nextCore
      ensures core < |ready|
      ensures !workStealing ==> core == old(nextCore) % |ready| && nextCore == old(nextCore) + 1
      ensures workStealing ==> nextCore == old(nextCore)
      ensures workStealing ==> forall c :: 0 <= c < |ready| ==> Load(State(), core) <= Load(State(), c)
      ensures workStealing ==> forall c :: 0 <= c < core ==> Load(State(), core) < Load(State(), c)
    {
      if !workStealing {
        core := nextCore % |ready|;
        nextCore := nextCore + 1;
        return;
      }
      core := 0;
      var best: Option<int> := None;
      for c := 0 to |ready|
        invariant nextCore == old(nextCore) && 0 <= core < |ready| && (c > 0 ==> core < c)
        invariant best == if c == 0 then None else Some(100 * Load(State(), core) + hash % 100)
        invariant forall d :: 0 <= d < c ==> Load(State(), core) <= Load(State(), d)
        invariant c > 0 ==> forall d :: 0 <= d < core ==> Load(State(), core) < Load(State(), d)
      {
        var load := GetLoadFactor(c);
        var adjusted := 100 * load + hash % 100;
        if best.None? || adjusted < best.value {
          best := Some(adjusted);
          core := c;
        }
      }
    }

    method AddProcess(pid: Pid, core: Core) returns (ok: bool)
      requires Shaped(State()) && core < |ready| && pid in procs
      modifies this`procs, this`active, this`ready
      ensures ok == (pid !in old(active)[core])
      ensures !ok ==> State() == old(State())
      ensures ok ==> State() == old(State()).(procs := old(procs)[pid := old(procs)[pid].(core := core, state := READY)],
                                             active := old(active)[core := old(active)[core] + {pid}],
                                             ready := old(ready)[core := old(ready)[core] + [pid]])
    {
      if pid in active[core] {
        return false;
      }
      procs := procs[pid := procs[pid].(core := core, state := READY)];
      active := active[core := active[core] + {pid}];
      ready := ready[core := ready[core] + [pid]];
      return true;
    }

    /** A new process object with its first messages. A registered pid is refused; adding it to a core cannot fail. */
    method SpawnProcess(pid: Pid, queue: seq<Message>, hash: nat) returns (ok: bool, core: Core)
      requires Partitioned(State())
      modifies this
      ensures ok == (pid !in old(table))
      ensures !ok ==> State() == old(State()) && nextCore == old(nextCore)
      ensures ok ==> core < |old(ready)| && State() == DoSpawn(old(State()), pid, queue, core)
      ensures ok && !workStealing ==> core == old(nextCore) % |old(ready)| && nextCore == old(nextCore) + 1
      ensures ok && workStealing ==> forall c :: 0 <= c < |old(ready)| ==> Load(old(State()), core) <= Load(old(State()), c)
    {
      if pid in table {
        return false, 0;
      }
      assert Shaped(State()) && forall c :: 0 <= c < |active| ==> pid !in active[c];
      hide Partitioned;
      ghost var before := State();
      procs := procs[pid := Process(READY, queue, 0)];
      table := table + {pid};
      assert forall c :: 0 <= c < |ready| ==> Load(State(), c) == Load(before, c);
      core := SelectCore(hash);
      ghost var entered := procs;
      ok := AddProcess(pid, core);
      assert procs == entered[pid := entered[pid].(core := core, state := READY)];
      assert entered[pid].(core := core, state := READY) == Process(READY, queue, core);
      TwiceWritten(before.procs, pid, entered[pid], Process(READY, queue, core));
      assert procs == before.procs[pid := Process(READY, queue, core)];
      assert ready == before.ready[core := before.ready[core] + [pid]];
    }

    /** `remove_process` also marks the process terminated. */
    method RemoveProcess(pid: Pid, core: Core) returns (ok: bool)
      requires Shaped(State()) && pid in procs && core < |ready|
      modifies this`procs, this`active, this`ready
      ensures ok == (pid in old(active)[core])
      ensures !ok ==> State() == old(State())
      ensures State() == DroppedFrom(old(State()), pid, core)
    {
      if pid !in active[core] {
        return false;
      }
      active := active[core := active[core] - {pid}];
      ready := ready[core := Removed(ready[core], pid)];
      procs := procs[pid := procs[pid].(state := TERMINATED)];
      return true;
    }

    method TerminateProcess(pid: Pid) returns (ok: bool)
      requires Shaped(State())
      modifies this
      ensures ok == (pid in old(table))
      ensures !ok ==> State() == old(State())
      ensures State() == DoTerminate(old(State()), pid)
    {
      if pid !in table {
        return false;
      }
      var _ := RemoveProcess(pid, procs[pid].core);
      table := table - {pid};
      return true;
    }

    /** To a process object, registered or not. */
    method SendMessage(pid: Pid, message: Message)
      requires Shaped(State()) && pid in procs
      modifies this`procs, this`ready
      ensures State() == DoSend(old(State()), pid, message)
    {
      procs := procs[pid := procs[pid].(queue := procs[pid].queue + [message])];
      if procs[pid].state == WAITING {
        procs := procs[pid := procs[pid].(state := READY)];
        var core := procs[pid].core;
        if pid !in ready[core] {
          ready := ready[core := ready[core] + [pid]];
        }
      }
    }

    method GetNextProcess(core: Core) returns (found: Option<Pid>)
      requires Shaped(State()) && core < |ready|
      modifies this`ready, this`pending
      ensures State() == DoNext(old(State()), core)
      ensures found == PopReady(old(State()), core, old(ready)[core]).0
    {
      ghost var before := State();
      while ready[core] != []
        invariant |ready| == |before.ready| && State() == before.(ready := before.ready[core := ready[core]])
        invariant PopReady(before, core, ready[core]) == PopReady(before, core, before.ready[core])
        decreases |ready[core]|
      {
        var pid := ready[core][0];
        PopUnfolds(before, core, ready[core]);
        ready := ready[core := ready[core][1..]];
        if pid in active[core] && pid in procs && procs[pid].state == READY {
          pending := pending + multiset{pid};
          return Some(pid);
        }
      }
      return None;
    }

    method BeginSlice(pid: Pid)
      requires pid in procs
      modifies this`procs, this`pending, this`running
      ensures State() == DoBegin(old(State()), pid)
    {
      procs := procs[pid := procs[pid].(state := RUNNING)];
      pending, running := pending - multiset{pid}, running + multiset{pid};
    }

    method HandleMessage(pid: Pid, stop: bool) returns (message: Option<Message>)
      requires pid in procs
      modifies this`procs
      ensures State() == DoHandle(old(State()), pid, stop)
      ensures message == if old(procs)[pid].queue == [] then None else Some(old(procs)[pid].queue[0])
    {
      if procs[pid].queue == [] {
        return None;
      }
      message := Some(procs[pid].queue[0]);
      procs := procs[pid := procs[pid].(queue := procs[pid].queue[1..])];
      if stop {
        procs := procs[pid := procs[pid].(state := TERMINATED)];
      }
    }

    method HandleVoluntaryYield(pid: Pid)
      requires Shaped(State()) && pid in procs
      modifies this`procs, this`ready, this`running
      ensures State() == DoYield(old(State()), pid)
    {
      if procs[pid].queue != [] {
        procs := procs[pid := procs[pid].(state := READY)];
        ready := ready[procs[pid].core := ready[procs[pid].core] + [pid]];
      } else {
        procs := procs[pid := procs[pid].(state := WAITING)];
      }
      running := running - multiset{pid};
    }

    method HandlePreemption(pid: Pid)
      requires Shaped(State()) && pid in procs
      modifies this`procs, this`ready, this`running
      ensures State() == DoPreempt(old(State()), pid)
    {
      if procs[pid].state == RUNNING {
        procs := procs[pid := procs[pid].(state := READY)];
        ready := ready[procs[pid].core := ready[procs[pid].core] + [pid]];
      }
      running := running - multiset{pid};
    }

    method HandleProcessError(pid: Pid)
      requires pid in procs
      modifies this`procs, this`running
      ensures State() == DoCrash(old(State()), pid)
    {
      procs := procs[pid := procs[pid].(state := TERMINATED)];
      running := running - multiset{pid};
    }

    method CanSteal(pid: Pid, victim: Core, eligible: Eligible) returns (ok: bool)
      requires victim < |active|
      ensures ok == (pid in active[victim] && CanBeStolen(State(), pid, eligible))
    {
      ok := && pid in active[victim] && pid in procs && (procs[pid].state == READY || procs[pid].state == WAITING)
            && pid in eligible.cheap && (procs[pid].queue != [] || pid in eligible.recent);
    }

    method FindStealable(victim: Core, eligible: Eligible) returns (last: Option<Pid>)
      requires Shaped(State()) && victim < |ready|
      ensures last == LastStealable(State(), victim, ready[victim], eligible)
    {
      var found: seq<Pid> := [];
      for i := 0 to |ready[victim]|
        invariant found == Stealable(State(), victim, ready[victim][..i], eligible)
      {
        assert ready[victim][..i + 1][..i] == ready[victim][..i];
        var ok := CanSteal(ready[victim][i], victim, eligible);
        found := found + if ok then [ready[victim][i]] else [];
      }
      assert ready[victim][..|ready[victim]|] == ready[victim];
      StealableEndsWithLast(State(), victim, ready[victim], eligible);
      last := if found == [] then None else Some(found[|found| - 1]);
    }

    method PerformSteal(thief: Core, victim: Core, eligible: Eligible) returns (stolen: Option<Pid>)
      requires Shaped(State()) && thief < |ready| && victim < |ready| && thief != victim
      modifies this`procs, this`active, this`ready
      ensures (State(), stolen) == DoSteal(old(State()), thief, victim, eligible)
    {
      stolen := FindStealable(victim, eligible);
      LastStealableIsThere(State(), victim, ready[victim], eligible);
      if stolen.None? {
        return None;
      }
      var pid := stolen.value;
      active := active[victim := active[victim] - {pid}];
      ready := ready[victim := Removed(ready[victim], pid)];
      procs := procs[pid := procs[pid].(core := thief, state := READY)];
      active := active[thief := active[thief] + {pid}];
      ready := ready[thief := ready[thief] + [pid]];
    }

    method MigrateProcess(pid: Pid, target: Core) returns (ok: bool)
      requires Shaped(State()) && target < |ready|
      modifies this`procs, this`active, this`ready
      ensures (State(), ok) == DoMigrate(old(State()), pid, target)
      ensures pid !in old(table) || old(procs)[pid].core == target ==> State() == old(State()) && ok == (pid in old(table))
    {
      if pid !in table {
        return false;
      }
      if procs[pid].core == target {
        return true;
      }
      var _ := RemoveProcess(pid, procs[pid].core);
      ok := AddProcess(pid, target);
    }
  }
}
