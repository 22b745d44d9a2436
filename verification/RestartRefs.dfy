/** The supervisor on top of the backend: a restarted child is monitored under the reference that the backend makes next,
    and that reference may be in use. */
module RestartRefs {
  import opened Wrappers
  import P = ProcessTable
  import E = ExitPaths
  import L = Lifecycle
  import S = Supervisor
  import RestartWindow

  /** How a reference is written: different references look different. */
  ghost predicate Injective(name: P.Ref -> S.Ref) {
    forall a, b :: name(a) == name(b) ==> a == b
  }

  /** Apart from `dead`, the children hold just the references under which process `w` has monitors. */
  ghost predicate Holds(s: S.Sup, dead: S.Id, T: P.Table, w: P.Pid, name: P.Ref -> S.Ref) {
    && w in T
    && (forall r :: r in T[w].monitors
                    <==> exists id :: id in s.children && id != dead && s.children[id].ref == Some(name(r)))
  }

  /** The DOWN of a child's present monitor finds that child. */
  ghost predicate FindsOwn(s: S.Sup)
    requires S.Listed(s)
  {
    forall id :: id in s.children && s.children[id].ref.Some? ==> S.Find(s, s.order, s.children[id].ref.value) == Some(id)
  }

  lemma FindsOwnIff(s: S.Sup)
    requires S.Listed(s)
    ensures FindsOwn(s) <==> S.RefsDistinct(s)
  {
    if S.RefsDistinct(s) {
      forall id | id in s.children && s.children[id].ref.Some?
        ensures S.Find(s, s.order, s.children[id].ref.value) == Some(id)
      {
        S.FindIsExact(s, id, s.children[id].ref.value);
      }
    }
  }

  /** One-for-one restarted `dead` as `pid`, monitored under the backend's next reference. */
  ghost predicate Restarted(s: S.Sup, t: S.Sup, cfg: S.Config, dead: S.Id, reason: S.Reason, w: S.World, pid: S.Pid,
          ref: S.Ref)
  {
    && S.Listed(s) && dead in s.order && S.Answers(s, w) && cfg.strategy == S.OneForOne
    && reason != S.Shutdown && reason != S.SupervisorShutdown
    && w.tries[0].start == S.Started(pid, ref)
    && S.Round(s, cfg, dead, reason, w) == (t, S.Done, [])
  }

  lemma RestartedTable(s: S.Sup, t: S.Sup, cfg: S.Config, dead: S.Id, reason: S.Reason, w: S.World, pid: S.Pid,
          ref: S.Ref)
    requires Restarted(s, t, cfg, dead, reason, w, pid, ref)
    ensures dead in s.children && t.order == s.order
    ensures t.children == s.children[dead := S.Child(Some(pid), Some(ref), s.children[dead].restarts + 1)]
    ensures S.Listed(t)
  {
    var (u, v) := S.RestartOne(s, cfg, dead, w.tries[0]);
    assert S.RestartAll(s, cfg, [dead], w.tries).1 == S.Done;
    assert S.RestartAll(u, cfg, [dead][1..], w.tries[1..]) == (u, S.Done);
  }

  /** After a restart every DOWN finds its own child just when the backend's next reference was not in use. */
  lemma RestartFindsOwnIff(s: S.Sup, t: S.Sup, cfg: S.Config, dead: S.Id, reason: S.Reason, w: S.World, pid: S.Pid,
          T: P.Table, sup: P.Pid, name: P.Ref -> S.Ref)
    requires S.RefsDistinct(s) && Injective(name) && Holds(s, dead, T, sup, name)
    requires Restarted(s, t, cfg, dead, reason, w, pid, name(L.NextRef(T, sup)))
    ensures S.Listed(t) && (FindsOwn(t) <==> L.NextRef(T, sup) !in T[sup].monitors)
  {
    var ref := L.NextRef(T, sup);
    RestartedTable(s, t, cfg, dead, reason, w, pid, name(ref));
    FindsOwnIff(t);
    assert ref in T[sup].monitors <==> exists id :: id in s.children && id != dead && s.children[id].ref == Some(name(ref));
    hide *;
    DistinctIff(s, t, dead, name(ref));
  }

  lemma DistinctIff(s: S.Sup, t: S.Sup, dead: S.Id, ref: S.Ref)
    requires S.RefsDistinct(s) && dead in s.children && t.children.Keys == s.children.Keys
    requires t.children[dead].ref == Some(ref)
    requires forall id :: id in s.children && id != dead ==> t.children[id].ref == s.children[id].ref
    ensures S.RefsDistinct(t) <==> !exists id :: id in s.children && id != dead && s.children[id].ref == Some(ref)
  {
  }

  // ---------- References are numbered by the monitors a process has ----------

  /** Process `w` monitors each of `kids` in turn. */
  function Watching(T: P.Table, w: P.Pid, kids: seq<P.Pid>): P.Table {
    if kids == [] then T else L.Monitored(Watching(T, w, kids[..|kids| - 1]), w, kids[|kids| - 1])
  }

  function Numbered(w: P.Pid, kids: seq<P.Pid>): map<P.Ref, P.Pid> {
    if kids == [] then map[] else Numbered(w, kids[..|kids| - 1])[P.Ref(w, |kids| - 1) := kids[|kids| - 1]]
  }

  lemma {:induction false} NumberedKeys(w: P.Pid, kids: seq<P.Pid>)
    ensures |Numbered(w, kids)| == |kids|
    ensures forall r :: r in Numbered(w, kids) <==> r.owner == w && r.index < |kids|
    ensures forall j :: 0 <= j < |kids| ==> Numbered(w, kids)[P.Ref(w, j)] == kids[j]
  {
    if kids != [] {
      NumberedKeys(w, kids[..|kids| - 1]);
    }
  }

  predicate Distinct(kids: seq<P.Pid>) {
    forall i, j :: 0 <= i < j < |kids| ==> kids[i] != kids[j]
  }

  /** `w` watches nobody yet, and none of `kids` is watched by `w`. */
  ghost predicate Unwatched(T: P.Table, w: P.Pid, kids: seq<P.Pid>) {
    && w in T && T[w].monitors == map[] && Distinct(kids)
    && (forall k :: k in kids ==> k in T && P.RefsHeldBy(T[k].monitoredBy, w) == {})
  }

  lemma MonitoredOne(T: P.Table, w: P.Pid, v: P.Pid)
    requires w in T && v in T
    ensures var U, ref := L.Monitored(T, w, v), L.NextRef(T, w);
            && U.Keys == T.Keys && U[w].monitors == T[w].monitors[ref := v]
            && P.RefsHeldBy(U[v].monitoredBy, w) == P.RefsHeldBy(T[v].monitoredBy, w) + {ref}
            && (forall k :: k in T && k != v ==> U[k].monitoredBy == T[k].monitoredBy)
  {
    var U, ref := L.Monitored(T, w, v), L.NextRef(T, w);
    assert U[v].monitoredBy == T[v].monitoredBy[ref := w];
  }

  /** `U` is `T` once `w` monitors `kids`, each under its number. */
  ghost predicate Monitors(T: P.Table, U: P.Table, w: P.Pid, kids: seq<P.Pid>) {
    && w in T && U.Keys == T.Keys && (forall k :: k in kids ==> k in T) && U[w].monitors == Numbered(w, kids)
    && (forall j :: 0 <= j < |kids| ==> P.RefsHeldBy(U[kids[j]].monitoredBy, w) == {P.Ref(w, j)})
    && (forall k :: k in T && k !in kids ==> U[k].monitoredBy == T[k].monitoredBy)
  }

  lemma RefsOfOneMore(T: P.Table, U: P.Table, V: P.Table, w: P.Pid, kids: seq<P.Pid>, j: nat)
    requires j < |kids| && Unwatched(T, w, kids) && Monitors(T, U, w, kids[..|kids| - 1]) && V.Keys == U.Keys
    requires var n := |kids| - 1;
             && P.RefsHeldBy(V[kids[n]].monitoredBy, w) == P.RefsHeldBy(U[kids[n]].monitoredBy, w) + {P.Ref(w, n)}
             && (forall k :: k in U && k != kids[n] ==> V[k].monitoredBy == U[k].monitoredBy)
    ensures P.RefsHeldBy(V[kids[j]].monitoredBy, w) == {P.Ref(w, j)}
  {
    var n := |kids| - 1;
    hide P.RefsHeldBy, Numbered;
    if j < n {
      assert kids[..n][j] == kids[j] != kids[n];
    } else {
      assert kids[n] !in kids[..n] && kids[n] in kids;
      assert P.RefsHeldBy(T[kids[n]].monitoredBy, w) == {};
    }
  }

  lemma NextIsNumber(T: P.Table, w: P.Pid, kids: seq<P.Pid>)
    requires w in T && kids != [] && T[w].monitors == Numbered(w, kids[..|kids| - 1])
    ensures L.NextRef(T, w) == P.Ref(w, |kids| - 1)
    ensures T[w].monitors[P.Ref(w, |kids| - 1) := kids[|kids| - 1]] == Numbered(w, kids)
  {
    NumberedKeys(w, kids[..|kids| - 1]);
  }

  lemma OneMoreMonitor(T: P.Table, U: P.Table, w: P.Pid, kids: seq<P.Pid>)
    requires kids != [] && Unwatched(T, w, kids) && Monitors(T, U, w, kids[..|kids| - 1])
    ensures Monitors(T, L.Monitored(U, w, kids[|kids| - 1]), w, kids)
  {
    var n := |kids| - 1;
    assert kids[n] in T && forall k :: k in kids ==> k in T;
    hide L.Monitored, L.NextRef, P.RefsHeldBy, Numbered, Unwatched, Distinct;
    NextIsNumber(U, w, kids);
    MonitoredOne(U, w, kids[n]);
    var V := L.Monitored(U, w, kids[n]);
    forall j | 0 <= j < |kids| ensures P.RefsHeldBy(V[kids[j]].monitoredBy, w) == {P.Ref(w, j)} {
      RefsOfOneMore(T, U, V, w, kids, j);
    }
    forall k | k in T && k !in kids ensures V[k].monitoredBy == T[k].monitoredBy {
      assert k !in kids[..n] && k != kids[n];
    }
  }

  /** The children of a supervisor are monitored under the numbers of their starts. */
  lemma {:induction false} WatchingIsNumbered(T: P.Table, w: P.Pid, kids: seq<P.Pid>)
    requires Unwatched(T, w, kids)
    ensures Monitors(T, Watching(T, w, kids), w, kids)
  {
    if kids != [] {
      var n := |kids| - 1;
      assert Unwatched(T, w, kids[..n]);
      WatchingIsNumbered(T, w, kids[..n]);
      hide Unwatched, Monitors, L.Monitored;
      OneMoreMonitor(T, Watching(T, w, kids[..n]), w, kids);
    }
  }

  /** A child that ended, and brought nobody down, has left the monitors of its supervisor. */
  lemma EndLeavesMonitors(a: L.Sys, b: L.Sys, kid: P.Pid, reason: P.Reason, w: P.Pid, ref: P.Ref)
    requires L.Next(a, L.End(kid, reason), b) && reason != P.Killed && kid in a.procs && w in a.procs
    requires E.Casualties(a.procs, kid, reason) == {} && P.RefsHeldBy(a.procs[kid].monitoredBy, w) == {ref}
    ensures w in b.procs && b.procs[w].monitors == a.procs[w].monitors - {ref}
  {
    assert E.EndedAt(a.procs, b.procs[w], w, kid, {}, reason);
    assert {} + {kid} == {kid};
    assert ref in P.RefsHeldBy(a.procs[kid].monitoredBy, w);
    forall r ensures P.Fired(a.procs, w, r, {kid}) <==> r == ref {
      assert r in P.RefsHeldBy(a.procs[kid].monitoredBy, w) <==> r == ref;
    }
  }

  /** A supervisor whose children were monitored in start order, and none of which has been restarted yet. */
  ghost predicate Fresh(s: S.Sup, T: P.Table, w: P.Pid, kids: seq<P.Pid>, name: P.Ref -> S.Ref) {
    && S.Listed(s) && |s.order| == |kids| && Unwatched(T, w, kids)
    && (forall j :: 0 <= j < |kids| ==> s.order[j] in s.children && s.children[s.order[j]].ref == Some(name(P.Ref(w, j))))
  }

  lemma FreshChild(s: S.Sup, T: P.Table, w: P.Pid, kids: seq<P.Pid>, name: P.Ref -> S.Ref, id: S.Id) returns (j: nat)
    requires Fresh(s, T, w, kids, name) && id in s.children
    ensures j < |kids| == |s.order| && s.order[j] == id && s.children[id].ref == Some(name(P.Ref(w, j)))
  {
    assert id in s.order;
    j :| 0 <= j < |s.order| && s.order[j] == id;
  }

  lemma FreshIsDistinct(s: S.Sup, T: P.Table, w: P.Pid, kids: seq<P.Pid>, name: P.Ref -> S.Ref)
    requires Fresh(s, T, w, kids, name) && Injective(name)
    ensures S.RefsDistinct(s)
  {
    forall x, y | x in s.children && y in s.children && x != y ensures s.children[x].ref != s.children[y].ref {
      var i := FreshChild(s, T, w, kids, name, x);
      var j := FreshChild(s, T, w, kids, name, y);
      assert P.Ref(w, i) != P.Ref(w, j);
    }
  }

  lemma FreshHolds(s: S.Sup, T: P.Table, w: P.Pid, kids: seq<P.Pid>, i: nat, U: P.Table, name: P.Ref -> S.Ref)
    requires Fresh(s, T, w, kids, name) && Injective(name) && i < |kids|
    requires w in U && forall r :: r in U[w].monitors <==> r.owner == w && r.index < |kids| && r.index != i
    ensures Holds(s, s.order[i], U, w, name)
  {
    forall r
      ensures r in U[w].monitors
              <==> exists id :: id in s.children && id != s.order[i] && s.children[id].ref == Some(name(r))
    {
      if r in U[w].monitors {
        assert r == P.Ref(w, r.index) && s.order[r.index] != s.order[i];
      }
      if id :| id in s.children && id != s.order[i] && s.children[id].ref == Some(name(r)) {
        var j := FreshChild(s, T, w, kids, name, id);
        assert r == P.Ref(w, j);
      }
    }
  }

  lemma OneLess(T: P.Table, w: P.Pid, kids: seq<P.Pid>, i: nat)
    requires i < |kids| && w in T && T[w].monitors == Numbered(w, kids) - {P.Ref(w, i)}
    ensures L.NextRef(T, w) == P.Ref(w, |kids| - 1)
    ensures forall r :: r in T[w].monitors <==> r.owner == w && r.index < |kids| && r.index != i
  {
    NumberedKeys(w, kids);
    assert T[w].monitors.Keys == Numbered(w, kids).Keys - {P.Ref(w, i)};
    assert |T[w].monitors| == |T[w].monitors.Keys| && |Numbered(w, kids)| == |Numbered(w, kids).Keys|;
  }

  /** So when a child of a fresh supervisor ends and is restarted, every DOWN still finds its own child just when that was
      the child started last. */
  lemma FirstRestartFindsOwnIff(s: S.Sup, t: S.Sup, cfg: S.Config, r: S.Reason, world: S.World, pid: S.Pid,
          T: P.Table, w: P.Pid, kids: seq<P.Pid>, i: nat, a: L.Sys, b: L.Sys, reason: P.Reason, name: P.Ref -> S.Ref)
    requires Fresh(s, T, w, kids, name) && Injective(name) && i < |kids|
    requires a.procs == Watching(T, w, kids) && L.Next(a, L.End(kids[i], reason), b)
    requires reason != P.Killed && kids[i] in a.procs && E.Casualties(a.procs, kids[i], reason) == {} && w in b.procs
    requires Restarted(s, t, cfg, s.order[i], r, world, pid, name(L.NextRef(b.procs, w)))
    ensures S.Listed(t) && (FindsOwn(t) <==> i == |kids| - 1)
  {
    WatchingIsNumbered(T, w, kids);
    EndLeavesMonitors(a, b, kids[i], reason, w, P.Ref(w, i));
    OneLess(b.procs, w, kids, i);
    FreshIsDistinct(s, T, w, kids, name);
    FreshHolds(s, T, w, kids, i, b.procs, name);
    hide Fresh, L.Next, Holds, FindsOwn, Restarted, Watching, E.Casualties;
    RestartFindsOwnIff(s, t, cfg, s.order[i], r, world, pid, b.procs, w, name);
  }

  /** Process 0 supervises 1 and 2. */
  function Three(): P.Table {
    map[0 := L.NewProcess(true, true, None), 1 := L.NewProcess(false, true, None), 2 := L.NewProcess(false, true, None)]
  }

  function TwoChildren(name: P.Ref -> S.Ref): S.Sup {
    S.Sup(map[S.Id("a") := S.Child(Some(S.Pid("1")), Some(name(P.Ref(0, 0))), 0),
              S.Id("b") := S.Child(Some(S.Pid("2")), Some(name(P.Ref(0, 1))), 0)],
          [S.Id("a"), S.Id("b")], [], [])
  }

  lemma FirstEndsNextIsOne(a: L.Sys, b: L.Sys)
    requires a.procs == Watching(Three(), 0, [1, 2]) && L.Next(a, L.End(1, P.Normal), b) && 0 in b.procs
    ensures L.NextRef(b.procs, 0) == P.Ref(0, 1)
  {
    WatchingIsNumbered(Three(), 0, [1, 2]);
    assert P.RefsHeldBy(a.procs[[1, 2][0]].monitoredBy, 0) == {P.Ref(0, 0)};
    assert E.Casualties(a.procs, 1, P.Normal) == {};
    hide Watching, P.RefsHeldBy;
    EndLeavesMonitors(a, b, 1, P.Normal, 0, P.Ref(0, 0));
    hide L.Next;
    OneLess(b.procs, 0, [1, 2], 0);
  }

  /** The first of two children ends and is restarted; from then on the DOWN of the second finds the first. */
  lemma SecondIsTakenForFirst(a: L.Sys, b: L.Sys, t: S.Sup, cfg: S.Config, r: S.Reason, world: S.World, pid: S.Pid,
          name: P.Ref -> S.Ref)
    requires Injective(name)
    requires a.procs == Watching(Three(), 0, [1, 2]) && L.Next(a, L.End(1, P.Normal), b) && 0 in b.procs
    requires Restarted(TwoChildren(name), t, cfg, S.Id("a"), r, world, pid, name(L.NextRef(b.procs, 0)))
    ensures S.Listed(t) && S.Id("b") in t.children
    ensures t.children[S.Id("b")].ref == Some(name(P.Ref(0, 1)))
    ensures S.Find(t, t.order, name(P.Ref(0, 1))) == Some(S.Id("a"))
  {
    FirstEndsNextIsOne(a, b);
    hide L.Next, Watching, Restarted;
    RestartedTable(TwoChildren(name), t, cfg, S.Id("a"), r, world, pid, name(P.Ref(0, 1)));
  }

  // ---------- Such a run exists ----------

  function Decimal(n: nat): string {
    (if n < 10 then [] else Decimal(n / 10)) + [('0' as int + n % 10) as char]
  }

  function Digit(c: char): int {
    c as int - '0' as int
  }

  function Value(digits: string): int {
    if digits == [] then 0 else Value(digits[..|digits| - 1]) * 10 + Digit(digits[|digits| - 1])
  }

  lemma {:induction false} DecimalIsRead(n: nat)
    ensures Value(Decimal(n)) == n && '.' !in Decimal(n)
  {
    var last := [('0' as int + n % 10) as char];
    if n >= 10 {
      DecimalIsRead(n / 10);
      assert (Decimal(n / 10) + last)[..|Decimal(n / 10)|] == Decimal(n / 10);
    } else {
      assert Decimal(n) == last && last[..0] == [];
    }
  }

  /** A reference as a string, `#Ref<owner.index>`. */
  function Written(ref: P.Ref): S.Ref {
    S.Ref("#Ref<" + (Decimal(ref.owner) + "." + Decimal(ref.index)) + ">")
  }

  lemma SplitsOnce(a: string, b: string, c: string, d: string)
    requires '.' !in a && '.' !in c && a + "." + b == c + "." + d
    ensures a == c && b == d
  {
    var s := a + "." + b;
    assert s[|a|] == '.' && (c + "." + d)[|c|] == '.';
    assert forall i :: 0 <= i < |a| ==> s[i] == a[i] != '.';
    assert forall i :: 0 <= i < |c| ==> s[i] == c[i] != '.';
    assert s[..|a|] == a && s[..|c|] == c && s[|a| + 1..] == b && s[|c| + 1..] == d;
  }

  lemma WrittenIsInjective()
    ensures Injective(Written)
  {
    forall a: P.Ref, b: P.Ref | Written(a) == Written(b) ensures a == b {
      var x, y := Decimal(a.owner) + "." + Decimal(a.index), Decimal(b.owner) + "." + Decimal(b.index);
      assert ("#Ref<" + x + ">")[5..|x| + 5] == x && ("#Ref<" + y + ">")[5..|y| + 5] == y;
      assert |"#Ref<" + x + ">"| == |"#Ref<" + y + ">"|;
      DecimalIsRead(a.owner);
      DecimalIsRead(b.owner);
      DecimalIsRead(a.index);
      DecimalIsRead(b.index);
      SplitsOnce(Decimal(a.owner), Decimal(a.index), Decimal(b.owner), Decimal(b.index));
    }
  }

  const LIMIT := S.Config(3, 5, S.OneForOne)
  const WORLD := S.World([true, true], [S.Try(0, S.Started(S.Pid("3"), Written(P.Ref(0, 1)))), S.Try(0, S.Failed)])

  /** With references as they are written, process 1 ends, its child is restarted as 3, and the DOWN of the second child
      finds it. */
  lemma SecondIsTaken() returns (b: L.Sys, t: S.Sup)
    ensures L.Next(L.Sys(Watching(Three(), 0, [1, 2]), multiset{}), L.End(1, P.Normal), b) && 0 in b.procs
    ensures Restarted(TwoChildren(Written), t, LIMIT, S.Id("a"), S.Normal, WORLD, S.Pid("3"), Written(L.NextRef(b.procs, 0)))
    ensures S.Id("b") in t.children && t.children[S.Id("b")].ref == Some(Written(P.Ref(0, 1)))
    ensures S.Listed(t) && S.Find(t, t.order, Written(P.Ref(0, 1))) == Some(S.Id("a"))
  {
    var a := L.Sys(Watching(Three(), 0, [1, 2]), multiset{});
    b := L.EndIsPossible(a, 1, P.Normal);
    WatchingIsNumbered(Three(), 0, [1, 2]);
    assert E.EndedAt(a.procs, b.procs[0], 0, 1, {}, P.Normal);
    FirstEndsNextIsOne(a, b);
    WrittenIsInjective();
    t := FirstIsRestarted();
    hide Restarted, Watching, L.Next, Written, Injective;
    SecondIsTakenForFirst(a, b, t, LIMIT, S.Normal, WORLD, S.Pid("3"), Written);
  }

  lemma FirstIsRestarted() returns (t: S.Sup)
    ensures Restarted(TwoChildren(Written), t, LIMIT, S.Id("a"), S.Normal, WORLD, S.Pid("3"), Written(P.Ref(0, 1)))
  {
    var s := TwoChildren(Written);
    var id := S.Id("a");
    assert s.children.Keys == {S.Id("a"), S.Id("b")};
    var (u, v) := S.RestartOne(s, LIMIT, id, WORLD.tries[0]);
    t := u;
    assert RestartWindow.Recorded([], 0, 5) == [0];
    assert v == S.Done;
    assert S.RestartAll(u, LIMIT, [id][1..], WORLD.tries[1..]) == (u, S.Done);
    assert S.RestartAll(s, LIMIT, [id], WORLD.tries) == (u, S.Done);
  }
}
