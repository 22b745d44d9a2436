/** The references that a whole round of restarts makes, one after the other, in either supervisor. */
module RestartRounds {
  import opened Wrappers
  import P = ProcessTable
  import L = Lifecycle
  import S = Supervisor
  import D = DynamicSupervisor
  import opened RestartRefs

  /** What child number `i` is monitored under when process `w` starts to monitor `kids` in turn. */
  function RefAt(T: P.Table, w: P.Pid, kids: seq<P.Pid>, i: nat): P.Ref
    requires w in T && i <= |kids|
  {
    StillThere(T, w, kids[..i]);
    L.NextRef(Watching(T, w, kids[..i]), w)
  }

  lemma {:induction false} StillThere(T: P.Table, w: P.Pid, kids: seq<P.Pid>)
    ensures Watching(T, w, kids).Keys == T.Keys
  {
    if kids != [] {
      StillThere(T, w, kids[..|kids| - 1]);
    }
  }

  /** The `j`-th reference from now on, if each new monitor made one more. */
  function Later(T: P.Table, w: P.Pid, j: nat): P.Ref
    requires w in T
  {
    P.Ref(w, |T[w].monitors| + j)
  }

  predicate NoneInUse(T: P.Table, w: P.Pid, n: nat)
    requires w in T
  {
    forall j: nat :: j < n ==> Later(T, w, j) !in T[w].monitors
  }

  /** As long as no reference was in use, each is one further. */
  lemma {:induction false} CountsOn(T: P.Table, w: P.Pid, kids: seq<P.Pid>)
    requires w in T && (forall k :: k in kids ==> k in T) && NoneInUse(T, w, |kids|)
    ensures var U := Watching(T, w, kids);
            && w in U && |U[w].monitors| == |T[w].monitors| + |kids|
            && forall r :: r in U[w].monitors <==> r in T[w].monitors
                                                   || (r.owner == w && |T[w].monitors| <= r.index < |U[w].monitors|)
  {
    if kids != [] {
      var n := |kids| - 1;
      CountsOn(T, w, kids[..n]);
      StillThere(T, w, kids[..n]);
      var U := Watching(T, w, kids[..n]);
      assert Later(T, w, n) !in T[w].monitors;
      MonitoredOne(U, w, kids[n]);
    }
  }

  /** At the first one in use the count stops: the next monitor is made under the same reference. */
  lemma StopsAt(T: P.Table, w: P.Pid, kids: seq<P.Pid>, i: nat)
    requires w in T && (forall k :: k in kids ==> k in T) && i < |kids| && NoneInUse(T, w, i)
    ensures RefAt(T, w, kids, i) == Later(T, w, i)
    ensures Later(T, w, i) in T[w].monitors ==> RefAt(T, w, kids, i + 1) == RefAt(T, w, kids, i)
  {
    CountsOn(T, w, kids[..i]);
    StillThere(T, w, kids[..i]);
    var U := Watching(T, w, kids[..i]);
    assert kids[..i + 1][..i] == kids[..i];
    MonitoredOne(U, w, kids[i]);
    if Later(T, w, i) in T[w].monitors {
      var V := Watching(T, w, kids[..i + 1]);
      assert V[w].monitors.Keys == U[w].monitors.Keys;
      assert |V[w].monitors| == |V[w].monitors.Keys| && |U[w].monitors| == |U[w].monitors.Keys|;
    }
  }

  lemma {:induction false} FirstInUse(T: P.Table, w: P.Pid, n: nat) returns (j: nat)
    requires w in T && !NoneInUse(T, w, n)
    ensures j < n && NoneInUse(T, w, j) && Later(T, w, j) in T[w].monitors
  {
    if NoneInUse(T, w, n - 1) {
      j := n - 1;
    } else {
      j := FirstInUse(T, w, n - 1);
    }
  }

  // ---------- Over all the children ----------

  /** No two children are monitored under the same reference. */
  ghost predicate Apart(refs: map<S.Id, Option<S.Ref>>) {
    forall a, b :: a in refs && b in refs && a != b && refs[a].Some? ==> refs[a] != refs[b]
  }

  predicate HeldByOther(refs: map<S.Id, Option<S.Ref>>, victims: seq<S.Id>, ref: S.Ref) {
    exists id :: id in refs && id !in victims && refs[id] == Some(ref)
  }

  /** The victims got the references that the backend made in turn, and the others, which process `w` monitors, kept
      theirs. */
  ghost predicate Renewed(before: map<S.Id, Option<S.Ref>>, after: map<S.Id, Option<S.Ref>>, victims: seq<S.Id>,
          T: P.Table, w: P.Pid, kids: seq<P.Pid>, name: P.Ref -> S.Ref)
  {
    && w in T && (forall k :: k in kids ==> k in T)
    && S.Distinct(victims) && |kids| == |victims| && after.Keys == before.Keys && (forall v :: v in victims ==> v in before)
    && (forall i :: 0 <= i < |victims| ==> after[victims[i]] == Some(name(RefAt(T, w, kids, i))))
    && (forall id :: id in before && id !in victims ==> after[id] == before[id])
    && (forall id :: id in before && id !in victims && before[id].Some? ==>
          exists q :: q in T[w].monitors && before[id] == Some(name(q)))
  }

  /** None of the references for the victims was in use, and the last one is no other child's. */
  ghost predicate Clear(before: map<S.Id, Option<S.Ref>>, victims: seq<S.Id>, T: P.Table, w: P.Pid,
          name: P.Ref -> S.Ref)
    requires w in T
  {
    victims == []
    || (NoneInUse(T, w, |victims| - 1) && !HeldByOther(before, victims, name(Later(T, w, |victims| - 1))))
  }

  lemma NotClear(before: map<S.Id, Option<S.Ref>>, after: map<S.Id, Option<S.Ref>>, victims: seq<S.Id>, T: P.Table,
          w: P.Pid, kids: seq<P.Pid>, name: P.Ref -> S.Ref)
    requires Renewed(before, after, victims, T, w, kids, name) && !Clear(before, victims, T, w, name)
    ensures !Apart(after)
  {
    var n := |victims| - 1;
    if !NoneInUse(T, w, n) {
      var j := FirstInUse(T, w, n);
      StopsAt(T, w, kids, j);
      assert after[victims[j]] == after[victims[j + 1]] && victims[j] != victims[j + 1];
    } else {
      var id :| id in before && id !in victims && before[id] == Some(name(Later(T, w, n)));
      StopsAt(T, w, kids, n);
      assert after[victims[n]] == after[id] && victims[n] != id;
    }
  }

  lemma ClearPair(before: map<S.Id, Option<S.Ref>>, after: map<S.Id, Option<S.Ref>>, victims: seq<S.Id>, T: P.Table,
          w: P.Pid, kids: seq<P.Pid>, name: P.Ref -> S.Ref, i: nat, b: S.Id)
    requires Renewed(before, after, victims, T, w, kids, name) && Clear(before, victims, T, w, name) && Injective(name)
    requires i < |victims| && b in before && b != victims[i]
    ensures after[victims[i]] != after[b]
  {
    StopsAt(T, w, kids, i);
    assert after[victims[i]] == Some(name(Later(T, w, i)));
    if b in victims {
      var j :| 0 <= j < |victims| && victims[j] == b;
      StopsAt(T, w, kids, j);
      assert Later(T, w, i) != Later(T, w, j);
    } else if before[b].Some? {
      var q :| q in T[w].monitors && before[b] == Some(name(q));
      assert i < |victims| - 1 ==> q != Later(T, w, i);
    }
  }

  /** After a round no two children share a reference, just when it was clear. */
  lemma RenewedApartIff(before: map<S.Id, Option<S.Ref>>, after: map<S.Id, Option<S.Ref>>, victims: seq<S.Id>, T: P.Table,
          w: P.Pid, kids: seq<P.Pid>, name: P.Ref -> S.Ref)
    requires Renewed(before, after, victims, T, w, kids, name) && Injective(name) && Apart(before)
    ensures Apart(after) <==> Clear(before, victims, T, w, name)
  {
    if !Clear(before, victims, T, w, name) {
      NotClear(before, after, victims, T, w, kids, name);
    } else {
      forall a, b | a in after && b in after && a != b && after[a].Some? ensures after[a] != after[b] {
        hide Clear, RefAt;
        if a in victims {
          var i :| 0 <= i < |victims| && victims[i] == a;
          ClearPair(before, after, victims, T, w, kids, name, i, b);
        } else if b in victims {
          var j :| 0 <= j < |victims| && victims[j] == b;
          ClearPair(before, after, victims, T, w, kids, name, j, a);
        }
      }
    }
  }

  // ---------- The static supervisor ----------

  function Refs(children: map<S.Id, S.Child>): map<S.Id, Option<S.Ref>> {
    map id | id in children :: children[id].ref
  }

  /** Every start of the round goes well, under the references that the backend makes in turn. */
  ghost predicate StartsInTurn(victims: seq<S.Id>, tries: seq<S.Try>, T: P.Table, w: P.Pid, kids: seq<P.Pid>,
          name: P.Ref -> S.Ref)
  {
    && w in T && (forall k :: k in kids ==> k in T) && |kids| == |victims| <= |tries|
    && forall i :: 0 <= i < |victims| ==> tries[i].start.Started? && tries[i].start.ref == name(RefAt(T, w, kids, i))
  }

  /** The children that are not restarted are monitored by process `w`. */
  ghost predicate OthersWatched(refs: map<S.Id, Option<S.Ref>>, victims: seq<S.Id>, T: P.Table, w: P.Pid,
          name: P.Ref -> S.Ref)
    requires w in T
  {
    forall id :: id in refs && id !in victims && refs[id].Some? ==>
      exists q :: q in T[w].monitors && refs[id] == Some(name(q))
  }

  /** After a round of any strategy that restarted all its victims, every DOWN finds its own child just when the round was
      clear. */
  lemma RoundFindsOwnIff(s: S.Sup, cfg: S.Config, dead: S.Id, reason: S.Reason, world: S.World, T: P.Table, w: P.Pid,
          kids: seq<P.Pid>, name: P.Ref -> S.Ref)
    requires S.Listed(s) && dead in s.order && S.Answers(s, world) && S.RefsDistinct(s) && Injective(name)
    requires reason != S.Shutdown && reason != S.SupervisorShutdown && S.Round(s, cfg, dead, reason, world).1 == S.Done
    requires StartsInTurn(S.Victims(s, cfg.strategy, dead), world.tries, T, w, kids, name)
    requires OthersWatched(Refs(s.children), S.Victims(s, cfg.strategy, dead), T, w, name)
    ensures var t := S.Round(s, cfg, dead, reason, world).0;
            && S.Listed(t)
            && (FindsOwn(t) <==> Clear(Refs(s.children), S.Victims(s, cfg.strategy, dead), T, w, name))
  {
    var victims := S.Victims(s, cfg.strategy, dead);
    var (t, v, _) := S.Round(s, cfg, dead, reason, world);
    S.VictimsListed(s, cfg.strategy, dead);
    S.RoundRestartsAPrefix(s, cfg, dead, reason, world);
    var k: nat :| S.RestartedUpTo(s, t, victims, cfg.strategy, world.tries, k, v);
    hide S.Round, S.Victims, S.Answers;
    FindsOwnIff(t);
    ApartIff(s);
    ApartIff(t);
    RoundRenews(s, t, victims, cfg.strategy, world.tries, k, T, w, kids, name);
    hide *;
    RenewedApartIff(Refs(s.children), Refs(t.children), victims, T, w, kids, name);
  }

  lemma RoundRenews(s: S.Sup, t: S.Sup, victims: seq<S.Id>, strategy: S.Strategy, tries: seq<S.Try>, k: nat, T: P.Table,
          w: P.Pid, kids: seq<P.Pid>, name: P.Ref -> S.Ref)
    requires S.RestartedUpTo(s, t, victims, strategy, tries, k, S.Done) && S.Distinct(victims)
    requires StartsInTurn(victims, tries, T, w, kids, name) && OthersWatched(Refs(s.children), victims, T, w, name)
    ensures Renewed(Refs(s.children), Refs(t.children), victims, T, w, kids, name)
  {
    hide RefAt;
  }

  lemma ApartIff(s: S.Sup)
    ensures Apart(Refs(s.children)) <==> S.RefsDistinct(s)
  {
    var refs := Refs(s.children);
    assert forall id :: id in s.children ==> refs[id] == s.children[id].ref;
    if Apart(refs) {
      forall a, b | a in s.children && b in s.children && a != b && s.children[a].ref.Some?
        ensures s.children[a].ref != s.children[b].ref
      {
        assert a in refs && b in refs && refs[a] != refs[b];
      }
    }
  }

  // ---------- The dynamic supervisor ----------

  function DynamicRefs(children: map<S.Id, D.Child>): map<S.Id, Option<S.Ref>> {
    map id | id in children :: children[id].ref
  }

  ghost predicate DynamicStartsInTurn(victims: seq<S.Id>, starts: seq<D.Start>, T: P.Table, w: P.Pid, kids: seq<P.Pid>,
          name: P.Ref -> S.Ref)
  {
    && w in T && (forall k :: k in kids ==> k in T) && |kids| == |victims| <= |starts|
    && forall i :: 0 <= i < |victims| ==> starts[i].Started? && starts[i].ref == name(RefAt(T, w, kids, i))
  }

  /** The DOWN of a child's present monitor finds that child. */
  ghost predicate DynamicFindsOwn(s: D.Sup) {
    forall id :: id in s.children && s.children[id].ref.Some? ==>
      D.Find(s, D.Items(s), s.children[id].ref.value) == Some(id)
  }

  lemma DynamicApartIff(s: D.Sup)
    requires D.Tracked(s)
    ensures Apart(DynamicRefs(s.children)) <==> DynamicFindsOwn(s)
  {
    var refs := DynamicRefs(s.children);
    assert forall id :: id in s.children ==> refs[id] == s.children[id].ref;
    if Apart(refs) {
      forall id | id in s.children && s.children[id].ref.Some?
        ensures D.Find(s, D.Items(s), s.children[id].ref.value) == Some(id)
      {
        var found := D.Find(s, D.Items(s), s.children[id].ref.value);
        D.DownMisses(s, s.children[id].ref.value);
        assert found.Some? && refs[found.value] == refs[id];
      }
    }
    if DynamicFindsOwn(s) {
      forall a, b | a in refs && b in refs && a != b && refs[a].Some? ensures refs[a] != refs[b] {
        assert D.Find(s, D.Items(s), s.children[a].ref.value) == Some(a);
      }
    }
  }

  /** The same for the dynamic supervisor. */
  lemma DynamicRoundFindsOwnIff(s: D.Sup, strategy: S.Strategy, id: S.Id, world: D.World, T: P.Table, w: P.Pid,
          kids: seq<P.Pid>, name: P.Ref -> S.Ref)
    requires D.Listed(s) && id in s.children && D.Answers(s, world) && DynamicFindsOwn(s) && Injective(name)
    requires id in D.Everyone(s)
    requires DynamicStartsInTurn(D.Victims(s, strategy, id), world.starts, T, w, kids, name)
    requires OthersWatched(DynamicRefs(s.children), D.Victims(s, strategy, id), T, w, name)
    ensures var t := D.Round(s, strategy, id, world).0;
            DynamicFindsOwn(t) <==> Clear(DynamicRefs(s.children), D.Victims(s, strategy, id), T, w, name)
  {
    var victims := D.Victims(s, strategy, id);
    var (t, v, _) := D.Round(s, strategy, id, world);
    D.VictimsListed(s, strategy, id);
    var k := D.RestartAllInOrder(s, victims, world.starts);
    var (u, v') := D.RestartAll(s, victims, world.starts);
    assert v' == D.Done && u == t && k == |victims|;
    D.RoundKeepsLists(s, strategy, id, world);
    D.SameListsKeeps(s, t);
    assert D.Tracked(s) && D.Tracked(t);
    hide D.Round, D.Victims, D.Answers, D.RestartAll, D.Tracked, D.Listed;
    DynamicApartIff(s);
    DynamicApartIff(t);
    DynamicRoundRenews(s, t, victims, world.starts, k, T, w, kids, name);
    hide *;
    RenewedApartIff(DynamicRefs(s.children), DynamicRefs(t.children), victims, T, w, kids, name);
  }

  lemma DynamicRoundRenews(s: D.Sup, t: D.Sup, victims: seq<S.Id>, starts: seq<D.Start>, k: nat, T: P.Table, w: P.Pid,
          kids: seq<P.Pid>, name: P.Ref -> S.Ref)
    requires D.RestartedUpTo(s, t, victims, starts, k, D.Done) && S.Distinct(victims)
    requires DynamicStartsInTurn(victims, starts, T, w, kids, name)
    requires OthersWatched(DynamicRefs(s.children), victims, T, w, name)
    ensures Renewed(DynamicRefs(s.children), DynamicRefs(t.children), victims, T, w, kids, name)
  {
    hide RefAt;
  }
}
