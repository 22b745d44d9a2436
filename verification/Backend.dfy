/** The exit handling of the asyncio backend, run step by step on its process table. */
module Backend {
  import opened Wrappers
  import opened ProcessTable
  import opened ExitPaths
  import opened Lifecycle

  /** An edge `(v, p)` is handled once `v`'s walk over its links has dealt with `p`. */
  type Handled = set<(Pid, Pid)>

  function HandledExits(E: Handled, p: Pid, reason: Reason): set<Message> {
    set e | e in E && e.1 == p :: Exit(Process(e.0), reason)
  }

  ghost predicate Targeted(E: Handled, p: Pid) {
    exists e :: e in E && e.1 == p
  }

  /** `q` is process `p` of `S` after the edges `E` were handled and the processes `D` were finished. */
  ghost predicate ProgressAt(S: Table, q: Proc, p: Pid, D: set<Pid>, E: Handled, reason: Reason)
    requires p in S
  {
    && SeveredAt(S, q, p, D)
    && (q.cancelled <==> S[p].cancelled || (S[p].taskLive && !Shielded(S[p]) && Targeted(E, p)))
    && S[p].inbox <= q.inbox
    && multiset(q.inbox) == multiset(S[p].inbox)
       + multiset(if Shielded(S[p]) then HandledExits(E, p, reason) else {})
       + multiset(if S[p].hasMailbox then DownsTo(S, D, p, reason, {}) else {})
  }

  ghost predicate Progress(S: Table, T: Table, D: set<Pid>, E: Handled, reason: Reason) {
    T.Keys == S.Keys && forall p :: p in S ==> ProgressAt(S, T[p], p, D, E, reason)
  }

  /** Facts about a walk from `root` with the processes `A` still active and `D` finished. */
  ghost predicate WalkInv(S: Table, root: Pid, A: set<Pid>, D: set<Pid>, E: Handled) {
    && A !! D && A + D <= S.Keys
    && (forall v :: v in A + D ==> Reachable(S, root, v) && (v == root || !Shielded(S[v])))
    && (forall v, w :: v in D && Edge(S, v, w) ==> w in A + D)
    && (forall e :: e in E ==> e.0 in A + D && e.1 in S && e.1 in S[e.0].links)
    && (forall v, p :: v in D && p in S && p in S[v].links ==> (v, p) in E || (p in D && p != root))
    && (forall v :: v in A + D && v != root ==> Targeted(E, v))
  }

  /** With nothing active left, the finished processes are the closure and the log gives the exact effect. */
  lemma WalkIsDone(S: Table, T: Table, root: Pid, D: set<Pid>, E: Handled, reason: Reason)
    requires WalkInv(S, root, {}, D, E) && root in D && Progress(S, T, D, E, reason)
    ensures D == Closure(S, root) && Cascaded(S, T, D, reason)
  {
    assert Closed(S, D);
    ClosureIsLeast(S, root, D);
    forall p | p in S ensures CascadedAt(S, T[p], p, D, reason) {
      assert ProgressAt(S, T[p], p, D, E, reason);
      if Shielded(S[p]) {
        forall v | v in D && v in S && p in S[v].links ensures Exit(Process(v), reason) in HandledExits(E, p, reason) {
          assert (v, p) in E;
        }
        assert ExitsTo(S, D, p, reason) == HandledExits(E, p, reason);
      }
      if Targeted(E, p) {
        var e :| e in E && e.1 == p;
        assert LinkedFrom(S, D, p);
      }
      if LinkedFrom(S, D, p) {
        var v :| v in D && v in S && p in S[v].links;
        assert (v, p) in E || (p in D && p != root);
        assert Targeted(E, p);
      }
    }
  }

  lemma NothingDoneYet(S: Table, root: Pid, reason: Reason)
    ensures Progress(S, S, {}, {}, reason) && WalkInv(S, root, {}, {}, {})
  {
    forall p | p in S ensures ProgressAt(S, S[p], p, {}, {}, reason) {
      assert MonitorsAfter(S, p, {}) == S[p].monitors;
    }
  }

  lemma OtherTarget(S: Table, q: Proc, p: Pid, D: set<Pid>, E: Handled, reason: Reason, e: (Pid, Pid))
    requires p in S && ProgressAt(S, q, p, D, E, reason) && e.1 != p
    ensures ProgressAt(S, q, p, D, E + {e}, reason)
  {
    assert HandledExits(E + {e}, p, reason) == HandledExits(E, p, reason);
    if Targeted(E + {e}, p) {
      var f :| f in E + {e} && f.1 == p;
      assert f in E;
    }
    if Targeted(E, p) {
      var f :| f in E && f.1 == p;
      assert f in E + {e};
    }
  }

  lemma CancelledTarget(S: Table, q: Proc, l: Pid, D: set<Pid>, E: Handled, reason: Reason, v: Pid)
    requires l in S && ProgressAt(S, q, l, D, E, reason) && !Shielded(S[l])
    ensures ProgressAt(S, q.(cancelled := q.cancelled || q.taskLive), l, D, E + {(v, l)}, reason)
  {
    assert (v, l) in E + {(v, l)};
  }

  lemma ExitTarget(S: Table, q: Proc, l: Pid, D: set<Pid>, E: Handled, reason: Reason, v: Pid)
    requires l in S && ProgressAt(S, q, l, D, E, reason) && Shielded(S[l]) && (v, l) !in E
    ensures ProgressAt(S, q.(inbox := q.inbox + [Exit(Process(v), reason)]), l, D, E + {(v, l)}, reason)
  {
    var m := Exit(Process(v), reason);
    assert HandledExits(E + {(v, l)}, l, reason) == HandledExits(E, l, reason) + {m} by {
      assert (v, l) in E + {(v, l)};
    }
    assert m !in HandledExits(E, l, reason);
    assert multiset(q.inbox + [m]) == multiset(q.inbox) + multiset{m};
  }

  /** Handling the edge `(v, l)` moves the log by that edge and touches `l` only. */
  lemma HandleOne(S: Table, T: Table, q: Proc, D: set<Pid>, E: Handled, reason: Reason, v: Pid, l: Pid)
    requires Progress(S, T, D, E, reason) && l in S
    requires ProgressAt(S, q, l, D, E + {(v, l)}, reason)
    ensures Progress(S, T[l := q], D, E + {(v, l)}, reason) && T[l := q].Keys == S.Keys
  {
    hide ProgressAt;
    forall p | p in S ensures ProgressAt(S, T[l := q][p], p, D, E + {(v, l)}, reason) {
      if p != l {
        assert ProgressAt(S, T[p], p, D, E, reason);
        OtherTarget(S, T[p], p, D, E, reason, (v, l));
      }
    }
  }

  /** The table after `v` has signalled its neighbour `l`. */
  function Signalled(T: Table, v: Pid, l: Pid, reason: Reason): Table
    requires l in T
  {
    if Shielded(T[l]) then Delivered(T, l, Exit(Process(v), reason))
    else if T[l].taskLive then T[l := T[l].(cancelled := true)]
    else T
  }

  /** The fields `T`, `names`, `downs` are those of a cascade that started at `S`, `N`, `W` and got to `D`, `E`. */
  ghost predicate Reached(T: Table, names: map<Name, Pid>, downs: multiset<DownKey>,
                          S: Table, N: map<Name, Pid>, W: multiset<DownKey>, D: set<Pid>, E: Handled, reason: Reason)
  {
    && Progress(S, T, D, E, reason)
    && names == N - NamesOf(S, D)
    && downs == W + multiset(DownsOf(S, D))
  }

  lemma SignalOne(S: Table, T: Table, D: set<Pid>, E: Handled, reason: Reason, v: Pid, l: Pid)
    requires Progress(S, T, D, E, reason) && l in S && (v, l) !in E
    ensures Shielded(T[l]) == Shielded(S[l])
    ensures Progress(S, Signalled(T, v, l, reason), D, E + {(v, l)}, reason)
    ensures Signalled(T, v, l, reason).Keys == S.Keys
  {
    var p := T[l];
    assert ProgressAt(S, p, l, D, E, reason);
    assert Shielded(p) == Shielded(S[l]);
    if Shielded(p) {
      ExitTarget(S, p, l, D, E, reason, v);
      HandleOne(S, T, p.(inbox := p.inbox + [Exit(Process(v), reason)]), D, E, reason, v, l);
    } else {
      CancelledTarget(S, p, l, D, E, reason, v);
      HandleOne(S, T, p.(cancelled := p.cancelled || p.taskLive), D, E, reason, v, l);
      assert !p.taskLive ==> T[l := p.(cancelled := p.cancelled || p.taskLive)] == T;
    }
  }

  /** The three loops that end a process's turn, as one step on one neighbour `p`. */
  ghost predicate FinishedAt(T: Table, q: Proc, p: Pid, pid: Pid, reason: Reason)
    requires p in T && pid in T
  {
    && q.traps == T[p].traps && q.hasMailbox == T[p].hasMailbox && q.name == T[p].name && q.taskLive == T[p].taskLive
    && q.cancelled == T[p].cancelled
    && q.links == (if p == pid then {} else if p in T[pid].links then T[p].links - {pid} else T[p].links)
    && q.monitors == T[p].monitors - RefsHeldBy(T[pid].monitoredBy, p)
    && q.monitoredBy == (if p == pid then map[] else T[p].monitoredBy)
    && T[p].inbox <= q.inbox
    && multiset(q.inbox) == multiset(T[p].inbox)
       + multiset(if T[p].hasMailbox then DownsTo(T, {pid}, p, reason, {}) else {})
  }

  ghost predicate Finished(T: Table, U: Table, pid: Pid, reason: Reason) {
    pid in T && U.Keys == T.Keys && forall p :: p in T ==> FinishedAt(T, U[p], p, pid, reason)
  }

  lemma DownsToOneMore(S: Table, T: Table, D: set<Pid>, pid: Pid, p: Pid, reason: Reason)
    requires pid in S && pid !in D && pid in T && T[pid].monitoredBy == S[pid].monitoredBy
    ensures multiset(DownsTo(S, D + {pid}, p, reason, {}))
            == multiset(DownsTo(S, D, p, reason, {})) + multiset(DownsTo(T, {pid}, p, reason, {}))
  {
    var more := DownsTo(T, {pid}, p, reason, {});
    assert DownsTo(S, D + {pid}, p, reason, {}) == DownsTo(S, D, p, reason, {}) + more;
    assert DownsTo(S, D, p, reason, {}) !! more;
  }

  lemma FinishAt(S: Table, T: Table, q: Proc, p: Pid, D: set<Pid>, E: Handled, reason: Reason, pid: Pid)
    requires T.Keys == S.Keys && p in S && pid in S && pid !in D
    requires ProgressAt(S, T[p], p, D, E, reason) && ProgressAt(S, T[pid], pid, D, E, reason)
    requires FinishedAt(T, q, p, pid, reason)
    ensures ProgressAt(S, q, p, D + {pid}, E, reason)
  {
    DownsToOneMore(S, T, D, pid, p, reason);
    LinksAfterOneMore(S, T, D, pid, p);
    MonitorsAfterOneMore(S, D, pid, p);
  }

  lemma FinishOne(S: Table, T: Table, U: Table, D: set<Pid>, E: Handled, reason: Reason, pid: Pid)
    requires Progress(S, T, D, E, reason) && pid in S && pid !in D
    requires Finished(T, U, pid, reason)
    ensures Progress(S, U, D + {pid}, E, reason)
  {
    forall p | p in S ensures ProgressAt(S, U[p], p, D + {pid}, E, reason) {
      FinishAt(S, T, U[p], p, D, E, reason, pid);
    }
  }

  lemma DownsOfOneMore(S: Table, T: Table, D: set<Pid>, E: Handled, reason: Reason, pid: Pid)
    requires Progress(S, T, D, E, reason) && pid in S && pid !in D
    ensures multiset(DownsOf(S, D + {pid})) == multiset(DownsOf(S, D)) + multiset(DownsOf(T, {pid}))
  {
    assert ProgressAt(S, T[pid], pid, D, E, reason);
    forall p | p in S ensures HasMailbox(S, p) == HasMailbox(T, p) {
      assert ProgressAt(S, T[p], p, D, E, reason);
    }
    assert DownsOf(S, D + {pid}) == DownsOf(S, D) + DownsOf(T, {pid});
    assert DownsOf(S, D) !! DownsOf(T, {pid});
  }

  lemma LinksAfterOneMore(S: Table, T: Table, D: set<Pid>, pid: Pid, p: Pid)
    requires p in S && pid in S && pid !in D && T.Keys == S.Keys
    requires T[p].links == LinksAfter(S, p, D) && T[pid].links == LinksAfter(S, pid, D)
    ensures LinksAfter(S, p, D + {pid})
            == if p == pid then {} else if p in T[pid].links then T[p].links - {pid} else T[p].links
  {
  }

  lemma MonitorsAfterOneMore(S: Table, D: set<Pid>, pid: Pid, w: Pid)
    requires w in S && pid in S
    ensures MonitorsAfter(S, w, D + {pid})
            == MonitorsAfter(S, w, D) - RefsHeldBy(S[pid].monitoredBy, w)
  {
    forall ref | ref in S[w].monitors
      ensures Fired(S, w, ref, D + {pid})
          <==> Fired(S, w, ref, D) || (ref in S[pid].monitoredBy && S[pid].monitoredBy[ref] == w)
    {
      if ref in S[pid].monitoredBy && S[pid].monitoredBy[ref] == w {
        assert pid in D + {pid};
      }
      if Fired(S, w, ref, D) {
        var v :| v in D && v in S && ref in S[v].monitoredBy && S[v].monitoredBy[ref] == w;
        assert v in D + {pid};
      }
    }
  }

  function SentDowns(shape: Shape, entries: map<Ref, Pid>, todo: set<Ref>, pid: Pid, w: Pid, reason: Reason): set<Message> {
    set ref | ref in entries && ref !in todo && entries[ref] == w :: Down(shape, ref, pid, reason)
  }

  function SentKeys(T: Table, entries: map<Ref, Pid>, todo: set<Ref>, pid: Pid): set<DownKey> {
    set ref | ref in entries && ref !in todo && HasMailbox(T, entries[ref]) :: DownKey(entries[ref], ref, pid)
  }

  ghost predicate SentAt(q: Proc, p: Proc, sent: set<Message>) {
    && q == p.(inbox := q.inbox) && p.inbox <= q.inbox
    && multiset(q.inbox) == multiset(p.inbox) + multiset(if p.hasMailbox then sent else {})
  }

  /** `U` is `T` after the DOWN messages for the entries outside `todo` were sent. */
  ghost predicate DownsSent(shape: Shape, T: Table, U: Table, entries: map<Ref, Pid>, todo: set<Ref>, pid: Pid, reason: Reason) {
    U.Keys == T.Keys && forall p :: p in T ==> SentAt(U[p], T[p], SentDowns(shape, entries, todo, pid, p, reason))
  }

  lemma SentDownsOneMore(shape: Shape, entries: map<Ref, Pid>, todo: set<Ref>, ref: Ref, pid: Pid, reason: Reason)
    requires ref in todo && ref in entries
    ensures var m, before := Down(shape, ref, pid, reason), SentDowns(shape, entries, todo, pid, entries[ref], reason);
            SentDowns(shape, entries, todo - {ref}, pid, entries[ref], reason) == before + {m} && m !in before
  {
  }

  lemma SentToWatcher(shape: Shape, q: Proc, p: Proc, entries: map<Ref, Pid>, todo: set<Ref>, ref: Ref, pid: Pid,
                      reason: Reason)
    requires ref in todo && ref in entries && p.hasMailbox
    requires SentAt(q, p, SentDowns(shape, entries, todo, pid, entries[ref], reason))
    ensures SentAt(q.(inbox := q.inbox + [Down(shape, ref, pid, reason)]), p,
                   SentDowns(shape, entries, todo - {ref}, pid, entries[ref], reason))
  {
    var m := Down(shape, ref, pid, reason);
    SentDownsOneMore(shape, entries, todo, ref, pid, reason);
    hide SentDowns;
    assert multiset(q.inbox + [m]) == multiset(q.inbox) + multiset{m};
  }

  lemma SentDownsTheSame(shape: Shape, entries: map<Ref, Pid>, todo: set<Ref>, ref: Ref, pid: Pid, p: Pid, reason: Reason)
    requires ref in entries && entries[ref] != p
    ensures SentDowns(shape, entries, todo - {ref}, pid, p, reason) == SentDowns(shape, entries, todo, pid, p, reason)
  {
  }

  lemma SentOneMore(shape: Shape, T: Table, U: Table, entries: map<Ref, Pid>, todo: set<Ref>, ref: Ref, pid: Pid, reason: Reason)
    requires ref in todo && ref in entries && DownsSent(shape, T, U, entries, todo, pid, reason)
    ensures DownsSent(shape, T, Delivered(U, entries[ref], Down(shape, ref, pid, reason)), entries, todo - {ref}, pid, reason)
  {
    var U' := Delivered(U, entries[ref], Down(shape, ref, pid, reason));
    hide SentDowns;
    forall p | p in T ensures SentAt(U'[p], T[p], SentDowns(shape, entries, todo - {ref}, pid, p, reason)) {
      assert SentAt(U[p], T[p], SentDowns(shape, entries, todo, pid, p, reason));
      if p != entries[ref] {
        SentDownsTheSame(shape, entries, todo, ref, pid, p, reason);
      } else if T[p].hasMailbox {
        SentToWatcher(shape, U[p], T[p], entries, todo, ref, pid, reason);
      }
    }
  }

  lemma KeysOneMore(T: Table, entries: map<Ref, Pid>, todo: set<Ref>, ref: Ref, pid: Pid)
    requires ref in todo && ref in entries
    ensures multiset(SentKeys(T, entries, todo - {ref}, pid))
            == multiset(SentKeys(T, entries, todo, pid))
               + (if HasMailbox(T, entries[ref]) then multiset{DownKey(entries[ref], ref, pid)} else multiset{})
  {
    assert SentKeys(T, entries, todo - {ref}, pid)
           == SentKeys(T, entries, todo, pid)
              + if HasMailbox(T, entries[ref]) then {DownKey(entries[ref], ref, pid)} else {};
  }

  /** The loop over the entries, which started at `T` and `M`, still has `todo` to do. */
  ghost predicate Telling(shape: Shape, T: Table, M: multiset<DownKey>, U: Table, downs: multiset<DownKey>,
                          entries: map<Ref, Pid>, todo: set<Ref>, pid: Pid, reason: Reason)
  {
    DownsSent(shape, T, U, entries, todo, pid, reason) && downs == M + multiset(SentKeys(T, entries, todo, pid))
  }

  lemma TellOneMore(shape: Shape, T: Table, M: multiset<DownKey>, U: Table, downs: multiset<DownKey>,
                    entries: map<Ref, Pid>, todo: set<Ref>, ref: Ref, pid: Pid, reason: Reason)
    requires ref in todo && ref in entries && Telling(shape, T, M, U, downs, entries, todo, pid, reason)
    ensures Telling(shape, T, M, Delivered(U, entries[ref], Down(shape, ref, pid, reason)),
                    downs + if HasMailbox(T, entries[ref]) then multiset{DownKey(entries[ref], ref, pid)} else multiset{},
                    entries, todo - {ref}, pid, reason)
  {
    hide DownsSent, SentKeys, HasMailbox, Delivered;
    SentOneMore(shape, T, U, entries, todo, ref, pid, reason);
    KeysOneMore(T, entries, todo, ref, pid);
  }

  lemma AllSent(shape: Shape, T: Table, M: multiset<DownKey>, U: Table, downs: multiset<DownKey>, pid: Pid, reason: Reason)
    requires pid in T && Telling(shape, T, M, U, downs, T[pid].monitoredBy, {}, pid, reason)
    ensures WatchersTold(shape, T, U, pid, reason)
    ensures downs == M + multiset(DownsOf(T, {pid}))
  {
    forall p | p in T ensures SentAt(U[p], T[p], DownsTo(T, {pid}, p, reason, LastOf(shape, pid))) {
      assert SentAt(U[p], T[p], SentDowns(shape, T[pid].monitoredBy, {}, pid, p, reason));
      assert SentDowns(shape, T[pid].monitoredBy, {}, pid, p, reason) == DownsTo(T, {pid}, p, reason, LastOf(shape, pid));
    }
    assert SentKeys(T, T[pid].monitoredBy, {}, pid) == DownsOf(T, {pid});
  }

  ghost predicate MonitorsDropped(T: Table, U: Table, entries: map<Ref, Pid>, todo: set<Ref>) {
    U.Keys == T.Keys
    && forall p :: p in T ==> U[p] == T[p].(monitors := T[p].monitors - (RefsHeldBy(entries, p) - todo))
  }

  lemma NoneDropped(T: Table, entries: map<Ref, Pid>)
    ensures MonitorsDropped(T, T, entries, entries.Keys)
  {
    forall p | p in T ensures T[p].monitors - (RefsHeldBy(entries, p) - entries.Keys) == T[p].monitors {
      assert RefsHeldBy(entries, p) - entries.Keys == {};
    }
  }

  lemma DropOneMoreAt(m: map<Ref, Pid>, entries: map<Ref, Pid>, todo: set<Ref>, ref: Ref, p: Pid)
    requires ref in todo && ref in entries
    ensures m - (RefsHeldBy(entries, p) - (todo - {ref}))
            == if p == entries[ref] then m - (RefsHeldBy(entries, p) - todo) - {ref} else m - (RefsHeldBy(entries, p) - todo)
  {
    assert RefsHeldBy(entries, p) - (todo - {ref})
           == RefsHeldBy(entries, p) - todo + if p == entries[ref] then {ref} else {};
  }

  lemma DroppedOneMore(T: Table, U: Table, entries: map<Ref, Pid>, todo: set<Ref>, ref: Ref)
    requires ref in todo && ref in entries && MonitorsDropped(T, U, entries, todo)
    ensures entries[ref] !in U ==> MonitorsDropped(T, U, entries, todo - {ref})
    ensures entries[ref] in U ==>
      MonitorsDropped(T, U[entries[ref] := U[entries[ref]].(monitors := U[entries[ref]].monitors - {ref})],
                      entries, todo - {ref})
  {
    forall p | p in T
      ensures T[p].monitors - (RefsHeldBy(entries, p) - (todo - {ref}))
              == if p == entries[ref] then U[p].monitors - {ref} else U[p].monitors
    {
      DropOneMoreAt(T[p].monitors, entries, todo, ref, p);
    }
  }

  /** The processes that tell their watchers by `shape`, if they are those of `{pid}` that do so at their own end. */
  function LastOf(shape: Shape, pid: Pid): set<Pid> {
    if shape.FiveFields? then {pid} else {}
  }

  ghost predicate WatchersTold(shape: Shape, T: Table, U: Table, pid: Pid, reason: Reason) {
    U.Keys == T.Keys && forall p :: p in T ==> SentAt(U[p], T[p], DownsTo(T, {pid}, p, reason, LastOf(shape, pid)))
  }

  ghost predicate LinksDropped(T: Table, U: Table, pid: Pid) {
    && pid in T && U.Keys == T.Keys
    && forall p :: p in T ==> U[p] == T[p].(links :=
         if p == pid then {} else if p in T[pid].links then T[p].links - {pid} else T[p].links)
  }

  ghost predicate MonitorsGone(T: Table, U: Table, pid: Pid) {
    && pid in T && U.Keys == T.Keys
    && forall p :: p in T ==> U[p] == T[p].(
         monitors := T[p].monitors - RefsHeldBy(T[pid].monitoredBy, p),
         monitoredBy := if p == pid then map[] else T[p].monitoredBy)
  }

  /** The three loops that end a turn, one after the other. */
  lemma FinishComposes(T: Table, T1: Table, T2: Table, T3: Table, pid: Pid, reason: Reason)
    requires pid in T
    requires WatchersTold(FourFields, T, T1, pid, reason) && LinksDropped(T1, T2, pid) && MonitorsGone(T2, T3, pid)
    ensures Finished(T, T3, pid, reason)
  {
    assert SentAt(T1[pid], T[pid], DownsTo(T, {pid}, pid, reason, {}));
    forall p | p in T ensures FinishedAt(T, T3[p], p, pid, reason) {
      assert SentAt(T1[p], T[p], DownsTo(T, {pid}, p, reason, {}));
    }
  }

  /** The last two loops of a process's end. */
  lemma LastTurn(T: Table, T1: Table, U: Table, pid: Pid, reason: Reason)
    requires pid in T && WatchersTold(FiveFields, T, T1, pid, reason) && MonitorsGone(T1, U, pid)
    ensures MailTold(T, U, {pid}, reason, {pid}) && SameExits(T, U)
    ensures forall p :: p in T ==> U[p] == T[p].(
                 inbox := U[p].inbox,
                 monitors := T[p].monitors - RefsHeldBy(T[pid].monitoredBy, p),
                 monitoredBy := if p == pid then map[] else T[p].monitoredBy)
  {
    assert SentAt(T1[pid], T[pid], DownsTo(T, {pid}, pid, reason, {pid}));
    forall p | p in T
      ensures MailAt(T, U[p].inbox, p, {pid}, reason, {pid})
      ensures T1[p] == T[p].(inbox := T1[p].inbox) && U[p].inbox == T1[p].inbox
    {
      assert SentAt(T1[p], T[p], DownsTo(T, {pid}, p, reason, {pid}));
    }
    forall p, m: Message | p in T && m.Exit? ensures multiset(U[p].inbox)[m] == multiset(T[p].inbox)[m] {
      assert SentAt(T1[p], T[p], DownsTo(T, {pid}, p, reason, {pid}));
    }
  }

  lemma AddUp(a: multiset<DownKey>, b: multiset<DownKey>, c: multiset<DownKey>)
    ensures a + b + c == a + (b + c)
  {
  }

  lemma NoneSent(shape: Shape, T: Table, M: multiset<DownKey>, pid: Pid, reason: Reason)
    requires pid in T
    ensures Telling(shape, T, M, T, M, T[pid].monitoredBy, T[pid].monitoredBy.Keys, pid, reason)
  {
    var entries := T[pid].monitoredBy;
    forall p | p in T ensures SentAt(T[p], T[p], SentDowns(shape, entries, entries.Keys, pid, p, reason)) {
      assert SentDowns(shape, entries, entries.Keys, pid, p, reason) == {};
    }
    assert SentKeys(T, entries, entries.Keys, pid) == {};
  }

  lemma WalkStarts(S: Table, root: Pid, A: set<Pid>, D: set<Pid>, E: Handled, pid: Pid)
    requires WalkInv(S, root, A, D, E) && pid in S && pid !in A + D
    requires pid == root || (Reachable(S, root, pid) && !Shielded(S[pid]) && Targeted(E, pid))
    ensures WalkInv(S, root, A + {pid}, D, E)
  {
    ReachesItself(S, root);
  }

  lemma WalkHandles(S: Table, root: Pid, A: set<Pid>, D: set<Pid>, E: Handled, pid: Pid, l: Pid)
    requires WalkInv(S, root, A, D, E) && pid in A && l in S && l in S[pid].links
    ensures WalkInv(S, root, A, D, E + {(pid, l)})
    ensures Targeted(E + {(pid, l)}, l)
    ensures !Shielded(S[l]) ==> Reachable(S, root, l)
  {
    assert (pid, l) in E + {(pid, l)};
    forall v | v in A + D && v != root ensures Targeted(E + {(pid, l)}, v) {
      var e :| e in E && e.1 == v;
      assert e in E + {(pid, l)};
    }
    if !Shielded(S[l]) {
      ReachableStep(S, root, pid, l);
    }
  }

  ghost predicate GrewFrom(E: Handled, E': Handled, sources: set<Pid>) {
    E <= E' && forall e :: e in E' && e !in E ==> e.0 in sources
  }

  /** The loop of `pid` over its links `linked`, entered at `D`, `E` and now at `D'`, `E'`. */
  ghost predicate LoopInv(S: Table, root: Pid, A: set<Pid>, pid: Pid, D: set<Pid>, E: Handled,
                          D': set<Pid>, E': Handled, linked: set<Pid>, todo: set<Pid>)
  {
    && todo <= linked && D <= D'
    && WalkInv(S, root, A + {pid}, D', E')
    && GrewFrom(E, E', (D' - D) + {pid})
    && (forall l :: l in linked - todo && l in S ==> (pid, l) in E' && (Shielded(S[l]) || l in A + {pid} + D'))
    && (forall l :: (pid, l) in E' ==> l in linked - todo)
  }

  lemma LoopStarts(S: Table, root: Pid, A: set<Pid>, pid: Pid, D: set<Pid>, E: Handled, linked: set<Pid>)
    requires WalkInv(S, root, A, D, E) && pid in S && pid !in A + D
    requires pid == root || (Reachable(S, root, pid) && !Shielded(S[pid]) && Targeted(E, pid))
    ensures LoopInv(S, root, A, pid, D, E, D, E, linked, linked)
  {
    WalkStarts(S, root, A, D, E, pid);
  }

  lemma LoopSkips(S: Table, root: Pid, A: set<Pid>, pid: Pid, D: set<Pid>, E: Handled,
                  D': set<Pid>, E': Handled, linked: set<Pid>, todo: set<Pid>, l: Pid)
    requires LoopInv(S, root, A, pid, D, E, D', E', linked, todo) && l !in S
    ensures LoopInv(S, root, A, pid, D, E, D', E', linked, todo - {l})
  {
  }

  lemma LoopAdvances(S: Table, root: Pid, A: set<Pid>, pid: Pid, D: set<Pid>, E: Handled,
                     D': set<Pid>, E': Handled, linked: set<Pid>, todo: set<Pid>, l: Pid, D'': set<Pid>, E'': Handled)
    requires LoopInv(S, root, A, pid, D, E, D', E', linked, todo) && l in todo && l in S
    requires WalkInv(S, root, A + {pid}, D'', E'') && D' <= D''
    requires GrewFrom(E' + {(pid, l)}, E'', D'' - D')
    requires Shielded(S[l]) || l in A + {pid} + D''
    ensures LoopInv(S, root, A, pid, D, E, D'', E'', linked, todo - {l})
  {
    forall e | e in E'' && e !in E ensures e.0 in (D'' - D) + {pid} {
      if e in E' {
      } else if e != (pid, l) {
        assert e.0 in D'' - D';
      }
    }
    forall m | (pid, m) in E'' ensures m in linked - (todo - {l}) {
      assert (pid, m) in E' + {(pid, l)};
    }
  }

  /** What a turn of the loop may use about the neighbour `l`. */
  lemma LoopTurn(S: Table, T: Table, names: map<Name, Pid>, downs: multiset<DownKey>, N: map<Name, Pid>,
                 W: multiset<DownKey>, root: Pid, A: set<Pid>, pid: Pid, D: set<Pid>, E: Handled,
                 D': set<Pid>, E': Handled, linked: set<Pid>, todo: set<Pid>, l: Pid, reason: Reason)
    requires LoopInv(S, root, A, pid, D, E, D', E', linked, todo) && l in todo && l in S && pid in S
    requires linked <= S[pid].links && Reached(T, names, downs, S, N, W, D', E', reason)
    ensures l in T && Shielded(T[l]) == Shielded(S[l])
    ensures Reached(Signalled(T, pid, l, reason), names, downs, S, N, W, D', E' + {(pid, l)}, reason)
    ensures Signalled(T, pid, l, reason).Keys == S.Keys
    ensures (pid, l) !in E' && D <= D'
    ensures WalkInv(S, root, A + {pid}, D', E' + {(pid, l)}) && GrewFrom(E' + {(pid, l)}, E' + {(pid, l)}, D' - D')
    ensures Targeted(E' + {(pid, l)}, l)
    ensures !Shielded(S[l]) ==> Reachable(S, root, l)
  {
    SignalOne(S, T, D', E', reason, pid, l);
    WalkHandles(S, root, A + {pid}, D', E', pid, l);
  }

  lemma LoopEnds(S: Table, root: Pid, A: set<Pid>, pid: Pid, D: set<Pid>, E: Handled,
                 D': set<Pid>, E': Handled, linked: set<Pid>)
    requires pid in S && pid !in A + D && linked == LinksAfter(S, pid, D) && (root == pid || root in A)
    requires A !! D && LoopInv(S, root, A, pid, D, E, D', E', linked, {})
    ensures WalkInv(S, root, A, D' + {pid}, E')
    ensures GrewFrom(E, E', (D' + {pid}) - D)
  {
    forall l | l in S[pid].links && l in S ensures (pid, l) in E' || (l in D' && l != root) {
      if l !in linked {
        assert l in D;
      }
    }
    assert A + (D' + {pid}) == A + {pid} + D';
  }

  lemma NamesOneMore(S: Table, N: map<Name, Pid>, D: set<Pid>, pid: Pid)
    requires pid in S
    ensures N - NamesOf(S, D + {pid})
            == if S[pid].name.Some? then N - NamesOf(S, D) - {S[pid].name.value} else N - NamesOf(S, D)
  {
    assert NamesOf(S, D + {pid}) == NamesOf(S, D) + if S[pid].name.Some? then {S[pid].name.value} else {};
  }

  class AsyncIOBackend {
    var processes: Table
    var names: map<Name, Pid>
    /** Every DOWN that was put into a local mailbox. */
    ghost var downs: multiset<DownKey>

    constructor ()
      ensures processes == map[] && names == map[] && downs == multiset{}
    {
      processes, names, downs := map[], map[], multiset{};
    }

    /** The message goes to the end of the mailbox, and nowhere if there is none. */
    method Send(target: Pid, message: Message)
      modifies this`processes
      ensures processes == Delivered(old(processes), target, message)
    {
      if target in processes && processes[target].hasMailbox {
        var p := processes[target];
        processes := processes[target := p.(inbox := p.inbox + [message])];
      }
    }

    /** A DOWN of the given shape for each entry of `monitored_by`. */
    method SendDowns(shape: Shape, pid: Pid, reason: Reason)
      requires pid in processes
      modifies this`processes, this`downs
      ensures processes.Keys == old(processes).Keys && WatchersTold(shape, old(processes), processes, pid, reason)
      ensures downs == old(downs) + multiset(DownsOf(old(processes), {pid}))
    {
      ghost var T, M := processes, downs;
      var entries := processes[pid].monitoredBy;
      var todo := entries.Keys;
      hide *;
      NoneSent(shape, T, M, pid, reason);
      while todo != {}
        invariant todo <= entries.Keys
        invariant Telling(shape, T, M, processes, downs, entries, todo, pid, reason)
      {
        var ref :| ref in todo;
        var w := entries[ref];
        TellOneMore(shape, T, M, processes, downs, entries, todo, ref, pid, reason);
        todo := todo - {ref};
        if w in processes {
          Send(w, Down(shape, ref, pid, reason));
        } else {
          NobodyGets(processes, w, Down(shape, ref, pid, reason));
        }
        downs := downs + if HasMailbox(T, w) then multiset{DownKey(w, ref, pid)} else multiset{};
      }
      assert todo == {};
      AllSent(shape, T, M, processes, downs, pid, reason);
    }

    /** `links.discard(pid)` on every process of `linked` that still exists. */
    method DiscardFrom(linked: set<Pid>, pid: Pid)
      modifies this`processes
      ensures processes.Keys == old(processes).Keys
      ensures forall p :: p in processes ==> processes[p] == old(processes)[p].(links :=
                  if p in linked then old(processes)[p].links - {pid} else old(processes)[p].links)
    {
      ghost var T := processes;
      var todo := linked;
      while todo != {}
        invariant todo <= linked
        invariant processes.Keys == T.Keys
        invariant forall p :: p in T ==>
                    processes[p] == T[p].(links := if p in linked && p !in todo then T[p].links - {pid} else T[p].links)
      {
        var l :| l in todo;
        todo := todo - {l};
        if l in processes {
          processes := processes[l := processes[l].(links := processes[l].links - {pid})];
        }
      }
    }

    /** `monitors.pop(ref)` on the watcher of every entry that still exists. */
    method PopMonitors(entries: map<Ref, Pid>)
      modifies this`processes
      ensures processes.Keys == old(processes).Keys
      ensures forall p :: p in processes ==> processes[p] == old(processes)[p].(
                  monitors := old(processes)[p].monitors - RefsHeldBy(entries, p))
    {
      ghost var T := processes;
      var todo := entries.Keys;
      NoneDropped(T, entries);
      while todo != {}
        invariant todo <= entries.Keys
        invariant MonitorsDropped(T, processes, entries, todo)
      {
        var ref :| ref in todo;
        var w := entries[ref];
        DroppedOneMore(T, processes, entries, todo, ref);
        todo := todo - {ref};
        if w in processes {
          processes := processes[w := processes[w].(monitors := processes[w].monitors - {ref})];
        }
      }
      assert forall p :: p in T ==> RefsHeldBy(entries, p) - {} == RefsHeldBy(entries, p);
    }

    method DropLinks(pid: Pid)
      requires pid in processes
      modifies this`processes
      ensures processes.Keys == old(processes).Keys && LinksDropped(old(processes), processes, pid)
    {
      DiscardFrom(processes[pid].links, pid);
      processes := processes[pid := processes[pid].(links := {})];
    }

    method DropMonitors(pid: Pid)
      requires pid in processes
      modifies this`processes
      ensures processes.Keys == old(processes).Keys && MonitorsGone(old(processes), processes, pid)
    {
      PopMonitors(processes[pid].monitoredBy);
      processes := processes[pid := processes[pid].(monitoredBy := map[])];
    }

    /** The recursive walk over a cascade. `A` are the callers that are still in their loops. */
    method Walk(pid: Pid, reason: Reason, visited: set<Pid>, ghost S: Table, ghost N: map<Name, Pid>,
                ghost W: multiset<DownKey>, ghost root: Pid, ghost A: set<Pid>, ghost D: set<Pid>, ghost E: Handled)
      returns (visited': set<Pid>, ghost D': set<Pid>, ghost E': Handled)
      requires pid in S && visited == A + D && A !! D && WalkInv(S, root, A, D, E)
      requires pid == root || (Reachable(S, root, pid) && !Shielded(S[pid]) && Targeted(E, pid))
      requires root in A || (pid == root && visited == {})
      requires Reached(processes, names, downs, S, N, W, D, E, reason)
      modifies this
      ensures visited' == A + D' && pid in visited' && A !! D' && D <= D' && processes.Keys == S.Keys
      ensures WalkInv(S, root, A, D', E') && GrewFrom(E, E', D' - D)
      ensures Reached(processes, names, downs, S, N, W, D', E', reason)
      decreases S.Keys - visited, 1
    {
      if pid in visited {
        return visited, D, E;
      }
      visited', D', E' := WalkFresh(pid, reason, visited, S, N, W, root, A, D, E);
    }

    method WalkFresh(pid: Pid, reason: Reason, visited: set<Pid>, ghost S: Table, ghost N: map<Name, Pid>,
                     ghost W: multiset<DownKey>, ghost root: Pid, ghost A: set<Pid>, ghost D: set<Pid>, ghost E: Handled)
      returns (visited': set<Pid>, ghost D': set<Pid>, ghost E': Handled)
      requires pid in S && pid !in visited && visited == A + D && A !! D && WalkInv(S, root, A, D, E)
      requires pid == root || (Reachable(S, root, pid) && !Shielded(S[pid]) && Targeted(E, pid))
      requires root in A || (pid == root && visited == {})
      requires Reached(processes, names, downs, S, N, W, D, E, reason)
      modifies this
      ensures visited' == A + D' && pid in visited' && A !! D' && D <= D' && processes.Keys == S.Keys
      ensures WalkInv(S, root, A, D', E') && GrewFrom(E, E', D' - D)
      ensures Reached(processes, names, downs, S, N, W, D', E', reason)
      decreases S.Keys - visited, 0
    {
      hide WalkInv, LoopInv, Progress, ProgressAt, GrewFrom, Targeted, Reachable, NamesOf, DownsOf, Shielded, Reached;
      visited' := visited + {pid};
      D', E' := D, E;
      var linked := WalkEntry(pid, reason, S, N, W, D, E);
      var todo := linked;
      LoopStarts(S, root, A, pid, D, E, linked);
      while todo != {}
        invariant visited' == A + {pid} + D' && A + {pid} !! D' && D <= D'
        invariant todo <= linked && processes.Keys == S.Keys
        invariant LoopInv(S, root, A, pid, D, E, D', E', linked, todo)
        invariant Reached(processes, names, downs, S, N, W, D', E', reason)
      {
        var l :| l in todo;
        if l in processes {
          visited', D', E' := HandleLink(pid, l, reason, visited', S, N, W, root, A, D, E, D', E', linked, todo);
        } else {
          LoopSkips(S, root, A, pid, D, E, D', E', linked, todo, l);
        }
        todo := todo - {l};
      }
      LoopEnds(S, root, A, pid, D, E, D', E', linked);
      FinishWalk(pid, reason, S, N, W, D', E');
      D' := D' + {pid};
    }

    /** One turn of that loop. */
    method HandleLink(pid: Pid, l: Pid, reason: Reason, visited: set<Pid>, ghost S: Table, ghost N: map<Name, Pid>,
                      ghost W: multiset<DownKey>, ghost root: Pid, ghost A: set<Pid>, ghost D0: set<Pid>, ghost E0: Handled,
                      ghost D: set<Pid>, ghost E: Handled, ghost linked: set<Pid>, ghost todo: set<Pid>)
      returns (visited': set<Pid>, ghost D': set<Pid>, ghost E': Handled)
      requires pid in S && l in S && l in todo && l in processes && processes.Keys == S.Keys
      requires linked <= S[pid].links && (root == pid || root in A) && visited == A + {pid} + D && A + {pid} !! D
      requires LoopInv(S, root, A, pid, D0, E0, D, E, linked, todo)
      requires Reached(processes, names, downs, S, N, W, D, E, reason)
      modifies this
      ensures visited' == A + {pid} + D' && A + {pid} !! D'
      ensures LoopInv(S, root, A, pid, D0, E0, D', E', linked, todo - {l})
      ensures Reached(processes, names, downs, S, N, W, D', E', reason)
      ensures D <= D' && processes.Keys == S.Keys
      decreases S.Keys - visited, 2
    {
      hide *;
      LoopTurn(S, processes, names, downs, N, W, root, A, pid, D0, E0, D, E, linked, todo, l, reason);
      D', E' := D, E + {(pid, l)};
      visited' := visited;
      var shielded := SignalLink(pid, l, reason);
      if !shielded {
        visited', D', E' := Walk(l, reason, visited, S, N, W, root, A + {pid}, D', E');
      }
      LoopAdvances(S, root, A, pid, D0, E0, D, E, linked, todo, l, D', E');
    }

    /** An EXIT message for a trapping neighbour that can take one, else a cancellation. */
    method SignalLink(pid: Pid, l: Pid, reason: Reason) returns (shielded: bool)
      requires l in processes
      modifies this`processes
      ensures shielded == Shielded(old(processes)[l])
      ensures processes == Signalled(old(processes), pid, l, reason)
    {
      shielded := processes[l].traps && processes[l].hasMailbox;
      if shielded {
        Send(l, Exit(Process(pid), reason));
      } else if processes[l].taskLive {
        processes := processes[l := processes[l].(cancelled := true)];
      }
    }

    method WalkEntry(pid: Pid, reason: Reason, ghost S: Table, ghost N: map<Name, Pid>, ghost W: multiset<DownKey>,
                     ghost D: set<Pid>, ghost E: Handled)
      returns (linked: set<Pid>)
      requires pid in S && Reached(processes, names, downs, S, N, W, D, E, reason)
      ensures processes.Keys == S.Keys && linked == LinksAfter(S, pid, D) && (pid !in D ==> linked <= S[pid].links)
    {
      assert ProgressAt(S, processes[pid], pid, D, E, reason);
      linked := processes[pid].links;
    }

    method FinishWalk(pid: Pid, reason: Reason, ghost S: Table, ghost N: map<Name, Pid>, ghost W: multiset<DownKey>,
                      ghost D: set<Pid>, ghost E: Handled)
      requires pid in S && pid !in D && Reached(processes, names, downs, S, N, W, D, E, reason)
      modifies this
      ensures Reached(processes, names, downs, S, N, W, D + {pid}, E, reason) && processes.Keys == S.Keys
    {
      assert ProgressAt(S, processes[pid], pid, D, E, reason);
      var name := processes[pid].name;
      NamesOneMore(S, N, D, pid);
      FinishTurn(pid, reason, S, W, D, E);
      hide NamesOf, DownsOf, Progress, ProgressAt;
      if name.Some? {
        names := names - {name.value};
      }
    }

    method FinishTurn(pid: Pid, reason: Reason, ghost S: Table, ghost W: multiset<DownKey>,
                      ghost D: set<Pid>, ghost E: Handled)
      requires pid in S && pid !in D && pid in processes && Progress(S, processes, D, E, reason)
      requires downs == W + multiset(DownsOf(S, D))
      modifies this`processes, this`downs
      ensures Progress(S, processes, D + {pid}, E, reason) && processes.Keys == S.Keys
      ensures downs == W + multiset(DownsOf(S, D + {pid}))
    {
      assert processes.Keys == S.Keys;
      hide *;
      ghost var T := processes;
      EndTurn(pid, reason);
      FinishOne(S, T, processes, D, E, reason, pid);
      DownsOfOneMore(S, T, D, E, reason, pid);
    }

    method EndTurn(pid: Pid, reason: Reason)
      requires pid in processes
      modifies this`processes, this`downs
      ensures Finished(old(processes), processes, pid, reason) && processes.Keys == old(processes).Keys
      ensures downs == old(downs) + multiset(DownsOf(old(processes), {pid}))
    {
      hide *;
      ghost var T := processes;
      SendDowns(FourFields, pid, reason);
      ghost var T1 := processes;
      DropLinks(pid);
      ghost var T2 := processes;
      DropMonitors(pid);
      FinishComposes(T, T1, T2, processes, pid, reason);
    }

    /** One top-level exit notification. */
    method NotifyExit(pid: Pid, reason: Reason)
      modifies this
      ensures Notified(old(processes), processes, pid, reason)
      ensures names == old(names) - NamesOf(old(processes), Closure(old(processes), pid))
      ensures downs == old(downs) + multiset(DownsOf(old(processes), Closure(old(processes), pid)))
    {
      if pid !in processes {
        NobodyThere(processes, pid);
        return;
      }
      ghost var S, N, W := processes, names, downs;
      NothingDoneYet(S, pid, reason);
      assert NamesOf(S, {}) == {} && DownsOf(S, {}) == {};
      assert N - {} == N;
      ghost var D: set<Pid>, E: Handled;
      var visited: set<Pid> := {};
      visited, D, E := Walk(pid, reason, visited, S, N, W, pid, {}, {}, {});
      WalkIsDone(S, processes, pid, D, E, reason);
    }

    /** `exit(pid, reason)` called from `sender`. The result is false when there is no such process. */
    method ExitProcess(target: Pid, sender: Sender, reason: Reason) returns (found: bool)
      modifies this
      ensures found == (target in old(processes))
      ensures !found ==> processes == old(processes) && names == old(names) && downs == old(downs)
      ensures found ==>
                var S := ExitSignalled(old(processes), target, sender, reason);
                if reason == Shutdown || reason == SupervisorShutdown
                then processes == S && names == old(names) && downs == old(downs)
                else Cascaded(S, processes, Closure(S, target), reason)
                     && names == old(names) - NamesOf(S, Closure(S, target))
                     && downs == old(downs) + multiset(DownsOf(S, Closure(S, target)))
    {
      if target !in processes {
        return false;
      }
      found := true;
      ghost var S := ExitSignalled(processes, target, sender, reason);
      assert target in S;
      hide Cascaded, Closure, NamesOf, DownsOf;
      if reason == Killed {
        if processes[target].taskLive {
          processes := processes[target := processes[target].(cancelled := true)];
        }
        NotifyExit(target, reason);
        return;
      }
      if processes[target].traps && processes[target].hasMailbox {
        Send(target, Exit(sender, reason));
      } else if processes[target].taskLive {
        processes := processes[target := processes[target].(cancelled := true)];
      }
      assert processes == S;
      if reason != Shutdown && reason != SupervisorShutdown {
        NotifyExit(target, reason);
      }
    }

    /** The part of a process's end that runs before its cleanup. */
    method HandleProcessExit(pid: Pid, reason: Reason)
      requires reason != SupervisorShutdown
      modifies this
      ensures pid !in old(processes) || reason == Killed ==>
                processes == old(processes) && names == old(names) && downs == old(downs)
      ensures pid in old(processes) && reason != Killed ==>
                var W := Casualties(old(processes), pid, reason);
                && Ended(old(processes), processes, pid, W, reason)
                && names == old(names) - NamesOf(old(processes), W)
                && downs == old(downs) + multiset(DownsOf(old(processes), W + {pid}))
      ensures reason == Normal || reason == Shutdown || reason == NoReason ==>
                && names == old(names) && processes.Keys == old(processes).Keys
                && forall p :: p in processes ==>
                     && processes[p].links == old(processes)[p].links
                     && processes[p].cancelled == old(processes)[p].cancelled
    {
      if pid !in processes || reason == Killed {
        return;
      }
      EndLive(pid, reason);
    }

    method EndLive(pid: Pid, reason: Reason)
      requires pid in processes && reason != Killed && reason != SupervisorShutdown
      modifies this
      ensures var W := Casualties(old(processes), pid, reason);
              && Ended(old(processes), processes, pid, W, reason)
              && names == old(names) - NamesOf(old(processes), W)
              && downs == old(downs) + multiset(DownsOf(old(processes), W + {pid}))
    {
      ghost var S, M := processes, downs;
      EndOfCasualties(pid, reason);
      ghost var W := Casualties(S, pid, reason);
      ghost var T := processes;
      assert W <= S.Keys && pid in T;
      hide *;
      TellWatchers(pid, reason);
      LastWatchers(S, T, processes, pid, W, reason);
      AddUp(M, multiset(DownsOf(S, W)), multiset(DownsOf(T, {pid})));
    }

    /** The part of it for the watchers of `pid` itself. */
    method TellWatchers(pid: Pid, reason: Reason)
      requires pid in processes
      modifies this`processes, this`downs
      ensures var T := old(processes);
              && processes.Keys == T.Keys && MailTold(T, processes, {pid}, reason, {pid}) && SameExits(T, processes)
              && (forall p :: p in T ==> processes[p] == T[p].(
                    inbox := processes[p].inbox,
                    monitors := T[p].monitors - RefsHeldBy(T[pid].monitoredBy, p),
                    monitoredBy := if p == pid then map[] else T[p].monitoredBy))
      ensures downs == old(downs) + multiset(DownsOf(old(processes), {pid}))
    {
      ghost var T := processes;
      hide *;
      SendDowns(FiveFields, pid, reason);
      ghost var T1 := processes;
      DropMonitors(pid);
      LastTurn(T, T1, processes, pid, reason);
    }

    /** The part of it for linked processes: there are no casualties when the end is a normal one. */
    method EndOfCasualties(pid: Pid, reason: Reason)
      requires pid in processes && reason != Killed && reason != SupervisorShutdown
      modifies this
      ensures var S, W := old(processes), Casualties(old(processes), pid, reason);
              && BroughtDown(S, processes, W) && MailTold(S, processes, W, reason, {}) && processes.Keys == S.Keys
              && ExitsTold(S, processes, W, ToldBy(S, pid, reason), Process(pid), reason)
              && names == old(names) - NamesOf(S, W)
              && downs == old(downs) + multiset(DownsOf(S, W))
    {
      NothingDown(processes);
      NothingTold(processes, reason);
      if reason == Normal || reason == Shutdown || reason == NoReason {
        assert names == names - {};
      } else {
        TakeDown(pid, reason);
      }
      hide NamesOf, DownsOf, MailTold, ExitsTold, Closed;
    }

    /** An abnormal end: EXIT to the linked processes that trap exits, `exit` on the others. */
    method TakeDown(pid: Pid, reason: Reason)
      requires pid in processes && !IsNormalExit(reason) && reason != Killed && reason != SupervisorShutdown
      modifies this
      ensures TakenDown(processes, names, downs, old(processes), old(names), old(downs), old(processes)[pid].links,
                        Process(pid), reason)
    {
      ghost var S, N, M := processes, names, downs;
      var linked := processes[pid].links;
      var todo := linked;
      assert reason != Shutdown;
      hide *;
      TakenDownStarts(S, N, M, Process(pid), reason);
      assert linked - todo == {};
      while todo != {}
        invariant todo <= linked
        invariant TakenDown(processes, names, downs, S, N, M, linked - todo, Process(pid), reason)
      {
        var l :| l in todo;
        TakenDownKeeps(processes, names, downs, S, N, M, linked - todo, Process(pid), reason);
        assert linked - (todo - {l}) == linked - todo + {l};
        ghost var T, n, d := processes, names, downs;
        if l !in processes {
          TakenDownSpared(T, n, d, S, N, M, linked - todo, l, Process(pid), reason);
        } else if processes[l].traps {
          TakenDownSpared(T, n, d, S, N, M, linked - todo, l, Process(pid), reason);
          Send(l, Exit(Process(pid), reason));
        } else {
          var found := ExitProcess(l, System, reason);
          TakenDownExited(T, n, d, processes, names, downs, S, N, M, linked - todo, l, System, Process(pid), reason);
        }
        todo := todo - {l};
      }
      assert linked - todo == linked;
    }

    // ---------- Spawning, links, monitors and cleanup ----------

    method SpawnProcess(pid: Pid, traps: bool, mailbox: bool, name: Option<Name>)
      requires pid !in processes
      modifies this
      ensures Next(Sys(old(processes), old(downs)), Spawn(pid, traps, mailbox, name), Sys(processes, downs))
      ensures names == if name.Some? then old(names)[name.value := pid] else old(names)
    {
      if name.Some? {
        names := names[name.value := pid];
      }
      processes := processes[pid := NewProcess(traps, mailbox, name)];
    }

    /** The result is false where the source raises because one of the two does not exist. */
    method LinkLocal(a: Pid, b: Pid) returns (found: bool)
      modifies this`processes
      ensures found == (a in old(processes) && b in old(processes))
      ensures Next(Sys(old(processes), downs), Link(a, b), Sys(processes, downs))
    {
      if a !in processes || b !in processes {
        return false;
      }
      processes := processes[a := processes[a].(links := processes[a].links + {b})];
      processes := processes[b := processes[b].(links := processes[b].links + {a})];
      found := true;
    }

    method UnlinkLocal(a: Pid, b: Pid)
      modifies this`processes
      ensures Next(Sys(old(processes), downs), Unlink(a, b), Sys(processes, downs))
    {
      if a in processes {
        processes := processes[a := processes[a].(links := processes[a].links - {b})];
      }
      if b in processes {
        processes := processes[b := processes[b].(links := processes[b].links - {a})];
      }
    }

    method MonitorLocal(watcher: Pid, subject: Pid) returns (ref: Option<Ref>)
      modifies this`processes
      ensures ref == if watcher in old(processes) && subject in old(processes)
                     then Some(NextRef(old(processes), watcher)) else None
      ensures Next(Sys(old(processes), downs), Monitor(watcher, subject), Sys(processes, downs))
    {
      if subject !in processes || watcher !in processes {
        return None;
      }
      var r := Ref(watcher, |processes[watcher].monitors|);
      processes := processes[watcher := processes[watcher].(monitors := processes[watcher].monitors[r := subject])];
      processes := processes[subject := processes[subject].(monitoredBy := processes[subject].monitoredBy[r := watcher])];
      ref := Some(r);
    }

    method DemonitorLocal(watcher: Pid, ref: Ref)
      modifies this`processes
      ensures Next(Sys(old(processes), downs), Demonitor(watcher, ref), Sys(processes, downs))
    {
      if watcher !in processes || ref !in processes[watcher].monitors {
        return;
      }
      var subject := processes[watcher].monitors[ref];
      processes := processes[watcher := processes[watcher].(monitors := processes[watcher].monitors - {ref})];
      if subject in processes {
        var gone := processes[subject].monitoredBy - {ref};
        assert ref !in processes[subject].monitoredBy ==> gone == processes[subject].monitoredBy;
        if ref in processes[subject].monitoredBy {
          processes := processes[subject := processes[subject].(monitoredBy := gone)];
        }
      }
    }

    method CleanupProcess(pid: Pid)
      modifies this
      ensures Next(Sys(old(processes), old(downs)), Cleanup(pid), Sys(processes, downs))
      ensures names == if pid in old(processes) && old(processes)[pid].name.Some?
                          && old(processes)[pid].name.value in old(names)
                          && old(names)[old(processes)[pid].name.value] == pid
                       then old(names) - {old(processes)[pid].name.value} else old(names)
    {
      if pid !in processes {
        return;
      }
      ghost var S := processes;
      var p := processes[pid];
      processes := processes - {pid};
      if p.name.Some? && p.name.value in names && names[p.name.value] == pid {
        names := names - {p.name.value};
      }
      DiscardFrom(p.links, pid);
      PopMonitors(p.monitoredBy);
      assert processes == CleanedUp(S, pid);
    }

    /** `exit` and the end of a process, as events of a run. */
    method ExitEvent(target: Pid, sender: Sender, reason: Reason)
      modifies this
      ensures Next(Sys(old(processes), old(downs)), ExitCall(target, sender, reason), Sys(processes, downs))
    {
      hide Cascaded, Closure, ExitSignalled, DownsOf, NamesOf;
      var found := ExitProcess(target, sender, reason);
    }

    method EndEvent(pid: Pid, reason: Reason)
      requires reason != SupervisorShutdown
      modifies this
      ensures Next(Sys(old(processes), old(downs)), End(pid, reason), Sys(processes, downs))
    {
      hide Ended, Casualties, DownsOf, NamesOf;
      HandleProcessExit(pid, reason);
    }
  }
}
