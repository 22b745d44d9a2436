/** `exit` and the crash of a process, in terms of the cascades they start. */
module ExitPaths {
  import opened ProcessTable

  /** What `exit(target, reason)` does to the target itself. */
  function ExitSignalled(S: Table, target: Pid, sender: Sender, reason: Reason): Table
    requires target in S
  {
    if reason != Killed && Shielded(S[target]) then Delivered(S, target, Exit(sender, reason))
    else if S[target].taskLive then S[target := S[target].(cancelled := true)]
    else S
  }

  /** Everything that the crash of a process linked to `linked` brings down. */
  ghost function CrashSet(S: Table, linked: set<Pid>): set<Pid> {
    set p | p in S && exists l :: l in linked && l in S && !S[l].traps && Reachable(S, l, p)
  }

  /** `T` is `S` after cascades that visited exactly `W`; mail is not looked at. */
  ghost predicate BroughtDown(S: Table, T: Table, W: set<Pid>) {
    && Severed(S, T, W)
    && (forall p :: p in S ==> (T[p].cancelled <==> S[p].cancelled || (S[p].taskLive && p in W)))
  }

  lemma NothingDown(S: Table)
    ensures BroughtDown(S, S, {}) && Closed(S, {}) && NamesOf(S, {}) == {} && DownsOf(S, {}) == {}
  {
    forall p | p in S ensures SeveredAt(S, S[p], p, {}) {
      assert MonitorsAfter(S, p, {}) == S[p].monitors;
    }
  }

  lemma MailIsNoMatter(S: Table, T: Table, W: set<Pid>, l: Pid, m: Message)
    requires BroughtDown(S, T, W)
    ensures BroughtDown(S, Delivered(T, l, m), W)
  {
    forall p | p in S ensures SeveredAt(S, Delivered(T, l, m)[p], p, W) {
      assert SeveredAt(S, T[p], p, W);
    }
  }

  // ---------- The mail of an exit path ----------

  /** The DOWN messages in the mailbox of `p` once `V` was cut off for `reason`: exactly those that `V` owes to `p` are new,
      each once. Mail only comes in at the end. */
  ghost predicate MailAt(S: Table, inbox: seq<Message>, p: Pid, V: set<Pid>, reason: Reason, last: set<Pid>)
    requires p in S
  {
    && S[p].inbox <= inbox
    && forall m: Message :: m.Down? ==>
         multiset(inbox)[m]
         == multiset(S[p].inbox)[m] + if S[p].hasMailbox && m in DownsTo(S, V, p, reason, last) then 1 else 0
  }

  ghost predicate MailTold(S: Table, T: Table, V: set<Pid>, reason: Reason, last: set<Pid>) {
    T.Keys == S.Keys && forall p :: p in S ==> MailAt(S, T[p].inbox, p, V, reason, last)
  }

  /** The EXIT messages there: if `p` traps exits, it has a new one from each process of `V` that was linked to it, and one
      from `from` if it was told directly. */
  ghost predicate ExitsAt(S: Table, inbox: seq<Message>, p: Pid, V: set<Pid>, from: Sender, told: bool, reason: Reason)
    requires p in S
  {
    forall m: Message :: m.Exit? ==>
      multiset(inbox)[m]
      == multiset(S[p].inbox)[m]
         + (if Shielded(S[p]) && m in ExitsTo(S, V, p, reason) then 1 else 0)
         + (if Shielded(S[p]) && told && m == Exit(from, reason) then 1 else 0)
  }

  /** `V` was cut off, and the processes of `linked` were told directly. */
  ghost predicate ExitsTold(S: Table, T: Table, V: set<Pid>, linked: set<Pid>, from: Sender, reason: Reason) {
    T.Keys == S.Keys && forall p :: p in S ==> ExitsAt(S, T[p].inbox, p, V, from, p in linked, reason)
  }

  ghost predicate SameExits(T: Table, U: Table) {
    U.Keys == T.Keys
    && forall p, m: Message :: p in T && m.Exit? ==> multiset(U[p].inbox)[m] == multiset(T[p].inbox)[m]
  }

  lemma ExitsStay(S: Table, T: Table, U: Table, V: set<Pid>, linked: set<Pid>, from: Sender, reason: Reason)
    requires ExitsTold(S, T, V, linked, from, reason) && SameExits(T, U)
    ensures ExitsTold(S, U, V, linked, from, reason)
  {
    forall p | p in S ensures ExitsAt(S, U[p].inbox, p, V, from, p in linked, reason) {
      assert ExitsAt(S, T[p].inbox, p, V, from, p in linked, reason);
      hide ExitsTo, Shielded;
    }
  }

  lemma NothingTold(S: Table, reason: Reason)
    ensures MailTold(S, S, {}, reason, {})
    ensures forall from :: ExitsTold(S, S, {}, {}, from, reason)
  {
  }

  lemma SameMailTold(S: Table, T: Table, U: Table, V: set<Pid>, reason: Reason)
    requires MailTold(S, T, V, reason, {}) && U.Keys == T.Keys && forall p :: p in T ==> U[p].inbox == T[p].inbox
    ensures MailTold(S, U, V, reason, {})
  {
    forall p | p in S ensures MailAt(S, U[p].inbox, p, V, reason, {}) {
      assert MailAt(S, T[p].inbox, p, V, reason, {});
    }
  }

  lemma MailAtExit(S: Table, inbox: seq<Message>, p: Pid, V: set<Pid>, from: Sender, reason: Reason)
    requires p in S && MailAt(S, inbox, p, V, reason, {})
    ensures MailAt(S, inbox + [Exit(from, reason)], p, V, reason, {})
  {
    assert multiset(inbox + [Exit(from, reason)]) == multiset(inbox) + multiset{Exit(from, reason)};
    hide DownsTo;
  }

  lemma ExitIsNoDown(S: Table, T: Table, V: set<Pid>, l: Pid, from: Sender, reason: Reason)
    requires MailTold(S, T, V, reason, {})
    ensures MailTold(S, Delivered(T, l, Exit(from, reason)), V, reason, {})
  {
    hide MailAt;
    var U := Delivered(T, l, Exit(from, reason));
    forall p | p in S ensures MailAt(S, U[p].inbox, p, V, reason, {}) {
      assert MailAt(S, T[p].inbox, p, V, reason, {});
      MailAtExit(S, T[p].inbox, p, V, from, reason);
      assert U[p].inbox == T[p].inbox || U[p].inbox == T[p].inbox + [Exit(from, reason)];
    }
  }

  lemma CascadeTells(S: Table, U: Table, V: set<Pid>, reason: Reason)
    requires Cascaded(S, U, V, reason)
    ensures MailTold(S, U, V, reason, {})
  {
    forall p | p in S ensures MailAt(S, U[p].inbox, p, V, reason, {}) {
      assert CascadedAt(S, U[p], p, V, reason);
    }
  }

  lemma DownsToTwice(S: Table, T: Table, W: set<Pid>, V: set<Pid>, p: Pid, reason: Reason, last: set<Pid>)
    requires Severed(S, T, W) && V <= S.Keys && W <= S.Keys && p in S
    ensures DownsTo(S, W + V, p, reason, last - W) == DownsTo(S, W, p, reason, {}) + DownsTo(T, V, p, reason, last)
    ensures DownsTo(S, W, p, reason, {}) !! DownsTo(T, V, p, reason, last)
    ensures T[p].hasMailbox == S[p].hasMailbox
  {
    assert SeveredAt(S, T[p], p, W);
    forall v | v in S ensures T[v].monitoredBy == if v in W then map[] else S[v].monitoredBy {
      assert SeveredAt(S, T[v], v, W);
    }
    forall m | m in DownsTo(S, W + V, p, reason, last - W)
      ensures m in DownsTo(S, W, p, reason, {}) + DownsTo(T, V, p, reason, last)
    {
      assert m.subject in W || m.subject in V;
    }
  }

  lemma MailAtTwice(S: Table, T: Table, inbox: seq<Message>, W: set<Pid>, V: set<Pid>, p: Pid, reason: Reason,
                    last: set<Pid>)
    requires Severed(S, T, W) && V <= S.Keys && W <= S.Keys && p in S && p in T
    requires MailAt(S, T[p].inbox, p, W, reason, {}) && MailAt(T, inbox, p, V, reason, last)
    ensures MailAt(S, inbox, p, W + V, reason, last - W)
  {
    DownsToTwice(S, T, W, V, p, reason, last);
    hide DownsTo, Severed;
    forall m: Message | m.Down?
      ensures multiset(inbox)[m]
              == multiset(S[p].inbox)[m]
                 + if S[p].hasMailbox && m in DownsTo(S, W + V, p, reason, last - W) then 1 else 0
    {
      assert multiset(inbox)[m]
             == multiset(T[p].inbox)[m] + if T[p].hasMailbox && m in DownsTo(T, V, p, reason, last) then 1 else 0;
    }
    assert S[p].inbox <= T[p].inbox <= inbox;
  }

  /** Two cuts, one after the other, tell what one cut of both would; who was told of in the first is not told of again. */
  lemma MailTwice(S: Table, T: Table, U: Table, W: set<Pid>, V: set<Pid>, reason: Reason, last: set<Pid>)
    requires Severed(S, T, W) && V <= S.Keys && W <= S.Keys
    requires MailTold(S, T, W, reason, {}) && MailTold(T, U, V, reason, last)
    ensures MailTold(S, U, W + V, reason, last - W)
  {
    hide MailAt, Severed;
    forall p | p in S ensures MailAt(S, U[p].inbox, p, W + V, reason, last - W) {
      assert MailAt(S, T[p].inbox, p, W, reason, {}) && MailAt(T, U[p].inbox, p, V, reason, last);
      MailAtTwice(S, T, U[p].inbox, W, V, p, reason, last);
    }
  }

  // ---------- Cascades one after the other ----------

  lemma PathLifts(S: Table, T: Table, path: seq<Pid>)
    requires IsPath(T, path)
    requires forall a, b :: Edge(T, a, b) ==> Edge(S, a, b)
    ensures IsPath(S, path)
  {
    forall i | 0 <= i < |path| - 1 ensures Edge(S, path[i], path[i + 1]) {
      assert Edge(T, path[i], path[i + 1]);
    }
  }

  lemma EdgesShrink(S: Table, T: Table, W: set<Pid>)
    requires Severed(S, T, W) && Closed(S, W)
    ensures forall a, b :: Edge(T, a, b) ==> Edge(S, a, b) && a !in W
    ensures forall a, b :: Edge(S, a, b) && a !in W && b !in W ==> Edge(T, a, b)
  {
    forall a, b | a in S && b in S
      ensures Edge(T, a, b) ==> Edge(S, a, b) && a !in W
      ensures Edge(S, a, b) && a !in W && b !in W ==> Edge(T, a, b)
    {
      assert SeveredAt(S, T[a], a, W) && SeveredAt(S, T[b], b, W);
    }
  }

  /** A later cascade from `l` adds to `W` just what was reachable from `l` at the start. */
  lemma LaterClosure(S: Table, T: Table, W: set<Pid>, l: Pid)
    requires Severed(S, T, W) && Closed(S, W) && W <= S.Keys && l in S
    ensures W + Closure(T, l) == W + Closure(S, l)
    ensures Closed(S, W + Closure(T, l))
  {
    var V := Closure(T, l);
    ClosureIsClosed(T, l);
    EdgesShrink(S, T, W);
    forall a, b | a in W + V && Edge(S, a, b) ensures b in W + V {
      if a !in W && b !in W {
        assert Edge(T, a, b);
      }
    }
    forall p | p in Closure(S, l) ensures p in W + V {
      var path :| IsPath(S, path) && path[0] == l && path[|path| - 1] == p;
      PathStaysIn(S, W + V, path);
    }
    forall p | p in V ensures p in Closure(S, l) {
      var path :| IsPath(T, path) && path[0] == l && path[|path| - 1] == p;
      PathLifts(S, T, path);
    }
  }

  lemma SeveredTwice(S: Table, T: Table, U: Table, W: set<Pid>, V: set<Pid>)
    requires Severed(S, T, W) && Severed(T, U, V) && W <= S.Keys && V <= S.Keys
    ensures Severed(S, U, W + V)
  {
    forall p | p in S ensures SeveredAt(S, U[p], p, W + V) {
      assert SeveredAt(S, T[p], p, W) && SeveredAt(T, U[p], p, V);
      LinksTwice(S, T, W, V, p);
      MonitorsTwice(S, T, W, V, p);
    }
  }

  lemma LinksTwice(S: Table, T: Table, W: set<Pid>, V: set<Pid>, p: Pid)
    requires Severed(S, T, W) && V <= S.Keys && W <= S.Keys && p in S
    ensures LinksAfter(T, p, V) == LinksAfter(S, p, W + V)
  {
    assert SeveredAt(S, T[p], p, W);
    forall l | l in S[p].links && l in S && l in V && p !in W
      ensures l !in W ==> (p in T[l].links <==> p in S[l].links)
      ensures l in W ==> T[l].links == {}
    {
      assert SeveredAt(S, T[l], l, W);
    }
  }

  lemma MonitorsTwice(S: Table, T: Table, W: set<Pid>, V: set<Pid>, p: Pid)
    requires Severed(S, T, W) && V <= S.Keys && W <= S.Keys && p in S
    ensures MonitorsAfter(T, p, V) == MonitorsAfter(S, p, W + V)
  {
    assert SeveredAt(S, T[p], p, W);
    forall ref ensures Fired(S, p, ref, W + V) <==> Fired(S, p, ref, W) || Fired(T, p, ref, V) {
      if Fired(S, p, ref, W + V) {
        var v :| v in W + V && v in S && ref in S[v].monitoredBy && S[v].monitoredBy[ref] == p;
        assert SeveredAt(S, T[v], v, W);
      }
      if Fired(T, p, ref, V) {
        var v :| v in V && v in T && ref in T[v].monitoredBy && T[v].monitoredBy[ref] == p;
        assert SeveredAt(S, T[v], v, W) && v in W + V;
      }
      if Fired(S, p, ref, W) {
        var v :| v in W && v in S && ref in S[v].monitoredBy && S[v].monitoredBy[ref] == p;
        assert v in W + V;
      }
    }
  }

  lemma DownsTwice(S: Table, T: Table, W: set<Pid>, V: set<Pid>)
    requires Severed(S, T, W) && V <= S.Keys && W <= S.Keys
    ensures multiset(DownsOf(S, W + V)) == multiset(DownsOf(S, W)) + multiset(DownsOf(T, V))
  {
    forall p | p in S
      ensures HasMailbox(T, p) == HasMailbox(S, p)
      ensures T[p].monitoredBy == if p in W then map[] else S[p].monitoredBy
    {
      assert SeveredAt(S, T[p], p, W);
    }
    assert DownsOf(S, W + V) == DownsOf(S, W) + DownsOf(T, V);
    assert DownsOf(S, W) !! DownsOf(T, V);
  }

  lemma NamesTwice(S: Table, T: Table, W: set<Pid>, V: set<Pid>)
    requires Severed(S, T, W)
    ensures NamesOf(S, W + V) == NamesOf(S, W) + NamesOf(T, V)
  {
    forall p | p in S ensures T[p].name == S[p].name {
      assert SeveredAt(S, T[p], p, W);
    }
  }

  lemma HasPredecessor(S: Table, l: Pid, p: Pid)
    requires p in Closure(S, l) && p != l
    ensures LinkedFrom(S, Closure(S, l), p) && !Shielded(S[p])
  {
    var path :| IsPath(S, path) && path[0] == l && path[|path| - 1] == p;
    var before := path[..|path| - 1];
    var a := path[|path| - 2];
    assert Edge(S, path[|path| - 2], path[|path| - 1]);
    assert IsPath(S, before) by {
      forall i | 0 <= i < |before| - 1 ensures Edge(S, before[i], before[i + 1]) {
        assert Edge(S, path[i], path[i + 1]);
      }
    }
    assert before[0] == l && before[|before| - 1] == a;
    assert a in Closure(S, l);
  }

  /** A cascade cancels exactly the live tasks it visits, its root apart. */
  lemma CascadeCancels(S: Table, U: Table, l: Pid, reason: Reason, p: Pid)
    requires l in S && p in S && Cascaded(S, U, Closure(S, l), reason) && !Shielded(S[l])
    ensures p != l ==> (U[p].cancelled <==> S[p].cancelled || (S[p].taskLive && p in Closure(S, l)))
    ensures U[p].cancelled ==> S[p].cancelled || (S[p].taskLive && p in Closure(S, l))
    ensures S[p].cancelled ==> U[p].cancelled
  {
    var V := Closure(S, l);
    assert CascadedAt(S, U[p], p, V, reason);
    ClosureIsClosed(S, l);
    if p in V && p != l {
      HasPredecessor(S, l, p);
    }
    if LinkedFrom(S, V, p) && !Shielded(S[p]) {
      var v :| v in V && v in S && p in S[v].links;
      assert Edge(S, v, p);
    }
  }

  lemma CascadeSevers(S: Table, U: Table, V: set<Pid>, reason: Reason)
    requires Cascaded(S, U, V, reason)
    ensures Severed(S, U, V)
  {
    forall p | p in S ensures SeveredAt(S, U[p], p, V) {
      assert CascadedAt(S, U[p], p, V, reason);
    }
  }

  lemma SignalKeeps(S: Table, T: Table, W: set<Pid>, l: Pid, sender: Sender, reason: Reason)
    requires BroughtDown(S, T, W) && l in S && !S[l].traps
    ensures var T1 := ExitSignalled(T, l, sender, reason);
            && Severed(S, T1, W) && l in T1 && !Shielded(T1[l]) && T1.Keys == S.Keys
            && (forall p :: p in S ==> (T1[p].cancelled <==> T[p].cancelled || (p == l && T[p].taskLive)))
            && (forall p :: p in S ==> T1[p].taskLive == S[p].taskLive)
  {
    var T1 := ExitSignalled(T, l, sender, reason);
    assert SeveredAt(S, T[l], l, W);
    forall p | p in S ensures SeveredAt(S, T1[p], p, W) {
      assert SeveredAt(S, T[p], p, W);
    }
  }

  /** One more neighbour of a crashed process is taken down by `exit`. */
  lemma CrashStep(S: Table, T: Table, U: Table, W: set<Pid>, l: Pid, sender: Sender, reason: Reason)
    requires BroughtDown(S, T, W) && Closed(S, W) && W <= S.Keys && l in S && !S[l].traps
    requires l in T
    requires var T1 := ExitSignalled(T, l, sender, reason); Cascaded(T1, U, Closure(T1, l), reason)
    ensures BroughtDown(S, U, W + Closure(S, l)) && Closed(S, W + Closure(S, l))
    ensures var T1 := ExitSignalled(T, l, sender, reason);
            && W + Closure(S, l) == W + Closure(T1, l)
            && NamesOf(S, W + Closure(S, l)) == NamesOf(S, W) + NamesOf(T1, Closure(T1, l))
            && multiset(DownsOf(S, W + Closure(S, l))) == multiset(DownsOf(S, W)) + multiset(DownsOf(T1, Closure(T1, l)))
  {
    var T1 := ExitSignalled(T, l, sender, reason);
    SignalKeeps(S, T, W, l, sender, reason);
    var V := Closure(T1, l);
    LaterClosure(S, T1, W, l);
    CascadeSevers(T1, U, V, reason);
    SeveredTwice(S, T1, U, W, V);
    NamesTwice(S, T1, W, V);
    DownsTwice(S, T1, W, V);
    ClosureIsClosed(T1, l);
    forall p | p in S ensures U[p].cancelled <==> S[p].cancelled || (S[p].taskLive && p in W + V) {
      CascadeCancels(T1, U, l, reason, p);
    }
  }

  /** Its mail. */
  lemma CrashMail(S: Table, T: Table, U: Table, W: set<Pid>, l: Pid, sender: Sender, reason: Reason)
    requires BroughtDown(S, T, W) && Closed(S, W) && W <= S.Keys && l in S && !S[l].traps
    requires l in T && MailTold(S, T, W, reason, {})
    requires var T1 := ExitSignalled(T, l, sender, reason); Cascaded(T1, U, Closure(T1, l), reason)
    ensures MailTold(S, U, W + Closure(S, l), reason, {})
  {
    var T1 := ExitSignalled(T, l, sender, reason);
    SignalKeeps(S, T, W, l, sender, reason);
    SignalNoMail(S, T, W, l, sender, reason);
    var V := Closure(T1, l);
    assert V <= S.Keys;
    hide *;
    LaterClosure(S, T1, W, l);
    SameMailTold(S, T, T1, W, reason);
    CascadeTells(T1, U, V, reason);
    MailTwice(S, T1, U, W, V, reason, {});
    assert {} - W == {};
  }

  lemma SignalNoMail(S: Table, T: Table, W: set<Pid>, l: Pid, sender: Sender, reason: Reason)
    requires BroughtDown(S, T, W) && l in S && !S[l].traps
    ensures l in T && var T1 := ExitSignalled(T, l, sender, reason);
                      T1.Keys == T.Keys && forall p :: p in T ==> T1[p].inbox == T[p].inbox
  {
    assert SeveredAt(S, T[l], l, W);
  }

  lemma CrashSetGrows(S: Table, handled: set<Pid>, l: Pid)
    ensures l in S && !S[l].traps ==> CrashSet(S, handled + {l}) == CrashSet(S, handled) + Closure(S, l)
    ensures l !in S || S[l].traps ==> CrashSet(S, handled + {l}) == CrashSet(S, handled)
  {
    forall p | p in CrashSet(S, handled) ensures p in CrashSet(S, handled + {l}) {
      var k :| k in handled && k in S && !S[k].traps && Reachable(S, k, p);
      assert k in handled + {l};
    }
    if l in S && !S[l].traps {
      forall p | p in Closure(S, l) ensures p in CrashSet(S, handled + {l}) {
        assert l in handled + {l};
      }
    }
  }

  lemma CrashSetClosed(S: Table, linked: set<Pid>)
    ensures Closed(S, CrashSet(S, linked))
  {
    forall a, b | a in CrashSet(S, linked) && Edge(S, a, b) ensures b in CrashSet(S, linked) {
      var l :| l in linked && l in S && !S[l].traps && Reachable(S, l, a);
      ReachableStep(S, l, a, b);
    }
  }

  ghost predicate TrappersHaveMailboxes(S: Table) {
    forall p :: p in S && S[p].traps ==> S[p].hasMailbox
  }

  /** A crash brings down what an exit notification from the crashed process would visit, itself apart. */
  lemma CrashReachesClosure(S: Table, pid: Pid)
    requires pid in S && TrappersHaveMailboxes(S)
    ensures CrashSet(S, S[pid].links) + {pid} == Closure(S, pid)
  {
    var W := CrashSet(S, S[pid].links);
    CrashSetClosed(S, S[pid].links);
    forall a, b | a in W + {pid} && Edge(S, a, b) ensures b in W + {pid} {
      if a == pid {
        assert b in S[pid].links && !S[b].traps;
        ReachesItself(S, b);
      }
    }
    forall p | p in W + {pid} ensures Reachable(S, pid, p) {
      ReachesItself(S, pid);
      if p in W {
        var l :| l in S[pid].links && l in S && !S[l].traps && Reachable(S, l, p);
        ThroughNeighbour(S, pid, l, p);
      }
    }
    ClosureIsLeast(S, pid, W + {pid});
  }

  lemma ThroughNeighbour(S: Table, a: Pid, l: Pid, p: Pid)
    requires Edge(S, a, l) && Reachable(S, l, p)
    ensures Reachable(S, a, p)
  {
    var path :| IsPath(S, path) && path[0] == l && path[|path| - 1] == p;
    var longer := [a] + path;
    forall i | 0 <= i < |longer| - 1 ensures Edge(S, longer[i], longer[i + 1]) {
      assert i > 0 ==> Edge(S, path[i - 1], path[i]);
    }
    assert longer[0] == a && longer[|longer| - 1] == p;
  }

  predicate IsNormalExit(reason: Reason) {
    reason == Normal || reason == Shutdown || reason == NoReason
  }

  /** Whom the end of `pid` tells directly, if they trap exits. */
  function ToldBy(S: Table, pid: Pid, reason: Reason): set<Pid>
    requires pid in S
  {
    if IsNormalExit(reason) then {} else S[pid].links
  }

  /** What the crash or the normal end of `pid` brings down. */
  ghost function Casualties(S: Table, pid: Pid, reason: Reason): set<Pid>
    requires pid in S
  {
    if IsNormalExit(reason) then {} else CrashSet(S, S[pid].links)
  }

  /** The table once `pid` has ended: the casualties are cut off, and `pid`'s watchers are told as well, by five fields
      unless the casualties include `pid`. */
  ghost predicate EndedAt(S: Table, q: Proc, p: Pid, pid: Pid, W: set<Pid>, reason: Reason)
    requires p in S && pid in S
  {
    && q.traps == S[p].traps && q.hasMailbox == S[p].hasMailbox && q.name == S[p].name && q.taskLive == S[p].taskLive
    && q.links == LinksAfter(S, p, W)
    && q.monitors == MonitorsAfter(S, p, W + {pid})
    && q.monitoredBy == (if p in W + {pid} then map[] else S[p].monitoredBy)
    && (q.cancelled <==> S[p].cancelled || (S[p].taskLive && p in W))
    && MailAt(S, q.inbox, p, W + {pid}, reason, {pid} - W)
    && ExitsAt(S, q.inbox, p, W, Process(pid), p in ToldBy(S, pid, reason), reason)
  }

  ghost predicate Ended(S: Table, T: Table, pid: Pid, W: set<Pid>, reason: Reason)
    requires pid in S
  {
    T.Keys == S.Keys && forall p :: p in S ==> EndedAt(S, T[p], p, pid, W, reason)
  }

  /** The monitors that `p` is left with. */
  lemma LastMonitors(S: Table, T: Table, pid: Pid, W: set<Pid>, p: Pid)
    requires Severed(S, T, W) && pid in S && W <= S.Keys && p in S
    ensures T[p].monitors - RefsHeldBy(T[pid].monitoredBy, p) == MonitorsAfter(S, p, W + {pid})
  {
    MonitorsTwice(S, T, W, {pid}, p);
    assert pid in {pid};
    assert MonitorsAfter(T, p, {pid}) == T[p].monitors - RefsHeldBy(T[pid].monitoredBy, p);
  }

  /** Its other fields. */
  lemma LastFields(S: Table, T: Table, pid: Pid, W: set<Pid>, p: Pid)
    requires BroughtDown(S, T, W) && pid in S && p in S
    ensures var q := T[p];
            && q.traps == S[p].traps && q.hasMailbox == S[p].hasMailbox && q.name == S[p].name
            && q.taskLive == S[p].taskLive && q.links == LinksAfter(S, p, W)
            && (if p == pid then map[] else q.monitoredBy) == (if p in W + {pid} then map[] else S[p].monitoredBy)
            && (q.cancelled <==> S[p].cancelled || (S[p].taskLive && p in W))
  {
    assert SeveredAt(S, T[p], p, W);
  }

  /** Telling the watchers of `pid`, after the casualties `W` were dealt with. */
  lemma LastWatchers(S: Table, T: Table, U: Table, pid: Pid, W: set<Pid>, reason: Reason)
    requires BroughtDown(S, T, W) && pid in S && W <= S.Keys && U.Keys == T.Keys
    requires MailTold(S, T, W, reason, {}) && MailTold(T, U, {pid}, reason, {pid})
    requires ExitsTold(S, T, W, ToldBy(S, pid, reason), Process(pid), reason) && SameExits(T, U)
    requires forall p :: p in T ==> U[p] == T[p].(
                 inbox := U[p].inbox,
                 monitors := T[p].monitors - RefsHeldBy(T[pid].monitoredBy, p),
                 monitoredBy := if p == pid then map[] else T[p].monitoredBy)
    ensures Ended(S, U, pid, W, reason)
    ensures multiset(DownsOf(S, W + {pid})) == multiset(DownsOf(S, W)) + multiset(DownsOf(T, {pid}))
  {
    MailTwice(S, T, U, W, {pid}, reason, {pid});
    DownsTwice(S, T, W, {pid});
    ExitsStay(S, T, U, W, ToldBy(S, pid, reason), Process(pid), reason);
    assert Severed(S, T, W) && T.Keys == S.Keys;
    forall p | p in S ensures EndedAt(S, U[p], p, pid, W, reason) {
      LastMonitors(S, T, pid, W, p);
      LastFields(S, T, pid, W, p);
      assert MailAt(S, U[p].inbox, p, W + {pid}, reason, {pid} - W);
      assert ExitsAt(S, U[p].inbox, p, W, Process(pid), p in ToldBy(S, pid, reason), reason);
      hide Severed, BroughtDown, MailAt, MailTold, ExitsAt, ExitsTold, ToldBy, SameExits, RefsHeldBy, MonitorsAfter, LinksAfter;
    }
    hide *;
  }

  /** The fields `T`, `names`, `downs` once the neighbours `handled` of a crashed process were dealt with. */
  ghost predicate TakenDown(T: Table, names: map<Name, Pid>, downs: multiset<DownKey>,
                            S: Table, N: map<Name, Pid>, M: multiset<DownKey>, handled: set<Pid>,
                            from: Sender, reason: Reason)
  {
    var W := CrashSet(S, handled);
    && BroughtDown(S, T, W) && MailTold(S, T, W, reason, {}) && ExitsTold(S, T, W, handled, from, reason)
    && names == N - NamesOf(S, W)
    && downs == M + multiset(DownsOf(S, W))
  }

  lemma TakenDownStarts(S: Table, N: map<Name, Pid>, M: multiset<DownKey>, from: Sender, reason: Reason)
    ensures TakenDown(S, N, M, S, N, M, {}, from, reason)
  {
    NothingDown(S);
    NothingTold(S, reason);
    assert CrashSet(S, {}) == {};
    assert N - {} == N;
  }

  /** A neighbour that traps exits, or is gone, adds nothing. */
  lemma TakenDownSpared(T: Table, names: map<Name, Pid>, downs: multiset<DownKey>,
                        S: Table, N: map<Name, Pid>, M: multiset<DownKey>, handled: set<Pid>, l: Pid,
                        from: Sender, reason: Reason)
    requires TakenDown(T, names, downs, S, N, M, handled, from, reason) && l !in handled && (l !in S || S[l].traps)
    ensures TakenDown(Delivered(T, l, Exit(from, reason)), names, downs, S, N, M, handled + {l}, from, reason)
    ensures l !in S ==> Delivered(T, l, Exit(from, reason)) == T
  {
    assert l !in S ==> Delivered(T, l, Exit(from, reason)) == T;
    CrashSetGrows(S, handled, l);
    MailIsNoMatter(S, T, CrashSet(S, handled), l, Exit(from, reason));
    ExitIsNoDown(S, T, CrashSet(S, handled), l, from, reason);
    ExitReaches(S, T, CrashSet(S, handled), handled, l, from, reason);
    hide BroughtDown, MailTold, ExitsTold, CrashSet, Delivered, DownsOf, NamesOf;
  }

  /** A neighbour that is told directly gets one EXIT more, and nobody else gets any. */
  lemma ExitReaches(S: Table, T: Table, W: set<Pid>, handled: set<Pid>, l: Pid, from: Sender, reason: Reason)
    requires BroughtDown(S, T, W) && ExitsTold(S, T, W, handled, from, reason)
    requires l !in handled && (l !in S || S[l].traps)
    ensures ExitsTold(S, Delivered(T, l, Exit(from, reason)), W, handled + {l}, from, reason)
  {
    var U := Delivered(T, l, Exit(from, reason));
    forall p | p in S ensures ExitsAt(S, U[p].inbox, p, W, from, p in handled + {l}, reason) {
      assert ExitsAt(S, T[p].inbox, p, W, from, p in handled, reason);
      if p == l {
        assert SeveredAt(S, T[l], l, W);
        OneMoreExit(S, T[l].inbox, l, W, from, reason);
      }
      hide BroughtDown, ExitsAt, ExitsTold;
    }
  }

  lemma OneMoreExit(S: Table, inbox: seq<Message>, l: Pid, W: set<Pid>, from: Sender, reason: Reason)
    requires l in S && S[l].traps && ExitsAt(S, inbox, l, W, from, false, reason)
    ensures ExitsAt(S, if S[l].hasMailbox then inbox + [Exit(from, reason)] else inbox, l, W, from, true, reason)
  {
    assert multiset(inbox + [Exit(from, reason)]) == multiset(inbox) + multiset{Exit(from, reason)};
    hide ExitsTo;
  }

  lemma TakenDownExited(T: Table, names: map<Name, Pid>, downs: multiset<DownKey>,
                        U: Table, names': map<Name, Pid>, downs': multiset<DownKey>,
                        S: Table, N: map<Name, Pid>, M: multiset<DownKey>, handled: set<Pid>,
                        l: Pid, sender: Sender, from: Sender, reason: Reason)
    requires TakenDown(T, names, downs, S, N, M, handled, from, reason) && l in S && !S[l].traps && l in T
    requires var T1 := ExitSignalled(T, l, sender, reason);
             && Cascaded(T1, U, Closure(T1, l), reason)
             && names' == names - NamesOf(T1, Closure(T1, l))
             && downs' == downs + multiset(DownsOf(T1, Closure(T1, l)))
    ensures TakenDown(U, names', downs', S, N, M, handled + {l}, from, reason)
  {
    var W := CrashSet(S, handled);
    var T1 := ExitSignalled(T, l, sender, reason);
    var V := Closure(T1, l);
    hide BroughtDown, MailTold, ExitsTold, NamesOf, DownsOf, Closed, Cascaded, Closure, ExitSignalled;
    CrashSetClosed(S, handled);
    CrashSetGrows(S, handled, l);
    CrashStep(S, T, U, W, l, sender, reason);
    CrashMail(S, T, U, W, l, sender, reason);
    NoneShielded(S, handled);
    CrashExits(S, T, U, W, handled, l, sender, from, reason);
    var W' := CrashSet(S, handled + {l});
    hide CrashSet;
    assert W' == W + Closure(S, l);
    BooksAddUp(N, NamesOf(S, W), NamesOf(T1, V), M, DownsOf(S, W), DownsOf(T1, V));
  }

  /** Nobody that traps exits is brought down. */
  lemma NoneShielded(S: Table, linked: set<Pid>)
    ensures forall p :: p in CrashSet(S, linked) ==> p in S && !Shielded(S[p])
  {
    forall p | p in CrashSet(S, linked) ensures !Shielded(S[p]) {
      var l :| l in linked && l in S && !S[l].traps && Reachable(S, l, p);
      if l != p {
        HasPredecessor(S, l, p);
      }
    }
  }

  lemma ExitsToTwice(S: Table, T: Table, W: set<Pid>, V: set<Pid>, p: Pid, reason: Reason)
    requires Severed(S, T, W) && V <= S.Keys && W <= S.Keys && p in S && p !in W
    ensures ExitsTo(S, W + V, p, reason) == ExitsTo(S, W, p, reason) + ExitsTo(T, V, p, reason)
    ensures ExitsTo(S, W, p, reason) !! ExitsTo(T, V, p, reason)
  {
    forall v | v in V && v in S
      ensures v in W ==> T[v].links == {}
      ensures v !in W ==> (p in T[v].links <==> p in S[v].links)
    {
      assert SeveredAt(S, T[v], v, W);
    }
    forall m | m in ExitsTo(S, W + V, p, reason) ensures m in ExitsTo(S, W, p, reason) + ExitsTo(T, V, p, reason) {
      assert m.from.pid in W || m.from.pid in V;
    }
  }

  lemma CascadeExits(S: Table, q: Proc, p: Pid, V: set<Pid>, from: Sender, reason: Reason)
    requires p in S && CascadedAt(S, q, p, V, reason)
    ensures ExitsAt(S, q.inbox, p, V, from, false, reason)
  {
  }

  /** The exits of two cuts, one after the other. */
  lemma ExitsAtTwice(S: Table, T: Table, inbox: seq<Message>, W: set<Pid>, V: set<Pid>, p: Pid, from: Sender, told: bool,
                     reason: Reason)
    requires Severed(S, T, W) && V <= S.Keys && W <= S.Keys && p in S && p in T && (p in W ==> !Shielded(S[p]))
    requires ExitsAt(S, T[p].inbox, p, W, from, told, reason) && ExitsAt(T, inbox, p, V, from, false, reason)
    ensures ExitsAt(S, inbox, p, W + V, from, told, reason)
  {
    assert SeveredAt(S, T[p], p, W);
    assert Shielded(T[p]) == Shielded(S[p]);
    hide Severed, SeveredAt, Shielded, ExitsTo;
    if Shielded(S[p]) {
      ExitsToTwice(S, T, W, V, p, reason);
    }
    forall m: Message | m.Exit?
      ensures multiset(inbox)[m]
              == multiset(S[p].inbox)[m]
                 + (if Shielded(S[p]) && m in ExitsTo(S, W + V, p, reason) then 1 else 0)
                 + (if Shielded(S[p]) && told && m == Exit(from, reason) then 1 else 0)
    {
      hide ExitsAt;
      ExitsAddUp(S, T, inbox, W, V, p, from, told, reason, m);
    }
  }

  lemma ExitsAddUp(S: Table, T: Table, inbox: seq<Message>, W: set<Pid>, V: set<Pid>, p: Pid, from: Sender, told: bool,
                   reason: Reason, m: Message)
    requires p in S && p in T && Shielded(T[p]) == Shielded(S[p]) && m.Exit?
    requires Shielded(S[p]) ==>
               && ExitsTo(S, W + V, p, reason) == ExitsTo(S, W, p, reason) + ExitsTo(T, V, p, reason)
               && ExitsTo(S, W, p, reason) !! ExitsTo(T, V, p, reason)
    requires ExitsAt(S, T[p].inbox, p, W, from, told, reason) && ExitsAt(T, inbox, p, V, from, false, reason)
    ensures multiset(inbox)[m]
            == multiset(S[p].inbox)[m]
               + (if Shielded(S[p]) && m in ExitsTo(S, W + V, p, reason) then 1 else 0)
               + (if Shielded(S[p]) && told && m == Exit(from, reason) then 1 else 0)
  {
    hide ExitsTo, Shielded;
    assert m in ExitsTo(S, W + V, p, reason)
           ==> multiset(inbox)[m] == multiset(T[p].inbox)[m] + if Shielded(T[p]) && m in ExitsTo(T, V, p, reason) then 1 else 0;
  }

  lemma CrashExits(S: Table, T: Table, U: Table, W: set<Pid>, handled: set<Pid>, l: Pid, sender: Sender, from: Sender,
                   reason: Reason)
    requires BroughtDown(S, T, W) && ExitsTold(S, T, W, handled, from, reason) && l in S && !S[l].traps && l in T
    requires W <= S.Keys && forall p :: p in W ==> !Shielded(S[p])
    requires var T1 := ExitSignalled(T, l, sender, reason); Cascaded(T1, U, Closure(T1, l), reason)
    ensures var T1 := ExitSignalled(T, l, sender, reason);
            ExitsTold(S, U, W + Closure(T1, l), handled + {l}, from, reason)
  {
    var T1 := ExitSignalled(T, l, sender, reason);
    SignalKeeps(S, T, W, l, sender, reason);
    SignalNoMail(S, T, W, l, sender, reason);
    var V := Closure(T1, l);
    assert V <= S.Keys && T.Keys == S.Keys && U.Keys == S.Keys && !Shielded(S[l]);
    forall p | p in S ensures ExitsAt(S, U[p].inbox, p, W + V, from, p in handled + {l}, reason) {
      assert CascadedAt(T1, U[p], p, V, reason);
      assert ExitsAt(S, T[p].inbox, p, W, from, p in handled, reason);
      hide *;
      CascadeExits(T1, U[p], p, V, from, reason);
      ExitsAtTwice(S, T1, U[p].inbox, W, V, p, from, p in handled, reason);
      ToldOrNot(S, U[p].inbox, p, W + V, from, p in handled, p in handled + {l}, reason);
    }
  }

  lemma ToldOrNot(S: Table, inbox: seq<Message>, p: Pid, V: set<Pid>, from: Sender, told: bool, told': bool, reason: Reason)
    requires p in S && ExitsAt(S, inbox, p, V, from, told, reason) && (told == told' || !Shielded(S[p]))
    ensures ExitsAt(S, inbox, p, V, from, told', reason)
  {
  }

  lemma BooksAddUp(N: map<Name, Pid>, a: set<Name>, b: set<Name>, M: multiset<DownKey>, x: set<DownKey>, y: set<DownKey>)
    ensures N - a - b == N - (a + b)
    ensures M + multiset(x) + multiset(y) == M + (multiset(x) + multiset(y))
  {
  }

  lemma TakenDownKeeps(T: Table, names: map<Name, Pid>, downs: multiset<DownKey>,
                       S: Table, N: map<Name, Pid>, M: multiset<DownKey>, handled: set<Pid>,
                       from: Sender, reason: Reason)
    requires TakenDown(T, names, downs, S, N, M, handled, from, reason)
    ensures T.Keys == S.Keys && forall p :: p in S ==> T[p].traps == S[p].traps
  {
    forall p | p in S ensures T[p].traps == S[p].traps {
      assert SeveredAt(S, T[p], p, CrashSet(S, handled));
    }
  }
}
