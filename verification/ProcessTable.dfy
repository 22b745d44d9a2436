/** The local process table of the asyncio backend, and what one exit cascade does to it. */
module ProcessTable {
  import opened Wrappers

  type Pid = nat
  /** `#Ref<owner.index>`. */
  datatype Ref = Ref(owner: Pid, index: nat)

  type Name = string

  datatype Reason = Normal | Shutdown | SupervisorShutdown | Killed | NoReason | Error(what: string)

  datatype Sender = Process(pid: Pid) | System

  /** A DOWN is a tuple of four fields when an exit notification sends it, and of five when the process itself ends. */
  datatype Shape = FourFields | FiveFields

  datatype Message =
    | Exit(from: Sender, reason: Reason)
    | Down(shape: Shape, ref: Ref, subject: Pid, reason: Reason)

  /** `taskLive`: the task exists and is not done. `cancelled`: its cancellation was requested. */
  datatype Proc = Proc(
    traps: bool,
    hasMailbox: bool,
    inbox: seq<Message>,
    links: set<Pid>,
    monitors: map<Ref, Pid>,
    monitoredBy: map<Ref, Pid>,
    name: Option<Name>,
    taskLive: bool,
    cancelled: bool)

  type Table = map<Pid, Proc>

  /** One DOWN that reached the mailbox of `watcher`. */
  datatype DownKey = DownKey(watcher: Pid, ref: Ref, subject: Pid)

  /** Such a process gets an EXIT message where another one is cancelled. */
  predicate Shielded(p: Proc) {
    p.traps && p.hasMailbox
  }

  predicate HasMailbox(S: Table, w: Pid) {
    w in S && S[w].hasMailbox
  }

  /** A local send: dropped when there is no such process or it has no mailbox. */
  function Delivered(S: Table, w: Pid, m: Message): Table {
    if HasMailbox(S, w) then S[w := S[w].(inbox := S[w].inbox + [m])] else S
  }

  lemma NobodyGets(S: Table, w: Pid, m: Message)
    requires w !in S
    ensures Delivered(S, w, m) == S
  {
  }

  function RefsHeldBy(entries: map<Ref, Pid>, w: Pid): set<Ref> {
    set ref | ref in entries && entries[ref] == w
  }

  // ---------- Reachability through processes that are not shielded ----------

  predicate Edge(S: Table, a: Pid, b: Pid) {
    a in S && b in S && b in S[a].links && !Shielded(S[b])
  }

  ghost predicate IsPath(S: Table, path: seq<Pid>) {
    |path| > 0 && forall i :: 0 <= i < |path| - 1 ==> Edge(S, path[i], path[i + 1])
  }

  ghost predicate Reachable(S: Table, a: Pid, b: Pid) {
    exists path :: IsPath(S, path) && path[0] == a && path[|path| - 1] == b
  }

  /** Everything an exit signal from `root` gets to, `root` included. */
  ghost function Closure(S: Table, root: Pid): set<Pid> {
    set p | p in S && Reachable(S, root, p)
  }

  ghost predicate Closed(S: Table, V: set<Pid>) {
    forall a, b :: a in V && Edge(S, a, b) ==> b in V
  }

  lemma ReachesItself(S: Table, a: Pid)
    ensures Reachable(S, a, a)
  {
    assert IsPath(S, [a]);
  }

  lemma ReachableStep(S: Table, a: Pid, b: Pid, c: Pid)
    requires Reachable(S, a, b) && Edge(S, b, c)
    ensures Reachable(S, a, c)
  {
    var path :| IsPath(S, path) && path[0] == a && path[|path| - 1] == b;
    assert IsPath(S, path + [c]);
  }

  lemma {:induction false} PathStaysIn(S: Table, V: set<Pid>, path: seq<Pid>)
    requires Closed(S, V) && IsPath(S, path) && path[0] in V
    ensures path[|path| - 1] in V
  {
    if |path| > 1 {
      assert Edge(S, path[0], path[1]);
      forall i | 0 <= i < |path[1..]| - 1 ensures Edge(S, path[1..][i], path[1..][i + 1]) {
        assert Edge(S, path[i + 1], path[i + 2]);
      }
      PathStaysIn(S, V, path[1..]);
    }
  }

  /** A set that `root` is in, that is closed and that only holds reachable processes is the closure. */
  lemma ClosureIsLeast(S: Table, root: Pid, V: set<Pid>)
    requires root in V && V <= S.Keys && Closed(S, V)
    requires forall v :: v in V ==> Reachable(S, root, v)
    ensures V == Closure(S, root)
  {
    forall p | p in Closure(S, root) ensures p in V {
      var path :| IsPath(S, path) && path[0] == root && path[|path| - 1] == p;
      PathStaysIn(S, V, path);
    }
  }

  lemma ClosureIsClosed(S: Table, root: Pid)
    requires root in S
    ensures root in Closure(S, root) && Closed(S, Closure(S, root))
  {
    ReachesItself(S, root);
    forall a, b | a in Closure(S, root) && Edge(S, a, b) ensures b in Closure(S, root) {
      ReachableStep(S, root, a, b);
    }
  }

  // ---------- What a cascade over the set V leaves behind ----------

  function LinksAfter(S: Table, p: Pid, V: set<Pid>): set<Pid>
    requires p in S
  {
    if p in V then {} else set l | l in S[p].links && !(l in V && l in S && p in S[l].links)
  }

  ghost predicate Fired(S: Table, w: Pid, ref: Ref, V: set<Pid>) {
    exists v :: v in V && v in S && ref in S[v].monitoredBy && S[v].monitoredBy[ref] == w
  }

  ghost function MonitorsAfter(S: Table, w: Pid, V: set<Pid>): map<Ref, Pid>
    requires w in S
  {
    map ref | ref in S[w].monitors && !Fired(S, w, ref, V) :: S[w].monitors[ref]
  }

  function NamesOf(S: Table, V: set<Pid>): set<Name> {
    set v | v in V && v in S && S[v].name.Some? :: S[v].name.value
  }

  function ShapeOf(v: Pid, last: set<Pid>): Shape {
    if v in last then FiveFields else FourFields
  }

  /** The DOWN messages that the members of `V` owe to process `w`; those in `last` send theirs at their own end. */
  function DownsTo(S: Table, V: set<Pid>, w: Pid, reason: Reason, last: set<Pid>): set<Message> {
    set v, ref | v in V && v in S && ref in S[v].monitoredBy && S[v].monitoredBy[ref] == w
      :: Down(ShapeOf(v, last), ref, v, reason)
  }

  /** The same over all watchers, for those that have a mailbox. */
  function DownsOf(S: Table, V: set<Pid>): set<DownKey> {
    set v, ref | v in V && v in S && ref in S[v].monitoredBy && HasMailbox(S, S[v].monitoredBy[ref])
      :: DownKey(S[v].monitoredBy[ref], ref, v)
  }

  /** `q` is what process `p` of `S` becomes in its links and monitors once `V` is cut off. */
  ghost predicate SeveredAt(S: Table, q: Proc, p: Pid, V: set<Pid>)
    requires p in S
  {
    && q.traps == S[p].traps && q.hasMailbox == S[p].hasMailbox && q.name == S[p].name && q.taskLive == S[p].taskLive
    && q.links == LinksAfter(S, p, V)
    && q.monitors == MonitorsAfter(S, p, V)
    && q.monitoredBy == if p in V then map[] else S[p].monitoredBy
  }

  ghost predicate Severed(S: Table, T: Table, V: set<Pid>) {
    T.Keys == S.Keys && forall p :: p in S ==> SeveredAt(S, T[p], p, V)
  }

  /** The EXIT messages process `p` gets, one from each visited process that was linked to it. */
  function ExitsTo(S: Table, V: set<Pid>, p: Pid, reason: Reason): set<Message> {
    set v | v in V && v in S && p in S[v].links :: Exit(Process(v), reason)
  }

  ghost predicate LinkedFrom(S: Table, V: set<Pid>, p: Pid) {
    exists v :: v in V && v in S && p in S[v].links
  }

  /** The full effect of a cascade with visited set `V` on process `p`. */
  ghost predicate CascadedAt(S: Table, q: Proc, p: Pid, V: set<Pid>, reason: Reason)
    requires p in S
  {
    && SeveredAt(S, q, p, V)
    && (q.cancelled <==> S[p].cancelled || (S[p].taskLive && !Shielded(S[p]) && LinkedFrom(S, V, p)))
    && S[p].inbox <= q.inbox
    && multiset(q.inbox) == multiset(S[p].inbox)
       + multiset(if Shielded(S[p]) then ExitsTo(S, V, p, reason) else {})
       + multiset(if S[p].hasMailbox then DownsTo(S, V, p, reason, {}) else {})
  }

  ghost predicate Cascaded(S: Table, T: Table, V: set<Pid>, reason: Reason) {
    T.Keys == S.Keys && forall p :: p in S ==> CascadedAt(S, T[p], p, V, reason)
  }

  /** One exit notification for `pid`, which does nothing when there is no such process. */
  ghost predicate Notified(S: Table, T: Table, pid: Pid, reason: Reason) {
    if pid in S then Cascaded(S, T, Closure(S, pid), reason) else T == S
  }

  lemma NobodyThere(S: Table, pid: Pid)
    requires pid !in S
    ensures Closure(S, pid) == {} && NamesOf(S, {}) == {} && DownsOf(S, {}) == {}
  {
    forall p | p in Closure(S, pid) ensures false {
      var path :| IsPath(S, path) && path[0] == pid && path[|path| - 1] == p;
      PathStaysIn(S, {pid}, path);
    }
  }
}
