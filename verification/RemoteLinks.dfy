/** The two tables of links between local and remote processes. */
module RemoteLinks {
  type Pid = nat

  /** A dictionary of sets. */
  type Index = map<Pid, set<Pid>>

  function Added(m: Index, k: Pid, x: Pid): Index {
    m[k := (if k in m then m[k] else {}) + {x}]
  }

  function Dropped(m: Index, k: Pid, x: Pid): Index {
    if k !in m then m
    else if m[k] - {x} == {} then m - {k}
    else m[k := m[k] - {x}]
  }

  predicate Has(m: Index, k: Pid, x: Pid) {
    k in m && x in m[k]
  }

  /** `links`: local pid to remote pids. `reverse`: remote pid to local pids. */
  datatype Tables = Tables(links: Index, reverse: Index)

  ghost predicate Transposed(t: Tables) {
    forall l, r :: Has(t.links, l, r) <==> Has(t.reverse, r, l)
  }

  ghost predicate NoEmptyEntry(m: Index) {
    forall k :: k in m ==> m[k] != {}
  }

  ghost predicate Consistent(t: Tables) {
    Transposed(t) && NoEmptyEntry(t.links) && NoEmptyEntry(t.reverse)
  }

  datatype Op =
    | LinkOut(local: Pid, remote: Pid)
    | UnlinkOut(local: Pid, remote: Pid)
    | LinkIn(remote: Pid, local: Pid, alive: bool)
    | UnlinkIn(remote: Pid, local: Pid)

  function Apply(t: Tables, op: Op): Tables {
    match op
    case LinkOut(l, r) => Tables(Added(t.links, l, r), Added(t.reverse, r, l))
    case UnlinkOut(l, r) => Tables(Dropped(t.links, l, r), Dropped(t.reverse, r, l))
    case LinkIn(r, l, alive) => if alive then Tables(Added(t.links, l, r), Added(t.reverse, r, l)) else t
    case UnlinkIn(r, l) => Tables(Dropped(t.links, l, r), Dropped(t.reverse, r, l))
  }

  function Run(ops: seq<Op>): Tables {
    if ops == [] then Tables(map[], map[]) else Apply(Run(ops[..|ops| - 1]), ops[|ops| - 1])
  }

  /** The plain reading of the same run: a set of linked pairs (local, remote). */
  function Pairs(ops: seq<Op>): set<(Pid, Pid)> {
    if ops == [] then {}
    else
      var before := Pairs(ops[..|ops| - 1]);
      match ops[|ops| - 1]
      case LinkOut(l, r) => before + {(l, r)}
      case UnlinkOut(l, r) => before - {(l, r)}
      case LinkIn(r, l, alive) => if alive then before + {(l, r)} else before
      case UnlinkIn(r, l) => before - {(l, r)}
  }

  lemma IndexOps(m: Index, k: Pid, x: Pid)
    ensures forall a, b :: Has(Added(m, k, x), a, b) <==> Has(m, a, b) || (a == k && b == x)
    ensures forall a, b :: Has(Dropped(m, k, x), a, b) <==> Has(m, a, b) && !(a == k && b == x)
    ensures NoEmptyEntry(m) ==> NoEmptyEntry(Added(m, k, x)) && NoEmptyEntry(Dropped(m, k, x))
  {
    assert k in m && m[k] - {x} == {} ==> forall b :: b in m[k] ==> b in m[k] - {x} || b == x;
  }

  /** What each event does to the pairs of one table, and with the sides changed to those of the other. A link that comes in
      is taken only if the local process is alive. */
  lemma EventsLink(t: Tables, l: Pid, r: Pid, a: Pid, b: Pid)
    ensures forall op :: op == LinkOut(l, r) || op == LinkIn(r, l, true) ==>
              && (a in Apply(t, op).links && b in Apply(t, op).links[a]
                  <==> (a in t.links && b in t.links[a]) || (a == l && b == r))
              && (b in Apply(t, op).reverse && a in Apply(t, op).reverse[b]
                  <==> (b in t.reverse && a in t.reverse[b]) || (a == l && b == r))
    ensures forall op :: op == UnlinkOut(l, r) || op == UnlinkIn(r, l) ==>
              && (a in Apply(t, op).links && b in Apply(t, op).links[a]
                  <==> a in t.links && b in t.links[a] && !(a == l && b == r))
              && (b in Apply(t, op).reverse && a in Apply(t, op).reverse[b]
                  <==> b in t.reverse && a in t.reverse[b] && !(a == l && b == r))
    ensures Apply(t, LinkIn(r, l, false)) == t
  {
    IndexOps(t.links, l, r);
    IndexOps(t.reverse, r, l);
    assert forall m, k, x :: Has(m, k, x) <==> k in m && x in m[k];
    hide Added, Dropped;
    assert Has(Added(t.links, l, r), a, b) <==> Has(t.links, a, b) || (a == l && b == r);
    assert Has(Added(t.reverse, r, l), b, a) <==> Has(t.reverse, b, a) || (a == l && b == r);
    assert Has(Dropped(t.links, l, r), a, b) <==> Has(t.links, a, b) && !(a == l && b == r);
    assert Has(Dropped(t.reverse, r, l), b, a) <==> Has(t.reverse, b, a) && !(a == l && b == r);
  }

  /** Over every run the tables are transposes without empty entries, and hold exactly the linked pairs. */
  lemma {:induction false} RunIsConsistent(ops: seq<Op>)
    ensures Consistent(Run(ops))
    ensures forall l: Pid, r: Pid :: Has(Run(ops).links, l, r) <==> (l, r) in Pairs(ops)
  {
    if ops != [] {
      RunIsConsistent(ops[..|ops| - 1]);
      var t := Run(ops[..|ops| - 1]);
      var op := ops[|ops| - 1];
      IndexOps(t.links, op.local, op.remote);
      IndexOps(t.reverse, op.remote, op.local);
    }
  }

  /** The end of a process deletes its forward entry alone, which is harmless only if there is none. */
  lemma EndBreaksTranspose(t: Tables, pid: Pid)
    requires Consistent(t)
    ensures Consistent(t.(links := t.links - {pid})) <==> pid !in t.links
  {
    if pid in t.links {
      var r :| r in t.links[pid];
      assert Has(t.links, pid, r);
      assert Has(t.reverse, r, pid) && !Has(t.links - {pid}, pid, r);
    } else {
      assert t.links - {pid} == t.links;
    }
  }

  /** One link to a remote process is enough. */
  lemma EndOfLinkedProcessBreaksTranspose(local: Pid, remote: Pid)
    ensures var t := Run([LinkOut(local, remote)]); !Consistent(t.(links := t.links - {local}))
  {
    RunIsConsistent([LinkOut(local, remote)]);
    var t := Run([LinkOut(local, remote)]);
    assert [LinkOut(local, remote)][..0] == [];
    assert (local, remote) in Pairs([LinkOut(local, remote)]);
    assert Has(t.links, local, remote);
    EndBreaksTranspose(t, local);
  }

  class LinkTables {
    var remoteLinks: Index
    var remoteLinksReverse: Index

    constructor ()
      ensures State() == Run([])
    {
      remoteLinks, remoteLinksReverse := map[], map[];
    }

    function State(): Tables
      reads this
    {
      Tables(remoteLinks, remoteLinksReverse)
    }

    method LinkRemote(local: Pid, remote: Pid)
      modifies this
      ensures State() == Apply(old(State()), LinkOut(local, remote))
    {
      if local !in remoteLinks {
        remoteLinks := remoteLinks[local := {}];
      }
      remoteLinks := remoteLinks[local := remoteLinks[local] + {remote}];
      if remote !in remoteLinksReverse {
        remoteLinksReverse := remoteLinksReverse[remote := {}];
      }
      remoteLinksReverse := remoteLinksReverse[remote := remoteLinksReverse[remote] + {local}];
    }

    method UnlinkRemote(local: Pid, remote: Pid)
      modifies this
      ensures State() == Apply(old(State()), UnlinkOut(local, remote))
    {
      if local in remoteLinks {
        remoteLinks := remoteLinks[local := remoteLinks[local] - {remote}];
        if remoteLinks[local] == {} {
          remoteLinks := remoteLinks - {local};
        }
      }
      if remote in remoteLinksReverse {
        remoteLinksReverse := remoteLinksReverse[remote := remoteLinksReverse[remote] - {local}];
        if remoteLinksReverse[remote] == {} {
          remoteLinksReverse := remoteLinksReverse - {remote};
        }
      }
      assert remoteLinks == Dropped(old(remoteLinks), local, remote);
    }

    /** The result says whether the link was taken; if not, an EXIT for `noproc` goes back. */
    method LinkRemoteIncoming(remote: Pid, local: Pid, alive: bool) returns (taken: bool)
      modifies this
      ensures taken == alive
      ensures State() == Apply(old(State()), LinkIn(remote, local, alive))
    {
      if alive {
        LinkRemote(local, remote);
      }
      taken := alive;
    }

    method UnlinkRemoteIncoming(remote: Pid, local: Pid)
      modifies this
      ensures State() == Apply(old(State()), UnlinkIn(remote, local))
    {
      UnlinkRemote(local, remote);
    }
  }
}
