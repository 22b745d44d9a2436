/** The atom table: double-checked locking, under every interleaving of the threads that ensure atoms. */
module AtomTable {
  import opened Wrappers

  datatype Name = Name(text: string)

  datatype Atom = Atom(id: nat, name: Name)

  /** Atoms compare by id. */
  predicate Same(a: Atom, b: Atom) {
    a.id == b.id
  }

  type Thread = nat

  /** What the threads share: both tables, the counter, and who holds the creation lock. */
  datatype Memory = Memory(atoms: map<Name, Atom>, byId: map<nat, Atom>, counter: nat, lock: Option<Thread>)

  /** Where a call stands. Each place is one read or write of shared memory away from the next. */
  datatype Place =
    | Scan | Hit
    | Acquire | Check | HitLocked | ReadCounter | WriteId | WriteName | ReadBump | WriteBump | Release
    | Done

  /** A call of `ensure_many`; `ensure` is the call with one name. */
  datatype Call = Call(place: Place, names: seq<Name>, todo: seq<Name>, missing: seq<Name>, result: seq<Atom>,
          id: nat, bump: nat)

  datatype World = World(mem: Memory, calls: map<Thread, Call>)

  predicate Holds(p: Place) {
    p in {Check, HitLocked, ReadCounter, WriteId, WriteName, ReadBump, WriteBump, Release}
  }

  function Made(c: Call): Atom
    requires c.missing != []
  {
    Atom(c.id, c.missing[0])
  }

  /** The reads of a step find what they look for. */
  predicate Ready(m: Memory, c: Call) {
    && (c.place == Hit ==> c.todo != [] && c.todo[0] in m.atoms)
    && (c.place in {HitLocked, ReadCounter, WriteId, WriteName, ReadBump, WriteBump} ==> c.missing != [])
    && (c.place == HitLocked ==> c.missing[0] in m.atoms)
  }

  /** One step of the call of `thread`. */
  function Stepped(m: Memory, thread: Thread, c: Call): (Memory, Call)
    requires Ready(m, c)
  {
    match c.place
    case Scan =>
      if c.todo == [] then (m, c.(place := if c.missing == [] then Done else Acquire))
      else if c.todo[0] in m.atoms then (m, c.(place := Hit))
      else (m, c.(todo := c.todo[1..], missing := c.missing + [c.todo[0]]))
    case Hit => (m, c.(place := Scan, todo := c.todo[1..], result := c.result + [m.atoms[c.todo[0]]]))
    case Acquire => if m.lock.Some? then (m, c) else (m.(lock := Some(thread)), c.(place := Check))
    case Check =>
      if c.missing == [] then (m, c.(place := Release))
      else if c.missing[0] in m.atoms then (m, c.(place := HitLocked))
      else (m, c.(place := ReadCounter))
    case HitLocked => (m, c.(place := Check, missing := c.missing[1..], result := c.result + [m.atoms[c.missing[0]]]))
    case ReadCounter => (m, c.(place := WriteId, id := m.counter))
    case WriteId => (m.(byId := m.byId[c.id := Made(c)]), c.(place := WriteName))
    case WriteName => (m.(atoms := m.atoms[c.missing[0] := Made(c)]), c.(place := ReadBump))
    case ReadBump => (m, c.(place := WriteBump, bump := m.counter))
    case WriteBump =>
      (m.(counter := c.bump + 1), c.(place := Check, missing := c.missing[1..], result := c.result + [Made(c)]))
    case Release => (m.(lock := None), c.(place := Done))
    case Done => (m, c)
  }

  datatype Step = Begin(thread: Thread, names: seq<Name>) | Go(thread: Thread)

  function Fresh(names: seq<Name>): Call {
    Call(Scan, names, names, [], [], 0, 0)
  }

  // ---------- The invariant ----------

  /** A visible name is in the id table already, and each id is filed under itself. */
  ghost predicate Sane(m: Memory) {
    && (forall n :: n in m.atoms ==> m.atoms[n].name == n && m.atoms[n].id in m.byId && m.byId[m.atoms[n].id] == m.atoms[n])
    && (forall i :: i in m.byId ==> m.byId[i].id == i)
  }

  /** The ids are exactly the first `counter`, and while an atom is made also the next one, which may be unnamed yet. */
  ghost predicate Numbered(m: Memory, place: Place) {
    && (forall i :: i in m.byId <==> 0 <= i < m.counter + if place in {WriteName, ReadBump, WriteBump} then 1 else 0)
    && (forall i :: i in m.byId ==> (place == WriteName && i == m.counter)
                                    || (m.byId[i].name in m.atoms && m.atoms[m.byId[i].name] == m.byId[i]))
  }

  ghost predicate CallOk(m: Memory, thread: Thread, c: Call) {
    && (Holds(c.place) <==> m.lock == Some(thread))
    && (forall i :: 0 <= i < |c.result| ==> c.result[i].name in m.atoms && m.atoms[c.result[i].name] == c.result[i])
    && (c.place == Hit ==> c.todo != [] && c.todo[0] in m.atoms)
    && (c.place !in {Scan, Hit} ==> c.todo == [])
    && (c.place in {Release, Done} ==> c.missing == [])
    && (c.place in {HitLocked, ReadCounter, WriteId, WriteName, ReadBump, WriteBump} ==> c.missing != [])
    && (c.place == HitLocked ==> c.missing[0] in m.atoms)
    && (c.place in {ReadCounter, WriteId, WriteName} ==> c.missing[0] !in m.atoms)
    && (c.place in {WriteId, WriteName, ReadBump, WriteBump} ==> c.id == m.counter)
    && (c.place == WriteName ==> c.id in m.byId && m.byId[c.id] == Made(c))
    && (c.place in {ReadBump, WriteBump} ==> c.missing[0] in m.atoms && m.atoms[c.missing[0]] == Made(c))
    && (c.place == WriteBump ==> c.bump == m.counter)
  }

  /** Where the holder of the lock stands. */
  function HolderPlace(w: World): Place {
    if w.mem.lock.Some? && w.mem.lock.value in w.calls then w.calls[w.mem.lock.value].place else Done
  }

  ghost predicate Inv(w: World) {
    && Sane(w.mem) && Numbered(w.mem, HolderPlace(w))
    && (w.mem.lock.Some? ==> w.mem.lock.value in w.calls)
    && (forall t :: t in w.calls ==> CallOk(w.mem, t, w.calls[t]))
  }

  predicate Enabled(w: World, step: Step) {
    match step
    case Begin(thread, _) => thread !in w.calls || w.calls[thread].place == Done
    case Go(thread) => thread in w.calls
  }

  function Apply(w: World, step: Step): World
    requires Enabled(w, step)
    requires step.Go? ==> Ready(w.mem, w.calls[step.thread])
  {
    match step
    case Begin(thread, names) => w.(calls := w.calls[thread := Fresh(names)])
    case Go(thread) =>
      var (m, c) := Stepped(w.mem, thread, w.calls[thread]);
      World(m, w.calls[thread := c])
  }

  lemma StepSane(m: Memory, thread: Thread, c: Call)
    requires Sane(m) && CallOk(m, thread, c) && (Holds(c.place) ==> Numbered(m, c.place))
    ensures Sane(Stepped(m, thread, c).0)
  {
  }

  /** The step of the lock's holder keeps the numbering, at its new place. */
  lemma HolderNumbers(m: Memory, thread: Thread, c: Call)
    requires Sane(m) && CallOk(m, thread, c) && Holds(c.place) && Numbered(m, c.place)
    ensures var (m', c') := Stepped(m, thread, c); Numbered(m', if c.place == Release then Done else c'.place)
  {
    var (m', c') := Stepped(m, thread, c);
    match c.place
    case WriteId => assert forall i :: i in m'.byId <==> 0 <= i < m.counter + 1;
    case WriteName => assert forall i :: i in m.byId && i != m.counter ==> m.byId[i].name != c.missing[0];
    case _ =>
  }

  /** Any other step leaves the tables alone. */
  lemma OthersOnlyLock(m: Memory, thread: Thread, c: Call)
    requires CallOk(m, thread, c) && !Holds(c.place)
    ensures var (m', c') := Stepped(m, thread, c);
            && m' == m.(lock := m'.lock)
            && (m'.lock == m.lock || (m.lock == None && m'.lock == Some(thread) && c'.place == Check))
            && (Holds(c'.place) <==> m.lock == None && m'.lock == Some(thread))
  {
  }

  /** A name, once visible, keeps its atom. */
  lemma AtomsStay(m: Memory, thread: Thread, c: Call, n: Name)
    requires CallOk(m, thread, c) && n in m.atoms
    ensures var m' := Stepped(m, thread, c).0; n in m'.atoms && m'.atoms[n] == m.atoms[n]
  {
  }

  lemma StepCallOk(m: Memory, thread: Thread, c: Call)
    requires Sane(m) && CallOk(m, thread, c) && (Holds(c.place) ==> Numbered(m, c.place))
    ensures CallOk(Stepped(m, thread, c).0, thread, Stepped(m, thread, c).1)
  {
    var (m', c') := Stepped(m, thread, c);
    forall i | 0 <= i < |c'.result|
      ensures c'.result[i].name in m'.atoms && m'.atoms[c'.result[i].name] == c'.result[i]
    {
      if i < |c.result| {
        AtomsStay(m, thread, c, c.result[i].name);
      }
    }
  }

  lemma OtherCallOk(m: Memory, thread: Thread, c: Call, other: Thread, d: Call)
    requires CallOk(m, thread, c) && CallOk(m, other, d) && other != thread
    ensures CallOk(Stepped(m, thread, c).0, other, d)
  {
    if Holds(c.place) {
      forall i | 0 <= i < |d.result| {
        AtomsStay(m, thread, c, d.result[i].name);
      }
      if d.place == Hit {
        AtomsStay(m, thread, c, d.todo[0]);
      }
    } else {
      OthersOnlyLock(m, thread, c);
    }
  }

  lemma StepKeeps(w: World, step: Step)
    requires Inv(w) && Enabled(w, step)
    ensures step.Go? ==> Ready(w.mem, w.calls[step.thread])
    ensures Inv(Apply(w, step))
  {
    match step
    case Begin(thread, names) =>
      assert thread in w.calls ==> CallOk(w.mem, thread, w.calls[thread]);
      assert w.mem.lock != Some(thread);
    case Go(thread) => GoKeeps(w, thread);
  }

  lemma GoKeeps(w: World, thread: Thread)
    requires Inv(w) && thread in w.calls
    ensures Ready(w.mem, w.calls[thread]) && Inv(Apply(w, Go(thread)))
  {
    var c := w.calls[thread];
    assert CallOk(w.mem, thread, c);
    var (m', c') := Stepped(w.mem, thread, c);
    var w' := Apply(w, Go(thread));
    StepSane(w.mem, thread, c);
    StepCallOk(w.mem, thread, c);
    if Holds(c.place) {
      HolderNumbers(w.mem, thread, c);
    } else {
      OthersOnlyLock(w.mem, thread, c);
    }
    forall t | t in w'.calls ensures CallOk(m', t, w'.calls[t]) {
      if t != thread {
        OtherCallOk(w.mem, thread, c, t, w.calls[t]);
      }
    }
    assert HolderPlace(w') == if Holds(c'.place) then c'.place else if Holds(c.place) then Done else HolderPlace(w);
    hide Stepped, CallOk, Sane;
  }

  ghost predicate Follows(w: World, steps: seq<Step>, v: World)
    requires Inv(w)
    decreases |steps|
  {
    if steps == [] then v == w
    else Enabled(w, steps[0]) && (StepKeeps(w, steps[0]); Follows(Apply(w, steps[0]), steps[1..], v))
  }

  /** The invariant holds in every interleaving of any number of calls. */
  lemma {:induction false} RunKeeps(w: World, steps: seq<Step>, v: World)
    requires Inv(w) && Follows(w, steps, v)
    ensures Inv(v)
    decreases |steps|
  {
    if steps != [] {
      StepKeeps(w, steps[0]);
      RunKeeps(Apply(w, steps[0]), steps[1..], v);
    }
  }

  function Empty(): World {
    World(Memory(map[], map[], 0, None), map[])
  }

  lemma EmptyIsSound()
    ensures Inv(Empty())
  {
  }

  /** An atom, once visible, is never replaced. */
  lemma {:induction false} RunAtomsStay(w: World, steps: seq<Step>, v: World, n: Name)
    requires Inv(w) && Follows(w, steps, v) && n in w.mem.atoms
    ensures n in v.mem.atoms && v.mem.atoms[n] == w.mem.atoms[n]
    decreases |steps|
  {
    if steps != [] {
      StepKeeps(w, steps[0]);
      if steps[0].Go? {
        assert CallOk(w.mem, steps[0].thread, w.calls[steps[0].thread]);
        AtomsStay(w.mem, steps[0].thread, w.calls[steps[0].thread], n);
      }
      hide CallOk, Stepped, Sane;
      RunAtomsStay(Apply(w, steps[0]), steps[1..], v, n);
    }
  }

  /** Two atoms returned to any calls, at any two moments of any interleaving, are equal just when their names are. */
  lemma EqualIffSameName(w: World, steps: seq<Step>, v: World, t: Thread, u: Thread, i: nat, j: nat)
    requires Inv(w) && Follows(w, steps, v) && t in w.calls && u in v.calls
    requires i < |w.calls[t].result| && j < |v.calls[u].result|
    ensures Same(w.calls[t].result[i], v.calls[u].result[j]) <==> w.calls[t].result[i].name == v.calls[u].result[j].name
  {
    RunKeeps(w, steps, v);
    assert CallOk(w.mem, t, w.calls[t]) && CallOk(v.mem, u, v.calls[u]);
    var a, b := w.calls[t].result[i], v.calls[u].result[j];
    RunAtomsStay(w, steps, v, a.name);
    assert v.mem.byId[a.id] == a && v.mem.byId[b.id] == b;
  }

  /** Whenever the lock is free the ids are exactly the first `counter`, one for each name. */
  lemma IdsWhenFree(w: World, steps: seq<Step>, v: World)
    requires Inv(w) && Follows(w, steps, v) && v.mem.lock == None
    ensures forall i :: i in v.mem.byId <==> 0 <= i < v.mem.counter
    ensures forall i :: i in v.mem.byId ==> v.mem.byId[i].name in v.mem.atoms && v.mem.atoms[v.mem.byId[i].name].id == i
    ensures forall n :: n in v.mem.atoms ==> v.mem.atoms[n].id in v.mem.byId && v.mem.byId[v.mem.atoms[n].id].name == n
  {
    RunKeeps(w, steps, v);
  }

  /** At every moment of every interleaving, a visible name is already in the id table. */
  lemma VisibleIsFiled(w: World, steps: seq<Step>, v: World, n: Name)
    requires Inv(w) && Follows(w, steps, v) && n in v.mem.atoms
    ensures v.mem.atoms[n].name == n && v.mem.atoms[n].id in v.mem.byId && v.mem.byId[v.mem.atoms[n].id] == v.mem.atoms[n]
  {
    RunKeeps(w, steps, v);
  }

  // ---------- Every name asked for is answered ----------

  function NamesOf(atoms: seq<Atom>): seq<Name> {
    seq(|atoms|, i requires 0 <= i < |atoms| => atoms[i].name)
  }

  /** Asked for, as a multiset: answered, missing, or still to be looked at. */
  ghost predicate Accounts(c: Call) {
    multiset(c.names) == multiset(NamesOf(c.result)) + multiset(c.missing) + multiset(c.todo)
  }

  lemma AnsweredOne(result: seq<Atom>, a: Atom)
    ensures multiset(NamesOf(result + [a])) == multiset(NamesOf(result)) + multiset{a.name}
  {
    assert NamesOf(result + [a]) == NamesOf(result) + [a.name];
  }

  lemma FirstOff(ns: seq<Name>)
    requires ns != []
    ensures multiset(ns) == multiset{ns[0]} + multiset(ns[1..])
  {
    assert ns == [ns[0]] + ns[1..];
  }

  /** A name looked at is answered, or put among the missing ones. */
  lemma LookedAt(c: Call, a: Atom)
    requires c.todo != [] && Accounts(c)
    ensures c.todo[0] == a.name ==> Accounts(c.(todo := c.todo[1..], result := c.result + [a]))
    ensures Accounts(c.(todo := c.todo[1..], missing := c.missing + [c.todo[0]]))
  {
    FirstOff(c.todo);
    AnsweredOne(c.result, a);
    assert multiset(c.missing + [c.todo[0]]) == multiset(c.missing) + multiset{c.todo[0]};
    hide NamesOf;
  }

  lemma FoundOrMade(c: Call, a: Atom)
    requires c.missing != [] && c.missing[0] == a.name && Accounts(c)
    ensures Accounts(c.(missing := c.missing[1..], result := c.result + [a]))
  {
    FirstOff(c.missing);
    AnsweredOne(c.result, a);
    hide NamesOf;
  }

  lemma SameAccount(c: Call, d: Call)
    requires d.names == c.names && d.todo == c.todo && d.missing == c.missing && d.result == c.result && Accounts(c)
    ensures Accounts(d)
  {
  }

  lemma StepAccounts(m: Memory, thread: Thread, c: Call)
    requires Sane(m) && CallOk(m, thread, c) && Accounts(c)
    ensures Accounts(Stepped(m, thread, c).1) && Stepped(m, thread, c).1.names == c.names
  {
    var c' := Stepped(m, thread, c).1;
    hide Accounts;
    match c.place
    case Hit =>
      LookedAt(c, m.atoms[c.todo[0]]);
      SameAccount(c.(todo := c.todo[1..], result := c.result + [m.atoms[c.todo[0]]]), c');
    case HitLocked =>
      FoundOrMade(c, m.atoms[c.missing[0]]);
      SameAccount(c.(missing := c.missing[1..], result := c.result + [m.atoms[c.missing[0]]]), c');
    case WriteBump =>
      FoundOrMade(c, Made(c));
      SameAccount(c.(missing := c.missing[1..], result := c.result + [Made(c)]), c');
    case Scan =>
      if c.todo != [] && c.todo[0] !in m.atoms {
        LookedAt(c, Atom(0, c.todo[0]));
        SameAccount(c.(todo := c.todo[1..], missing := c.missing + [c.todo[0]]), c');
      } else {
        SameAccount(c, c');
      }
    case _ => SameAccount(c, c');
  }

  ghost predicate AllAccount(w: World) {
    forall t :: t in w.calls ==> Accounts(w.calls[t])
  }

  lemma {:induction false} RunAccounts(w: World, steps: seq<Step>, v: World)
    requires Inv(w) && AllAccount(w) && Follows(w, steps, v)
    ensures Inv(v) && AllAccount(v)
    decreases |steps|
  {
    if steps != [] {
      StepKeeps(w, steps[0]);
      match steps[0] {
        case Go(thread) =>
          assert CallOk(w.mem, thread, w.calls[thread]);
          StepAccounts(w.mem, thread, w.calls[thread]);
        case Begin(_, names) =>
          assert multiset(NamesOf([])) + multiset([]) + multiset(names) == multiset(names);
      }
      hide CallOk, Stepped, Sane, Accounts;
      RunAccounts(Apply(w, steps[0]), steps[1..], v);
    }
  }

  /** A call that is done has answered every name it was asked for, as often as it was asked. */
  lemma DoneAnswersAll(w: World, steps: seq<Step>, v: World, t: Thread)
    requires Inv(w) && AllAccount(w) && Follows(w, steps, v) && t in v.calls && v.calls[t].place == Done
    ensures multiset(NamesOf(v.calls[t].result)) == multiset(v.calls[t].names)
  {
    RunAccounts(w, steps, v);
    assert CallOk(v.mem, t, v.calls[t]) && Accounts(v.calls[t]);
  }

  /** So `ensure` returns one atom, of the name it was given. */
  lemma EnsureReturnsItsName(w: World, steps: seq<Step>, v: World, t: Thread, name: Name)
    requires Inv(w) && AllAccount(w) && Follows(w, steps, v) && t in v.calls && v.calls[t].place == Done
    requires v.calls[t].names == [name]
    ensures |v.calls[t].result| == 1 && v.calls[t].result[0].name == name
  {
    DoneAnswersAll(w, steps, v, t);
    var names := NamesOf(v.calls[t].result);
    assert |multiset(names)| == |multiset([name])| == 1;
    assert names[0] in multiset(names);
  }

  // ---------- The table, used by one thread ----------

  /** A name made sure of: the table gains the next id for it, or is as it was. */
  function Ensured(m: Memory, name: Name): Memory {
    if name in m.atoms then m
    else
      var a := Atom(m.counter, name);
      m.(byId := m.byId[m.counter := a], atoms := m.atoms[name := a], counter := m.counter + 1)
  }

  function EnsuredAll(m: Memory, names: seq<Name>): Memory
    decreases |names|
  {
    if names == [] then m else EnsuredAll(Ensured(m, names[0]), names[1..])
  }

  lemma EnsuredKeeps(m: Memory, name: Name)
    requires Sane(m) && Numbered(m, Done)
    ensures var m' := Ensured(m, name);
            && Sane(m') && Numbered(m', Done) && name in m'.atoms
            && (forall n :: n in m.atoms ==> n in m'.atoms && m'.atoms[n] == m.atoms[n])
            && (forall n :: n in m'.atoms <==> n in m.atoms || n == name)
  {
    var m' := Ensured(m, name);
    assert name !in m.atoms ==> forall i :: i in m.byId ==> m.byId[i].name != name;
  }

  /** Ensuring many names makes just those visible, and replaces nothing. */
  lemma {:induction false} EnsuredAllKeeps(m: Memory, names: seq<Name>)
    requires Sane(m) && Numbered(m, Done)
    ensures var m' := EnsuredAll(m, names);
            && Sane(m') && Numbered(m', Done)
            && (forall n :: n in m.atoms ==> n in m'.atoms && m'.atoms[n] == m.atoms[n])
            && (forall n :: n in m'.atoms <==> n in m.atoms || n in names)
    decreases |names|
  {
    if names != [] {
      EnsuredKeeps(m, names[0]);
      hide Ensured, Sane, Numbered;
      EnsuredAllKeeps(Ensured(m, names[0]), names[1..]);
    }
  }

  ghost predicate Visible(m: Memory, atoms: seq<Atom>) {
    forall i :: 0 <= i < |atoms| ==> atoms[i].name in m.atoms && m.atoms[atoms[i].name] == atoms[i]
  }

  /** What the first pass finds, and what it leaves to be made. */
  function Found(m: Memory, names: seq<Name>): seq<Atom> {
    if names == [] then []
    else
      var n := names[|names| - 1];
      Found(m, names[..|names| - 1]) + if n in m.atoms then [m.atoms[n]] else []
  }

  function Unfound(m: Memory, names: seq<Name>): seq<Name> {
    if names == [] then []
    else
      var n := names[|names| - 1];
      Unfound(m, names[..|names| - 1]) + if n in m.atoms then [] else [n]
  }

  lemma {:induction false} FoundAndUnfound(m: Memory, names: seq<Name>)
    ensures forall n :: n in names ==> n in m.atoms || n in Unfound(m, names)
    ensures forall n :: n in Unfound(m, names) ==> n in names
    ensures Sane(m) ==> Visible(m, Found(m, names))
    ensures |Found(m, names)| + |Unfound(m, names)| == |names|
  {
    if names != [] {
      FoundAndUnfound(m, names[..|names| - 1]);
      assert names == names[..|names| - 1] + [names[|names| - 1]];
    }
  }

  /** Both in the order asked. */
  lemma {:induction false} FoundInOrder(m: Memory, a: seq<Name>, b: seq<Name>)
    ensures Found(m, a + b) == Found(m, a) + Found(m, b)
    ensures Unfound(m, a + b) == Unfound(m, a) + Unfound(m, b)
  {
    if b == [] {
      assert a + b == a;
    } else {
      var n := |b| - 1;
      assert (a + b)[..|a + b| - 1] == a + b[..n] && (a + b)[|a + b| - 1] == b[n];
      FoundInOrder(m, a, b[..n]);
      FoundLast(m, a + b);
      FoundLast(m, b);
      hide Found, Unfound;
    }
  }

  lemma FoundLast(m: Memory, names: seq<Name>)
    requires names != []
    ensures var n, front := names[|names| - 1], names[..|names| - 1];
            && Found(m, names) == Found(m, front) + (if n in m.atoms then [m.atoms[n]] else [])
            && Unfound(m, names) == Unfound(m, front) + (if n in m.atoms then [] else [n])
  {
  }

  /** One name is found, as the atom it has, or left to be made. */
  lemma FoundOne(m: Memory, n: Name)
    ensures Found(m, [n]) == if n in m.atoms then [m.atoms[n]] else []
    ensures Unfound(m, [n]) == if n in m.atoms then [] else [n]
  {
    assert [n][..0] == [];
    assert Found(m, []) == [] && Unfound(m, []) == [];
  }

  /** Under every interleaving a call's answers stay in the order they were given, and names are looked at in the order
      asked. */
  lemma AnswersOnlyGrow(m: Memory, thread: Thread, c: Call)
    requires Ready(m, c)
    ensures var d := Stepped(m, thread, c).1;
            && c.result <= d.result && |d.result| <= |c.result| + 1
            && (d.todo == c.todo || (c.todo != [] && d.todo == c.todo[1..]))
            && (d.missing == c.missing || (c.missing != [] && d.missing == c.missing[1..])
                || (c.todo != [] && d.missing == c.missing + [c.todo[0]]))
  {
  }

  lemma NamesOfBoth(a: seq<Atom>, b: seq<Atom>)
    ensures NamesOf(a + b) == NamesOf(a) + NamesOf(b) && |NamesOf(b)| == |b| && a <= a + b
  {
  }

  lemma VisibleBoth(m: Memory, a: seq<Atom>, b: seq<Atom>)
    requires Visible(m, a) && Visible(m, b)
    ensures Visible(m, a + b)
  {
  }

  lemma StillVisible(m: Memory, m': Memory, atoms: seq<Atom>)
    requires Visible(m, atoms) && forall n :: n in m.atoms ==> n in m'.atoms && m'.atoms[n] == m.atoms[n]
    ensures Visible(m', atoms)
  {
  }

  lemma CreatedOne(m: Memory, before: Memory, after: Memory, missing: seq<Name>, i: nat, made: seq<Atom>, a: Atom)
    requires Sane(before) && Numbered(before, Done) && i < |missing| && after == Ensured(before, missing[i])
    requires missing[i] in after.atoms && a == after.atoms[missing[i]]
    requires NamesOf(made) == missing[..i] && Visible(before, made)
    requires EnsuredAll(before, missing[i..]) == EnsuredAll(m, missing)
    ensures EnsuredAll(after, missing[i + 1..]) == EnsuredAll(m, missing)
    ensures NamesOf(made + [a]) == missing[..i + 1] && Visible(after, made + [a])
  {
    assert missing[i..][1..] == missing[i + 1..];
    EnsuredKeeps(before, missing[i]);
    assert a.name == missing[i];
    assert NamesOf(made + [a]) == NamesOf(made) + [a.name];
    StillVisible(before, after, made);
    assert Visible(after, [a]);
    hide Sane, Numbered, Ensured, NamesOf;
    VisibleBoth(after, made, [a]);
    hide Visible;
  }

  class Table {
    var atoms: map<Name, Atom>
    var byId: map<nat, Atom>
    var counter: nat

    ghost function State(): Memory
      reads this
    {
      Memory(atoms, byId, counter, None)
    }

    ghost predicate Valid()
      reads this
    {
      Sane(State()) && Numbered(State(), Done)
    }

    constructor ()
      ensures Valid() && State() == Memory(map[], map[], 0, None)
    {
      atoms, byId, counter := map[], map[], 0;
    }

    /** The creation path, run under the lock. */
    method Create(name: Name) returns (a: Atom)
      requires Valid()
      modifies this
      ensures Valid() && State() == Ensured(old(State()), name)
      ensures name in atoms && a == atoms[name]
    {
      EnsuredKeeps(State(), name);
      if name in atoms {
        return atoms[name];
      }
      var id := counter;
      a := Atom(id, name);
      byId := byId[id := a];
      atoms := atoms[name := a];
      counter := counter + 1;
    }

    method Ensure(name: Name) returns (a: Atom)
      requires Valid()
      modifies this
      ensures Valid() && State() == Ensured(old(State()), name)
      ensures name in atoms && a == atoms[name] && a.name == name
    {
      if name in atoms {
        return atoms[name];
      }
      a := Create(name);
    }

    /** The first pass, without the lock. */
    method Collect(names: seq<Name>) returns (result: seq<Atom>, missing: seq<Name>)
      ensures result == Found(State(), names) && missing == Unfound(State(), names)
    {
      result, missing := [], [];
      for i := 0 to |names|
        invariant result == Found(State(), names[..i]) && missing == Unfound(State(), names[..i])
      {
        assert names[..i + 1][..i] == names[..i];
        if names[i] in atoms {
          result := result + [atoms[names[i]]];
        } else {
          missing := missing + [names[i]];
        }
      }
      assert names[..|names|] == names;
    }

    /** The second pass, under the lock. */
    method CreateAll(missing: seq<Name>) returns (made: seq<Atom>)
      requires Valid()
      modifies this
      ensures Valid() && State() == EnsuredAll(old(State()), missing)
      ensures NamesOf(made) == missing && Visible(State(), made)
    {
      ghost var m := State();
      made := [];
      for i := 0 to |missing|
        invariant Valid() && EnsuredAll(State(), missing[i..]) == EnsuredAll(m, missing)
        invariant NamesOf(made) == missing[..i] && Visible(State(), made)
      {
        ghost var before := State();
        var a := Create(missing[i]);
        CreatedOne(m, before, State(), missing, i, made, a);
        made := made + [a];
      }
      assert missing[..|missing|] == missing;
    }

    /** Existing atoms first, then those made, each group in the order asked. */
    method EnsureMany(names: seq<Name>) returns (result: seq<Atom>)
      requires Valid()
      modifies this
      ensures Valid() && State() == EnsuredAll(old(State()), Unfound(old(State()), names))
      ensures |result| == |names| && Visible(State(), result)
      ensures Found(old(State()), names) <= result
      ensures NamesOf(result) == NamesOf(Found(old(State()), names)) + Unfound(old(State()), names)
    {
      var found, missing := Collect(names);
      FoundAndUnfound(State(), names);
      EnsuredAllKeeps(State(), missing);
      ghost var before := State();
      var made := CreateAll(missing);
      StillVisible(before, State(), found);
      result := found + made;
      NamesOfBoth(found, made);
      VisibleBoth(State(), found, made);
      hide Visible, NamesOf, Found, Unfound, EnsuredAll, Sane, Numbered;
    }

    method GetByName(name: Name) returns (a: Option<Atom>)
      requires Valid()
      ensures a.Some? <==> name in atoms
      ensures a.Some? ==> a.value.name == name && a.value.id in byId && byId[a.value.id] == a.value
    {
      a := if name in atoms then Some(atoms[name]) else None;
    }

    /** An unknown id is an error; a known one gives the atom that its name gives. */
    method GetById(id: nat) returns (a: Option<Atom>)
      requires Valid()
      ensures a.Some? <==> id < counter
      ensures a.Some? ==> a.value.id == id && a.value.name in atoms && atoms[a.value.name] == a.value
    {
      a := if id in byId then Some(byId[id]) else None;
    }
  }
}
