/** The Python values that the External Term Format codec takes and gives. */
module Terms {
  import opened Bytes
  import Utf8

  type Text = Utf8.Text

  /** An IEEE 754 double as its eight big-endian bytes. */
  type double = s: bytes | |s| == 8 witness [0, 0, 0, 0, 0, 0, 0, 0]

  /** The constructor checks the node and the three ranges. */
  datatype Pid = Pid(node: Text, id: u32, serial: u32, creation: u32)

  datatype Term =
    | NoneTerm
    | Bool(b: bool)
    | Int(n: int)
    | Float(bits: double)
    | Atom(name: Text)
    | Str(text: Text)
    | Binary(data: bytes)
    | Tuple(items: seq<Term>)
    | List(items: seq<Term>)
    | Map(entries: seq<Entry>)
    | PidTerm(pid: Pid)
    | Ref(node: Term, creation: int, ids: seq<int>)
    | Port(node: Term, id: int, creation: int)

  /** A dictionary is its entries in insertion order. */
  datatype Entry = Entry(key: Term, value: Term)

  const NIL_NAME: Text := [110, 105, 108]
  const TRUE_NAME: Text := [116, 114, 117, 101]
  const FALSE_NAME: Text := [102, 97, 108, 115, 101]

  // ---------- What a term comes back as ----------

  /** None and booleans come back as atoms, strings as their UTF-8 bytes. */
  function Norm(t: Term): Term
    decreases t, 1
  {
    match t
    case NoneTerm => Atom(NIL_NAME)
    case Bool(b) => Atom(if b then TRUE_NAME else FALSE_NAME)
    case Str(text) => Binary(Utf8.Encode(text))
    case Tuple(items) => Tuple(NormAll(items))
    case List(items) => List(NormAll(items))
    case Map(entries) => Map(NormEntries(entries))
    case Ref(node, creation, ids) => Ref(Norm(node), creation, ids)
    case Port(node, id, creation) => Port(Norm(node), id, creation)
    case _ => t
  }

  function NormAll(ts: seq<Term>): (r: seq<Term>)
    ensures |r| == |ts|
    decreases ts, 0
  {
    if ts == [] then [] else [Norm(ts[0])] + NormAll(ts[1..])
  }

  function NormEntries(es: seq<Entry>): (r: seq<Entry>)
    ensures |r| == |es|
    decreases es, 0
  {
    if es == [] then [] else [NormEntry(es[0])] + NormEntries(es[1..])
  }

  function NormEntry(e: Entry): Entry
    decreases e, 0
  {
    Entry(Norm(e.key), Norm(e.value))
  }

  // ---------- Dictionaries ----------

  /** `hash` works on a term: not on lists, dictionaries and ports, nor on what holds one. */
  predicate Hashable(t: Term) {
    match t
    case List(_) => false
    case Map(_) => false
    case Port(_, _, _) => false
    case Tuple(items) => forall i :: 0 <= i < |items| ==> Hashable(items[i])
    case Ref(node, _, _) => Hashable(node)
    case _ => true
  }

  predicate DistinctKeys(es: seq<Entry>) {
    forall i, j :: 0 <= i < j < |es| ==> es[i].key != es[j].key
  }

  /** `d[k] = v`: a known key keeps its place. */
  function Put(es: seq<Entry>, k: Term, v: Term): seq<Entry> {
    if es == [] then [Entry(k, v)]
    else if es[0].key == k then [Entry(k, v)] + es[1..]
    else [es[0]] + Put(es[1..], k, v)
  }

  function DictOf(es: seq<Entry>): seq<Entry> {
    if es == [] then [] else Put(DictOf(es[..|es| - 1]), es[|es| - 1].key, es[|es| - 1].value)
  }

  lemma {:induction false} PutNewKey(es: seq<Entry>, k: Term, v: Term)
    requires forall i :: 0 <= i < |es| ==> es[i].key != k
    ensures Put(es, k, v) == es + [Entry(k, v)]
  {
    if es != [] {
      PutNewKey(es[1..], k, v);
    }
  }

  lemma {:induction false} DictOfDistinct(es: seq<Entry>)
    requires DistinctKeys(es)
    ensures DictOf(es) == es
  {
    if es != [] {
      var n := |es| - 1;
      DictOfDistinct(es[..n]);
      PutNewKey(es[..n], es[n].key, es[n].value);
      assert es[..n] + [es[n]] == es;
    }
  }

  /** Putting keeps the keys distinct, adds at most `k`, and takes every entry from `es` or `(k, v)`. */
  lemma {:induction false} PutKeepsDistinct(es: seq<Entry>, k: Term, v: Term)
    requires DistinctKeys(es)
    ensures DistinctKeys(Put(es, k, v))
    ensures forall e :: e in Put(es, k, v) ==> e in es || e == Entry(k, v)
  {
    if es != [] && es[0].key != k {
      PutKeepsDistinct(es[1..], k, v);
      var rest := Put(es[1..], k, v);
      forall j | 0 <= j < |rest| ensures rest[j].key != es[0].key {
        assert rest[j] in es[1..] || rest[j] == Entry(k, v);
      }
      assert Put(es, k, v) == [es[0]] + rest;
    }
  }

  lemma {:induction false} DictOfIsDict(es: seq<Entry>)
    ensures DistinctKeys(DictOf(es))
    ensures forall e :: e in DictOf(es) ==> e in es
  {
    if es != [] {
      var n := |es| - 1;
      DictOfIsDict(es[..n]);
      PutKeepsDistinct(DictOf(es[..n]), es[n].key, es[n].value);
    }
  }

  // ---------- Terms that round-trip ----------

  predicate HashableKeys(es: seq<Entry>) {
    forall i :: 0 <= i < |es| ==> Hashable(es[i].key)
  }

  /** Every dictionary inside has hashable keys that stay distinct when normalised. */
  predicate WellFormed(t: Term)
    decreases t, 1
  {
    match t
    case Tuple(items) => AllWellFormed(items)
    case List(items) => AllWellFormed(items)
    case Map(entries) =>
      HashableKeys(NormEntries(entries)) && DistinctKeys(NormEntries(entries)) && EntriesWellFormed(entries)
    case Ref(node, _, _) => WellFormed(node)
    case Port(node, _, _) => WellFormed(node)
    case _ => true
  }

  predicate AllWellFormed(ts: seq<Term>)
    decreases ts, 0
  {
    ts == [] || (WellFormed(ts[0]) && AllWellFormed(ts[1..]))
  }

  predicate EntriesWellFormed(es: seq<Entry>)
    decreases es, 0
  {
    es == [] || (EntryWellFormed(es[0]) && EntriesWellFormed(es[1..]))
  }

  predicate EntryWellFormed(e: Entry)
    decreases e, 0
  {
    WellFormed(e.key) && WellFormed(e.value)
  }
}
