/**
 * The Python side of the doctest generators: the tree `tomllib.load`
 * returns (lists, dicts, ints, floats, bools, strs and other values such
 * as datetimes), and the subscript paths the generators build into it.
 */
module PyTree {
  datatype Option<T> = None | Some(value: T)

  /**
   * A Python float. Only the three special values matter to the
   * generators; a finite float is represented by `str(f)`, its shortest
   * round-trip decimal text.
   */
  datatype FloatTag = PosInf | NegInf | NaN | Finite(repr: string)

  /** One `key: value` pair of a dict, in insertion order. */
  datatype Entry = Entry(key: string, val: PyValue)

  /** A value of the tree `tomllib.load` returns. */
  datatype PyValue =
    | PyList(elems: seq<PyValue>)
    | PyDict(entries: seq<Entry>)
    | PyInt(i: int)
    | PyFloat(f: FloatTag)
    | PyBool(b: bool)
    | PyStr(s: string)
    | PyOther

  /** A step of a subscript path: a list index from `enumerate`, or a dict key. */
  datatype Key = IntKey(n: nat) | StrKey(s: string)

  /** The exact `type()` of a value, for the six types the generators know. */
  datatype Kind = ArrayKind | TableKind | IntKind | FloatKind | BoolKind | StrKind

  function KindOf(v: PyValue): (k: Option<Kind>)
    ensures k == None <==> v == PyOther
  {
    match v
    case PyList(_) => Some(ArrayKind)
    case PyDict(_) => Some(TableKind)
    case PyInt(_) => Some(IntKind)
    case PyFloat(_) => Some(FloatKind)
    case PyBool(_) => Some(BoolKind)
    case PyStr(_) => Some(StrKind)
    case PyOther => None
  }

  predicate IsContainer(v: PyValue)
  {
    v.PyList? || v.PyDict?
  }

  predicate IsScalar(v: PyValue)
  {
    v.PyInt? || v.PyFloat? || v.PyBool? || v.PyStr?
  }

  /** `len(val)` of a container: every element or entry, whatever its type. */
  function Len(v: PyValue): nat
    requires IsContainer(v)
  {
    if v.PyList? then |v.elems| else |v.entries|
  }

  /** The first entry with key k, which is the only one in a dict. */
  function FindEntry(entries: seq<Entry>, k: string): (r: Option<nat>)
    ensures r.Some? ==> r.value < |entries| && entries[r.value].key == k
    ensures r.Some? ==> forall j :: 0 <= j < r.value ==> entries[j].key != k
    ensures r == None ==> forall j :: 0 <= j < |entries| ==> entries[j].key != k
  {
    if entries == [] then None
    else if entries[0].key == k then Some(0)
    else match FindEntry(entries[1..], k)
      case Some(j) => Some(j + 1)
      case None => None
  }

  /** One subscript: `v[n]` of a list, `v[k]` of a dict; anything else has no child. */
  function Child(v: PyValue, k: Key): Option<PyValue>
  {
    match k
    case IntKey(n) =>
      if v.PyList? && n < |v.elems| then Some(v.elems[n]) else None
    case StrKey(s) =>
      if v.PyDict? then
        match FindEntry(v.entries, s)
        case Some(j) => Some(v.entries[j].val)
        case None => None
      else None
  }

  /** `t[p0][p1]...`, left to right. */
  function Lookup(t: PyValue, path: seq<Key>): Option<PyValue>
    decreases |path|
  {
    if path == [] then Some(t)
    else match Child(t, path[0])
      case Some(c) => Lookup(c, path[1..])
      case None => None
  }

  /** The keys of one dict are distinct. */
  predicate DistinctKeys(entries: seq<Entry>)
  {
    forall i, j :: 0 <= i < j < |entries| ==> entries[i].key != entries[j].key
  }

  /** A finite float's `str` starts with a digit, or with `-` and a digit. */
  predicate IsDecimalText(r: string)
  {
    |r| > 0 && (IsDigit(r[0]) || (r[0] == '-' && |r| > 1 && IsDigit(r[1])))
  }

  predicate IsDigit(c: char)
  {
    '0' <= c <= '9'
  }

  /** What a tree from `tomllib` always satisfies: distinct dict keys, and decimal text for finite floats. */
  predicate WellFormed(t: PyValue)
    decreases t, 1
  {
    match t
    case PyList(elems) => ListWellFormed(elems, 0)
    case PyDict(entries) => DistinctKeys(entries) && DictWellFormed(entries, 0)
    case PyFloat(f) => f.Finite? ==> IsDecimalText(f.repr)
    case _ => true
  }

  predicate ListWellFormed(elems: seq<PyValue>, j: nat)
    decreases elems, |elems| - j
  {
    j >= |elems| || (WellFormed(elems[j]) && ListWellFormed(elems, j + 1))
  }

  predicate DictWellFormed(entries: seq<Entry>, j: nat)
    decreases entries, |entries| - j
  {
    j >= |entries| || (WellFormed(entries[j].val) && DictWellFormed(entries, j + 1))
  }

  /** The number of nodes of the six known types, containers included; other values count nothing. */
  function KnownNodes(t: PyValue): nat
    decreases t, 1
  {
    match t
    case PyList(elems) => 1 + ListKnown(elems, 0)
    case PyDict(entries) => 1 + DictKnown(entries, 0)
    case PyOther => 0
    case _ => 1
  }

  function ListKnown(elems: seq<PyValue>, j: nat): nat
    decreases elems, |elems| - j
  {
    if j >= |elems| then 0 else KnownNodes(elems[j]) + ListKnown(elems, j + 1)
  }

  function DictKnown(entries: seq<Entry>, j: nat): nat
    decreases entries, |entries| - j
  {
    if j >= |entries| then 0 else KnownNodes(entries[j].val) + DictKnown(entries, j + 1)
  }

  // ---------------------------------------------------------------------
  // Properties of paths
  // ---------------------------------------------------------------------

  /** Extending a path by one key takes one more subscript of where the path led. */
  lemma {:induction false} LookupSnoc(t: PyValue, path: seq<Key>, k: Key)
    ensures Lookup(t, path + [k]) ==
              match Lookup(t, path)
              case Some(v) => Child(v, k)
              case None => None
    decreases |path|
  {
    if path == [] {
      assert [] + [k] == [k];
      assert [k][1..] == [];
    } else {
      assert (path + [k])[0] == path[0];
      assert (path + [k])[1..] == path[1..] + [k];
      match Child(t, path[0])
      case Some(c) => LookupSnoc(c, path[1..], k);
      case None =>
    }
  }

  /** In a dict with distinct keys, subscripting by an entry's key finds that entry. */
  lemma FindOwnKey(entries: seq<Entry>, j: nat)
    requires DistinctKeys(entries) && j < |entries|
    ensures FindEntry(entries, entries[j].key) == Some(j)
  {
  }

  /** A list's j-th element and a dict's j-th value are well formed when the container is. */
  lemma {:induction false} ListElemWellFormed(elems: seq<PyValue>, i: nat, j: nat)
    requires ListWellFormed(elems, i) && i <= j < |elems|
    ensures WellFormed(elems[j])
    decreases j - i
  {
    if i < j {
      ListElemWellFormed(elems, i + 1, j);
    }
  }

  lemma {:induction false} DictElemWellFormed(entries: seq<Entry>, i: nat, j: nat)
    requires DictWellFormed(entries, i) && i <= j < |entries|
    ensures WellFormed(entries[j].val)
    decreases j - i
  {
    if i < j {
      DictElemWellFormed(entries, i + 1, j);
    }
  }
}
