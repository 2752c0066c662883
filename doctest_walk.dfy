/**
 * Properties of the pre-order walk: it prints two lines per node of a
 * known type, every printed CHECK holds of the tree it was printed from,
 * and every node of a known type gets its type line.
 */
module DoctestWalk {
  import opened PyTree
  import opened CppReading
  import opened DoctestGen
  import opened DoctestLiterals

  // ---------------------------------------------------------------------
  // Names
  // ---------------------------------------------------------------------

  /** A script's type-test name calls the test for that very type. */
  lemma TypeNameTested(g: Script, k: Kind)
    ensures TestedKind(ApiOf(g), TypeName(g, k)) == Some(k)
    ensures '(' !in TypeName(g, k) && TypeName(g, k) != "size"
  {
  }

  /** Exact `type()` lookup: different types get different test names, so a bool is never tested as an int. */
  lemma TypeNamesDistinct(g: Script, a: Kind, b: Kind)
    ensures TypeName(g, a) == TypeName(g, b) <==> a == b
  {
    TypeNameTested(g, a);
    TypeNameTested(g, b);
  }

  /** A script's getter name calls the getter of that very type, and is no type test. */
  lemma GetterNameGot(g: Script, k: Kind)
    requires k in {IntKind, FloatKind, BoolKind, StrKind}
    ensures GotKind(ApiOf(g), GetterName(g, k)) == Some(k)
    ensures TestedKind(ApiOf(g), GetterName(g, k)) == None
    ensures '(' !in GetterName(g, k) && GetterName(g, k) != "size"
  {
  }

  // ---------------------------------------------------------------------
  // Trees whose text the script keeps intact
  // ---------------------------------------------------------------------

  /**
   * One node's text is kept intact: for the two earlier scripts no NUL in
   * a string or a dict key, and for toml2doctest.py no infinite or NaN
   * float either.
   */
  predicate NodeRenderable(g: Script, t: PyValue)
  {
    match t
    case PyStr(s) => g == TestsToDoctest || '\0' !in s
    case PyFloat(f) => g != RootToDoctest || f.Finite?
    case PyDict(entries) => g == TestsToDoctest || forall j :: 0 <= j < |entries| ==> '\0' !in entries[j].key
    case _ => true
  }

  predicate Renderable(g: Script, t: PyValue)
    decreases t, 1
  {
    NodeRenderable(g, t) &&
    match t
    case PyList(elems) => ListRenderable(g, elems, 0)
    case PyDict(entries) => DictRenderable(g, entries, 0)
    case _ => true
  }

  predicate ListRenderable(g: Script, elems: seq<PyValue>, j: nat)
    decreases elems, |elems| - j
  {
    j >= |elems| || (Renderable(g, elems[j]) && ListRenderable(g, elems, j + 1))
  }

  predicate DictRenderable(g: Script, entries: seq<Entry>, j: nat)
    decreases entries, |entries| - j
  {
    j >= |entries| || (Renderable(g, entries[j].val) && DictRenderable(g, entries, j + 1))
  }

  /** tests2doctest.py keeps every tree intact. */
  lemma {:induction false} TestsRenderable(t: PyValue)
    ensures Renderable(TestsToDoctest, t)
    decreases t, 0
  {
    match t
    case PyList(elems) => TestsListRenderable(elems, 0);
    case PyDict(entries) => TestsDictRenderable(entries, 0);
    case _ =>
  }

  lemma {:induction false} TestsListRenderable(elems: seq<PyValue>, j: nat)
    ensures ListRenderable(TestsToDoctest, elems, j)
    decreases elems, |elems| - j
  {
    if j < |elems| {
      TestsRenderable(elems[j]);
      TestsListRenderable(elems, j + 1);
    }
  }

  lemma {:induction false} TestsDictRenderable(entries: seq<Entry>, j: nat)
    ensures DictRenderable(TestsToDoctest, entries, j)
    decreases entries, |entries| - j
  {
    if j < |entries| {
      TestsRenderable(entries[j].val);
      TestsDictRenderable(entries, j + 1);
    }
  }

  // ---------------------------------------------------------------------
  // Every printed line holds
  // ---------------------------------------------------------------------

  predicate AllHold(api: Api, root: PyValue, lines: seq<string>)
  {
    forall i :: 0 <= i < |lines| ==> LineHolds(api, root, lines[i])
  }

  lemma AllHoldConcat(api: Api, root: PyValue, a: seq<string>, b: seq<string>)
    requires AllHold(api, root, a) && AllHold(api, root, b)
    ensures AllHold(api, root, a + b)
  {
    forall i | 0 <= i < |a + b|
      ensures LineHolds(api, root, (a + b)[i])
    {
      if i < |a| {
        assert (a + b)[i] == a[i];
      } else {
        assert (a + b)[i] == b[i - |a|];
      }
    }
  }

  /** The type line of a node reached by the path holds: the node is of that type. */
  lemma TypeLineHolds(g: Script, root: PyValue, keys: seq<Key>, v: PyValue)
    requires Lookup(root, keys) == Some(v) && v != PyOther && KeysRenderable(g, keys)
    ensures LineHolds(ApiOf(g), root, CheckType(g, keys, v))
  {
    var k := KindOf(v).value;
    TypeNameTested(g, k);
    LineReads(g, keys, TypeName(g, k), "true");
  }

  /** The size line of a container holds: `size()` is `len`, other values included. */
  lemma SizeLineHolds(g: Script, root: PyValue, keys: seq<Key>, v: PyValue)
    requires Lookup(root, keys) == Some(v) && IsContainer(v) && KeysRenderable(g, keys)
    ensures LineHolds(ApiOf(g), root, CheckSize(g, keys, v))
  {
    LineReads(g, keys, "size", NatText(Len(v)));
    NatTextReads(Len(v));
  }

  /** The value line of a scalar holds: the getter returns the value the expression denotes. */
  lemma ValLineHolds(g: Script, root: PyValue, keys: seq<Key>, v: PyValue)
    requires Lookup(root, keys) == Some(v) && IsScalar(v) && KeysRenderable(g, keys)
    requires WellFormed(v) && NodeRenderable(g, v)
    ensures LineHolds(ApiOf(g), root, CheckVal(g, keys, v))
  {
    var c := ValueClaim(g, v);
    LineReads(g, keys, GetterName(g, KindOf(v).value), ValueText(g, v));
  }

  /** What the getter's comparison reads as, and that it holds of the scalar. */
  lemma ValueClaim(g: Script, v: PyValue) returns (c: Claim)
    requires IsScalar(v) && WellFormed(v) && NodeRenderable(g, v)
    ensures Interpret(ApiOf(g), GetterName(g, KindOf(v).value), ValueText(g, v)) == Some(c)
    ensures Holds(v, c)
  {
    var k := KindOf(v).value;
    GetterNameGot(g, k);
    match v
    case PyInt(i) =>
      IntTextReads(i);
      c := IntIs(i);
    case PyBool(b) =>
      CBoolReads(b);
      c := BoolIs(b);
    case PyStr(s) =>
      StrTextValue(g, s);
      c := StrIs(s);
    case PyFloat(f) =>
      c := FloatIs(FloatText(g, f));
      if g == RootToDoctest {
        RootFloatMatches(f, f);
      } else {
        CFloatMatches(f, f);
      }
  }

  lemma NodeLinesHold(g: Script, root: PyValue, keys: seq<Key>, t: PyValue)
    requires Lookup(root, keys) == Some(t) && KeysRenderable(g, keys)
    requires WellFormed(t) && NodeRenderable(g, t)
    ensures AllHold(ApiOf(g), root, NodeLines(g, t, keys))
  {
    if t != PyOther {
      var a := CheckType(g, keys, t);
      TypeLineHolds(g, root, keys, t);
      if IsContainer(t) {
        var b := CheckSize(g, keys, t);
        SizeLineHolds(g, root, keys, t);
        assert NodeLines(g, t, keys) == [a, b];
        PairHolds(ApiOf(g), root, a, b);
      } else {
        var b := CheckVal(g, keys, t);
        ValLineHolds(g, root, keys, t);
        assert NodeLines(g, t, keys) == [a, b];
        PairHolds(ApiOf(g), root, a, b);
      }
    }
  }

  lemma PairHolds(api: Api, root: PyValue, a: string, b: string)
    requires LineHolds(api, root, a) && LineHolds(api, root, b)
    ensures AllHold(api, root, [a, b])
  {
  }

  /**
   * Every line the walk prints from the node at path `keys` is a CHECK
   * that holds of the tree: its chain reaches a node, and the node has the
   * type, the size or the value the line states.
   */
  lemma {:induction false} WalkSound(g: Script, root: PyValue, t: PyValue, keys: seq<Key>)
    requires Lookup(root, keys) == Some(t) && KeysRenderable(g, keys)
    requires WellFormed(t) && Renderable(g, t)
    ensures AllHold(ApiOf(g), root, Accessor(g, t, keys))
    decreases t, 0
  {
    NodeLinesHold(g, root, keys, t);
    match t
    case PyList(elems) =>
      ListSound(g, root, elems, keys, 0);
      AllHoldConcat(ApiOf(g), root, NodeLines(g, t, keys), ListLines(g, elems, keys, 0));
    case PyDict(entries) =>
      DictSound(g, root, entries, keys, 0);
      AllHoldConcat(ApiOf(g), root, NodeLines(g, t, keys), DictLines(g, entries, keys, 0));
    case _ =>
      assert Accessor(g, t, keys) == NodeLines(g, t, keys);
  }

  lemma {:induction false} ListSound(g: Script, root: PyValue, elems: seq<PyValue>, keys: seq<Key>, j: nat)
    requires Lookup(root, keys) == Some(PyList(elems)) && KeysRenderable(g, keys)
    requires ListWellFormed(elems, j) && ListRenderable(g, elems, j)
    ensures AllHold(ApiOf(g), root, ListLines(g, elems, keys, j))
    decreases elems, |elems| - j
  {
    if j < |elems| {
      var path := keys + [IntKey(j)];
      LookupSnoc(root, keys, IntKey(j));
      SnocRenderable(g, keys, IntKey(j));
      WalkSound(g, root, elems[j], path);
      ListSound(g, root, elems, keys, j + 1);
      AllHoldConcat(ApiOf(g), root, Accessor(g, elems[j], path), ListLines(g, elems, keys, j + 1));
    }
  }

  lemma {:induction false} DictSound(g: Script, root: PyValue, entries: seq<Entry>, keys: seq<Key>, j: nat)
    requires Lookup(root, keys) == Some(PyDict(entries)) && KeysRenderable(g, keys)
    requires DistinctKeys(entries) && NodeRenderable(g, PyDict(entries))
    requires DictWellFormed(entries, j) && DictRenderable(g, entries, j)
    ensures AllHold(ApiOf(g), root, DictLines(g, entries, keys, j))
    decreases entries, |entries| - j
  {
    if j < |entries| {
      var k := StrKey(entries[j].key);
      var path := keys + [k];
      LookupSnoc(root, keys, k);
      FindOwnKey(entries, j);
      SnocRenderable(g, keys, k);
      WalkSound(g, root, entries[j].val, path);
      DictSound(g, root, entries, keys, j + 1);
      AllHoldConcat(ApiOf(g), root, Accessor(g, entries[j].val, path), DictLines(g, entries, keys, j + 1));
    }
  }

  lemma SnocRenderable(g: Script, keys: seq<Key>, k: Key)
    requires KeysRenderable(g, keys) && KeyRenderable(g, k)
    ensures KeysRenderable(g, keys + [k])
  {
    forall i | 0 <= i < |keys + [k]|
      ensures KeyRenderable(g, (keys + [k])[i])
    {
      if i < |keys| {
        assert (keys + [k])[i] == keys[i];
      }
    }
  }

  /** Every CHECK tests2doctest.py prints for a tree holds of that tree. */
  lemma TestsWalkSound(t: PyValue)
    requires WellFormed(t)
    ensures AllHold(TomloadApi, t, Accessor(TestsToDoctest, t, []))
  {
    TestsRenderable(t);
    WalkSound(TestsToDoctest, t, t, []);
  }

  // ---------------------------------------------------------------------
  // Every node is checked, two lines each
  // ---------------------------------------------------------------------

  /** The walk prints exactly two lines per node of a known type: a type line and a size or value line. */
  lemma {:induction false} LineCount(g: Script, t: PyValue, keys: seq<Key>)
    ensures |Accessor(g, t, keys)| == 2 * KnownNodes(t)
    decreases t, 0
  {
    match t
    case PyList(elems) => ListCount(g, elems, keys, 0);
    case PyDict(entries) => DictCount(g, entries, keys, 0);
    case _ =>
  }

  lemma {:induction false} ListCount(g: Script, elems: seq<PyValue>, keys: seq<Key>, j: nat)
    ensures |ListLines(g, elems, keys, j)| == 2 * ListKnown(elems, j)
    decreases elems, |elems| - j
  {
    if j < |elems| {
      LineCount(g, elems[j], keys + [IntKey(j)]);
      ListCount(g, elems, keys, j + 1);
    }
  }

  lemma {:induction false} DictCount(g: Script, entries: seq<Entry>, keys: seq<Key>, j: nat)
    ensures |DictLines(g, entries, keys, j)| == 2 * DictKnown(entries, j)
    decreases entries, |entries| - j
  {
    if j < |entries| {
      LineCount(g, entries[j].val, keys + [StrKey(entries[j].key)]);
      DictCount(g, entries, keys, j + 1);
    }
  }

  /** Every node of a known type that a path reaches gets its type line, at that path. */
  lemma {:induction false} WalkComplete(g: Script, t: PyValue, keys: seq<Key>, p: seq<Key>, v: PyValue)
    requires Lookup(t, p) == Some(v) && v != PyOther
    ensures CheckType(g, keys + p, v) in Accessor(g, t, keys)
    decreases |p|
  {
    if p == [] {
      assert keys + p == keys;
      assert Accessor(g, t, keys)[0] == CheckType(g, keys, t);
    } else {
      var c := Child(t, p[0]).value;
      WalkComplete(g, c, keys + [p[0]], p[1..], v);
      assert keys + p == keys + [p[0]] + p[1..];
      ChildLinesIn(g, t, keys, p[0], CheckType(g, keys + p, v));
    }
  }

  /** A child's lines are among its parent's. */
  lemma ChildLinesIn(g: Script, t: PyValue, keys: seq<Key>, k: Key, x: string)
    requires Child(t, k).Some? && x in Accessor(g, Child(t, k).value, keys + [k])
    ensures x in Accessor(g, t, keys)
  {
    match k
    case IntKey(n) =>
      ListLinesHas(g, t.elems, keys, 0, n, x);
    case StrKey(s) =>
      var j := FindEntry(t.entries, s).value;
      DictLinesHas(g, t.entries, keys, 0, j, x);
  }

  lemma {:induction false} ListLinesHas(g: Script, elems: seq<PyValue>, keys: seq<Key>, j: nat, n: nat, x: string)
    requires j <= n < |elems| && x in Accessor(g, elems[n], keys + [IntKey(n)])
    ensures x in ListLines(g, elems, keys, j)
    decreases n - j
  {
    var a := Accessor(g, elems[j], keys + [IntKey(j)]);
    var b := ListLines(g, elems, keys, j + 1);
    assert ListLines(g, elems, keys, j) == a + b;
    if j < n {
      ListLinesHas(g, elems, keys, j + 1, n, x);
    }
    InConcat(x, a, b);
  }

  lemma {:induction false} DictLinesHas(g: Script, entries: seq<Entry>, keys: seq<Key>, j: nat, n: nat, x: string)
    requires j <= n < |entries| && x in Accessor(g, entries[n].val, keys + [StrKey(entries[n].key)])
    ensures x in DictLines(g, entries, keys, j)
    decreases n - j
  {
    var a := Accessor(g, entries[j].val, keys + [StrKey(entries[j].key)]);
    var b := DictLines(g, entries, keys, j + 1);
    assert DictLines(g, entries, keys, j) == a + b;
    if j < n {
      DictLinesHas(g, entries, keys, j + 1, n, x);
    }
    InConcat(x, a, b);
  }

  /** What either part holds, their concatenation holds. */
  lemma InConcat<T>(x: T, a: seq<T>, b: seq<T>)
    ensures x in a || x in b ==> x in a + b
  {
  }
}
