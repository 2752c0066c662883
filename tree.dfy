/**
 * Writing into the value tree: the two `push` overloads of
 * tomload/tomload.h, the `item_t*`-returning `push`, `merge`,
 * `insert_empty_table` and `insert_new_table` of tomload/tomload.cpp,
 * and `insert_table` of the legacy tomload.hpp.
 *
 * The C++ walks `p_item` or `mptr` down nested maps and inserts in place; here
 * each routine is a function from the old table to the new one, and
 * `Lookup` — following a key path from the root through tables, as
 * chained `operator[]` does — is what the lemmas state the result by:
 * where the value lands, which nodes are tables, when an error is
 * raised, and that every other path reads as before.
 */
module Tree {
  import opened Errors
  import opened Items

  /** What a key path reaches: an item, or nothing. */
  datatype Found = At(item: Item) | Absent

  /** Chained `operator[](key)` from `item`: the item at the end of path, or Absent. */
  function Lookup(item: Item, path: seq<string>): Found
    decreases |path|
  {
    if path == [] then At(item)
    else if item.Table? && path[0] in item.m then Lookup(item.m[path[0]], path[1..])
    else Absent
  }

  /** p is a prefix of the key path q. */
  predicate PathPrefix(p: seq<string>, q: seq<string>)
  {
    |p| <= |q| && q[..|p|] == p
  }

  /** The path names a table, or nothing yet: `push(key, empty table)` can walk through it. */
  predicate Open(f: Found)
  {
    f.Absent? || f.item.Table?
  }

  // ---------------------------------------------------------------------
  // push
  // ---------------------------------------------------------------------

  /** `push(item)` of tomload/tomload.h: append to an array. */
  function PushBack(self: Item, item: Item): (r: Result<Item>)
    ensures r.Ok? <==> self.Array?
    ensures r.Ok? ==> r.value.Array? && |r.value.v| == |self.v| + 1 &&
                      r.value.v[..|self.v|] == self.v && r.value.v[|self.v|] == item
    ensures r.Err? ==> r.error == ParseError("not array")
  {
    if self.Array? then Ok(Array(self.v + [item])) else Err(ParseError("not array"))
  }

  /**
   * `push(key, item)`: `m->insert({key, item})`, which keeps the value
   * already under key; tomload/tomload.cpp's version also returns what
   * is stored under key afterwards, where its `item_t*` points.
   */
  function PushKey(self: Item, key: string, item: Item): (r: Result<(Item, Item)>)
    ensures r.Ok? <==> self.Table?
    ensures r.Err? ==> r.error == ParseError("not table")
    ensures r.Ok? ==> var (t, stored) := r.value;
      t.Table? && t.m.Keys == self.m.Keys + {key} && t.m[key] == stored &&
      (key in self.m ==> t == self) &&
      (key !in self.m ==> stored == item) &&
      (forall k :: k in self.m && k != key ==> t.m[k] == self.m[k])
  {
    if !self.Table? then Err(ParseError("not table"))
    else if key in self.m then Ok((self, self.m[key]))
    else Ok((Table(self.m[key := item]), item))
  }

  /**
   * The node `p_item->push(key, empty table)` steps into, followed by
   * the `is_table` check: the table already under key, a fresh empty
   * table when key is missing, and "expected table" otherwise.
   */
  function Descend(m: map<string, Item>, key: string): (r: Result<map<string, Item>>)
    ensures r.Ok? <==> Open(Lookup(Table(m), [key]))
    ensures r.Ok? && key in m ==> m[key] == Table(r.value)
    ensures r.Ok? && key !in m ==> r.value == map[]
    ensures r.Err? ==> r.error == ParseError("expected table")
  {
    assert Lookup(Table(m), [key]) == (if key in m then Lookup(m[key], []) else Absent);
    if key !in m then Ok(map[])
    else if m[key].Table? then Ok(m[key].m)
    else Err(ParseError("expected table"))
  }

  // ---------------------------------------------------------------------
  // Placing a value at a key path
  // ---------------------------------------------------------------------

  /**
   * The `keys` loop of `merge` and `insert_new_table`: walk every key but
   * the last as `Descend` does, then insert val under the last key,
   * "already reginstered" when it is taken.
   */
  function PlaceAt(m: map<string, Item>, keys: seq<string>, val: Item): (r: Result<map<string, Item>>)
    requires keys != []
    ensures r.Err? ==> r.error == ParseError("expected table") || r.error == ParseError("already reginstered")
    decreases |keys|
  {
    if |keys| == 1 then
      if keys[0] in m then Err(ParseError("already reginstered")) else Ok(m[keys[0] := val])
    else
      match Descend(m, keys[0])
      case Err(e) => Err(e)
      case Ok(child) =>
        match PlaceAt(child, keys[1..], val)
        case Err(e) => Err(e)
        case Ok(c) => Ok(m[keys[0] := Table(c)])
  }

  /** One step down a path: Lookup from a table at a path of one key more. */
  lemma LookupStep(m: map<string, Item>, keys: seq<string>)
    requires keys != []
    ensures keys[0] in m ==> Lookup(Table(m), keys) == Lookup(m[keys[0]], keys[1..])
    ensures keys[0] !in m ==> Lookup(Table(m), keys) == Absent
  {
  }

  /** Prefixes of a path of one key more are the first key followed by the prefixes of the rest. */
  lemma PrefixStep(keys: seq<string>, i: nat)
    requires 1 <= i <= |keys|
    ensures keys[..i] != [] && keys[..i][0] == keys[0] && keys[..i][1..] == keys[1..][..i - 1]
  {
  }

  /**
   * PlaceAt succeeds exactly when every proper prefix of keys holds a
   * table or nothing and keys itself holds nothing.
   */
  lemma {:induction false} PlaceAtSucceeds(m: map<string, Item>, keys: seq<string>, val: Item)
    requires keys != []
    ensures PlaceAt(m, keys, val).Ok? <==>
            (forall i :: 1 <= i < |keys| ==> Open(Lookup(Table(m), keys[..i]))) &&
            Lookup(Table(m), keys) == Absent
    decreases |keys|
  {
    LookupStep(m, keys);
    if |keys| > 1 {
      var k := keys[0];
      assert Lookup(Table(m), keys[..1]) == Lookup(Table(m), [k]) by { assert keys[..1] == [k]; }
      match Descend(m, k)
      case Err(_) =>
      case Ok(child) =>
        PlaceAtSucceeds(child, keys[1..], val);
        forall i | 1 <= i < |keys|
          ensures Lookup(Table(m), keys[..i]) ==
                  (if i == 1 then Lookup(Table(m), [k]) else Lookup(Table(child), keys[1..][..i - 1]))
        {
          PrefixStep(keys, i);
          LookupStep(m, keys[..i]);
          if i == 1 { assert keys[..i] == [k]; }
          else if k !in m { LookupStep(child, keys[1..][..i - 1]); }
        }
        if k !in m {
          EmptyLookup(keys[1..]);
          forall i | 1 <= i < |keys| - 1 ensures Open(Lookup(Table(child), keys[1..][..i])) {
            EmptyLookup(keys[1..][..i]);
          }
        }
        if forall j :: 1 <= j < |keys| - 1 ==> Open(Lookup(Table(child), keys[1..][..j])) {
          forall i | 1 <= i < |keys| ensures Open(Lookup(Table(m), keys[..i])) {
            if i > 1 { assert Open(Lookup(Table(child), keys[1..][..i - 1])); }
          }
        }
        if forall i :: 1 <= i < |keys| ==> Open(Lookup(Table(m), keys[..i])) {
          forall j | 1 <= j < |keys| - 1 ensures Open(Lookup(Table(child), keys[1..][..j])) {
            assert Open(Lookup(Table(m), keys[..j + 1]));
          }
        }
    }
  }

  /** Two paths with the same first key: one is a prefix of the other exactly when their rests are. */
  lemma PathPrefixStep(p: seq<string>, q: seq<string>)
    requires p != [] && q != [] && p[0] == q[0]
    ensures PathPrefix(p, q) <==> PathPrefix(p[1..], q[1..])
  {
    if PathPrefix(p[1..], q[1..]) {
      assert q[..|p|] == [q[0]] + q[1..][..|p| - 1];
    }
    if PathPrefix(p, q) {
      assert q[1..][..|p| - 1] == q[..|p|][1..];
    }
  }

  /** Nothing is found under an empty table. */
  lemma EmptyLookup(path: seq<string>)
    ensures path != [] ==> Lookup(Table(map[]), path) == Absent
  {
  }

  /** After PlaceAt, val is at keys and every proper prefix of keys is a table. */
  lemma {:induction false} PlaceAtLands(m: map<string, Item>, keys: seq<string>, val: Item)
    requires keys != [] && PlaceAt(m, keys, val).Ok?
    ensures var t := Table(PlaceAt(m, keys, val).value);
      Lookup(t, keys) == At(val) &&
      forall i :: 1 <= i < |keys| ==> Lookup(t, keys[..i]).At? && Lookup(t, keys[..i]).item.Table?
    decreases |keys|
  {
    var m' := PlaceAt(m, keys, val).value;
    LookupStep(m', keys);
    if |keys| > 1 {
      var child := Descend(m, keys[0]).value;
      PlaceAtLands(child, keys[1..], val);
      var c := PlaceAt(child, keys[1..], val).value;
      assert m'[keys[0]] == Table(c);
      forall i | 1 <= i < |keys| ensures Lookup(Table(m'), keys[..i]).At? && Lookup(Table(m'), keys[..i]).item.Table? {
        PrefixStep(keys, i);
        LookupStep(m', keys[..i]);
      }
    }
  }

  /**
   * After PlaceAt, a path that neither is a prefix of keys nor extends
   * it reads as before, and a path that extends keys reads into val.
   */
  lemma {:induction false} PlaceAtFrame(m: map<string, Item>, keys: seq<string>, val: Item, q: seq<string>)
    requires keys != [] && PlaceAt(m, keys, val).Ok?
    ensures var t := Table(PlaceAt(m, keys, val).value);
      (!PathPrefix(q, keys) && !PathPrefix(keys, q) ==> Lookup(t, q) == Lookup(Table(m), q)) &&
      (PathPrefix(keys, q) ==> Lookup(t, q) == Lookup(val, q[|keys|..]))
    decreases |keys|
  {
    var m' := PlaceAt(m, keys, val).value;
    if q != [] {
      LookupStep(m', q);
      LookupStep(m, q);
      if q[0] == keys[0] {
        PathPrefixStep(q, keys);
        PathPrefixStep(keys, q);
        if |keys| > 1 {
          var child := Descend(m, keys[0]).value;
          PlaceAtFrame(child, keys[1..], val, q[1..]);
          if PathPrefix(keys, q) {
            assert q[1..][|keys| - 1..] == q[|keys|..];
          }
          if keys[0] !in m && !PathPrefix(q, keys) && !PathPrefix(keys, q) {
            EmptyLookup(q[1..]);
          }
        } else {
          assert PathPrefix(keys, q);
        }
      }
    }
  }

  /** `merge(keys, val)`: on a table, with at least one key, place val at keys. */
  function Merge(self: Item, keys: seq<string>, val: Item): (r: Result<Item>)
    ensures !self.Table? ==> r == Err(ParseError("not table"))
    ensures self.Table? && keys == [] ==> r == Err(ParseError("no keys"))
    ensures self.Table? && keys != [] ==> r == (match PlaceAt(self.m, keys, val)
                                                case Ok(m) => Ok(Table(m))
                                                case Err(e) => Err(e))
  {
    if !self.Table? then Err(ParseError("not table"))
    else if keys == [] then Err(ParseError("no keys"))
    else
      var m :- PlaceAt(self.m, keys, val);
      Ok(Table(m))
  }

  // ---------------------------------------------------------------------
  // insert_empty_table and insert_new_table
  // ---------------------------------------------------------------------

  /** `insert_empty_table(brackets)`: walk brackets, creating the tables that are missing. */
  function InsertEmptyTable(m: map<string, Item>, brackets: seq<string>): (r: Result<map<string, Item>>)
    ensures r.Err? ==> r.error == ParseError("expected table")
    decreases |brackets|
  {
    if brackets == [] then Ok(m)
    else
      match Descend(m, brackets[0])
      case Err(e) => Err(e)
      case Ok(child) =>
        match InsertEmptyTable(child, brackets[1..])
        case Err(e) => Err(e)
        case Ok(c) => Ok(m[brackets[0] := Table(c)])
  }

  /**
   * `insert_new_table(brackets, keys, val)`: walk brackets as
   * `insert_empty_table` does, then place val at keys below them; with
   * no keys nothing is placed.
   */
  function InsertNewTable(m: map<string, Item>, brackets: seq<string>, keys: seq<string>, val: Item): (r: Result<map<string, Item>>)
    decreases |brackets|
  {
    if brackets == [] then
      if keys == [] then Ok(m) else PlaceAt(m, keys, val)
    else
      match Descend(m, brackets[0])
      case Err(e) => Err(e)
      case Ok(child) =>
        match InsertNewTable(child, brackets[1..], keys, val)
        case Err(e) => Err(e)
        case Ok(c) => Ok(m[brackets[0] := Table(c)])
  }

  /**
   * `insert_new_table` is placing val at brackets followed by keys, and
   * with no keys it is `insert_empty_table`.
   */
  lemma {:induction false} InsertNewTableIsPlaceAt(m: map<string, Item>, brackets: seq<string>, keys: seq<string>, val: Item)
    ensures keys != [] ==> InsertNewTable(m, brackets, keys, val) == PlaceAt(m, brackets + keys, val)
    ensures keys == [] ==> InsertNewTable(m, brackets, keys, val) == InsertEmptyTable(m, brackets)
    decreases |brackets|
  {
    if brackets != [] {
      var path := brackets + keys;
      assert path[0] == brackets[0] && path[1..] == brackets[1..] + keys;
      match Descend(m, brackets[0])
      case Err(_) =>
      case Ok(child) =>
        InsertNewTableIsPlaceAt(child, brackets[1..], keys, val);
    } else {
      assert brackets + keys == keys;
    }
  }

  /**
   * `insert_empty_table` succeeds exactly when no prefix of brackets
   * holds anything but a table; afterwards every prefix of brackets
   * names a table.
   */
  lemma {:induction false} InsertEmptyTableMeaning(m: map<string, Item>, brackets: seq<string>)
    ensures InsertEmptyTable(m, brackets).Ok? <==>
            forall i :: 1 <= i <= |brackets| ==> Open(Lookup(Table(m), brackets[..i]))
    ensures InsertEmptyTable(m, brackets).Ok? ==>
            forall i :: 0 <= i <= |brackets| ==> Lookup(Table(InsertEmptyTable(m, brackets).value), brackets[..i]).At? &&
                                                 Lookup(Table(InsertEmptyTable(m, brackets).value), brackets[..i]).item.Table?
    decreases |brackets|
  {
    if brackets != [] {
      var k := brackets[0];
      match Descend(m, k)
      case Err(_) =>
        assert brackets[..1] == [k];
      case Ok(child) =>
        InsertEmptyTableMeaning(child, brackets[1..]);
        var r := InsertEmptyTable(m, brackets);
        forall i | 1 <= i <= |brackets|
          ensures Lookup(Table(m), brackets[..i]) ==
                  (if i == 1 then Lookup(Table(m), [k]) else Lookup(Table(child), brackets[1..][..i - 1]))
        {
          PrefixStep(brackets, i);
          LookupStep(m, brackets[..i]);
          if i == 1 { assert brackets[..i] == [k]; }
          else if k !in m { LookupStep(child, brackets[1..][..i - 1]); }
        }
        if k !in m {
          forall i | 1 <= i <= |brackets| - 1 ensures Open(Lookup(Table(child), brackets[1..][..i])) {
            EmptyLookup(brackets[1..][..i]);
          }
        }
        if forall j :: 1 <= j <= |brackets| - 1 ==> Open(Lookup(Table(child), brackets[1..][..j])) {
          forall i | 1 <= i <= |brackets| ensures Open(Lookup(Table(m), brackets[..i])) {
            if i > 1 { assert Open(Lookup(Table(child), brackets[1..][..i - 1])); }
          }
        }
        if forall i :: 1 <= i <= |brackets| ==> Open(Lookup(Table(m), brackets[..i])) {
          forall j | 1 <= j <= |brackets| - 1 ensures Open(Lookup(Table(child), brackets[1..][..j])) {
            assert Open(Lookup(Table(m), brackets[..j + 1]));
          }
        }
        if r.Ok? {
          forall i | 1 <= i <= |brackets|
            ensures Lookup(Table(r.value), brackets[..i]) == Lookup(Table(InsertEmptyTable(child, brackets[1..]).value), brackets[1..][..i - 1])
          {
            PrefixStep(brackets, i);
            LookupStep(r.value, brackets[..i]);
          }
        }
    }
  }

  /** `insert_empty_table` changes no path that is not a prefix of brackets. */
  lemma {:induction false} InsertEmptyTableFrame(m: map<string, Item>, brackets: seq<string>, q: seq<string>)
    requires InsertEmptyTable(m, brackets).Ok?
    ensures !PathPrefix(q, brackets) ==> Lookup(Table(InsertEmptyTable(m, brackets).value), q) == Lookup(Table(m), q)
    decreases |brackets|
  {
    if brackets != [] && q != [] {
      var m' := InsertEmptyTable(m, brackets).value;
      LookupStep(m', q);
      LookupStep(m, q);
      if q[0] == brackets[0] {
        PathPrefixStep(q, brackets);
        var child := Descend(m, brackets[0]).value;
        InsertEmptyTableFrame(child, brackets[1..], q[1..]);
        if brackets[0] !in m && !PathPrefix(q, brackets) {
          EmptyLookup(q[1..]);
        }
      }
    }
  }

  // ---------------------------------------------------------------------
  // insert_table of the legacy tomload.hpp
  // ---------------------------------------------------------------------

  /**
   * The walk of `insert_table` of tomload.hpp along path: at every key
   * but the last the node becomes a fresh empty table, whatever was
   * there, and the last key is assigned item, whatever was there.
   */
  function LegacyWalk(m: map<string, Item>, path: seq<string>, item: Item): map<string, Item>
    decreases |path|
  {
    if path == [] then m
    else if |path| == 1 then m[path[0] := item]
    else m[path[0] := Table(LegacyWalk(map[], path[1..], item))]
  }

  /** The brackets loop of `insert_table` alone: every key of path becomes a fresh empty table. */
  function LegacyReset(m: map<string, Item>, path: seq<string>): map<string, Item>
    decreases |path|
  {
    if path == [] then m else m[path[0] := Table(LegacyReset(map[], path[1..]))]
  }

  /**
   * `insert_table(root, item, brackets, keys)` of tomload.hpp: the
   * brackets and every key but the last are walked alike, so with keys
   * the walk runs along brackets + keys; with no keys the brackets are
   * reset and nothing is placed.
   */
  function InsertTableLegacy(m: map<string, Item>, brackets: seq<string>, keys: seq<string>, item: Item): map<string, Item>
  {
    if keys == [] then LegacyReset(m, brackets) else LegacyWalk(m, brackets + keys, item)
  }

  /**
   * With at least one key, the legacy insertion always succeeds: item is
   * at the path, and every proper prefix is a table holding the next key
   * of the path and nothing else, whatever the tree held before.
   */
  lemma {:induction false} LegacyWalkLands(m: map<string, Item>, path: seq<string>, item: Item)
    requires path != []
    ensures var t := Table(LegacyWalk(m, path, item));
      Lookup(t, path) == At(item) &&
      forall i :: 1 <= i < |path| ==> Lookup(t, path[..i]).At? && Lookup(t, path[..i]).item.Table? &&
                                      Lookup(t, path[..i]).item.m.Keys == {path[i]}
    decreases |path|
  {
    var m' := LegacyWalk(m, path, item);
    LookupStep(m', path);
    if |path| > 1 {
      LegacyWalkLands(map[], path[1..], item);
      var c := LegacyWalk(map[], path[1..], item);
      forall i | 1 <= i < |path|
        ensures Lookup(Table(m'), path[..i]).At? && Lookup(Table(m'), path[..i]).item.Table? &&
                Lookup(Table(m'), path[..i]).item.m.Keys == {path[i]}
      {
        PrefixStep(path, i);
        LookupStep(m', path[..i]);
        if i == 1 {
          assert Lookup(Table(m'), path[..i]) == At(Table(c));
        } else {
          assert path[1..][i - 1] == path[i];
        }
      }
    }
  }

  /** `insert_table` with keys: item lands at brackets + keys, and the tables along the way hold that path only. */
  lemma InsertTableLegacyLands(m: map<string, Item>, brackets: seq<string>, keys: seq<string>, item: Item)
    requires keys != []
    ensures var path := brackets + keys;
      var t := Table(InsertTableLegacy(m, brackets, keys, item));
      Lookup(t, path) == At(item) &&
      forall i :: 1 <= i < |path| ==> Lookup(t, path[..i]).At? && Lookup(t, path[..i]).item.Table? &&
                                      Lookup(t, path[..i]).item.m.Keys == {path[i]}
  {
    LegacyWalkLands(m, brackets + keys, item);
  }

  /**
   * A second pair under the same header loses the first: where
   * `insert_new_table` keeps the sibling key x beside the new key y,
   * `insert_table` of tomload.hpp leaves y alone under the header.
   */
  lemma LegacyDropsSibling()
    ensures var m := map["a" := Table(map["x" := Boolean(true)])];
      InsertTableLegacy(m, ["a"], ["y"], Boolean(false)) == map["a" := Table(map["y" := Boolean(false)])] &&
      InsertNewTable(m, ["a"], ["y"], Boolean(false)) == Ok(map["a" := Table(map["x" := Boolean(true), "y" := Boolean(false)])])
  {
    var m := map["a" := Table(map["x" := Boolean(true)])];
    var path := ["a"] + ["y"];
    assert path == ["a", "y"] && path[1..] == ["y"];
    assert LegacyWalk(map[], ["y"], Boolean(false)) == map["y" := Boolean(false)];
    assert LegacyWalk(m, path, Boolean(false)) == m["a" := Table(map["y" := Boolean(false)])];
    var child := map["x" := Boolean(true)];
    assert Descend(m, "a") == Ok(child);
    assert ["a"][1..] == [];
    assert PlaceAt(child, ["y"], Boolean(false)) == Ok(child["y" := Boolean(false)]);
    assert InsertNewTable(child, [], ["y"], Boolean(false)) == Ok(child["y" := Boolean(false)]);
    assert InsertNewTable(m, ["a"], ["y"], Boolean(false)) == Ok(m["a" := Table(child["y" := Boolean(false)])]);
    assert child["y" := Boolean(false)] == map["x" := Boolean(true), "y" := Boolean(false)];
    assert m["a" := Table(child["y" := Boolean(false)])] == map["a" := Table(map["x" := Boolean(true), "y" := Boolean(false)])];
  }
}
