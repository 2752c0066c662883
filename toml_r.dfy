/**
 * toml_r.hpp, the first prototype: a `starts_with` written with `find`,
 * and a `parse_item` that knows only the words `true` and `false`.
 */
module TomlR {
  import opened Errors
  import opened StringView14
  import ViewT
  import Items
  import Parser

  /**
   * `starts_with(view, x)`: `view.find(x) == 0`, which holds exactly
   * when x is a prefix of view, as the `starts_with` of tomload/ does.
   */
  method StartsWith(view: View, x: View) returns (r: bool)
    ensures r <==> ViewT.IsPrefix(x, view)
    ensures r == ViewT.StartsWith(view, x)
  {
    var i := Find(view, x, 0);
    FindIsLeastOccurrence(view, x, 0);
    r := i == 0;
  }

  /** The kinds of `item_t`. */
  datatype TypeT = TypeVoid | TypeBool | TypeUint | TypeVector

  /** An unsigned 64-bit integer. */
  type U64 = n: nat | n < 0x1_0000_0000_0000_0000

  /**
   * The fields of `item_t` that `parse_item` sets: its kind, `b` and `u`.
   * `ret = {TYPE_VOID}` value-initialises the others, so `b` is false
   * and `u` is 0 unless a branch sets them.
   */
  datatype ItemT = ItemT(kind: TypeT, b: bool, u: U64)

  /** What the `while` loop removes: space, tab, CR and LF. */
  predicate IsBlank(c: char)
  {
    c == ' ' || c == '\t' || c == '\r' || c == '\n'
  }

  /** The view with its leading blanks removed, one at a time. */
  function Stripped(view: View): (v: View)
    ensures IsSuffixOf(v, view)
    ensures v == [] || !IsBlank(v[0])
  {
    if view != [] && IsBlank(view[0]) then
      var v := Stripped(view[1..]);
      assert view[|view| - |v|..] == view[1..][|view| - 1 - |v|..];
      v
    else view
  }

  /** `v` is what is left of `view` after a prefix. */
  predicate IsSuffixOf(v: seq<char>, view: seq<char>)
  {
    |v| <= |view| && view[|view| - |v|..] == v
  }

  /** What `parse_item(view)` returns and leaves. */
  function ItemValue(view: View): (r: Parser.Parsed<ItemT>)
    ensures IsSuffixOf(r.rest, view) && r.value.u == 0
    ensures r.value.kind == TypeBool || (r.value.kind == TypeVoid && r.rest == Stripped(view))
  {
    var v := Stripped(view);
    var r := Word(v);
    SuffixOfSuffix(r.rest, v, view);
    r
  }

  /** The two words after the blanks; anything else is the void item that consumes nothing. */
  function Word(v: View): (r: Parser.Parsed<ItemT>)
    ensures IsSuffixOf(r.rest, v) && r.value.u == 0
    ensures r.value.kind == TypeBool || (r.value.kind == TypeVoid && r.rest == v)
  {
    if ViewT.IsPrefix("true", v) then Parser.Parsed(ItemT(TypeBool, true, 0), v[4..])
    else if ViewT.IsPrefix("false", v) then Parser.Parsed(ItemT(TypeBool, false, 0), v[5..])
    else Parser.Parsed(ItemT(TypeVoid, false, 0), v)
  }

  lemma SuffixOfSuffix(a: seq<char>, b: seq<char>, c: seq<char>)
    requires IsSuffixOf(a, b) && IsSuffixOf(b, c)
    ensures IsSuffixOf(a, c)
  {
    assert c[|c| - |a|..] == c[|c| - |b|..][|b| - |a|..];
  }

  /** `parse_item`: the `while` loop over the blanks, then the two words. */
  method ParseItem(view: View) returns (ret: ItemT, rest: View)
    ensures Parser.Parsed(ret, rest) == ItemValue(view)
  {
    ret := ItemT(TypeVoid, false, 0);
    rest := view;
    var blank := StartsWithBlank(rest);
    while blank
      invariant blank <==> rest != [] && IsBlank(rest[0])
      invariant Stripped(rest) == Stripped(view)
      decreases |rest|
    {
      rest := rest[1..];
      blank := StartsWithBlank(rest);
    }
    ret, rest := ParseWord(rest);
  }

  /** The `if` over the two words. */
  method ParseWord(v: View) returns (ret: ItemT, rest: View)
    ensures Parser.Parsed(ret, rest) == Word(v)
  {
    ret := ItemT(TypeVoid, false, 0);
    rest := v;
    var isTrue := StartsWith(v, "true");
    var isFalse := StartsWith(v, "false");
    if isTrue {
      ret := ret.(kind := TypeBool, b := true);
      rest := v[4..];
    } else if isFalse {
      ret := ret.(kind := TypeBool, b := false);
      rest := v[5..];
    }
  }

  /** The loop's test: `starts_with` each of space, tab, CR and LF. */
  method StartsWithBlank(v: View) returns (r: bool)
    ensures r <==> v != [] && IsBlank(v[0])
  {
    var space := StartsWith(v, " ");
    var tab := StartsWith(v, "\t");
    var cr := StartsWith(v, "\r");
    var lf := StartsWith(v, "\n");
    r := space || tab || cr || lf;
    if v != [] {
      assert v[..1] == [v[0]];
    }
  }

  // ---------------------------------------------------------------------
  // Properties of parse_item
  // ---------------------------------------------------------------------

  /** Stripping removes exactly the leading blanks: of what it drops, every character is a blank. */
  lemma {:induction false} StrippedDropsBlanks(view: View)
    ensures forall i :: 0 <= i < |view| - |Stripped(view)| ==> IsBlank(view[i])
  {
    if view != [] && IsBlank(view[0]) {
      StrippedDropsBlanks(view[1..]);
      forall i | 0 <= i < |view| - |Stripped(view)|
        ensures IsBlank(view[i])
      {
        if i > 0 {
          assert view[i] == view[1..][i - 1];
        }
      }
    }
  }

  /** Where the prototype reads a boolean, tomload/ reads the same boolean and leaves the same rest. */
  lemma BoolAgrees(view: View)
    ensures var r := ItemValue(view);
            r.value.kind == TypeBool ==>
              Parser.ItemValue(Stripped(view)) == Ok(Parser.Parsed(Items.Boolean(r.value.b), r.rest))
  {
    WordAgrees(Stripped(view));
  }

  /** The same after the blanks. */
  lemma WordAgrees(v: View)
    ensures var r := Word(v);
            r.value.kind == TypeBool ==> Parser.ItemValue(v) == Ok(Parser.Parsed(Items.Boolean(r.value.b), r.rest))
  {
    if ViewT.IsPrefix("true", v) {
      FixedAt(0, v);
    } else if ViewT.IsPrefix("false", v) {
      FixedAt(1, v);
    }
  }

  /** A fixed word at the front of the view, as tomload/ reads it. */
  lemma FixedAt(i: nat, v: View)
    requires i < |Parser.FIXED| && ViewT.IsPrefix(Parser.FIXED[i].0, v)
    ensures Parser.ItemValue(v) == Ok(Parser.Parsed(Parser.FIXED[i].1, v[|Parser.FIXED[i].0|..]))
  {
    var w := Parser.FIXED[i].0;
    assert v == w + v[|w|..];
    Parser.FixedWordItem(i, v, v[|w|..]);
  }

  /** The first case of main.cpp: `true` is the boolean true and leaves nothing. */
  lemma MainTrue(t: View)
    requires t == "true"
    ensures ItemValue(t) == Parser.Parsed(ItemT(TypeBool, true, 0), [])
  {
    NoBlankFront(t);
    WordTrue(t);
  }

  /** The second case of main.cpp: `false` is the boolean false and leaves nothing. */
  lemma MainFalse(f: View)
    requires f == "false"
    ensures ItemValue(f) == Parser.Parsed(ItemT(TypeBool, false, 0), [])
  {
    NoBlankFront(f);
    WordFalse(f);
  }

  /** No blank at the front: nothing to strip. */
  lemma NoBlankFront(v: View)
    requires v != [] && !IsBlank(v[0])
    ensures Stripped(v) == v
  {
  }

  lemma WordTrue(t: View)
    requires t == "true"
    ensures Word(t) == Parser.Parsed(ItemT(TypeBool, true, 0), [])
  {
    assert t[..4] == "true";
  }

  lemma WordFalse(f: View)
    requires f == "false"
    ensures Word(f) == Parser.Parsed(ItemT(TypeBool, false, 0), [])
  {
    assert f[..5] == "false";
    assert f[0] != 't';
  }
}
