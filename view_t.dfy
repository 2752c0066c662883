/**
 * The `view_t` helpers of tomload/view_t.cpp: prefix, suffix and
 * substring tests over `string_view14`, and their initializer-list
 * overloads, which hold when any listed string passes the test.
 *
 * The single-string `starts_with`/`ends_with` of tomload/view_t.hpp and
 * of the root view_t.hpp have the same bodies as those of
 * tomload/view_t.cpp and are modelled by the same functions.
 */
module ViewT {
  import opened StringView14
  import Errors

  /** x is a prefix of view. */
  predicate IsPrefix(x: seq<char>, view: seq<char>)
  {
    |x| <= |view| && view[..|x|] == x
  }

  /** x is a suffix of view. */
  predicate IsSuffix(x: seq<char>, view: seq<char>)
  {
    |x| <= |view| && view[|view| - |x|..] == x
  }

  /** x occurs somewhere in view. */
  predicate Occurs(x: seq<char>, view: seq<char>)
  {
    exists i :: 0 <= i <= |view| && OccursAt(view, x, i)
  }

  /** `starts_with(view, x)`: `view.substr(0, x.size()) == x`. */
  function StartsWith(view: View, x: View): (r: bool)
    ensures r <==> IsPrefix(x, view)
  {
    Eq(Substr(view, 0, |x|).value, x)
  }

  /** `ends_with(view, x)`: size check, then `view.compare(size - x.size(), npos, x) == 0`. */
  function EndsWith(view: View, x: View): (r: bool)
    ensures r <==> IsSuffix(x, view)
  {
    |view| >= |x| && CompareAt(view, |view| - |x|, NPOS, x) == Errors.Ok(0)
  }

  /** `contains(view, x)`: `view.find(x) != npos`. */
  function Contains(view: View, x: View): (r: bool)
    ensures r <==> Occurs(x, view)
  {
    FindIsLeastOccurrence(view, x, 0);
    FindResult(view, x, 0) != NPOS
  }

  /** The empty string is a prefix and a suffix of every view. */
  lemma EmptyIsPrefixAndSuffix(view: View)
    ensures StartsWith(view, []) && EndsWith(view, [])
  {
  }

  /** A one-character prefix is the first character. */
  lemma OneCharPrefix(view: seq<char>, c: char)
    ensures IsPrefix([c], view) <==> view != [] && view[0] == c
  {
    if view != [] {
      assert view[..1] == [view[0]];
    }
  }

  /** `ends_with` never holds for an x longer than the view. */
  lemma LongerNeverEnds(view: View, x: View)
    requires |x| > |view|
    ensures !EndsWith(view, x)
  {
  }

  /** `starts_with(view, list)`: `std::any_of` over the list. */
  function StartsWithAny(view: View, list: seq<View>): (r: bool)
    ensures r <==> exists i :: 0 <= i < |list| && IsPrefix(list[i], view)
    ensures list == [] ==> !r
  {
    if list == [] then false
    else StartsWith(view, list[0]) || StartsWithAny(view, list[1..])
  }

  /** `ends_with(view, list)`: `std::any_of` over the list. */
  function EndsWithAny(view: View, list: seq<View>): (r: bool)
    ensures r <==> exists i :: 0 <= i < |list| && IsSuffix(list[i], view)
    ensures list == [] ==> !r
  {
    if list == [] then false
    else EndsWith(view, list[0]) || EndsWithAny(view, list[1..])
  }

  /** `contains(view, list)`: `std::any_of` over the list. */
  function ContainsAny(view: View, list: seq<View>): (r: bool)
    ensures r <==> exists i :: 0 <= i < |list| && Occurs(list[i], view)
    ensures list == [] ==> !r
  {
    if list == [] then false
    else Contains(view, list[0]) || ContainsAny(view, list[1..])
  }
}

/**
 * The initializer-list overloads of tomload/view_t.hpp, which loop over
 * the list and return at the first string that passes.
 */
module ViewTInline {
  import opened StringView14
  import Errors
  import opened ViewT

  /** `starts_with(view, list)`: true at the first listed prefix, false when none is. */
  method StartsWithList(view: View, list: seq<View>) returns (b: bool)
    ensures b <==> exists i :: 0 <= i < |list| && IsPrefix(list[i], view)
    ensures list == [] ==> !b
  {
    var i := 0;
    while i < |list|
      invariant 0 <= i <= |list|
      invariant forall j :: 0 <= j < i ==> !IsPrefix(list[j], view)
    {
      if StartsWith(view, list[i]) {
        return true;
      }
      i := i + 1;
    }
    return false;
  }

  /** `ends_with(view, list)`: true at the first listed suffix, false when none is. */
  method EndsWithList(view: View, list: seq<View>) returns (b: bool)
    ensures b <==> exists i :: 0 <= i < |list| && IsSuffix(list[i], view)
    ensures list == [] ==> !b
  {
    var i := 0;
    while i < |list|
      invariant 0 <= i <= |list|
      invariant forall j :: 0 <= j < i ==> !IsSuffix(list[j], view)
    {
      if EndsWith(view, list[i]) {
        return true;
      }
      i := i + 1;
    }
    return false;
  }
}
