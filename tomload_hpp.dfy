/**
 * tomload.hpp, the single-header parser that came before tomload/: its
 * `parse_item` and `parse_array`, and its `parse` state machine.
 *
 * Its `skip_space`, `wait_newline`, radix and literal-string helpers
 * have the same bodies as those of tomload/ (the radix helpers take the
 * digit set and the base as arguments where tomload/ derives them from
 * the prefix, and every caller passes the ones tomload/ derives), so
 * they are the functions of Parser, DetailNumber and DetailString.
 * What differs: `parse_item` has no basic-string branch; `parse_array`
 * gives up at a missing comma, restoring the view and returning a
 * default item; `get_bare_length` scans from index 2; `insert_table`
 * (Tree.InsertTableLegacy) resets the tables it walks; and `parse` has
 * branches that make no progress.
 */
module TomloadHpp {
  import opened Errors
  import opened StringView14
  import opened ViewT
  import opened Items
  import Tree
  import opened DetailString
  import opened Parser
  import Document

  // ---------------------------------------------------------------------
  // parse_item and parse_array
  // ---------------------------------------------------------------------

  /** How the `parse_array` loop ends: at `]`, with an element's exception, or by the restore at a missing comma. */
  datatype ArrayEnd = Closed(p: Parsed<Item>) | Failed(e: Error) | GaveUp

  /** One pass of the `parse_array` loop: it ends, or goes on from a new state. */
  datatype Pass = Ends(end: ArrayEnd) | Goes(v: View, items: seq<Item>, waitItem: bool)

  /**
   * What `parse_item(view)` of tomload.hpp returns and leaves: a fixed
   * word, a radix integer, a multi-line or a single-line literal string,
   * or an array, tried in that order; anything else, a `"` included, is
   * "not hit item".  An array whose loop gives up is a default item, and
   * the view is back at its `[`.
   */
  function ItemValue(view: View): (r: Result<Parsed<Item>>)
    ensures r.Ok? ==> IsSuffix(r.value.rest, view)
    decreases |view|, 2
  {
    var f := FirstFixed(view, 0);
    if f < |FIXED| then Ok(Taken(view, |FIXED[f].0|, FIXED[f].1))
    else if StartsWithAny(view, RADIX_PREFIXES) then RadixItem(view)
    else if StartsWith(view, "\'\'\'") then MultiLiteralItem(view)
    else if StartsWith(view, "\'") then LiteralItem(view)
    else if StartsWith(view, "[") then ArrayItem(view)
    else Err(ParseError("not hit item"))
  }

  /** The `[` branch: `parse_array`, which restores the view to its `[` when it gives up. */
  function ArrayItem(view: View): (r: Result<Parsed<Item>>)
    requires view != []
    ensures r.Ok? ==> IsSuffix(r.value.rest, view)
    decreases |view|, 1
  {
    var inner := After(view, 1);
    match ArrayLoop(inner, [], true)
    case Failed(e) => Err(e)
    case GaveUp => Ok(Parsed(None, view))
    case Closed(p) => SuffixTrans(p.rest, inner, view); Ok(p)
  }

  /**
   * One pass from the state (view, items, waitItem), waitItem being
   * `wait_item` and false `wait_comma`.  There is no end-of-input case:
   * at `wait_item` an empty view goes to `parse_item`, and at
   * `wait_comma` it is a missing comma.
   */
  function ArrayPass(view: View, items: seq<Item>, waitItem: bool): (s: Pass)
    ensures s.Ends? && s.end.Closed? ==> IsSuffix(s.end.p.rest, view) && s.end.p.value == Array(items)
    ensures s.Goes? ==> IsSuffix(s.v, view) && s.waitItem == !waitItem && (!waitItem ==> |s.v| < |view|)
    decreases |view|, 4
  {
    var v := AfterSpace(view, ARRAY_SPACES, false);
    var s := PassAt(v, items, waitItem);
    PassSuffix(s, v, view, items, waitItem);
    s
  }

  /** The pass after skip_space, at the first character that is not a space. */
  function PassAt(v: View, items: seq<Item>, waitItem: bool): (s: Pass)
    ensures PassWithin(s, v, items, waitItem)
    decreases |v|, 3
  {
    if StartsWith(v, "]") then Ends(Closed(Taken(v, 1, Array(items))))
    else if waitItem then
      match ItemValue(v)
      case Err(e) => Ends(Failed(e))
      case Ok(p) => Goes(p.rest, items + [p.value], false)
    else if StartsWith(v, ",") then Goes(After(v, 1), items, true)
    else Ends(GaveUp)
  }

  /** A pass from v closes with the items on a suffix of v, or goes on, from a suffix of v, to the other wait. */
  predicate PassWithin(s: Pass, v: View, items: seq<Item>, waitItem: bool)
  {
    (s.Ends? && s.end.Closed? ==> IsSuffix(s.end.p.rest, v) && s.end.p.value == Array(items)) &&
    (s.Goes? ==> IsSuffix(s.v, v) && s.waitItem == !waitItem && (!waitItem ==> |s.v| < |v|))
  }

  lemma PassSuffix(s: Pass, v: View, view: View, items: seq<Item>, waitItem: bool)
    requires IsSuffix(v, view) && PassWithin(s, v, items, waitItem)
    ensures PassWithin(s, view, items, waitItem)
  {
    if s.Ends? && s.end.Closed? {
      SuffixTrans(s.end.p.rest, v, view);
    }
    if s.Goes? {
      SuffixTrans(s.v, v, view);
    }
  }

  /**
   * The `parse_array` loop run to its end.  An element may consume
   * nothing (a nested array that gave up), so `wait_item` passing to
   * `wait_comma` over the same view is what goes down.
   */
  function ArrayLoop(view: View, items: seq<Item>, waitItem: bool): (r: ArrayEnd)
    ensures r.Closed? ==> IsSuffix(r.p.rest, view) && r.p.value.Array?
    decreases |view|, if waitItem then 6 else 5
  {
    match ArrayPass(view, items, waitItem)
    case Ends(e) => e
    case Goes(v, its, w) =>
      var r := ArrayLoop(v, its, w);
      if r.Closed? then SuffixTrans(r.p.rest, v, view); r else r
  }

  /** `parse_item` of tomload.hpp. */
  method ParseItem(view: View) returns (r: Result<Parsed<Item>>)
    ensures r == ItemValue(view)
    decreases |view|, 2
  {
    var f := MatchFixed(view);
    if f < |FIXED| {
      return Ok(Taken(view, |FIXED[f].0|, FIXED[f].1));
    }
    var radix := ViewTInline.StartsWithList(view, RADIX_PREFIXES);
    if radix {
      assert StartsWithAny(view, RADIX_PREFIXES);
      r := ParseRadixItem(view);
    } else if StartsWith(view, "\'\'\'") {
      r := MultiLiteralItem(view);
    } else if StartsWith(view, "\'") {
      r := LiteralItem(view);
    } else if StartsWith(view, "[") {
      r := ParseArray(view);
    } else {
      r := Err(ParseError("not hit item"));
    }
  }

  /** `parse_array` of tomload.hpp: `backup` is the view at entry, given back when a comma is missing. */
  method ParseArray(view: View) returns (r: Result<Parsed<Item>>)
    requires view != []
    ensures r == ArrayItem(view)
    decreases |view|, 1
  {
    var backup := view;
    var v := After(view, 1);
    var items: seq<Item> := [];
    var waitItem := true;
    while true
      invariant |v| < |view|
      invariant ArrayLoop(v, items, waitItem) == ArrayLoop(view[1..], [], true)
      decreases |v|, if waitItem then 1 else 0
    {
      var pass := ArrayIteration(v, items, waitItem);
      match pass
      case Ends(Closed(p)) =>
        SuffixTrans(p.rest, view[1..], view);
        return Ok(p);
      case Ends(Failed(e)) =>
        return Err(e);
      case Ends(GaveUp) =>
        return Ok(Parsed(None, backup));
      case Goes(v', items', waitItem') =>
        v, items, waitItem := v', items', waitItem';
    }
  }

  /** The body of the `parse_array` loop. */
  method ArrayIteration(v0: View, items: seq<Item>, waitItem: bool) returns (s: Pass)
    ensures s == ArrayPass(v0, items, waitItem)
    decreases |v0|, 4
  {
    var v := SkipSpace(v0, ARRAY_SPACES, false);
    s := IterationAt(v, items, waitItem);
  }

  /** The loop body after skip_space. */
  method IterationAt(v: View, items: seq<Item>, waitItem: bool) returns (s: Pass)
    ensures s == PassAt(v, items, waitItem)
    decreases |v|, 3
  {
    if StartsWith(v, "]") {
      return Ends(Closed(Taken(v, 1, Array(items))));
    } else if waitItem {
      var item := ParseItem(v);
      if item.Err? {
        return Ends(Failed(item.error));
      }
      return Goes(item.value.rest, items + [item.value.value], false);
    } else if StartsWith(v, ",") {
      return Goes(After(v, 1), items, true);
    } else {
      return Ends(GaveUp);
    }
  }

  // ---------------------------------------------------------------------
  // How parse_item of tomload.hpp compares with that of tomload/
  // ---------------------------------------------------------------------

  /** What a view that starts with neither `"` nor `[` does not start with. */
  lemma PlainStart(view: View)
    ensures !StartsWith(view, "\"") ==> !StartsWith(view, "\"\"\"")
  {
    if StartsWith(view, "\"\"\"") {
      assert view[0] == '"';
      assert view[..1] == "\"";
    }
  }

  /** Outside strings in double quotes and arrays, both parse_item read the same. */
  lemma ItemAgrees(view: View)
    ensures !StartsWith(view, "\"") && !StartsWith(view, "[") ==> ItemValue(view) == Parser.ItemValue(view)
  {
    PlainStart(view);
  }

  /** The first character of a view that starts with `"`, `[` or neither. */
  lemma FrontChar(view: View, c: char)
    ensures view != [] && view[0] == c && (c == '"' || c == '[') ==>
              FirstFixed(view, 0) == |FIXED| && !StartsWithAny(view, RADIX_PREFIXES) &&
              !StartsWith(view, "\'\'\'") && !StartsWith(view, "\'") &&
              (StartsWith(view, "[") <==> c == '[') && (StartsWith(view, "\"") <==> c == '"') &&
              (c == '[' ==> !StartsWith(view, "\"\"\""))
  {
    if view != [] && view[0] == c && (c == '"' || c == '[') {
      NoFixedWord(view);
      NoRadix(view);
      NotPrefixAt("\'\'\'", view, 0);
      NotPrefixAt("\'", view, 0);
      assert StartsWith(view, [c]) by { assert view[..1] == [c]; }
      if c == '[' {
        NotPrefixAt("\"", view, 0);
        NotPrefixAt("\"\"\"", view, 0);
      } else {
        NotPrefixAt("[", view, 0);
      }
    }
  }

  /** A `"` is not an item tomload.hpp knows. */
  lemma NoBasicString(view: View)
    ensures StartsWith(view, "\"") ==> ItemValue(view) == Err(ParseError("not hit item"))
  {
    if StartsWith(view, "\"") {
      assert view[0] == '"';
      FrontChar(view, '"');
    }
  }

  /** At a `[`, both parse_item go to their parse_array. */
  lemma ArrayFront(view: View)
    ensures StartsWith(view, "[") ==>
              ItemValue(view) == ArrayItem(view) && Parser.ItemValue(view) == Parser.ArrayLoop(view[1..], [], true)
  {
    if StartsWith(view, "[") {
      assert view[0] == '[';
      FrontChar(view, '[');
    }
  }

  /** What a view that starts with `"` or `[` has at its front. */
  lemma Heads(view: View)
    ensures StartsWith(view, "\"") ==> view != [] && view[0] == '"'
    ensures StartsWith(view, "[") ==> view != [] && view[0] == '['
  {
  }

  /**
   * On a text without `"`, whatever the parse_item of tomload/ reads,
   * the parse_item of tomload.hpp reads too, as the same item and the
   * same rest; the two differ only where tomload/ throws.
   */
  lemma {:induction false} ItemRefines(view: View)
    ensures NoQuote(view) && Parser.ItemValue(view).Ok? ==> ItemValue(view) == Parser.ItemValue(view)
    decreases |view|, 2
  {
    if NoQuote(view) && Parser.ItemValue(view).Ok? {
      Heads(view);
      if StartsWith(view, "[") {
        ArrayFront(view);
        var inner := view[1..];
        NoQuoteSuffix(inner, view);
        LoopRefines(inner, [], true);
      } else {
        ItemAgrees(view);
      }
    }
  }

  /** The same for the `parse_array` loop. */
  lemma {:induction false} LoopRefines(v: View, items: seq<Item>, w: bool)
    ensures NoQuote(v) && Parser.ArrayLoop(v, items, w).Ok? ==>
              ArrayLoop(v, items, w) == Closed(Parser.ArrayLoop(v, items, w).value)
    decreases |v|, 5
  {
    if NoQuote(v) && Parser.ArrayLoop(v, items, w).Ok? {
      var s := Parser.ArrayPass(v, items, w);
      PassRefines(v, items, w);
      assert PassAgrees(v, items, w);
      if s.Next? {
        NoQuoteSuffix(s.v, v);
        LoopRefines(s.v, s.items, s.waitItem);
      }
    }
  }

  /** The same for one pass of the `parse_array` loop. */
  lemma {:induction false} PassRefines(v: View, items: seq<Item>, w: bool)
    requires NoQuote(v)
    ensures PassAgrees(v, items, w)
    decreases |v|, 4
  {
    var u := AfterSpace(v, ARRAY_SPACES, false);
    NoQuoteSuffix(u, v);
    if u == [] || StartsWith(u, "]") {
      CloseRefines(v, u, items, w);
    } else if w {
      ItemPassRefines(v, u, items, w);
    } else {
      CommaPassRefines(v, u, items, w);
    }
  }

  /** Where the two `parse_array` passes agree: a close that succeeds, or a step to the same state. */
  predicate PassAgrees(v: View, items: seq<Item>, w: bool)
  {
    var s := Parser.ArrayPass(v, items, w);
    (s.Close? && s.r.Ok? ==> ArrayPass(v, items, w) == Ends(Closed(s.r.value))) &&
    (s.Next? ==> ArrayPass(v, items, w) == Goes(s.v, s.items, s.waitItem))
  }

  lemma CloseRefines(v: View, u: View, items: seq<Item>, w: bool)
    requires u == AfterSpace(v, ARRAY_SPACES, false) && (u == [] || StartsWith(u, "]"))
    ensures PassAgrees(v, items, w)
  {
    assert Parser.ArrayPass(v, items, w) == Parser.PassAt(u, items, w);
    assert ArrayPass(v, items, w) == PassAt(u, items, w);
  }

  lemma {:induction false} ItemPassRefines(v: View, u: View, items: seq<Item>, w: bool)
    requires u == AfterSpace(v, ARRAY_SPACES, false) && u != [] && !StartsWith(u, "]") && NoQuote(u) && w
    ensures PassAgrees(v, items, w)
    decreases |v|, 3
  {
    ItemRefines(u);
    assert Parser.ArrayPass(v, items, true) == Parser.PassAt(u, items, true) == Parser.ItemPass(u, items);
    assert ArrayPass(v, items, true) == PassAt(u, items, true);
  }

  lemma CommaPassRefines(v: View, u: View, items: seq<Item>, w: bool)
    requires u == AfterSpace(v, ARRAY_SPACES, false) && u != [] && !StartsWith(u, "]") && !w
    ensures PassAgrees(v, items, w)
  {
    OneCharPrefix(u, ']');
    ParserCommaStep(v, u, items);
    ParserCommaNext(u);
    LegacyCommaStep(v, u, items);
  }

  /** The newer `wait_comma` pass over a view whose front is neither a space nor `]`. */
  lemma ParserCommaStep(v: View, u: View, items: seq<Item>)
    requires u != [] && u[0] != ']' && u == AfterSpace(v, ARRAY_SPACES, false)
    ensures var c := Parser.CommaNext(u);
            Parser.ArrayPass(v, items, false) ==
              if c.Ok? then Parser.Next(c.value, items, true) else Parser.Close(Err(c.error))
  {
    OneCharPrefix(u, ']');
    assert Parser.ArrayPass(v, items, false) == Parser.PassAt(u, items, false);
  }

  /** `wait_comma`'s comma test on a view whose front is not a space. */
  lemma ParserCommaNext(u: View)
    requires u != [] && u[0] !in ARRAY_SPACES
    ensures Parser.CommaNext(u) == if u[0] == ',' then Ok(After(u, 1)) else Err(ParseError("missing \",\" in array"))
  {
    AfterSpaceStays(u, ARRAY_SPACES);
    OneCharPrefix(u, ',');
  }

  /** The legacy `wait_comma` pass. */
  lemma LegacyCommaStep(v: View, u: View, items: seq<Item>)
    requires u != [] && u[0] != ']' && u == AfterSpace(v, ARRAY_SPACES, false)
    ensures ArrayPass(v, items, false) == if u[0] == ',' then Goes(After(u, 1), items, true) else Ends(GaveUp)
  {
    OneCharPrefix(u, ']');
    OneCharPrefix(u, ',');
    assert ArrayPass(v, items, false) == PassAt(u, items, false);
  }

  /** At `wait_item`, a fixed word is pushed and the loop goes on to `wait_comma` after it. */
  lemma FixedWordPass(inner: View, i: nat, tail: seq<char>, items: seq<Item>)
    requires i < |FIXED| && inner == FIXED[i].0 + tail
    ensures ArrayPass(inner, items, true) == Goes(tail, items + [FIXED[i].1], false)
  {
    var word := FIXED[i].0;
    assert inner[0] == word[0] && FixedStart(word[0]);
    AfterSpaceStays(inner, ARRAY_SPACES);
    NotPrefixAt("]", inner, 0);
    FixedWordItem(i, inner, tail);
    Heads(inner);
    ItemAgrees(inner);
    assert ArrayPass(inner, items, true) == PassAt(inner, items, true);
  }

  /** At `wait_comma`, a character that is neither a space, `,` nor `]` ends the loop by giving up. */
  lemma StuckPass(tail: View, c: char, rest: seq<char>, items: seq<Item>)
    requires tail == [c] + rest && c !in ARRAY_SPACES && c != ',' && c != ']'
    ensures ArrayPass(tail, items, false) == Ends(GaveUp)
  {
    AfterSpaceStays(tail, ARRAY_SPACES);
    NotPrefixAt("]", tail, 0);
    NotPrefixAt(",", tail, 0);
    assert ArrayPass(tail, items, false) == PassAt(tail, items, false);
  }

  /** A fixed word and then a character that is neither a space, `,` nor `]`: the loop gives up. */
  lemma LoopGivesUp(inner: View, i: nat, c: char, rest: seq<char>)
    requires i < |FIXED| && inner == FIXED[i].0 + ([c] + rest)
    requires c !in ARRAY_SPACES && c != ',' && c != ']'
    ensures ArrayLoop(inner, [], true) == GaveUp
  {
    var tail := [c] + rest;
    var items := [] + [FIXED[i].1];
    FixedWordPass(inner, i, tail, []);
    StuckPass(tail, c, rest, items);
    assert ArrayLoop(tail, items, false) == GaveUp;
  }

  /** The text `parse_array` loops over. */
  lemma BracketSplit(view: View, word: seq<char>, tail: seq<char>)
    requires view == "[" + word + tail
    ensures StartsWith(view, "[") && view != [] && After(view, 1) == word + tail
  {
    assert view[..1] == "[";
    assert view[1..] == word + tail;
  }

  /**
   * After a fixed word, a character that is neither a space, `,` nor `]`
   * makes parse_array give up: the item is a default one and the view
   * is back at its `[`, where tomload/ throws "missing \",\" in array".
   */
  lemma GivesUp(view: View, i: nat, c: char, rest: seq<char>)
    requires i < |FIXED| && view == "[" + FIXED[i].0 + [c] + rest
    requires c !in ARRAY_SPACES && c != ',' && c != ']'
    ensures ItemValue(view) == Ok(Parsed(None, view))
  {
    assert view == "[" + FIXED[i].0 + ([c] + rest);
    BracketSplit(view, FIXED[i].0, [c] + rest);
    ArrayFront(view);
    LoopGivesUp(After(view, 1), i, c, rest);
  }

  // ---------------------------------------------------------------------
  // get_bare_length
  // ---------------------------------------------------------------------

  /**
   * `get_bare_length` of tomload.hpp: the first index from 2 whose
   * character is not a bare-key character, or the size;
   * `find_first_not_of` from a position past the end finds nothing.
   */
  function BareLengthLegacy(view: View): (r: SizeT)
    ensures r <= |view|
    ensures |view| <= 2 ==> r == |view|
    ensures |view| > 2 ==> 2 <= r
    ensures forall i :: 2 <= i < r ==> view[i] in BARE_CHARS
    ensures r < |view| ==> view[r] !in BARE_CHARS
  {
    FindFirstNotOfIsLeast(view, BARE_CHARS, 2);
    var pos := NextNotIn(view, BARE_CHARS, 2);
    if pos != NPOS then pos else |view|
  }

  /**
   * The scan from 2 agrees with the scan from 1 of tomload/ exactly
   * when the second character, if any, is a bare-key character; when it
   * is not, the key takes it in.
   */
  lemma BareLengthAgrees(view: View)
    ensures BareLengthLegacy(view) == GetBareLength(view) <==> |view| < 2 || view[1] in BARE_CHARS
  {
  }

  // ---------------------------------------------------------------------
  // parse
  // ---------------------------------------------------------------------

  /**
   * The statuses of `parse`.  `bracket_wait_dot` is never assigned, and
   * `completed` ends the loop, so neither is a state here.
   */
  datatype Status = Start | BracketWaitString | BracketWaitNewline | PairWaitDot | PairWaitValue | PairWaitNewline

  /** The variables of the `parse` loop: the status, the view, `brackets`, `keys` and the table `ret` holds. */
  datatype LState = LState(status: Status, view: View, brackets: seq<string>, keys: seq<string>, root: map<string, Item>)

  /** One pass of the loop: it goes on from a state, it ends with `ret` and what is left, or parse_item throws. */
  datatype Move = Moved(st: LState) | Finished(root: map<string, Item>, rest: View) | Threw(e: Error)

  /** What the loop comes to: `ret`, an exception, or a state it goes on repeating forever. */
  datatype Outcome = Done(root: map<string, Item>, rest: View) | Raised(e: Error) | Diverges(at: LState)

  /** The state at the loop's entry. */
  function Init(view: View): LState
  {
    LState(Start, view, [], [], map[])
  }

  /** The loop's measure after the view's length: a pass may keep the view and go down these ranks. */
  function StatusRank(status: Status): nat
  {
    match status
    case PairWaitValue => 2
    case BracketWaitNewline => 1
    case PairWaitNewline => 1
    case _ => 0
  }

  /** a is further on than b. */
  predicate Below(a: LState, b: LState)
  {
    |a.view| < |b.view| || (|a.view| == |b.view| && StatusRank(a.status) < StatusRank(b.status))
  }

  /** Following a state, a pass moves to another further on or stays where it is. */
  predicate Progress(m: Move, st: LState)
  {
    m.Moved? ==> m.st == st || Below(m.st, st)
  }

  /** A suffix as long as the text is the text. */
  lemma SameSuffix(a: seq<char>, b: seq<char>)
    ensures IsSuffix(a, b) && |a| == |b| ==> a == b
  {
  }

  /** `start`: skip blank lines and comments; the end, a header, a bare key, or nothing done. */
  function StartStep(st: LState): Move
    requires st.status == Start
  {
    StartAt(st, AfterSpace(st.view, Document.LINE_SPACES, true))
  }

  /** `start` once skip_space has left v. */
  function StartAt(st: LState, v: View): (m: Move)
    requires st.status == Start && IsSuffix(v, st.view)
    ensures Progress(m, st)
    ensures m.Moved? ==> m.st.root == st.root && (Keyed(st) ==> Keyed(m.st))
    ensures m.Finished? ==> m.root == st.root && v == []
    ensures !m.Threw?
  {
    SameSuffix(v, st.view);
    if v == [] then Finished(st.root, v)
    else if StartsWith(v, "[") then Moved(st.(status := BracketWaitString, view := After(v, 1), brackets := []))
    else if v[0] in BARE_CHARS then
      var n := BareLengthLegacy(v);
      Moved(st.(status := PairWaitDot, view := After(v, n), keys := [ParseBareValue(v, n)]))
    else Moved(st.(view := v))
  }

  /** `bracket_wait_string`: a `]`, a bare key pushed on brackets, or nothing done. */
  function BracketStringStep(st: LState): Move
    requires st.status == BracketWaitString
  {
    BracketStringAt(st, AfterSpace(st.view, KEY_SPACES, false))
  }

  /** `bracket_wait_string` once skip_space has left v. */
  function BracketStringAt(st: LState, v: View): (m: Move)
    requires st.status == BracketWaitString && IsSuffix(v, st.view)
    ensures Progress(m, st)
    ensures m.Moved? && m.st.root == st.root && (Keyed(st) ==> Keyed(m.st))
  {
    SameSuffix(v, st.view);
    if v == [] then Moved(st.(view := v))
    else if StartsWith(v, "]") then Moved(st.(status := BracketWaitNewline, view := After(v, 1)))
    else if v[0] in BARE_CHARS then
      var n := BareLengthLegacy(v);
      Moved(st.(view := After(v, n), brackets := st.brackets + [ParseBareValue(v, n)]))
    else Moved(st.(view := v))
  }

  /** `bracket_wait_newline`: back to `start` once `wait_newline` holds, keeping the blanks it skipped either way. */
  function BracketNewlineStep(st: LState): Move
    requires st.status == BracketWaitNewline
  {
    BracketNewlineAt(st, NewlineWait(st.view))
  }

  function BracketNewlineAt(st: LState, w: Parsed<bool>): (m: Move)
    requires st.status == BracketWaitNewline && IsSuffix(w.rest, st.view)
    ensures Progress(m, st)
    ensures m.Moved? && m.st.root == st.root && (Keyed(st) ==> Keyed(m.st))
  {
    SameSuffix(w.rest, st.view);
    if w.value then Moved(st.(status := Start, view := w.rest)) else Moved(st.(view := w.rest))
  }

  /** `pair_wait_dot`: an `=`, or nothing done (the view being empty or not). */
  function PairDotStep(st: LState): Move
    requires st.status == PairWaitDot
  {
    PairDotAt(st, AfterSpace(st.view, KEY_SPACES, false))
  }

  function PairDotAt(st: LState, v: View): (m: Move)
    requires st.status == PairWaitDot && IsSuffix(v, st.view)
    ensures Progress(m, st)
    ensures m.Moved? && m.st.root == st.root && (Keyed(st) ==> Keyed(m.st))
  {
    SameSuffix(v, st.view);
    if StartsWith(v, "=") then Moved(st.(status := PairWaitValue, view := After(v, 1)))
    else Moved(st.(view := v))
  }

  /** `pair_wait_value`: parse_item, which may throw, and `insert_table` of the item. */
  function PairValueStep(st: LState): Move
    requires st.status == PairWaitValue
  {
    var v := AfterSpace(st.view, KEY_SPACES, false);
    var r := ItemValue(v);
    if r.Ok? then SuffixTrans(r.value.rest, v, st.view); PairValueAt(st, r) else PairValueAt(st, r)
  }

  function PairValueAt(st: LState, r: Result<Parsed<Item>>): (m: Move)
    requires st.status == PairWaitValue && (r.Ok? ==> IsSuffix(r.value.rest, st.view))
    ensures Progress(m, st)
    ensures m.Moved? ==> Keyed(st) ==> Keyed(m.st)
    ensures m.Threw? ==> r == Err(m.e)
    ensures !m.Finished?
  {
    match r
    case Err(e) => Threw(e)
    case Ok(p) => Moved(st.(status := PairWaitNewline, view := p.rest, root := Tree.InsertTableLegacy(st.root, st.brackets, st.keys, p.value)))
  }

  /** `pair_wait_newline`: back to `start` once `wait_newline` holds, and out of the loop otherwise. */
  function PairNewlineStep(st: LState): Move
    requires st.status == PairWaitNewline
  {
    PairNewlineAt(st, NewlineWait(st.view))
  }

  function PairNewlineAt(st: LState, w: Parsed<bool>): (m: Move)
    requires st.status == PairWaitNewline && IsSuffix(w.rest, st.view)
    ensures Progress(m, st)
    ensures m.Moved? ==> m.st.root == st.root && (Keyed(st) ==> Keyed(m.st))
    ensures m.Finished? ==> m.root == st.root && !w.value
    ensures !m.Threw?
  {
    if w.value then Moved(st.(status := Start, view := w.rest)) else Finished(st.root, w.rest)
  }

  /** One pass of the `parse` loop. */
  function Step(st: LState): (m: Move)
    ensures Progress(m, st)
  {
    match st.status
    case Start => StartStep(st)
    case BracketWaitString => BracketStringStep(st)
    case BracketWaitNewline => BracketNewlineStep(st)
    case PairWaitDot => PairDotStep(st)
    case PairWaitValue => PairValueStep(st)
    case PairWaitNewline => PairNewlineStep(st)
  }

  /**
   * The loop run from st: to `ret`, to an exception, or, when a pass
   * leaves every variable as it was, to a state the loop repeats
   * forever.
   */
  function Trace(st: LState): (o: Outcome)
    decreases |st.view|, StatusRank(st.status)
  {
    match Step(st)
    case Threw(e) => Raised(e)
    case Finished(root, rest) => Done(root, rest)
    case Moved(s) => if s == st then Diverges(st) else Trace(s)
  }

  /** `parse(view)`. */
  function Load(view: View): Outcome
  {
    Trace(Init(view))
  }

  /** `get_bare_length` of tomload.hpp. */
  method BareLength(view: View) returns (r: SizeT)
    ensures r == BareLengthLegacy(view)
  {
    r := FindFirstNotOf(view, BARE_CHARS, 2);
    if r == NPOS {
      r := |view|;
    }
  }

  /**
   * `parse(view)`: the loop over its variables.  A pass that leaves all
   * of them as they were is where the C++ loop spins forever; the model
   * returns that state instead.
   */
  method Parse(view: View) returns (out: Outcome)
    ensures out == Load(view)
  {
    var st := Init(view);
    var m := Iteration(st);
    while m.Moved? && m.st != st
      invariant m == Step(st) && Trace(st) == Load(view)
      decreases |st.view|, StatusRank(st.status)
    {
      st := m.st;
      m := Iteration(st);
    }
    out := match m
      case Threw(e) => Raised(e)
      case Finished(root, rest) => Done(root, rest)
      case Moved(_) => Diverges(st);
  }

  /** The body of the `parse` loop: the branch of the current status. */
  method Iteration(st: LState) returns (m: Move)
    ensures m == Step(st)
  {
    match st.status
    case Start =>
      var v := SkipSpace(st.view, Document.LINE_SPACES, true);
      m := StartIteration(st, v);
    case BracketWaitString =>
      var v := SkipSpace(st.view, KEY_SPACES, false);
      m := BracketStringIteration(st, v);
    case BracketWaitNewline =>
      var ok, rest := WaitNewline(st.view);
      m := if ok then Moved(st.(status := Start, view := rest)) else Moved(st.(view := rest));
    case PairWaitDot =>
      var v := SkipSpace(st.view, KEY_SPACES, false);
      m := if StartsWith(v, "=") then Moved(st.(status := PairWaitValue, view := v[1..])) else Moved(st.(view := v));
    case PairWaitValue => m := PairValueIteration(st);
    case PairWaitNewline =>
      var ok, rest := WaitNewline(st.view);
      m := if ok then Moved(st.(status := Start, view := rest)) else Finished(st.root, rest);
  }

  /** `start` once skip_space has left v. */
  method StartIteration(st: LState, v: View) returns (m: Move)
    requires st.status == Start && IsSuffix(v, st.view)
    ensures m == StartAt(st, v)
  {
    if v == [] {
      m := Finished(st.root, v);
    } else if StartsWith(v, "[") {
      m := Moved(st.(status := BracketWaitString, view := v[1..], brackets := []));
    } else if v[0] in BARE_CHARS {
      var n := BareLength(v);
      m := Moved(st.(status := PairWaitDot, view := v[n..], keys := [v[..n]]));
    } else {
      m := Moved(st.(view := v));
    }
  }

  /** `bracket_wait_string` once skip_space has left v. */
  method BracketStringIteration(st: LState, v: View) returns (m: Move)
    requires st.status == BracketWaitString && IsSuffix(v, st.view)
    ensures m == BracketStringAt(st, v)
  {
    if v == [] {
      m := Moved(st.(view := v));
    } else if StartsWith(v, "]") {
      m := Moved(st.(status := BracketWaitNewline, view := v[1..]));
    } else if v[0] in BARE_CHARS {
      var n := BareLength(v);
      m := Moved(st.(view := v[n..], brackets := st.brackets + [v[..n]]));
    } else {
      m := Moved(st.(view := v));
    }
  }

  method PairValueIteration(st: LState) returns (m: Move)
    requires st.status == PairWaitValue
    ensures m == PairValueStep(st)
  {
    var v := SkipSpace(st.view, KEY_SPACES, false);
    var item := ParseItem(v);
    if item.Err? {
      return Threw(item.error);
    }
    var root := Tree.InsertTableLegacy(st.root, st.brackets, st.keys, item.value.value);
    m := Moved(st.(status := PairWaitNewline, view := item.value.rest, root := root));
  }

  // ---------------------------------------------------------------------
  // Properties of parse
  // ---------------------------------------------------------------------

  /** Where the loop is said to spin, a pass indeed leaves every variable as it was. */
  lemma {:induction false} DivergesIsStuck(st: LState)
    ensures Trace(st).Diverges? ==> Step(Trace(st).at) == Moved(Trace(st).at)
    decreases |st.view|, StatusRank(st.status)
  {
    var m := Step(st);
    if m.Moved? && m.st != st {
      DivergesIsStuck(m.st);
    }
  }

  /** Only `pair_wait_value` throws, and only what parse_item throws there. */
  lemma OnlyItemThrows(st: LState)
    ensures Step(st).Threw? ==>
              st.status == PairWaitValue && ItemValue(AfterSpace(st.view, KEY_SPACES, false)) == Err(Step(st).e)
  {
    match st.status
    case Start =>
      assert Step(st) == StartAt(st, AfterSpace(st.view, Document.LINE_SPACES, true));
    case BracketWaitString =>
      assert Step(st) == BracketStringAt(st, AfterSpace(st.view, KEY_SPACES, false));
    case BracketWaitNewline =>
      assert Step(st) == BracketNewlineAt(st, NewlineWait(st.view));
    case PairWaitDot =>
      assert Step(st) == PairDotAt(st, AfterSpace(st.view, KEY_SPACES, false));
    case PairWaitValue =>
      assert Step(st) == PairValueStep(st);
    case PairWaitNewline =>
      assert Step(st) == PairNewlineAt(st, NewlineWait(st.view));
  }

  /**
   * `ret` changes only at `pair_wait_value`, and the loop ends only at
   * `start` at the end of the input or at `pair_wait_newline` when no
   * line end follows the item.
   */
  lemma RootOnlyAtValue(st: LState)
    ensures st.status != PairWaitValue && Step(st).Moved? ==> Step(st).st.root == st.root
    ensures Step(st).Finished? ==>
              Step(st).root == st.root &&
              ((st.status == Start && AfterSpace(st.view, Document.LINE_SPACES, true) == []) ||
               (st.status == PairWaitNewline && !NewlineWait(st.view).value))
  {
  }

  /** At `pair_wait_dot`, `pair_wait_value` and `pair_wait_newline`, keys holds exactly one key. */
  predicate Keyed(st: LState)
  {
    st.status == PairWaitDot || st.status == PairWaitValue || st.status == PairWaitNewline ==> |st.keys| == 1
  }

  /** Keyed holds at the entry and every pass keeps it. */
  lemma StepKeepsKeyed(st: LState, view: View)
    ensures Keyed(Init(view))
    ensures Keyed(st) && Step(st).Moved? ==> Keyed(Step(st).st)
  {
  }

  /**
   * So `insert_table` always gets one key: the item lands at
   * brackets + keys, and every table along that path holds the next key
   * of the path and nothing else.
   */
  lemma ValueLands(st: LState)
    requires Keyed(st) && st.status == PairWaitValue
    ensures var m := Step(st);
      var path := st.brackets + st.keys;
      var r := ItemValue(AfterSpace(st.view, KEY_SPACES, false));
      m.Moved? ==>
        var t := Table(m.st.root);
        r.Ok? && Tree.Lookup(t, path) == Tree.At(r.value.value) &&
        forall i :: 1 <= i < |path| ==> Tree.Lookup(t, path[..i]).At? && Tree.Lookup(t, path[..i]).item.Table? &&
                                        Tree.Lookup(t, path[..i]).item.m.Keys == {path[i]}
  {
    var v := AfterSpace(st.view, KEY_SPACES, false);
    var r := ItemValue(v);
    assert Step(st) == PairValueStep(st);
    if r.Ok? {
      Tree.InsertTableLegacyLands(st.root, st.brackets, st.keys, r.value.value);
    }
  }

  // ---------------------------------------------------------------------
  // Passes of parse on given text
  // ---------------------------------------------------------------------

  /** Every character of s is one of spaces. */
  predicate AllIn(s: seq<char>, spaces: seq<char>)
  {
    forall i :: 0 <= i < |s| ==> s[i] in spaces
  }

  /** A bare key of two characters or more, which get_bare_length measures right. */
  predicate BareWord(k: seq<char>)
  {
    |k| >= 2 && forall i :: 0 <= i < |k| ==> IsBareChar(k[i])
  }

  /** A bare word followed by something that does not continue it is taken whole. */
  lemma BareWordScan(view: View, k: seq<char>, rest: seq<char>)
    requires view == k + rest && BareWord(k) && (rest == [] || !IsBareChar(rest[0]))
    ensures BareLengthLegacy(view) == |k| && After(view, |k|) == rest && ParseBareValue(view, |k|) == k
  {
    forall i | 0 <= i < |k|
      ensures view[i] in BARE_CHARS
    {
      assert view[i] == k[i];
      BareCharIff(k[i]);
    }
    if rest != [] {
      assert view[|k|] == rest[0];
      BareCharIff(rest[0]);
    }
    assert view[|k|..] == rest && view[..|k|] == k;
  }

  /** A view that starts with a bare key is not blank. */
  lemma BareFront(view: View)
    requires view != [] && IsBareChar(view[0])
    ensures AfterSpace(view, KEY_SPACES, false) == view && AfterSpace(view, Document.LINE_SPACES, true) == view
  {
    assert view[0] !in KEY_SPACES && view[0] !in Document.LINE_SPACES && view[0] != '#';
    AfterSpaceStays(view, KEY_SPACES);
    AfterSpaceStaysComment(view, Document.LINE_SPACES);
  }

  /** A view that starts with a bare key opens no header and is a bare key to parse. */
  lemma BareNoBracket(view: View)
    requires view != [] && IsBareChar(view[0])
    ensures !StartsWith(view, "[") && !StartsWith(view, "]") && view[0] in BARE_CHARS
  {
    NotPrefixAt("[", view, 0);
    NotPrefixAt("]", view, 0);
    BareCharIff(view[0]);
  }

  /** One character in front of the rest. */
  lemma FrontOf(view: View, c: char, rest: seq<char>)
    requires view == [c] + rest
    ensures StartsWith(view, [c]) && After(view, 1) == rest
  {
    assert view[..1] == [c];
  }

  /** Text made of spaces only is all skip_space drops. */
  lemma AllSpaces(view: View, spaces: View, skipComment: bool)
    requires AllIn(view, spaces)
    ensures AfterSpace(view, spaces, skipComment) == []
  {
    FindFirstNotOfIsLeast(view, spaces, 0);
  }

  lemma StartHeaderStep(st: LState, rest: seq<char>)
    requires st.status == Start && st.view == "[" + rest
    ensures Step(st) == Moved(st.(status := BracketWaitString, view := rest, brackets := []))
    ensures Trace(st) == Trace(st.(status := BracketWaitString, view := rest, brackets := []))
  {
    FrontOf(st.view, '[', rest);
    AfterSpaceStaysComment(st.view, Document.LINE_SPACES);
  }

  /** A bare key, with what follows it not continuing it, is what `start` reads once the blanks are skipped. */
  lemma StartKeyAt(st: LState, v: View, k: seq<char>, rest: seq<char>)
    requires st.status == Start && IsSuffix(v, st.view) && v == k + rest
    requires BareWord(k) && (rest == [] || !IsBareChar(rest[0]))
    ensures StartAt(st, v) == Moved(st.(status := PairWaitDot, view := rest, keys := [k]))
  {
    assert v[0] == k[0];
    BareNoBracket(v);
    BareWordScan(v, k, rest);
  }

  lemma StartKeyStep(st: LState, sp: seq<char>, k: seq<char>, rest: seq<char>)
    requires st.status == Start && st.view == sp + (k + rest) && AllIn(sp, Document.LINE_SPACES)
    requires BareWord(k) && (rest == [] || !IsBareChar(rest[0]))
    ensures Step(st) == Moved(st.(status := PairWaitDot, view := rest, keys := [k]))
    ensures Trace(st) == Trace(st.(status := PairWaitDot, view := rest, keys := [k]))
  {
    var v: View := k + rest;
    assert v[0] == k[0];
    assert v[0] !in Document.LINE_SPACES && v[0] != '#';
    AfterBlanksComment(st.view, sp, v, Document.LINE_SPACES);
    StartKeyAt(st, v, k, rest);
  }

  /** The same at `bracket_wait_string`. */
  lemma BracketKeyAt(st: LState, k: seq<char>, rest: seq<char>)
    requires st.status == BracketWaitString && st.view == k + rest
    requires BareWord(k) && (rest == [] || !IsBareChar(rest[0]))
    ensures BracketStringAt(st, st.view) == Moved(st.(view := rest, brackets := st.brackets + [k]))
  {
    assert st.view[0] == k[0];
    BareNoBracket(st.view);
    BareWordScan(st.view, k, rest);
  }

  lemma BracketKeyStep(st: LState, k: seq<char>, rest: seq<char>)
    requires st.status == BracketWaitString && st.view == k + rest
    requires BareWord(k) && (rest == [] || !IsBareChar(rest[0]))
    ensures Step(st) == Moved(st.(view := rest, brackets := st.brackets + [k]))
    ensures Trace(st) == Trace(st.(view := rest, brackets := st.brackets + [k]))
  {
    var n := st.(view := rest, brackets := st.brackets + [k]);
    BracketKeyMoves(st, k, rest, n);
    assert |n.view| < |st.view|;
    TraceMoves(st, n);
  }

  lemma BracketKeyMoves(st: LState, k: seq<char>, rest: seq<char>, n: LState)
    requires st.status == BracketWaitString && st.view == k + rest
    requires BareWord(k) && (rest == [] || !IsBareChar(rest[0]))
    requires n == st.(view := rest, brackets := st.brackets + [k])
    ensures Step(st) == Moved(n)
  {
    BareKeyFront(st.view, k, rest);
    assert Step(st) == BracketStringStep(st) == BracketStringAt(st, st.view);
    BracketKeyAt(st, k, rest);
  }

  /** A pass that moves somewhere else leaves the rest of the run to that state. */
  lemma TraceMoves(st: LState, n: LState)
    requires Step(st) == Moved(n) && n != st
    ensures Trace(st) == Trace(n)
  {
  }

  lemma BareKeyFront(view: View, k: seq<char>, rest: seq<char>)
    requires view == k + rest && BareWord(k)
    ensures AfterSpace(view, KEY_SPACES, false) == view
  {
    assert view[0] == k[0];
    BareFront(view);
  }

  lemma BracketCloseStep(st: LState, rest: seq<char>)
    requires st.status == BracketWaitString && st.view == "]" + rest
    ensures Step(st) == Moved(st.(status := BracketWaitNewline, view := rest))
    ensures Trace(st) == Trace(st.(status := BracketWaitNewline, view := rest))
  {
    FrontOf(st.view, ']', rest);
    AfterSpaceStays(st.view, KEY_SPACES);
  }

  lemma NewlineStep(st: LState, rest: View)
    requires (st.status == BracketWaitNewline || st.status == PairWaitNewline) && NewlineWait(st.view) == Parsed(true, rest)
    ensures Step(st) == Moved(st.(status := Start, view := rest))
    ensures Trace(st) == Trace(st.(status := Start, view := rest))
  {
  }

  lemma EndStep(st: LState)
    requires st.status == Start && AllIn(st.view, Document.LINE_SPACES)
    ensures Step(st) == Finished(st.root, []) && Trace(st) == Done(st.root, [])
  {
    AllSpaces(st.view, Document.LINE_SPACES, true);
  }

  lemma EqualsStep(st: LState, sp: seq<char>, rest: seq<char>)
    requires st.status == PairWaitDot && st.view == sp + ("=" + rest) && AllIn(sp, KEY_SPACES)
    ensures Step(st) == Moved(st.(status := PairWaitValue, view := rest))
    ensures Trace(st) == Trace(st.(status := PairWaitValue, view := rest))
  {
    var v: View := "=" + rest;
    AfterBlanks(st.view, sp, v, KEY_SPACES);
    FrontOf(v, '=', rest);
  }

  lemma ValueStep(st: LState, sp: seq<char>, v: View, p: Parsed<Item>)
    requires st.status == PairWaitValue && st.view == sp + v && AllIn(sp, KEY_SPACES)
    requires v != [] && v[0] !in KEY_SPACES && ItemValue(v) == Ok(p)
    ensures Step(st) == Moved(st.(status := PairWaitNewline, view := p.rest,
                                  root := Tree.InsertTableLegacy(st.root, st.brackets, st.keys, p.value)))
    ensures Trace(st) == Trace(st.(status := PairWaitNewline, view := p.rest,
                                   root := Tree.InsertTableLegacy(st.root, st.brackets, st.keys, p.value)))
  {
    AfterBlanks(st.view, sp, v, KEY_SPACES);
  }

  // ---------------------------------------------------------------------
  // The legacy cases of unittest/test_functions.cpp
  // ---------------------------------------------------------------------

  /** How `[aa]  #comm`, a line feed and then tail split at each pass. */
  lemma CommentPieces(tail: seq<char>)
    ensures "[aa]  #comm\n" + tail == "[" + ("aa]  #comm\n" + tail)
    ensures "aa]  #comm\n" + tail == "aa" + ("]  #comm\n" + tail) && BareWord("aa") && !IsBareChar(']')
    ensures "]  #comm\n" + tail == "]" + ("  #comm\n" + tail)
    ensures "  #comm\n" + tail == "  " + ("#comm\n" + tail) && "#comm\n" + tail == "#comm" + ("\n" + tail)
    ensures AllIn("  ", " \t\r") && [] + ["aa"] == ["aa"]
    ensures forall i :: 0 <= i < |"#comm"| ==> "#comm"[i] != '\n'
  {
  }

  /** The header `[aa]` up to its `]`: brackets holds aa. */
  lemma CommentHeaderOpen(root: map<string, Item>, tail: View)
    requires |tail| < 1000
    ensures Trace(LState(Start, "[aa]  #comm\n" + tail, [], [], root)) ==
            Trace(LState(BracketWaitNewline, "  #comm\n" + tail, ["aa"], [], root))
  {
    CommentPieces(tail);
    var s0 := LState(Start, "[aa]  #comm\n" + tail, [], [], root);
    var s1 := LState(BracketWaitString, "aa]  #comm\n" + tail, [], [], root);
    var s2 := LState(BracketWaitString, "]  #comm\n" + tail, ["aa"], [], root);
    StartHeaderStep(s0, "aa]  #comm\n" + tail);
    BracketKeyStep(s1, "aa", "]  #comm\n" + tail);
    BracketCloseStep(s2, "  #comm\n" + tail);
  }

  /** wait_newline drops the blanks and the comment, and stops at the line feed. */
  lemma CommentNewline(tail: View)
    requires |tail| < 1000
    ensures NewlineWait("  #comm\n" + tail) == Parsed(true, "\n" + tail)
  {
    var u: View, c: View := "  #comm\n" + tail, "#comm\n" + tail;
    CommentBlanks(u, c, tail);
    WaitNewlineComment(u, c);
    CommentTail(c, tail);
  }

  lemma CommentBlanks(u: View, c: View, tail: View)
    requires u == "  #comm\n" + tail && c == "#comm\n" + tail
    ensures AfterSpace(u, " \t\r", false) == c && c != [] && c[0] == '#'
  {
    CommentPieces(tail);
    assert c[0] == '#';
    AfterBlanks(u, "  ", c, " \t\r");
  }

  lemma CommentTail(c: View, tail: View)
    requires c == "#comm\n" + tail
    ensures DropComment(c) == "\n" + tail
  {
    CommentPieces(tail);
    var nl: View := "\n" + tail;
    assert nl[0] == '\n';
    DropCommentAt(c, "#comm", nl);
  }

  /** The comment line after the header: back to `start` at its line feed. */
  lemma CommentHeaderLine(root: map<string, Item>, tail: View)
    requires |tail| < 1000
    ensures Trace(LState(BracketWaitNewline, "  #comm\n" + tail, ["aa"], [], root)) ==
            Trace(LState(Start, "\n" + tail, ["aa"], [], root))
  {
    CommentNewline(tail);
    NewlineStep(LState(BracketWaitNewline, "  #comm\n" + tail, ["aa"], [], root), "\n" + tail);
  }

  lemma EndAt(st: LState)
    requires st.status == Start && (st.view == "\n" || st.view == [])
    ensures Trace(st) == Done(st.root, [])
  {
    assert AllIn(st.view, Document.LINE_SPACES);
    EndStep(st);
  }

  /**
   * `[aa]  #comm` and a line feed: tomload.hpp returns an empty table,
   * which is what the test expects of `size()`; a header makes no table
   * until a pair is inserted under it.
   */
  lemma CommentHeaderLegacy()
    ensures Load("[aa]  #comm\n") == Done(map[], [])
  {
    var view: View := "[aa]  #comm\n";
    assert view == "[aa]  #comm\n" + [];
    CommentHeaderOpen(map[], []);
    CommentHeaderLine(map[], []);
    assert "\n" + [] == "\n";
    EndAt(LState(Start, "\n", ["aa"], [], map[]));
  }

  /** How the pair `bb = false` and a line feed split at each pass. */
  lemma PairPieces()
    ensures "\nbb = false\n" == "\n" + ("bb" + " = false\n") && AllIn("\n", Document.LINE_SPACES)
    ensures BareWord("bb") && !IsBareChar(' ')
    ensures " = false\n" == " " + ("=" + " false\n") && AllIn(" ", KEY_SPACES)
    ensures " false\n" == " " + "false\n" && "false\n" == FIXED[1].0 + "\n"
  {
  }

  /** `false` is the boolean false for tomload.hpp too. */
  lemma FalseWord(v: View)
    requires v == "false\n"
    ensures ItemValue(v) == Ok(Parsed(Boolean(false), "\n"))
  {
    PairPieces();
    FixedWordItem(1, v, "\n");
    Heads(v);
    ItemAgrees(v);
  }

  /** The key bb and its `=`. */
  lemma PairHead(brackets: seq<string>, root: map<string, Item>)
    ensures Trace(LState(Start, "\nbb = false\n", brackets, [], root)) ==
            Trace(LState(PairWaitValue, " false\n", brackets, ["bb"], root))
  {
    PairPieces();
    var s4 := LState(Start, "\nbb = false\n", brackets, [], root);
    StartKeyStep(s4, "\n", "bb", " = false\n");
    EqualsStep(LState(PairWaitDot, " = false\n", brackets, ["bb"], root), " ", " false\n");
  }

  /** The value false, inserted under the brackets, then the line feed. */
  lemma PairValueLine(brackets: seq<string>, root: map<string, Item>)
    ensures Trace(LState(PairWaitValue, " false\n", brackets, ["bb"], root)) ==
            Trace(LState(Start, [], brackets, ["bb"], Tree.InsertTableLegacy(root, brackets, ["bb"], Boolean(false))))
  {
    var r := Tree.InsertTableLegacy(root, brackets, ["bb"], Boolean(false));
    PairValueMoves(brackets, root, r);
    LineFeedMoves(LState(PairWaitNewline, "\n", brackets, ["bb"], r));
  }

  /** The value false, inserted under the brackets. */
  lemma PairValueMoves(brackets: seq<string>, root: map<string, Item>, r: map<string, Item>)
    requires r == Tree.InsertTableLegacy(root, brackets, ["bb"], Boolean(false))
    ensures Trace(LState(PairWaitValue, " false\n", brackets, ["bb"], root)) ==
            Trace(LState(PairWaitNewline, "\n", brackets, ["bb"], r))
  {
    PairPieces();
    FalseWord("false\n");
    ValueStep(LState(PairWaitValue, " false\n", brackets, ["bb"], root), " ", "false\n", Parsed(Boolean(false), "\n"));
  }

  /** The line feed that ends the line. */
  lemma LineFeedMoves(st: LState)
    requires st.status == PairWaitNewline && st.view == "\n"
    ensures Trace(st) == Trace(st.(status := Start, view := []))
  {
    AfterSpaceStays(st.view, " \t\r");
    WaitNewlineRest(st.view, st.view);
    NewlineStep(st, []);
  }

  /** insert_table of false at aa.bb into the empty table. */
  lemma OnePairTable()
    ensures Tree.InsertTableLegacy(map[], ["aa"], ["bb"], Boolean(false)) == map["aa" := Table(map["bb" := Boolean(false)])]
  {
    var path := ["aa"] + ["bb"];
    assert path == ["aa", "bb"] && path[1..] == ["bb"];
    assert Tree.LegacyWalk(map[], ["bb"], Boolean(false)) == map["bb" := Boolean(false)];
  }

  /**
   * `[aa]  #comm`, a line feed and `bb = false`: one key aa, whose
   * table holds bb, false.
   */
  lemma CommentThenPairLegacy()
    ensures Load("[aa]  #comm\nbb = false\n") == Done(map["aa" := Table(map["bb" := Boolean(false)])], [])
  {
    var tail: View := "bb = false\n";
    assert "[aa]  #comm\nbb = false\n" == "[aa]  #comm\n" + tail && "\n" + tail == "\nbb = false\n";
    CommentHeaderOpen(map[], tail);
    CommentHeaderLine(map[], tail);
    PairHead(["aa"], map[]);
    PairValueLine(["aa"], map[]);
    OnePairTable();
    EndAt(LState(Start, [], ["aa"], ["bb"], map["aa" := Table(map["bb" := Boolean(false)])]));
  }

  // ---------------------------------------------------------------------
  // One-character keys: get_bare_length scans from index 2
  // ---------------------------------------------------------------------

  /** A key character followed by one more character: the scan from index 2 takes both, whatever the second is. */
  lemma ShortScan(view: View, k: seq<char>, rest: seq<char>)
    requires view == k + rest && |k| == 2 && IsBareChar(k[0]) && rest != [] && !IsBareChar(rest[0])
    ensures view[0] in BARE_CHARS && BareLengthLegacy(view) == 2
    ensures ParseBareValue(view, 2) == k && After(view, 2) == rest
  {
    assert view[0] == k[0] && view[2] == rest[0];
    BareCharIff(view[0]);
    BareCharIff(view[2]);
    assert view[..2] == k && view[2..] == rest;
  }

  /** The same key as seen by `bracket_wait_string`: no blank and no `]` in front. */
  lemma ShortKeyFront(view: View, k: seq<char>, rest: seq<char>)
    requires view == k + rest && |k| == 2 && IsBareChar(k[0])
    ensures AfterSpace(view, KEY_SPACES, false) == view && !StartsWith(view, "]")
  {
    assert view[0] == k[0];
    NotPrefixAt("]", view, 0);
    AfterSpaceStays(view, KEY_SPACES);
  }

  /** At `bracket_wait_string`, a two-character word whose second character is not a key character still becomes one header key. */
  lemma BracketShortStep(st: LState, k: seq<char>, rest: seq<char>)
    requires st.status == BracketWaitString && st.view == k + rest
    requires |k| == 2 && IsBareChar(k[0]) && rest != [] && !IsBareChar(rest[0])
    ensures Step(st) == Moved(st.(view := rest, brackets := st.brackets + [k]))
    ensures Trace(st) == Trace(st.(view := rest, brackets := st.brackets + [k]))
  {
    ShortKeyFront(st.view, k, rest);
    ShortScan(st.view, k, rest);
  }

  /** A character that is neither a blank, a `]` nor a key character, seen by `bracket_wait_string`. */
  lemma StuckFront(view: View)
    requires view != [] && view[0] != ' ' && view[0] != '\t' && view[0] != ']'
    ensures !StartsWith(view, "]") && AfterSpace(view, KEY_SPACES, false) == view
  {
    NotPrefixAt("]", view, 0);
    AfterSpaceStays(view, KEY_SPACES);
  }

  /** At `bracket_wait_string`, such a character makes a pass that changes nothing: the loop spins. */
  lemma BracketSpins(st: LState)
    requires st.status == BracketWaitString && st.view != []
    requires st.view[0] != ' ' && st.view[0] != '\t' && st.view[0] != ']' && !IsBareChar(st.view[0])
    ensures Step(st) == Moved(st) && Trace(st) == Diverges(st)
  {
    StuckFront(st.view);
    StuckAt(st);
  }

  lemma StuckAt(st: LState)
    requires st.status == BracketWaitString && st.view != [] && !StartsWith(st.view, "]") && !IsBareChar(st.view[0])
    ensures BracketStringAt(st, st.view) == Moved(st)
  {
    BareCharIff(st.view[0]);
  }

  /**
   * `[a]` and a line feed: the header key becomes `a]`, the line feed is
   * left at `bracket_wait_string`, and the parse loop never ends.
   */
  lemma OneLetterHeaderSpins()
    ensures Load("[a]\n") == Diverges(LState(BracketWaitString, "\n", ["a]"], [], map[]))
  {
    assert "[a]\n" == "[" + "a]\n";
    StartHeaderStep(Init("[a]\n"), "a]\n");
    OneLetterHeaderKey();
  }

  /** The header key `a]`, then the pass that spins at the line feed. */
  lemma OneLetterHeaderKey()
    ensures Trace(LState(BracketWaitString, "a]\n", [], [], map[])) == Diverges(LState(BracketWaitString, "\n", ["a]"], [], map[]))
  {
    assert "a]\n" == "a]" + "\n" && [] + ["a]"] == ["a]"];
    BracketShortStep(LState(BracketWaitString, "a]\n", [], [], map[]), "a]", "\n");
    BracketSpins(LState(BracketWaitString, "\n", ["a]"], [], map[]));
  }

  /** The same key as seen by `start`: no blank, comment or `[` in front. */
  lemma ShortStartFront(view: View, k: seq<char>, rest: seq<char>)
    requires view == k + rest && |k| == 2 && IsBareChar(k[0])
    ensures AfterSpace(view, Document.LINE_SPACES, true) == view && !StartsWith(view, "[")
  {
    assert view[0] == k[0];
    NotPrefixAt("[", view, 0);
    AfterSpaceStaysComment(view, Document.LINE_SPACES);
  }

  /** At `start`, the same two-character word becomes the pair's key. */
  lemma StartShortStep(st: LState, k: seq<char>, rest: seq<char>)
    requires st.status == Start && st.view == k + rest
    requires |k| == 2 && IsBareChar(k[0]) && rest != [] && !IsBareChar(rest[0])
    ensures Step(st) == Moved(st.(status := PairWaitDot, view := rest, keys := [k]))
    ensures Trace(st) == Trace(st.(status := PairWaitDot, view := rest, keys := [k]))
  {
    ShortStartFront(st.view, k, rest);
    ShortScan(st.view, k, rest);
  }

  /** `true` is the boolean true for tomload.hpp. */
  lemma TrueWord(v: View)
    requires v == "true\n"
    ensures ItemValue(v) == Ok(Parsed(Boolean(true), "\n")) && v[0] !in KEY_SPACES
  {
    assert v == FIXED[0].0 + "\n";
    FixedWordItem(0, v, "\n");
    Heads(v);
    ItemAgrees(v);
  }

  /** `a = true` up to the value: the key is `a ` and the view is at `true`. */
  lemma OneLetterPairHead()
    ensures Load("a = true\n") == Trace(LState(PairWaitValue, " true\n", [], ["a "], map[]))
  {
    assert "a = true\n" == "a " + "= true\n" && "= true\n" == [] + ("=" + " true\n") && AllIn([], KEY_SPACES);
    StartShortStep(Init("a = true\n"), "a ", "= true\n");
    EqualsStep(LState(PairWaitDot, "= true\n", [], ["a "], map[]), [], " true\n");
  }

  /** insert_table of true at the single key `a `, with no header. */
  lemma OneKeyTable()
    ensures Tree.InsertTableLegacy(map[], [], ["a "], Boolean(true)) == map["a " := Boolean(true)]
  {
    assert [] + ["a "] == ["a "];
  }

  /** The value true under the key `a `, then the line feed. */
  lemma OneLetterPairValue()
    ensures Trace(LState(PairWaitValue, " true\n", [], ["a "], map[])) == Done(map["a " := Boolean(true)], [])
  {
    TrueWord("true\n");
    OneKeyTable();
    assert " true\n" == " " + "true\n" && AllIn(" ", KEY_SPACES);
    ValueStep(LState(PairWaitValue, " true\n", [], ["a "], map[]), " ", "true\n", Parsed(Boolean(true), "\n"));
    OneKeyLine(map["a " := Boolean(true)]);
  }

  /** The line feed after the value, then the end. */
  lemma OneKeyLine(root: map<string, Item>)
    ensures Trace(LState(PairWaitNewline, "\n", [], ["a "], root)) == Done(root, [])
  {
    var st := LState(PairWaitNewline, "\n", [], ["a "], root);
    AfterSpaceStays(st.view, " \t\r");
    WaitNewlineRest(st.view, st.view);
    NewlineStep(st, []);
    EndAt(LState(Start, [], [], ["a "], root));
  }

  /** `a = true` and a line feed: the key read is `a `, the blank after a taken in. */
  lemma OneLetterKeyTakesBlank()
    ensures Load("a = true\n") == Done(map["a " := Boolean(true)], [])
  {
    OneLetterPairHead();
    OneLetterPairValue();
  }

  // ---------------------------------------------------------------------
  // Dotted keys
  // ---------------------------------------------------------------------

  /** A character that is neither a blank nor `=`, seen by `pair_wait_dot`. */
  lemma NoEqualsFront(view: View)
    requires view != [] && view[0] != ' ' && view[0] != '\t' && view[0] != '='
    ensures !StartsWith(view, "=") && AfterSpace(view, KEY_SPACES, false) == view
  {
    NotPrefixAt("=", view, 0);
    AfterSpaceStays(view, KEY_SPACES);
  }

  /** At `pair_wait_dot`, anything but blanks and `=` makes a pass that changes nothing: the loop spins. */
  lemma PairDotSpins(st: LState)
    requires st.status == PairWaitDot && st.view != []
    requires st.view[0] != ' ' && st.view[0] != '\t' && st.view[0] != '='
    ensures Step(st) == Moved(st) && Trace(st) == Diverges(st)
  {
    assert Step(st) == PairDotStep(st) == PairDotAt(st, AfterSpace(st.view, KEY_SPACES, false));
    NoEqualsFront(st.view);
  }

  /**
   * `aa.bb=true` and a line feed: `pair_wait_dot` has no branch for the
   * dot, so the loop spins there with the key aa read.
   */
  lemma DottedKeySpins()
    ensures Load("aa.bb=true\n") == Diverges(LState(PairWaitDot, ".bb=true\n", [], ["aa"], map[]))
  {
    assert "aa.bb=true\n" == [] + ("aa" + ".bb=true\n") && AllIn([], Document.LINE_SPACES);
    assert BareWord("aa") && !IsBareChar('.');
    StartKeyStep(Init("aa.bb=true\n"), [], "aa", ".bb=true\n");
    PairDotSpins(LState(PairWaitDot, ".bb=true\n", [], ["aa"], map[]));
  }
}
