/**
 * The root parser.cpp, the item parser that came before tomload/parser.cpp.
 *
 * Its `wait_newline`, `skip_space` and `parse_array` have the same bodies
 * as those of tomload/, and its radix branches pass, prefix by prefix,
 * the digit set and base that tomload/ derives from the prefix, so they
 * are Parser's functions.  What differs is `parse_item`: it has no
 * branch for multi-line basic strings, and its `"` branch is the legacy
 * `parse_string` (LegacyDetailString.ParseString).  Its `parse_array`
 * calls this `parse_item`, so the array loop is written again over it.
 */
module LegacyParser {
  import opened Errors
  import opened StringView14
  import opened ViewT
  import opened Items
  import opened Parser
  import DetailString
  import DetailStringProperties
  import UnicodeEscape
  import LegacyDetailString

  /** The `"` branch: `get_string_length`, then the legacy `parse_string`. */
  function StringItem(view: View): (r: Result<Parsed<Item>>)
    ensures r.Ok? ==> IsSuffix(r.value.rest, view) && |r.value.rest| < |view|
  {
    DetailString.StringLengthShape(view);
    match DetailString.StringLength(view)
    case Err(e) => Err(e)
    case Ok(length) =>
      match DetailString.StringValue(view, length, UnicodeEscape.Legacy)
      case Err(e) => Err(e)
      case Ok(str) => Ok(Taken(view, length, String(str)))
  }

  /**
   * What `parse_item(view)` of the root parser.cpp returns and leaves: a
   * fixed word, a radix integer, a multi-line or a single-line literal
   * string, a basic string or an array, tried in that order; anything
   * else is "not hit item".
   */
  function ItemValue(view: View): (r: Result<Parsed<Item>>)
    ensures r.Ok? ==> IsSuffix(r.value.rest, view) && |r.value.rest| < |view|
    decreases |view|, 1
  {
    var f := FirstFixed(view, 0);
    if f < |FIXED| then Ok(Taken(view, |FIXED[f].0|, FIXED[f].1))
    else if StartsWithAny(view, RADIX_PREFIXES) then RadixItem(view)
    else if StartsWith(view, "\'\'\'") then MultiLiteralItem(view)
    else if StartsWith(view, "\'") then LiteralItem(view)
    else if StartsWith(view, "\"") then StringItem(view)
    else if StartsWith(view, "[") then
      assert |view| < NPOS;
      var inner: View := view[1..];
      var r := ArrayLoop(inner, [], true);
      if r.Ok? then SuffixTrans(r.value.rest, inner, view); r else r
    else Err(ParseError("not hit item"))
  }

  /** One pass of the `parse_array` loop, with this `parse_item` at `wait_item`. */
  function ArrayPass(view: View, items: seq<Item>, waitItem: bool): (s: ArrayStep)
    ensures s.Close? && s.r.Ok? ==>
              IsSuffix(s.r.value.rest, view) && |s.r.value.rest| < |view| &&
              s.r.value.value == Array(items)
    ensures s.Next? ==> IsSuffix(s.v, view) && |s.v| < |view|
    decreases |view|, 4
  {
    var v := AfterSpace(view, ARRAY_SPACES, false);
    var s := PassAt(v, items, waitItem);
    StepSuffix(s, v, view, items);
    s
  }

  /** The pass after skip_space, at the first character that is not a space. */
  function PassAt(v: View, items: seq<Item>, waitItem: bool): (s: ArrayStep)
    ensures StepWithin(s, v, items)
    decreases |v|, 3
  {
    if v == [] then Close(Err(ParseError("missing \"]\" in array")))
    else if StartsWith(v, "]") then Close(Ok(Taken(v, 1, Array(items))))
    else if waitItem then ItemPass(v, items)
    else
      match CommaNext(v)
      case Err(e) => Close(Err(e))
      case Ok(w) => Next(w, items, true)
  }

  /** `wait_item`: `push_back(parse_item(view))`, then `wait_comma`. */
  function ItemPass(v: View, items: seq<Item>): (s: ArrayStep)
    ensures s.Close? ==> s.r.Err?
    ensures s.Next? ==> IsSuffix(s.v, v) && |s.v| < |v|
    decreases |v|, 2
  {
    match ItemValue(v)
    case Err(e) => Close(Err(e))
    case Ok(p) => Next(p.rest, items + [p.value], false)
  }

  /** The `parse_array` loop run to its end. */
  function ArrayLoop(view: View, items: seq<Item>, waitItem: bool): (r: Result<Parsed<Item>>)
    ensures r.Ok? ==> IsSuffix(r.value.rest, view) && |r.value.rest| < |view|
    ensures r.Ok? ==> r.value.value.Array?
    decreases |view|, 5
  {
    match ArrayPass(view, items, waitItem)
    case Close(r) => r
    case Next(v, its, w) =>
      var r := ArrayLoop(v, its, w);
      if r.Ok? then SuffixTrans(r.value.rest, v, view); r else r
  }

  /** `parse_item` of the root parser.cpp. */
  method ParseItem(view: View) returns (r: Result<Parsed<Item>>)
    ensures r == ItemValue(view)
    decreases |view|, 1
  {
    var f := MatchFixed(view);
    if f < |FIXED| {
      return Ok(Taken(view, |FIXED[f].0|, FIXED[f].1));
    }
    var radix := ViewTInline.StartsWithList(view, RADIX_PREFIXES);
    if radix {
      assert StartsWithAny(view, RADIX_PREFIXES);
      r := ParseRadixItem(view);
    } else if StartsWith(view, "\'\'\'") {
      r := MultiLiteralItem(view);
    } else if StartsWith(view, "\'") {
      r := LiteralItem(view);
    } else if StartsWith(view, "\"") {
      r := ParseStringItem(view);
    } else if StartsWith(view, "[") {
      r := ParseArray(view);
    } else {
      r := Err(ParseError("not hit item"));
    }
  }

  /** The `"` branch of `parse_item`. */
  method ParseStringItem(view: View) returns (r: Result<Parsed<Item>>)
    ensures r == StringItem(view)
  {
    var length := DetailString.GetStringLength(view);
    DetailString.StringLengthShape(view);
    if length.Err? {
      return Err(length.error);
    }
    var str := LegacyDetailString.ParseString(view, length.value);
    if str.Err? {
      return Err(str.error);
    }
    return Ok(Taken(view, length.value, String(str.value)));
  }

  /** `parse_array` of the root parser.cpp, called at the `[`. */
  method ParseArray(view: View) returns (r: Result<Parsed<Item>>)
    requires view != []
    ensures r == ArrayLoop(view[1..], [], true)
    decreases |view|, 0
  {
    var items: seq<Item> := [];
    var v := After(view, 1);
    var waitItem := true;
    while true
      invariant |v| < |view|
      invariant ArrayLoop(v, items, waitItem) == ArrayLoop(view[1..], [], true)
      decreases |v|
    {
      var step := ArrayIteration(v, items, waitItem);
      match step
      case Close(res) =>
        return res;
      case Next(v', items', waitItem') =>
        v, items, waitItem := v', items', waitItem';
    }
  }

  /** The body of the `parse_array` loop. */
  method ArrayIteration(v0: View, items: seq<Item>, waitItem: bool) returns (s: ArrayStep)
    ensures s == ArrayPass(v0, items, waitItem)
    decreases |v0|, 3
  {
    var v := SkipSpace(v0, ARRAY_SPACES, false);
    s := IterationAt(v, items, waitItem);
  }

  /** The loop body after skip_space. */
  method IterationAt(v: View, items: seq<Item>, waitItem: bool) returns (s: ArrayStep)
    ensures s == PassAt(v, items, waitItem)
    decreases |v|, 2
  {
    if v == [] {
      return Close(Err(ParseError("missing \"]\" in array")));
    } else if StartsWith(v, "]") {
      return Close(Ok(Taken(v, 1, Array(items))));
    } else if waitItem {
      var item := ParseItem(v);
      if item.Err? {
        return Close(Err(item.error));
      }
      return Next(item.value.rest, items + [item.value.value], false);
    } else {
      var c := CommaStep(v);
      if c.Err? {
        return Close(Err(c.error));
      }
      return Next(c.value, items, true);
    }
  }

  // ---------------------------------------------------------------------
  // How this parse_item compares with that of tomload/
  // ---------------------------------------------------------------------

  /** A view that does not start with `"` does not start with `"""`. */
  lemma NoTripleQuote(view: View)
    ensures !StartsWith(view, "\"") ==> !StartsWith(view, "\"\"\"")
  {
    if StartsWith(view, "\"\"\"") {
      assert view[..1] == "\"";
    }
  }

  /** Away from `"` and `[`, both parse_item take the same branch. */
  lemma FrontAgrees(view: View)
    ensures !StartsWith(view, "\"") && !StartsWith(view, "[") ==> ItemValue(view) == Parser.ItemValue(view)
  {
    NoTripleQuote(view);
  }

  /**
   * On a text without `"`, the parse_item of the root parser.cpp and
   * that of tomload/ return the same item or the same error, and leave
   * the same rest.
   */
  lemma {:induction false} ItemRefines(view: View)
    ensures NoQuote(view) ==> ItemValue(view) == Parser.ItemValue(view)
    decreases |view|, 1
  {
    if NoQuote(view) {
      NoQuoteStart(view);
      NoTripleQuote(view);
      if StartsWith(view, "[") {
        assert view[..1] == "[";
        ArrayBranch(view);
        CurrentArrayBranch(view);
        var inner := view[1..];
        NoQuoteSuffix(inner, view);
        LoopRefines(inner, [], true);
      } else {
        FrontAgrees(view);
      }
    }
  }

  /** At `[`, this parse_item runs its array loop. */
  lemma ArrayBranch(view: View)
    requires view != [] && view[0] == '['
    ensures ItemValue(view) == ArrayLoop(view[1..], [], true)
  {
    BracketFront(view);
  }

  /** At `[`, the parse_item of tomload/ runs its array loop. */
  lemma CurrentArrayBranch(view: View)
    requires view != [] && view[0] == '['
    ensures Parser.ItemValue(view) == Parser.ArrayLoop(view[1..], [], true)
  {
    BracketFront(view);
  }

  /** A `[` at the front fails every test before the array branch, and passes that one. */
  lemma BracketFront(view: View)
    requires view != [] && view[0] == '['
    ensures FirstFixed(view, 0) == |FIXED| && !StartsWithAny(view, RADIX_PREFIXES)
    ensures !StartsWith(view, "\'\'\'") && !StartsWith(view, "\'")
    ensures !StartsWith(view, "\"\"\"") && !StartsWith(view, "\"") && StartsWith(view, "[")
  {
    NoFixedWord(view);
    NoRadix(view);
    NotPrefixAt("\'\'\'", view, 0);
    NotPrefixAt("\'", view, 0);
    NotPrefixAt("\"", view, 0);
    NotPrefixAt("\"\"\"", view, 0);
    assert view[..1] == "[";
  }

  /** The same for the `parse_array` loop. */
  lemma {:induction false} LoopRefines(v: View, items: seq<Item>, w: bool)
    ensures NoQuote(v) ==> ArrayLoop(v, items, w) == Parser.ArrayLoop(v, items, w)
    decreases |v|, 4
  {
    if NoQuote(v) {
      PassRefines(v, items, w);
      var s := ArrayPass(v, items, w);
      if s.Next? {
        NoQuoteSuffix(s.v, v);
        LoopRefines(s.v, s.items, s.waitItem);
      }
    }
  }

  /** The same for one pass of the `parse_array` loop. */
  lemma {:induction false} PassRefines(v: View, items: seq<Item>, w: bool)
    ensures NoQuote(v) ==> ArrayPass(v, items, w) == Parser.ArrayPass(v, items, w)
    decreases |v|, 3
  {
    if NoQuote(v) {
      var u := AfterSpace(v, ARRAY_SPACES, false);
      NoQuoteSuffix(u, v);
      if u != [] && !StartsWith(u, "]") && w {
        ItemPassRefines(v, u, items);
      } else {
        OtherPassAgrees(v, u, items, w);
      }
    }
  }

  /** At `wait_item`, both passes push the same item. */
  lemma {:induction false} ItemPassRefines(v: View, u: View, items: seq<Item>)
    requires u != [] && !StartsWith(u, "]") && u == AfterSpace(v, ARRAY_SPACES, false) && NoQuote(u)
    ensures ArrayPass(v, items, true) == Parser.ArrayPass(v, items, true)
    decreases |v|, 2
  {
    ItemRefines(u);
    LegacyItemStep(v, u, items);
    ParserItemStep(v, u, items);
    ItemPassSame(u, items);
  }

  lemma LegacyItemStep(v: View, u: View, items: seq<Item>)
    requires u != [] && !StartsWith(u, "]") && u == AfterSpace(v, ARRAY_SPACES, false)
    ensures ArrayPass(v, items, true) == ItemPass(u, items)
  {
    assert ArrayPass(v, items, true) == PassAt(u, items, true);
  }

  lemma ParserItemStep(v: View, u: View, items: seq<Item>)
    requires u != [] && !StartsWith(u, "]") && u == AfterSpace(v, ARRAY_SPACES, false)
    ensures Parser.ArrayPass(v, items, true) == Parser.ItemPass(u, items)
  {
    assert Parser.ArrayPass(v, items, true) == Parser.PassAt(u, items, true);
  }

  lemma ItemPassSame(u: View, items: seq<Item>)
    requires ItemValue(u) == Parser.ItemValue(u)
    ensures ItemPass(u, items) == Parser.ItemPass(u, items)
  {
  }

  /** At the end, at `]` and at `wait_comma` the two passes have the same text. */
  lemma OtherPassAgrees(v: View, u: View, items: seq<Item>, w: bool)
    requires u == AfterSpace(v, ARRAY_SPACES, false) && (u == [] || StartsWith(u, "]") || !w)
    ensures ArrayPass(v, items, w) == Parser.ArrayPass(v, items, w)
  {
    assert ArrayPass(v, items, w) == PassAt(u, items, w);
    assert Parser.ArrayPass(v, items, w) == Parser.PassAt(u, items, w);
  }

  // ---------------------------------------------------------------------
  // Basic strings
  // ---------------------------------------------------------------------

  /**
   * A basic string written by escaping s is parsed back to s, leaving
   * what follows it, whatever follows it: there is no `"""` branch to
   * take `""` and a third quote for a multi-line delimiter.
   */
  lemma StringRoundTrip(view: View, s: seq<char>, rest: seq<char>)
    requires view == "\"" + DetailStringProperties.Escape(s) + "\"" + rest
    ensures ItemValue(view) == Ok(Parsed(String(s), rest))
  {
    var e := DetailStringProperties.Escape(s);
    assert view[0] == '"';
    NoEarlierBranchAtQuote(view);
    assert StartsWith(view, "\"") by { assert view[..1] == "\""; }
    DetailStringProperties.StringRoundTrip(view, s, rest, UnicodeEscape.Legacy);
    assert view[|e| + 2..] == rest;
  }

  /**
   * Three quotes are an empty string followed by a quote, where the
   * parse_item of tomload/ reads the start of a multi-line string.
   */
  lemma TripleQuoteIsEmpty(view: View, rest: seq<char>)
    requires view == "\"\"\"" + rest
    ensures ItemValue(view) == Ok(Parsed(String(""), "\"" + rest))
    ensures Parser.ItemValue(view) == Parser.MultiStringItem(view)
  {
    assert view == "\"" + DetailStringProperties.Escape([]) + "\"" + ("\"" + rest);
    StringRoundTrip(view, [], "\"" + rest);
    assert view[0] == '"';
    NoEarlierBranchAtQuote(view);
    assert StartsWith(view, "\"\"\"") by { assert view[..3] == "\"\"\""; }
  }
}
