/**
 * The token-level parser of tomload/parser.cpp: `skip_space`,
 * `wait_newline`, `parse_item`, `parse_array` and `parse_keys`.
 *
 * Every C++ routine takes a `view_t&` and advances it in place; here each
 * one is a method that returns what it parsed together with the view
 * left after it, proved equal to a specification function of the same
 * shape.  The properties are lemmas about those functions.
 */
module Parser {
  import opened Errors
  import opened StringView14
  import opened ViewT
  import opened Items
  import DetailString
  import DetailStringProperties
  import DetailNumber
  import UnicodeEscape
  import ViewTInline

  /** A parsed value and the view left after it. */
  datatype Parsed<T> = Parsed(value: T, rest: View)

  /** Suffixes compose. */
  lemma SuffixTrans(a: seq<char>, b: seq<char>, c: seq<char>)
    requires IsSuffix(a, b) && IsSuffix(b, c)
    ensures IsSuffix(a, c)
  {
    assert c[|c| - |a|..] == c[|c| - |b|..][|b| - |a|..];
  }

  /** The text holds no `"`: where the versions of the parser that came before tomload/ read the same as it. */
  predicate NoQuote(s: seq<char>)
  {
    forall i :: 0 <= i < |s| ==> s[i] != '"'
  }

  lemma NoQuoteSuffix(a: seq<char>, b: seq<char>)
    ensures IsSuffix(a, b) && NoQuote(b) ==> NoQuote(a)
  {
    if IsSuffix(a, b) && NoQuote(b) {
      forall i | 0 <= i < |a|
        ensures a[i] != '"'
      {
        assert a[i] == b[|b| - |a| + i];
      }
    }
  }

  /** A text without `"` does not start with one. */
  lemma NoQuoteStart(v: View)
    ensures NoQuote(v) ==> !StartsWith(v, "\"")
  {
    if NoQuote(v) && v != [] {
      NotPrefixAt("\"", v, 0);
    }
  }

  // ---------------------------------------------------------------------
  // skip_space
  // ---------------------------------------------------------------------

  /**
   * `view.find('\n')` at a comment and the view cut there: from the line
   * feed on, or nothing when none follows; everything dropped lies on
   * the comment's line.
   */
  function DropComment(v: View): (rest: View)
    ensures IsSuffix(rest, v) && (rest == [] || rest[0] == '\n')
    ensures forall i :: 0 <= i < |v| - |rest| ==> v[i] != '\n'
  {
    DetailString.FindCharIsLeast(v, '\n', 0);
    var lf := FindResult(v, "\n", 0);
    if lf == NPOS then [] else v[lf..]
  }

  /**
   * One round of `skip_space`: pos is where the leading run of
   * characters of spaces ends, next the view after the round (with
   * skip_comment, less a `#` comment up to its line feed), and again
   * whether the function then calls itself.
   */
  datatype Round = Round(pos: nat, next: View, again: bool)

  function SpaceRound(view: View, spaces: View, skipComment: bool): (s: Round)
    ensures IsSuffix(s.next, view) && s.pos <= |view| - |s.next|
    ensures forall i :: 0 <= i < s.pos ==> view[i] in spaces
    ensures s.again ==> |s.next| < |view|
    ensures !s.again ==> s.next == [] || s.pos == |view| - |s.next|
    ensures s.pos == |view| - |s.next| ==>
              s.next == [] || (s.next[0] !in spaces && (skipComment ==> s.next[0] != '#'))
    ensures s.pos < |view| - |s.next| ==>
              skipComment && view[s.pos] == '#' && (s.next == [] || s.next[0] == '\n') &&
              forall i :: s.pos < i < |view| - |s.next| ==> view[i] != '\n'
  {
    FindFirstNotOfIsLeast(view, spaces, 0);
    var pos := FindFirstNotOfResult(view, spaces, 0);
    var v: View := if pos == NPOS then [] else view[pos..];
    var again := pos != NPOS && pos > 0;
    var p := if pos == NPOS then |view| else pos;
    if skipComment && StartsWith(v, "#") then
      var rest := DropComment(v);
      SuffixTrans(rest, v, view);
      assert forall i :: p < i < |view| - |rest| ==> view[i] == v[i - p];
      Round(p, rest, if rest == [] then again else true)
    else Round(p, v, again)
  }

  /**
   * What `skip_space(view, spaces, skip_comment)` leaves: rounds until
   * one drops nothing.  It starts neither with a character of spaces
   * nor, with skip_comment, with `#`.
   */
  function AfterSpace(view: View, spaces: View, skipComment: bool): (r: View)
    ensures IsSuffix(r, view)
    ensures r == [] || r[0] !in spaces
    ensures skipComment ==> r == [] || r[0] != '#'
    decreases |view|
  {
    var s := SpaceRound(view, spaces, skipComment);
    if s.again then
      var r := AfterSpace(s.next, spaces, skipComment);
      SuffixTrans(r, s.next, view);
      r
    else s.next
  }

  /** `skip_space`: the recursion on the advanced view. */
  method SkipSpace(view: View, spaces: View, skipComment: bool) returns (r: View)
    ensures r == AfterSpace(view, spaces, skipComment)
    decreases |view|
  {
    var again := false;
    var v := view;
    var pos := FindFirstNotOf(view, spaces, 0);
    FindFirstNotOfIsLeast(view, spaces, 0);
    if pos == NPOS {
      v := [];
    } else if pos > 0 {
      v := view[pos..];
      again := true;
    }
    if skipComment && StartsWith(v, "#") {
      var lf := Find(v, "\n", 0);
      DetailString.FindCharIsLeast(v, '\n', 0);
      ghost var cut := DropComment(v);
      if lf == NPOS {
        v := [];
      } else {
        v := v[lf..];
        again := true;
      }
      assert v == cut;
    }
    assert SpaceRound(view, spaces, skipComment).next == v && SpaceRound(view, spaces, skipComment).again == again;
    if again {
      r := SkipSpace(v, spaces, skipComment);
    } else {
      r := v;
    }
  }

  /** The part one round and the rounds after it drop, as one prefix. */
  lemma DroppedSplit(view: seq<char>, next: seq<char>, r: seq<char>, pos: nat)
    requires IsSuffix(next, view) && IsSuffix(r, next) && pos <= |view| - |next|
    ensures view[..|view| - |r|] == view[..pos] + view[pos .. |view| - |next|] + next[..|next| - |r|]
  {
  }

  /**
   * Without comments, skip_space drops exactly the leading run of
   * characters of spaces.
   */
  lemma {:induction false} AfterSpaceNoComment(view: View, spaces: View)
    ensures var r := AfterSpace(view, spaces, false);
      forall i :: 0 <= i < |view| - |r| ==> view[i] in spaces
    decreases |view|
  {
    var s := SpaceRound(view, spaces, false);
    if s.again {
      AfterSpaceNoComment(s.next, spaces);
      var r := AfterSpace(s.next, spaces, false);
      DroppedSplit(view, s.next, r, s.pos);
    }
  }

  /**
   * s is blank text: characters of spaces and `#` comments, a comment
   * running up to a line feed or to the end.
   */
  predicate Blank(s: seq<char>, spaces: seq<char>)
    decreases |s|, 0
  {
    s == [] ||
    (s[0] in spaces && Blank(s[1..], spaces)) ||
    (s[0] == '#' && InComment(s[1..], spaces))
  }

  /** s is the rest of a comment followed by blank text. */
  predicate InComment(s: seq<char>, spaces: seq<char>)
    decreases |s|, 1
  {
    s == [] ||
    (s[0] != '\n' && InComment(s[1..], spaces)) ||
    (s[0] == '\n' && Blank(s, spaces))
  }

  /** Text up to the next line feed stays inside the comment. */
  lemma {:induction false} InCommentSkip(s: seq<char>, spaces: seq<char>, j: nat)
    requires j <= |s| && InComment(s, spaces)
    requires forall i :: 0 <= i < j ==> s[i] != '\n'
    ensures InComment(s[j..], spaces)
    decreases j
  {
    if j > 0 {
      InCommentSkip(s[1..], spaces, j - 1);
      assert s[1..][j - 1..] == s[j..];
    }
  }

  /** A run of characters of spaces in front of blank text in spaces. */
  lemma {:induction false} SpacesThenBlank(a: seq<char>, b: seq<char>, spaces: seq<char>)
    requires forall i :: 0 <= i < |a| ==> a[i] in spaces
    requires Blank(b, spaces)
    ensures Blank(a + b, spaces)
    decreases |a|
  {
    if a != [] {
      SpacesThenBlank(a[1..], b, spaces);
      assert (a + b)[0] == a[0] && (a + b)[1..] == a[1..] + b;
    } else {
      assert a + b == b;
    }
  }

  /** Spaces, then a comment without its line feed, then blank text that is empty or starts with one. */
  lemma BlankJoin(sp: seq<char>, c: seq<char>, d: seq<char>, spaces: seq<char>)
    requires forall i :: 0 <= i < |sp| ==> sp[i] in spaces
    requires c != [] && c[0] == '#' && forall i :: 1 <= i < |c| ==> c[i] != '\n'
    requires Blank(d, spaces) && (d == [] || d[0] == '\n')
    ensures Blank(sp + c + d, spaces)
  {
    CommentThenBlank(c[1..], d, spaces);
    assert (c + d)[0] == '#' && (c + d)[1..] == c[1..] + d;
    SpacesThenBlank(sp, c + d, spaces);
    assert sp + c + d == sp + (c + d);
  }

  /** A comment without a line feed in front of blank text that is empty or starts one. */
  lemma {:induction false} CommentThenBlank(c: seq<char>, b: seq<char>, spaces: seq<char>)
    requires forall i :: 0 <= i < |c| ==> c[i] != '\n'
    requires Blank(b, spaces) && (b == [] || b[0] == '\n')
    ensures InComment(c + b, spaces)
    decreases |c|
  {
    if c != [] {
      CommentThenBlank(c[1..], b, spaces);
      assert (c + b)[1..] == c[1..] + b;
    } else {
      assert c + b == b;
    }
  }

  /** Blank text less a leading character of spaces, when `#` is not one of them. */
  lemma BlankTail(s: seq<char>, spaces: seq<char>)
    requires s != [] && Blank(s, spaces) && s[0] in spaces && '#' !in spaces
    ensures Blank(s[1..], spaces)
  {
  }

  /** Blank text less a leading run of characters of spaces. */
  lemma {:induction false} BlankAfterSpaces(s: seq<char>, spaces: seq<char>, pos: nat)
    requires pos <= |s| && Blank(s, spaces) && '#' !in spaces
    requires forall i :: 0 <= i < pos ==> s[i] in spaces
    ensures Blank(s[pos..], spaces)
    decreases pos
  {
    if pos > 0 {
      BlankTail(s, spaces);
      BlankAfterSpaces(s[1..], spaces, pos - 1);
      assert s[1..][pos - 1..] == s[pos..];
    }
  }

  /** What one round drops, followed by blank text dropped by the rounds after it. */
  lemma RoundThenBlank(view: seq<char>, pos: nat, k: nat, next: seq<char>, d: seq<char>, spaces: seq<char>)
    requires pos <= k <= |view| && next == view[k..]
    requires forall i :: 0 <= i < pos ==> view[i] in spaces
    requires pos < k ==> view[pos] == '#' && (next == [] || next[0] == '\n') &&
                         forall i :: pos < i < k ==> view[i] != '\n'
    requires Blank(d, spaces) && (d == [] || (next != [] && d[0] == next[0]))
    ensures Blank(view[..pos] + view[pos..k] + d, spaces)
  {
    if pos == k {
      SpacesThenBlank(view[..pos], d, spaces);
      assert view[..pos] + view[pos..k] + d == view[..pos] + d;
    } else {
      BlankJoin(view[..pos], view[pos..k], d, spaces);
    }
  }

  /** What one round of skip_space with skip_comment leaves behind, as facts about its pieces. */
  predicate RoundShape(view: seq<char>, spaces: seq<char>, s: Round)
  {
    var k := |view| - |s.next|;
    IsSuffix(s.next, view) && s.pos <= k &&
    (forall i :: 0 <= i < s.pos ==> view[i] in spaces) &&
    (s.pos < k ==> view[s.pos] == '#' && (s.next == [] || s.next[0] == '\n') &&
                   forall i :: s.pos < i < k ==> view[i] != '\n') &&
    (!s.again ==> s.next == [] || s.pos == k)
  }

  lemma SpaceRoundShape(view: View, spaces: View)
    ensures RoundShape(view, spaces, SpaceRound(view, spaces, true))
  {
  }

  /** When skip_space with skip_comment consumes everything, the view was blank text. */
  lemma {:induction false} EmptyMeansBlank(view: View, spaces: View)
    requires AfterSpace(view, spaces, true) == []
    ensures Blank(view, spaces)
    decreases |view|
  {
    var s := SpaceRound(view, spaces, true);
    SpaceRoundShape(view, spaces);
    if s.again {
      EmptyMeansBlank(s.next, spaces);
    }
    RoundIsBlank(view, spaces, s);
  }

  /** One round in front of blank text is blank text. */
  lemma RoundIsBlank(view: View, spaces: View, s: Round)
    requires RoundShape(view, spaces, s) && Blank(s.next, spaces)
    ensures Blank(view, spaces)
  {
    var k := |view| - |s.next|;
    assert s.next == view[k..];
    RoundThenBlank(view, s.pos, k, s.next, s.next, spaces);
    assert view[..s.pos] + view[s.pos..k] + s.next == view;
  }

  /**
   * When `#` is not a space and line feed is, skip_space with comments
   * consumes blank text entirely.
   */
  lemma {:induction false} BlankSkipsAll(view: View, spaces: View)
    requires '\n' in spaces && '#' !in spaces
    requires Blank(view, spaces)
    ensures AfterSpace(view, spaces, true) == []
    decreases |view|
  {
    var s := SpaceRound(view, spaces, true);
    var k := |view| - |s.next|;
    BlankAfterSpaces(view, spaces, s.pos);
    if s.pos == k {
      assert s.next == view[s.pos..];
    } else {
      var c := view[s.pos..];
      assert c[0] == '#' && InComment(c[1..], spaces);
      InCommentSkip(c[1..], spaces, k - s.pos - 1);
      assert c[1..][k - s.pos - 1..] == s.next;
      if s.next != [] {
        BlankSkipsAll(s.next, spaces);
      }
    }
  }

  /**
   * With comments, and spaces holding line feed but not `#`, skip_space
   * leaves nothing exactly when the input is blank text.
   */
  lemma AfterSpaceEmptyIffBlank(view: View, spaces: View)
    requires '\n' in spaces && '#' !in spaces
    ensures AfterSpace(view, spaces, true) == [] <==> Blank(view, spaces)
  {
    if Blank(view, spaces) {
      BlankSkipsAll(view, spaces);
    }
    if AfterSpace(view, spaces, true) == [] {
      EmptyMeansBlank(view, spaces);
    }
  }

  // ---------------------------------------------------------------------
  // wait_newline
  // ---------------------------------------------------------------------

  /**
   * What `wait_newline(view)` returns and leaves: after spaces, tabs and
   * CRs, true at the end, after a consumed line feed, or after a dropped
   * comment; false otherwise.
   */
  function NewlineWait(view: View): (r: Parsed<bool>)
    ensures IsSuffix(r.rest, view)
  {
    var v := AfterSpace(view, " \t\r", false);
    if v == [] then Parsed(true, v)
    else if StartsWith(v, "\n") then
      assert |v| < NPOS;
      var w: View := v[1..];
      SuffixTrans(w, v, view);
      Parsed(true, w)
    else if StartsWith(v, "#") then
      var w := DropComment(v);
      SuffixTrans(w, v, view);
      Parsed(true, w)
    else Parsed(false, v)
  }

  /** `wait_newline`. */
  method WaitNewline(view: View) returns (ok: bool, rest: View)
    ensures Parsed(ok, rest) == NewlineWait(view)
  {
    rest := SkipSpace(view, " \t\r", false);
    if rest == [] {
      return true, rest;
    } else if StartsWith(rest, "\n") {
      return true, rest[1..];
    } else if StartsWith(rest, "#") {
      var lf := Find(rest, "\n", 0);
      DetailString.FindCharIsLeast(rest, '\n', 0);
      ghost var cut := DropComment(rest);
      if lf == NPOS {
        rest := [];
      } else {
        rest := rest[lf..];
      }
      assert rest == cut;
      return true, rest;
    } else {
      return false, rest;
    }
  }

  /** What wait_newline skips first (v is the view after it) is spaces, tabs and CRs only. */
  lemma WaitNewlineMeaning(view: View, v: View)
    requires v == AfterSpace(view, " \t\r", false)
    ensures forall i :: 0 <= i < |view| - |v| ==> view[i] in " \t\r"
  {
    AfterSpaceNoComment(view, " \t\r");
  }

  /** wait_newline is true exactly at the end, at a line feed or at a comment. */
  lemma WaitNewlineValue(view: View, v: View)
    requires v == AfterSpace(view, " \t\r", false)
    ensures NewlineWait(view).value <==> v == [] || v[0] == '\n' || v[0] == '#'
  {
    OneCharPrefix(v, '\n');
    OneCharPrefix(v, '#');
  }

  /** When false, wait_newline consumed only the blanks in front. */
  lemma WaitNewlineFalse(view: View, v: View)
    requires v == AfterSpace(view, " \t\r", false)
    ensures !NewlineWait(view).value ==> NewlineWait(view).rest == v
  {
  }

  /** What a true wait_newline leaves: nothing at the end, the rest after a line feed. */
  lemma WaitNewlineRest(view: View, v: View)
    requires v == AfterSpace(view, " \t\r", false)
    ensures v == [] ==> NewlineWait(view).rest == []
    ensures v != [] && v[0] == '\n' ==> NewlineWait(view).rest == v[1..]
  {
    OneCharPrefix(v, '\n');
  }

  /**
   * At a comment, wait_newline drops it up to its line feed, which
   * stays, or to the end when none follows (`DropComment`).
   */
  lemma WaitNewlineComment(view: View, v: View)
    requires v == AfterSpace(view, " \t\r", false) && v != [] && v[0] == '#'
    ensures NewlineWait(view).value && NewlineWait(view).rest == DropComment(v)
  {
    assert StartsWith(v, "#") by { assert v[..1] == ['#']; }
  }

  // ---------------------------------------------------------------------
  // parse_item and parse_array
  // ---------------------------------------------------------------------

  /** The words `parse_item` tries first, in this order, and the item each one stands for. */
  const FIXED: seq<(View, Item)> := [
    ("true", Boolean(true)), ("false", Boolean(false)),
    ("inf", Float(PosInf)), ("+inf", Float(PosInf)), ("-inf", Float(NegInf)),
    ("nan", Float(NaN(false))), ("+nan", Float(NaN(false))), ("-nan", Float(NaN(true)))]

  /** The prefixes that start a radix integer. */
  const RADIX_PREFIXES: seq<View> := ["0x", "0o", "0b"]

  /** What `parse_array` skips between its tokens. */
  const ARRAY_SPACES: View := " \t\r\n"

  /** The first word from index i on that the view starts with, or |FIXED| when there is none. */
  function FirstFixed(view: View, i: nat): (r: nat)
    requires i <= |FIXED|
    ensures i <= r <= |FIXED|
    ensures r < |FIXED| ==> IsPrefix(FIXED[r].0, view)
    ensures forall j :: i <= j < r ==> !IsPrefix(FIXED[j].0, view)
    decreases |FIXED| - i
  {
    if i == |FIXED| then i
    else if StartsWith(view, FIXED[i].0) then i
    else FirstFixed(view, i + 1)
  }

  /** `view.remove_prefix(length)`. */
  function After(view: View, length: nat): (rest: View)
    requires length <= |view|
    ensures rest == view[length..] && IsSuffix(rest, view)
  {
    assert |view| < NPOS;
    view[length..]
  }

  /** An item taken from the first `length` characters, and the view after them. */
  function Taken(view: View, length: nat, item: Item): (r: Parsed<Item>)
    requires 1 <= length <= |view|
    ensures IsSuffix(r.rest, view) && |r.rest| < |view|
    ensures r.value == item && r.rest == view[length..]
  {
    Parsed(item, After(view, length))
  }

  /** The radix branch of `parse_item`: `get_radix_length`, then `parse_radix_value`. */
  function RadixItem(view: View): (r: Result<Parsed<Item>>)
    requires StartsWithAny(view, RADIX_PREFIXES)
    ensures r.Ok? ==> IsSuffix(r.value.rest, view) && |r.value.rest| < |view|
  {
    assert |view| >= 2 by {
      var i :| 0 <= i < |RADIX_PREFIXES| && IsPrefix(RADIX_PREFIXES[i], view);
    }
    var length := DetailNumber.GetRadixLength(view);
    match DetailNumber.RadixValue(view, length)
    case Err(e) => Err(e)
    case Ok(i) => Ok(Taken(view, length, Integer(i)))
  }

  /** The `'''` branch of `parse_item`. */
  function MultiLiteralItem(view: View): (r: Result<Parsed<Item>>)
    ensures r.Ok? ==> IsSuffix(r.value.rest, view) && |r.value.rest| < |view|
  {
    match DetailString.GetMultiLiteralStringLength(view)
    case Err(e) => Err(e)
    case Ok(length) => Ok(Taken(view, length, String(DetailString.ParseMultiLiteralString(view, length))))
  }

  /** The `'` branch of `parse_item`. */
  function LiteralItem(view: View): (r: Result<Parsed<Item>>)
    ensures r.Ok? ==> IsSuffix(r.value.rest, view) && |r.value.rest| < |view|
  {
    match DetailString.GetLiteralStringLength(view)
    case Err(e) => Err(e)
    case Ok(length) => Ok(Taken(view, length, String(DetailString.ParseLiteralString(view, length))))
  }

  /** The `"""` branch of `parse_item`. */
  function MultiStringItem(view: View): (r: Result<Parsed<Item>>)
    ensures r.Ok? ==> IsSuffix(r.value.rest, view) && |r.value.rest| < |view|
  {
    DetailString.MultiStringLengthShape(view);
    match DetailString.MultiStringLength(view)
    case Err(e) => Err(e)
    case Ok(length) =>
      match DetailString.MultiStringValue(view, length)
      case Err(e) => Err(e)
      case Ok(str) => Ok(Taken(view, length, String(str)))
  }

  /** The `"` branch of `parse_item`. */
  function BasicStringItem(view: View): (r: Result<Parsed<Item>>)
    ensures r.Ok? ==> IsSuffix(r.value.rest, view) && |r.value.rest| < |view|
  {
    DetailString.StringLengthShape(view);
    match DetailString.StringLength(view)
    case Err(e) => Err(e)
    case Ok(length) =>
      match DetailString.StringValue(view, length, UnicodeEscape.Current)
      case Err(e) => Err(e)
      case Ok(str) => Ok(Taken(view, length, String(str)))
  }

  /**
   * What `parse_item(view)` returns and leaves: a fixed word, a radix
   * integer, one of the four string forms or an array, tried in that
   * order; anything else is "not hit item".  A parsed item always
   * consumes something.
   */
  function ItemValue(view: View): (r: Result<Parsed<Item>>)
    ensures r.Ok? ==> IsSuffix(r.value.rest, view) && |r.value.rest| < |view|
    decreases |view|, 1
  {
    var f := FirstFixed(view, 0);
    if f < |FIXED| then Ok(Taken(view, |FIXED[f].0|, FIXED[f].1))
    else if StartsWithAny(view, RADIX_PREFIXES) then RadixItem(view)
    else if StartsWith(view, "\'\'\'") then MultiLiteralItem(view)
    else if StartsWith(view, "\'") then LiteralItem(view)
    else if StartsWith(view, "\"\"\"") then MultiStringItem(view)
    else if StartsWith(view, "\"") then BasicStringItem(view)
    else if StartsWith(view, "[") then
      assert |view| < NPOS;
      var inner: View := view[1..];
      var r := ArrayLoop(inner, [], true);
      if r.Ok? then SuffixTrans(r.value.rest, inner, view); r else r
    else Err(ParseError("not hit item"))
  }

  /**
   * One pass of the `parse_array` loop from the state (view, items,
   * status), waitItem being `wait_item` and false `wait_comma`: the
   * array closes, an error is thrown, or the loop goes on from a new
   * state over a shorter view.
   */
  datatype ArrayStep = Close(r: Result<Parsed<Item>>) | Next(v: View, items: seq<Item>, waitItem: bool)

  function ArrayPass(view: View, items: seq<Item>, waitItem: bool): (s: ArrayStep)
    ensures s.Close? && s.r.Ok? ==>
              IsSuffix(s.r.value.rest, view) && |s.r.value.rest| < |view| &&
              s.r.value.value == Array(items)
    ensures s.Next? ==> IsSuffix(s.v, view) && |s.v| < |view|
    decreases |view|, 4
  {
    var v := AfterSpace(view, ARRAY_SPACES, false);
    var s := PassAt(v, items, waitItem);
    StepSuffix(s, v, view, items);
    s
  }

  /** The pass after skip_space, at the first character that is not a space. */
  function PassAt(v: View, items: seq<Item>, waitItem: bool): (s: ArrayStep)
    ensures StepWithin(s, v, items)
    decreases |v|, 3
  {
    if v == [] then Close(Err(ParseError("missing \"]\" in array")))
    else if StartsWith(v, "]") then Close(Ok(Taken(v, 1, Array(items))))
    else if waitItem then ItemPass(v, items)
    else
      match CommaNext(v)
      case Err(e) => Close(Err(e))
      case Ok(w) => Next(w, items, true)
  }

  /** A pass closes on the array of the items so far or goes on over a shorter suffix. */
  predicate StepWithin(s: ArrayStep, v: View, items: seq<Item>)
  {
    (s.Close? && s.r.Ok? ==>
       IsSuffix(s.r.value.rest, v) && |s.r.value.rest| < |v| && s.r.value.value == Array(items)) &&
    (s.Next? ==> IsSuffix(s.v, v) && |s.v| < |v|)
  }

  lemma StepSuffix(s: ArrayStep, v: View, view: View, items: seq<Item>)
    requires IsSuffix(v, view) && StepWithin(s, v, items)
    ensures StepWithin(s, view, items)
  {
    if s.Close? && s.r.Ok? {
      SuffixTrans(s.r.value.rest, v, view);
    }
    if s.Next? {
      SuffixTrans(s.v, v, view);
    }
  }

  /** `wait_item`: `push_back(parse_item(view))`, then `wait_comma`. */
  function ItemPass(v: View, items: seq<Item>): (s: ArrayStep)
    ensures s.Close? ==> s.r.Err?
    ensures s.Next? ==> IsSuffix(s.v, v) && |s.v| < |v|
    decreases |v|, 2
  {
    match ItemValue(v)
    case Err(e) => Close(Err(e))
    case Ok(p) => Next(p.rest, items + [p.value], false)
  }

  /** The `parse_array` loop run to its end from the state (view, items, waitItem). */
  function ArrayLoop(view: View, items: seq<Item>, waitItem: bool): (r: Result<Parsed<Item>>)
    ensures r.Ok? ==> IsSuffix(r.value.rest, view) && |r.value.rest| < |view|
    ensures r.Ok? ==> r.value.value.Array?
    decreases |view|, 5
  {
    match ArrayPass(view, items, waitItem)
    case Close(r) => r
    case Next(v, its, w) =>
      var r := ArrayLoop(v, its, w);
      if r.Ok? then SuffixTrans(r.value.rest, v, view); r else r
  }

  /** The view after the comma `wait_comma` expects, or "missing". */
  function CommaNext(v: View): (r: Result<View>)
    ensures r.Ok? ==> IsSuffix(r.value, v) && |r.value| < |v|
  {
    var w := AfterSpace(v, ARRAY_SPACES, false);
    if w == [] then Err(ParseError("missing \",\" in array"))
    else if StartsWith(w, ",") then
      var c := After(w, 1);
      SuffixTrans(c, w, v);
      Ok(c)
    else Err(ParseError("missing \",\" in array"))
  }

  /** The `for` over `fixed_values`: the index of the first word the view starts with. */
  method MatchFixed(view: View) returns (f: nat)
    ensures f == FirstFixed(view, 0)
  {
    f := 0;
    while f < |FIXED|
      invariant f <= |FIXED|
      invariant FirstFixed(view, f) == FirstFixed(view, 0)
      decreases |FIXED| - f
    {
      if StartsWith(view, FIXED[f].0) {
        return;
      }
      f := f + 1;
    }
  }

  /** `parse_item`. */
  method ParseItem(view: View) returns (r: Result<Parsed<Item>>)
    ensures r == ItemValue(view)
    decreases |view|, 1
  {
    var f := MatchFixed(view);
    if f < |FIXED| {
      return Ok(Taken(view, |FIXED[f].0|, FIXED[f].1));
    }
    var radix := ViewTInline.StartsWithList(view, RADIX_PREFIXES);
    if radix {
      assert StartsWithAny(view, RADIX_PREFIXES);
      r := ParseRadixItem(view);
    } else if StartsWith(view, "\'\'\'") {
      r := MultiLiteralItem(view);
    } else if StartsWith(view, "\'") {
      r := LiteralItem(view);
    } else if StartsWith(view, "\"\"\"") {
      r := ParseMultiStringItem(view);
    } else if StartsWith(view, "\"") {
      r := ParseBasicStringItem(view);
    } else if StartsWith(view, "[") {
      r := ParseArray(view);
    } else {
      r := Err(ParseError("not hit item"));
    }
  }

  /** The radix branch of `parse_item`. */
  method ParseRadixItem(view: View) returns (r: Result<Parsed<Item>>)
    requires StartsWithAny(view, RADIX_PREFIXES)
    ensures r == RadixItem(view)
  {
    assert |view| >= 2 by {
      var i :| 0 <= i < |RADIX_PREFIXES| && IsPrefix(RADIX_PREFIXES[i], view);
    }
    var length := DetailNumber.GetRadixLength(view);
    var i := DetailNumber.ParseRadixValue(view, length);
    if i.Err? {
      return Err(i.error);
    }
    return Ok(Taken(view, length, Integer(i.value)));
  }

  /** The `"""` branch of `parse_item`. */
  method ParseMultiStringItem(view: View) returns (r: Result<Parsed<Item>>)
    ensures r == MultiStringItem(view)
  {
    var length := DetailString.GetMultiStringLength(view);
    DetailString.MultiStringLengthShape(view);
    if length.Err? {
      return Err(length.error);
    }
    var str := DetailString.ParseMultiString(view, length.value);
    if str.Err? {
      return Err(str.error);
    }
    return Ok(Taken(view, length.value, String(str.value)));
  }

  /** The `"` branch of `parse_item`. */
  method ParseBasicStringItem(view: View) returns (r: Result<Parsed<Item>>)
    ensures r == BasicStringItem(view)
  {
    var length := DetailString.GetStringLength(view);
    DetailString.StringLengthShape(view);
    if length.Err? {
      return Err(length.error);
    }
    var str := DetailString.ParseString(view, length.value);
    if str.Err? {
      return Err(str.error);
    }
    return Ok(Taken(view, length.value, String(str.value)));
  }

  /** `parse_array`, called at the `[`: the status loop. */
  method ParseArray(view: View) returns (r: Result<Parsed<Item>>)
    requires view != []
    ensures r == ArrayLoop(view[1..], [], true)
    decreases |view|, 0
  {
    var items: seq<Item> := [];
    var v := After(view, 1);
    var waitItem := true;
    while true
      invariant |v| < |view|
      invariant ArrayLoop(v, items, waitItem) == ArrayLoop(view[1..], [], true)
      decreases |v|
    {
      var step := ArrayIteration(v, items, waitItem);
      match step
      case Close(res) =>
        return res;
      case Next(v', items', waitItem') =>
        v, items, waitItem := v', items', waitItem';
    }
  }

  /** The body of the `parse_array` loop. */
  method ArrayIteration(v0: View, items: seq<Item>, waitItem: bool) returns (s: ArrayStep)
    ensures s == ArrayPass(v0, items, waitItem)
    decreases |v0|, 3
  {
    var v := SkipSpace(v0, ARRAY_SPACES, false);
    s := IterationAt(v, items, waitItem);
  }

  /** The loop body after skip_space. */
  method IterationAt(v: View, items: seq<Item>, waitItem: bool) returns (s: ArrayStep)
    ensures s == PassAt(v, items, waitItem)
    decreases |v|, 2
  {
    if v == [] {
      return Close(Err(ParseError("missing \"]\" in array")));
    } else if StartsWith(v, "]") {
      return Close(Ok(Taken(v, 1, Array(items))));
    } else if waitItem {
      var item := ParseItem(v);
      if item.Err? {
        return Close(Err(item.error));
      }
      return Next(item.value.rest, items + [item.value.value], false);
    } else {
      var c := CommaStep(v);
      if c.Err? {
        return Close(Err(c.error));
      }
      return Next(c.value, items, true);
    }
  }

  /** `wait_comma`: skip the blanks again, then a `,` or "missing". */
  method CommaStep(v0: View) returns (r: Result<View>)
    ensures r == CommaNext(v0)
  {
    var v := SkipSpace(v0, ARRAY_SPACES, false);
    CommaNextAt(v0, v);
    if v == [] {
      return Err(ParseError("missing \",\" in array"));
    } else if StartsWith(v, ",") {
      return Ok(After(v, 1));
    } else {
      return Err(ParseError("missing \",\" in array"));
    }
  }

  /** The comma test in terms of the first character after the blanks. */
  lemma CommaNextAt(v0: View, v: View)
    requires v == AfterSpace(v0, ARRAY_SPACES, false)
    ensures StartsWith(v, ",") <==> v != [] && v[0] == ','
    ensures CommaNext(v0) == if v != [] && v[0] == ',' then Ok(After(v, 1)) else Err(ParseError("missing \",\" in array"))
  {
    OneCharPrefix(v, ',');
  }

  // ---------------------------------------------------------------------
  // Properties of parse_item and parse_array
  // ---------------------------------------------------------------------

  /** skip_space without comments leaves a view that does not start with a space as it is. */
  lemma AfterSpaceStays(view: View, spaces: View)
    requires view == [] || view[0] !in spaces
    ensures AfterSpace(view, spaces, false) == view
  {
    FindFirstNotOfIsLeast(view, spaces, 0);
  }

  /** Blanks in front of a character that is not one are all skip_space drops. */
  lemma AfterBlanks(view: View, sp: seq<char>, v: View, spaces: View)
    requires view == sp + v && v != [] && v[0] !in spaces
    requires forall i :: 0 <= i < |sp| ==> sp[i] in spaces
    ensures AfterSpace(view, spaces, false) == v
  {
    var r := AfterSpace(view, spaces, false);
    AfterSpaceNoComment(view, spaces);
    assert v == view[|sp|..];
  }

  /** A comment is dropped up to the first line feed, which stays. */
  lemma DropCommentAt(v: View, c: seq<char>, rest: View)
    requires v == c + rest && rest != [] && rest[0] == '\n'
    requires forall i :: 0 <= i < |c| ==> c[i] != '\n'
    ensures DropComment(v) == rest
  {
    var r := DropComment(v);
    var k := |v| - |r|;
    assert v[|c|] == '\n';
    if r != [] {
      assert v[k] == r[0];
    }
    assert r == v[k..] && rest == v[|c|..];
  }

  /** skip_space with comments leaves a view that starts with neither a space nor `#` as it is. */
  lemma AfterSpaceStaysComment(view: View, spaces: View)
    requires view == [] || (view[0] !in spaces && view[0] != '#')
    ensures AfterSpace(view, spaces, true) == view
  {
    FindFirstNotOfIsLeast(view, spaces, 0);
    if view != [] {
      NotPrefixAt("#", view, 0);
    }
  }

  /** The same as AfterBlanks with comments, for text that does not start with `#`. */
  lemma AfterBlanksComment(view: View, sp: seq<char>, v: View, spaces: View)
    requires view == sp + v && v != [] && v[0] !in spaces && v[0] != '#'
    requires forall i :: 0 <= i < |sp| ==> sp[i] in spaces
    ensures AfterSpace(view, spaces, true) == v
  {
    FindFirstNotOfIsLeast(view, spaces, 0);
    assert view[|sp|] == v[0];
    assert view[|sp|..] == v;
    NotPrefixAt("#", v, 0);
    AfterSpaceStaysComment(v, spaces);
  }

  /** A word whose k-th character the view lacks or does not have is not a prefix of it. */
  lemma NotPrefixAt(x: seq<char>, view: seq<char>, k: nat)
    requires k < |x| && (k >= |view| || view[k] != x[k])
    ensures !IsPrefix(x, view)
  {
  }

  /** No two fixed words agree in both of their first two characters. */
  lemma FixedWordsDiffer(i: nat, j: nat)
    requires j < i < |FIXED|
    ensures FIXED[j].0[0] != FIXED[i].0[0] || FIXED[j].0[1] != FIXED[i].0[1]
  {
  }

  /** The characters a fixed word starts with. */
  predicate FixedStart(c: char)
  {
    c == 't' || c == 'f' || c == 'i' || c == 'n' || c == '+' || c == '-'
  }

  /** The characters some branch of `parse_item` starts with. */
  predicate ItemStart(c: char)
  {
    FixedStart(c) || c == '0' || c == '\'' || c == '"' || c == '['
  }

  /** FirstFixed stops at the first match at or after `from`. */
  lemma {:induction false} FirstFixedIs(view: View, from: nat, i: nat)
    requires from <= i < |FIXED| && IsPrefix(FIXED[i].0, view)
    requires forall j :: from <= j < i ==> !IsPrefix(FIXED[j].0, view)
    ensures FirstFixed(view, from) == i
    decreases i - from
  {
    if from < i {
      FirstFixedIs(view, from + 1, i);
    }
  }

  /** FirstFixed finds nothing when no word from `from` on matches. */
  lemma {:induction false} FirstFixedNone(view: View, from: nat)
    requires from <= |FIXED|
    requires forall j :: from <= j < |FIXED| ==> !IsPrefix(FIXED[j].0, view)
    ensures FirstFixed(view, from) == |FIXED|
    decreases |FIXED| - from
  {
    if from < |FIXED| {
      FirstFixedNone(view, from + 1);
    }
  }

  /** No fixed word matches a view that does not start with one of their first characters. */
  lemma NoFixedWord(view: View)
    requires view == [] || !FixedStart(view[0])
    ensures FirstFixed(view, 0) == |FIXED|
  {
    forall j | 0 <= j < |FIXED|
      ensures !IsPrefix(FIXED[j].0, view)
    {
      assert FixedStart(FIXED[j].0[0]);
      NotPrefixAt(FIXED[j].0, view, 0);
    }
    FirstFixedNone(view, 0);
  }

  /** No radix prefix matches a view that does not start with `0`. */
  lemma NoRadix(view: View)
    requires view == [] || view[0] != '0'
    ensures !StartsWithAny(view, RADIX_PREFIXES)
  {
    forall k | 0 <= k < |RADIX_PREFIXES|
      ensures !IsPrefix(RADIX_PREFIXES[k], view)
    {
      NotPrefixAt(RADIX_PREFIXES[k], view, 0);
    }
  }

  /** Each fixed word, whatever follows it, is parsed as its item and consumes exactly the word. */
  lemma FixedWordItem(i: nat, view: View, rest: seq<char>)
    requires i < |FIXED| && view == FIXED[i].0 + rest
    ensures ItemValue(view) == Ok(Parsed(FIXED[i].1, rest))
  {
    var w := FIXED[i].0;
    assert IsPrefix(w, view);
    assert view[0] == w[0] && view[1] == w[1];
    forall j | 0 <= j < i
      ensures !IsPrefix(FIXED[j].0, view)
    {
      FixedWordsDiffer(i, j);
      if FIXED[j].0[0] != w[0] {
        NotPrefixAt(FIXED[j].0, view, 0);
      } else {
        NotPrefixAt(FIXED[j].0, view, 1);
      }
    }
    FirstFixedIs(view, 0, i);
    assert view[|w|..] == rest;
  }

  /** A view that starts with no character of ItemStart is "not hit item". */
  lemma ItemNotHit(view: View)
    requires view == [] || !ItemStart(view[0])
    ensures ItemValue(view) == Err(ParseError("not hit item"))
  {
    NoFixedWord(view);
    NoRadix(view);
    NotPrefixAt("\'", view, 0);
    NotPrefixAt("\'\'\'", view, 0);
    NotPrefixAt("\"", view, 0);
    NotPrefixAt("\"\"\"", view, 0);
    NotPrefixAt("[", view, 0);
  }

  /** The capitalised word "True" is not an item (unittest/test_functions.cpp). */
  lemma CapitalTrueNotHit(view: View)
    requires view == "True"
    ensures ItemValue(view) == Err(ParseError("not hit item"))
  {
    ItemNotHit(view);
  }

  /** The fixed-word, radix and `'` tests all fail on a view that starts with a `"`. */
  lemma NoEarlierBranchAtQuote(view: View)
    requires view != [] && view[0] == '"'
    ensures FirstFixed(view, 0) == |FIXED|
    ensures !StartsWithAny(view, RADIX_PREFIXES) && !StartsWith(view, "\'\'\'") && !StartsWith(view, "\'")
  {
    NoFixedWord(view);
    NoRadix(view);
    NotPrefixAt("\'", view, 0);
    NotPrefixAt("\'\'\'", view, 0);
  }

  /**
   * A basic string written by escaping s is parsed back to s, leaving
   * what follows it, unless an empty string is followed by a quote
   * (`""` then `"` reads as a multi-line delimiter).
   */
  lemma BasicStringItemRoundTrip(view: View, s: seq<char>, rest: seq<char>)
    requires view == "\"" + DetailStringProperties.Escape(s) + "\"" + rest
    requires s != [] || rest == [] || rest[0] != '"'
    ensures ItemValue(view) == Ok(Parsed(String(s), rest))
  {
    EscapedNotTriple(view, s, rest);
    ItemAtQuote(view);
    BasicStringReads(view, s, rest);
  }

  /** An escaped string opens with one `"` but not three, unless it is empty and a `"` follows. */
  lemma EscapedNotTriple(view: View, s: seq<char>, rest: seq<char>)
    requires view == "\"" + DetailStringProperties.Escape(s) + "\"" + rest
    requires s != [] || rest == [] || rest[0] != '"'
    ensures view != [] && view[0] == '"' && !StartsWith(view, "\"\"\"")
  {
    var e := DetailStringProperties.Escape(s);
    assert view[0] == '"';
    if s != [] {
      assert e[0] == DetailStringProperties.EscapeChar(s[0])[0];
      assert view[1] == e[0];
      NotPrefixAt("\"\"\"", view, 1);
    } else {
      assert view == "\"\"" + rest;
      NotPrefixAt("\"\"\"", view, 2);
    }
  }

  /** The basic-string branch of parse_item reads an escaped string back. */
  lemma BasicStringReads(view: View, s: seq<char>, rest: seq<char>)
    requires view == "\"" + DetailStringProperties.Escape(s) + "\"" + rest
    ensures BasicStringItem(view) == Ok(Parsed(String(s), rest))
  {
    var e := DetailStringProperties.Escape(s);
    DetailStringProperties.StringRoundTrip(view, s, rest, UnicodeEscape.Current);
    assert view[|e| + 2..] == rest;
  }

  /** A multi-line basic string written by escaping s is parsed back to s when no quote follows it. */
  lemma MultiStringItemRoundTrip(view: View, s: seq<char>, rest: seq<char>)
    requires view == DetailString.Q3 + DetailStringProperties.Escape(s) + DetailString.Q3 + rest
    requires rest == [] || rest[0] != '"'
    ensures ItemValue(view) == Ok(Parsed(String(s), rest))
  {
    var e := DetailStringProperties.Escape(s);
    assert view[0] == '"';
    assert StartsWith(view, "\"\"\"") by { assert view[..3] == "\"\"\""; }
    ItemAtQuote(view);
    DetailStringProperties.MultiStringRoundTrip(view, s, rest);
    assert view[|e| + 6..] == rest;
  }

  /** At a `"`, parse_item reads a multi-line string when three quotes open it and a basic string otherwise. */
  lemma ItemAtQuote(view: View)
    requires view != [] && view[0] == '"'
    ensures StartsWith(view, "\"\"\"") ==> ItemValue(view) == MultiStringItem(view)
    ensures !StartsWith(view, "\"\"\"") ==> ItemValue(view) == BasicStringItem(view)
  {
    OneCharPrefix(view, '"');
    NoEarlierBranchAtQuote(view);
  }

  /**
   * A literal string with no `'` and no line break is parsed back to
   * itself, unless an empty one is followed by a `'`.
   */
  lemma LiteralItemRoundTrip(view: View, s: seq<char>, rest: seq<char>)
    requires view == "\'" + s + "\'" + rest
    requires forall i :: 0 <= i < |s| ==> s[i] != '\'' && s[i] != '\r' && s[i] != '\n'
    requires s != [] || rest == [] || rest[0] != '\''
    ensures ItemValue(view) == Ok(Parsed(String(s), rest))
  {
    NoFixedWord(view);
    NoRadix(view);
    if s != [] {
      NotPrefixAt("\'\'\'", view, 1);
    } else {
      assert view == "\'\'" + rest;
      NotPrefixAt("\'\'\'", view, 2);
    }
    assert StartsWith(view, "\'") by { assert view[..1] == "\'"; }
    DetailStringProperties.LiteralRoundTrip(view, s, rest);
    assert view[|s| + 2..] == rest;
  }

  /** "0xF_f" is the integer 255 and nothing is left (unittest/test_functions.cpp). */
  lemma RadixItemExample(view: View)
    requires view == "0xF_f"
    ensures ItemValue(view) == Ok(Parsed(Integer(255), []))
  {
    NoFixedWord(view);
    assert IsPrefix(RADIX_PREFIXES[0], view);
    DetailNumber.RadixExampleHex(view);
  }

  // ---------------------------------------------------------------------
  // Arrays of booleans
  // ---------------------------------------------------------------------

  /** Booleans written as TOML words, each followed by a comma. */
  function BoolsText(bs: seq<bool>): seq<char>
  {
    if bs == [] then [] else (if bs[0] then "true" else "false") + "," + BoolsText(bs[1..])
  }

  /** The items of a sequence of booleans. */
  function BoolItems(bs: seq<bool>): (items: seq<Item>)
    ensures |items| == |bs| && forall i :: 0 <= i < |bs| ==> items[i] == Boolean(bs[i])
  {
    if bs == [] then [] else [Boolean(bs[0])] + BoolItems(bs[1..])
  }

  /**
   * From `wait_item`, comma-terminated boolean words and a `]` close
   * the array with those booleans appended, leaving what follows.
   */
  lemma {:induction false} BoolsArrayLoop(view: View, bs: seq<bool>, items: seq<Item>, rest: seq<char>)
    requires view == BoolsText(bs) + "]" + rest
    ensures ArrayLoop(view, items, true) == Ok(Parsed(Array(items + BoolItems(bs)), rest))
    decreases |bs|
  {
    if bs == [] {
      CloseBracketPass(view, items, rest);
      LoopCloses(view, items, true);
      assert items + BoolItems(bs) == items;
    } else {
      var tail := BoolsText(bs[1..]) + "]" + rest;
      assert |tail| < |view|;
      var c: View := "," + tail;
      var t: View := tail;
      var items' := items + [Boolean(bs[0])];
      BoolAndComma(view, bs[0], c, t, items);
      BoolsArrayLoop(t, bs[1..], items', rest);
      BoolItemsCons(items, bs);
    }
  }

  /** A boolean word and its comma: the loop goes on at `wait_item` after them, with the boolean pushed. */
  lemma BoolAndComma(view: View, b: bool, c: View, t: View, items: seq<Item>)
    requires view == (if b then "true" else "false") + c && c == "," + t
    ensures ArrayLoop(view, items, true) == ArrayLoop(t, items + [Boolean(b)], true)
  {
    BoolWordPass(view, b, c, items);
    LoopGoesOn(view, items, true);
    CommaPass(c, t, items + [Boolean(b)]);
    LoopGoesOn(c, items + [Boolean(b)], false);
  }

  /** A pass that closes the array ends the loop with what it closed with. */
  lemma LoopCloses(view: View, items: seq<Item>, waitItem: bool)
    ensures ArrayPass(view, items, waitItem).Close? ==>
              ArrayLoop(view, items, waitItem) == ArrayPass(view, items, waitItem).r
  {
  }

  /** A pass that goes on leaves the rest of the loop to the state it goes on from. */
  lemma LoopGoesOn(view: View, items: seq<Item>, waitItem: bool)
    ensures var s := ArrayPass(view, items, waitItem);
            s.Next? ==> ArrayLoop(view, items, waitItem) == ArrayLoop(s.v, s.items, s.waitItem)
  {
  }

  /** Pushing the first boolean, then the others, appends them all. */
  lemma BoolItemsCons(items: seq<Item>, bs: seq<bool>)
    requires bs != []
    ensures items + [Boolean(bs[0])] + BoolItems(bs[1..]) == items + BoolItems(bs)
  {
    assert BoolItems(bs) == [Boolean(bs[0])] + BoolItems(bs[1..]);
  }

  /** At either status, a `]` closes the array with the items so far. */
  lemma CloseBracketPass(view: View, items: seq<Item>, rest: seq<char>)
    requires view == "]" + rest
    ensures ArrayPass(view, items, true) == Close(Ok(Parsed(Array(items), rest)))
  {
    assert view[0] == ']' && view[..1] == "]" && view[1..] == rest;
    AfterSpaceStays(view, ARRAY_SPACES);
    assert ArrayPass(view, items, true) == PassAt(view, items, true);
  }

  /** At `wait_item`, a boolean word is pushed and the loop goes on to `wait_comma`. */
  lemma BoolWordPass(view: View, b: bool, c: View, items: seq<Item>)
    requires view == (if b then "true" else "false") + c
    ensures ArrayPass(view, items, true) == Next(c, items + [Boolean(b)], false)
  {
    var w := if b then "true" else "false";
    var i := if b then 0 else 1;
    assert FIXED[i].0 == w && FIXED[i].1 == Boolean(b);
    assert view[0] == w[0];
    FixedWordItem(i, view, c);
    ItemAtPass(view, items);
  }

  /** At `wait_item`, a view that starts with neither a space nor `]` is an element. */
  lemma ItemAtPass(view: View, items: seq<Item>)
    requires view != [] && view[0] !in ARRAY_SPACES && view[0] != ']'
    ensures ArrayPass(view, items, true) == ItemPass(view, items)
  {
    AfterSpaceStays(view, ARRAY_SPACES);
    NotPrefixAt("]", view, 0);
    assert ArrayPass(view, items, true) == PassAt(view, items, true);
  }

  /** At `wait_comma`, a comma moves on to `wait_item` over the text after it. */
  lemma CommaPass(c: View, t: View, items: seq<Item>)
    requires c == "," + t
    ensures ArrayPass(c, items, false) == Next(t, items, true)
  {
    assert c[0] == ',';
    CommaAt(c, t);
    CommaAtPass(c, items);
  }

  /** At `wait_comma`, a view that starts with neither a space nor `]` goes to the comma test. */
  lemma CommaAtPass(view: View, items: seq<Item>)
    requires view != [] && view[0] !in ARRAY_SPACES && view[0] != ']'
    ensures var c := CommaNext(view);
            ArrayPass(view, items, false) == if c.Ok? then Next(c.value, items, true) else Close(Err(c.error))
  {
    AfterSpaceStays(view, ARRAY_SPACES);
    NotPrefixAt("]", view, 0);
    assert ArrayPass(view, items, false) == PassAt(view, items, false);
  }

  /** A comma right at the front is the one `wait_comma` expects. */
  lemma CommaAt(c: View, t: View)
    requires c == "," + t
    ensures CommaNext(c) == Ok(t)
  {
    assert c[0] == ',' && c[1..] == t;
    OneCharPrefix(c, ',');
    AfterSpaceStays(c, ARRAY_SPACES);
  }

  /** `[`, comma-terminated boolean words and `]` parse as the array of those booleans. */
  lemma BoolsArrayItem(view: View, bs: seq<bool>, rest: seq<char>)
    requires view == "[" + BoolsText(bs) + "]" + rest
    ensures ItemValue(view) == Ok(Parsed(Array(BoolItems(bs)), rest))
  {
    assert view[0] == '[';
    var inner: View := view[1..];
    assert inner == BoolsText(bs) + "]" + rest;
    ItemAtBracket(view);
    BoolsArrayLoop(inner, bs, [], rest);
    assert [] + BoolItems(bs) == BoolItems(bs);
  }

  /** At a `[`, parse_item is the parse_array loop over what follows it. */
  lemma ItemAtBracket(view: View)
    requires view != [] && view[0] == '['
    ensures ItemValue(view) == ArrayLoop(view[1..], [], true)
  {
    OneCharPrefix(view, '[');
    NoFixedWord(view);
    NoRadix(view);
    NotPrefixAt("\'", view, 0);
    NotPrefixAt("\'\'\'", view, 0);
    NotPrefixAt("\"", view, 0);
    NotPrefixAt("\"\"\"", view, 0);
  }

  // ---------------------------------------------------------------------
  // parse_keys
  // ---------------------------------------------------------------------

  /** What `parse_keys` skips around keys and dots. */
  const KEY_SPACES: View := " \t"

  /**
   * One key at `wait_key` (the view already past the blanks): a bare
   * key, a literal string or a basic string; an empty view is "unexpected
   * end of input" and any other character "expected string".
   */
  function KeyToken(v: View): (r: Result<Parsed<string>>)
    ensures r.Ok? ==> IsSuffix(r.value.rest, v) && |r.value.rest| < |v|
    ensures v == [] ==> r == Err(ParseError("unexpected end of input"))
  {
    if v == [] then Err(ParseError("unexpected end of input"))
    else if v[0] in DetailString.BARE_CHARS then
      var length := DetailString.GetBareLength(v);
      Ok(Parsed(DetailString.ParseBareValue(v, length), After(v, length)))
    else if StartsWith(v, "\'") then
      match DetailString.GetLiteralStringLength(v)
      case Err(e) => Err(e)
      case Ok(length) => Ok(Parsed(DetailString.ParseLiteralString(v, length), After(v, length)))
    else if StartsWith(v, "\"") then
      DetailString.StringLengthShape(v);
      match DetailString.StringLength(v)
      case Err(e) => Err(e)
      case Ok(length) =>
        match DetailString.StringValue(v, length, UnicodeEscape.Current)
        case Err(e) => Err(e)
        case Ok(key) => Ok(Parsed(key, After(v, length)))
    else Err(ParseError("expected string"))
  }

  /**
   * The `parse_keys` loop run to its end from `wait_key` (waitDot
   * false) with the keys pushed so far: skip the blanks, read one key,
   * push it and go on at `wait_dot`.
   */
  function WaitKey(view: View, keys: seq<string>): (r: Result<Parsed<seq<string>>>)
    ensures r.Ok? ==> IsSuffix(r.value.rest, view)
    decreases |view|, 1
  {
    var v := AfterSpace(view, KEY_SPACES, false);
    match KeyToken(v)
    case Err(e) => Err(e)
    case Ok(p) =>
      SuffixTrans(p.rest, v, view);
      var r := WaitDot(p.rest, keys + [p.value]);
      if r.Ok? then SuffixTrans(r.value.rest, p.rest, view); r else r
  }

  /**
   * The loop from `wait_dot`: skip the blanks; a dot goes back to
   * `wait_key`, anything else is the `break` and the check after it.
   */
  function WaitDot(view: View, keys: seq<string>): (r: Result<Parsed<seq<string>>>)
    ensures r.Ok? ==> IsSuffix(r.value.rest, view)
    decreases |view|, 0
  {
    var v := AfterSpace(view, KEY_SPACES, false);
    if v == [] || !StartsWith(v, ".") then KeysFound(keys, v)
    else
      var w := After(v, 1);
      SuffixTrans(w, v, view);
      var r := WaitKey(w, keys);
      if r.Ok? then SuffixTrans(r.value.rest, w, view); r else r
  }

  /** The check after the loop: at least one key. */
  function KeysFound(keys: seq<string>, v: View): (r: Result<Parsed<seq<string>>>)
    ensures r.Ok? <==> keys != []
  {
    if keys == [] then Err(ParseError("no keys found")) else Ok(Parsed(keys, v))
  }

  /** What `parse_keys(view)` returns and leaves. */
  function KeysValue(view: View): Result<Parsed<seq<string>>>
  {
    WaitKey(view, [])
  }

  /** `parse_keys`. */
  method ParseKeys(view: View) returns (r: Result<Parsed<seq<string>>>)
    ensures r == KeysValue(view)
  {
    var keys: seq<string> := [];
    var v := view;
    var waitDot := false;
    while true
      invariant (if waitDot then WaitDot(v, keys) else WaitKey(v, keys)) == KeysValue(view)
      decreases |v|
    {
      var w := SkipSpace(v, KEY_SPACES, false);
      if !waitDot {
        var key := ParseKeyToken(w);
        if key.Err? {
          return Err(key.error);
        }
        v, keys, waitDot := key.value.rest, keys + [key.value.value], true;
      } else if w == [] || !StartsWith(w, ".") {
        v := w;
        break;
      } else {
        v, waitDot := After(w, 1), false;
      }
    }
    if keys == [] {
      return Err(ParseError("no keys found"));
    }
    return Ok(Parsed(keys, v));
  }

  /** A key at `wait_key`. */
  method ParseKeyToken(v: View) returns (r: Result<Parsed<string>>)
    ensures r == KeyToken(v)
  {
    if v == [] {
      return Err(ParseError("unexpected end of input"));
    }
    var bare := Find(DetailString.BARE_CHARS, [v[0]], 0);
    DetailString.FindCharIsLeast(DetailString.BARE_CHARS, v[0], 0);
    if bare != NPOS {
      assert v[0] in DetailString.BARE_CHARS;
      var length := DetailString.GetBareLength(v);
      return Ok(Parsed(DetailString.ParseBareValue(v, length), After(v, length)));
    }
    assert v[0] !in DetailString.BARE_CHARS;
    if StartsWith(v, "\'") {
      var length := DetailString.GetLiteralStringLength(v);
      if length.Err? {
        return Err(length.error);
      }
      return Ok(Parsed(DetailString.ParseLiteralString(v, length.value), After(v, length.value)));
    } else if StartsWith(v, "\"") {
      var length := DetailString.GetStringLength(v);
      DetailString.StringLengthShape(v);
      if length.Err? {
        return Err(length.error);
      }
      var key := DetailString.ParseString(v, length.value);
      if key.Err? {
        return Err(key.error);
      }
      return Ok(Parsed(key.value, After(v, length.value)));
    }
    return Err(ParseError("expected string"));
  }

  // ---------------------------------------------------------------------
  // Properties of parse_keys
  // ---------------------------------------------------------------------

  /**
   * When `parse_keys` succeeds from `wait_key` it has pushed at least
   * one key after the ones before, and it stops at neither a dot nor a
   * blank.
   */
  lemma {:induction false} WaitKeyShape(view: View, keys: seq<string>)
    ensures var r := WaitKey(view, keys);
      r.Ok? ==> |keys| < |r.value.value| && r.value.value[..|keys|] == keys &&
                (r.value.rest == [] || (r.value.rest[0] != '.' && r.value.rest[0] !in KEY_SPACES))
    decreases |view|, 1
  {
    var v := AfterSpace(view, KEY_SPACES, false);
    match KeyToken(v)
    case Err(_) =>
    case Ok(p) =>
      WaitDotShape(p.rest, keys + [p.value]);
      PrefixOfPush(WaitDot(p.rest, keys + [p.value]), keys, p.value);
  }

  /** What starts with keys + [k] starts with keys. */
  lemma PrefixOfPush(r: Result<Parsed<seq<string>>>, keys: seq<string>, k: string)
    ensures r.Ok? && |keys + [k]| <= |r.value.value| && r.value.value[..|keys| + 1] == keys + [k] ==>
              |keys| < |r.value.value| && r.value.value[..|keys|] == keys
  {
    if r.Ok? && |keys + [k]| <= |r.value.value| && r.value.value[..|keys| + 1] == keys + [k] {
      assert r.value.value[..|keys|] == r.value.value[..|keys| + 1][..|keys|];
    }
  }

  /** The same from `wait_dot`, where the keys so far are kept and at least one key is returned. */
  lemma {:induction false} WaitDotShape(view: View, keys: seq<string>)
    ensures var r := WaitDot(view, keys);
      r.Ok? ==> r.value.value != [] && |keys| <= |r.value.value| && r.value.value[..|keys|] == keys &&
                (r.value.rest == [] || (r.value.rest[0] != '.' && r.value.rest[0] !in KEY_SPACES))
    decreases |view|, 0
  {
    var v := AfterSpace(view, KEY_SPACES, false);
    if v != [] && StartsWith(v, ".") {
      WaitKeyShape(After(v, 1), keys);
    } else if v != [] {
      assert v[0] != '.' by { assert !IsPrefix(".", v); }
    }
  }

  /**
   * Every exception `parse_keys` throws is one thrown while reading a
   * key: the `keys.empty()` check after the loop never fires, because
   * the loop reaches its `break` only at `wait_dot`, after a key.
   */
  lemma {:induction false} WaitKeyErrors(view: View, keys: seq<string>)
    ensures WaitKey(view, keys).Err? ==>
              exists v: View :: IsSuffix(v, view) && KeyToken(v) == Err(WaitKey(view, keys).error)
    decreases |view|, 1
  {
    var v := AfterSpace(view, KEY_SPACES, false);
    match KeyToken(v)
    case Err(_) =>
    case Ok(p) =>
      WaitDotErrors(p.rest, keys + [p.value]);
      if WaitDot(p.rest, keys + [p.value]).Err? {
        var u: View :| IsSuffix(u, p.rest) && KeyToken(u) == Err(WaitDot(p.rest, keys + [p.value]).error);
        SuffixTrans(u, p.rest, view);
      }
  }

  /** The same from `wait_dot` once a key has been pushed. */
  lemma {:induction false} WaitDotErrors(view: View, keys: seq<string>)
    requires keys != []
    ensures WaitDot(view, keys).Err? ==>
              exists v: View :: IsSuffix(v, view) && KeyToken(v) == Err(WaitDot(view, keys).error)
    decreases |view|, 0
  {
    var v := AfterSpace(view, KEY_SPACES, false);
    if v != [] && StartsWith(v, ".") {
      var w := After(v, 1);
      WaitKeyErrors(w, keys);
      if WaitKey(w, keys).Err? {
        var u: View :| IsSuffix(u, w) && KeyToken(u) == Err(WaitKey(w, keys).error);
        SuffixTrans(w, v, view);
        SuffixTrans(u, w, view);
      }
    }
  }

  /** Hence `parse_keys` never throws "no keys found" unless reading some key threw it. */
  lemma KeysValueErrors(view: View)
    ensures KeysValue(view).Err? ==>
              exists v: View :: IsSuffix(v, view) && KeyToken(v) == Err(KeysValue(view).error)
  {
    WaitKeyErrors(view, []);
  }

  /** A bare key: one or more of A-Z, a-z, 0-9, `_` and `-`. */
  predicate BareKey(k: string)
  {
    k != [] && forall i :: 0 <= i < |k| ==> DetailString.IsBareChar(k[i])
  }

  /** Keys written with dots between them. */
  function Dotted(ks: seq<string>): seq<char>
    requires ks != []
  {
    if |ks| == 1 then ks[0] else ks[0] + "." + Dotted(ks[1..])
  }

  /** A bare key followed by no bare-key character is the key `parse_keys` reads there. */
  lemma BareKeyToken(view: View, k: string, tail: View)
    requires BareKey(k) && view == k + tail && (tail == [] || !DetailString.IsBareChar(tail[0]))
    ensures AfterSpace(view, KEY_SPACES, false) == view
    ensures KeyToken(view) == Ok(Parsed(k, tail))
  {
    assert view[0] == k[0];
    DetailString.BareCharIff(k[0]);
    AfterSpaceStays(view, KEY_SPACES);
    var length := DetailString.GetBareLength(view);
    if length < |k| {
      assert view[length] == k[length];
      DetailString.BareCharIff(k[length]);
    } else if length > |k| {
      assert view[|k|] == tail[0];
      DetailString.BareCharIff(tail[0]);
    }
    assert view[..|k|] == k && view[|k|..] == tail;
  }

  /** At `wait_key`, a bare key followed by no bare-key character is pushed whole. */
  lemma BareKeyStep(view: View, k: string, tail: View, keys: seq<string>)
    ensures BareKey(k) && view == k + tail && (tail == [] || !DetailString.IsBareChar(tail[0])) ==>
              WaitKey(view, keys) == WaitDot(tail, keys + [k])
  {
    if BareKey(k) && view == k + tail && (tail == [] || !DetailString.IsBareChar(tail[0])) {
      BareKeyToken(view, k, tail);
    }
  }

  /** A dot right at the front. */
  lemma DotAt(view: View, t: View)
    requires view == "." + t
    ensures StartsWith(view, ".") && After(view, 1) == t
    ensures AfterSpace(view, KEY_SPACES, false) == view
  {
    assert view[0] == '.' && view[..1] == "." && view[1..] == t;
    AfterSpaceStays(view, KEY_SPACES);
  }

  /** At `wait_dot`, a dot goes back to `wait_key`. */
  lemma DotStep(view: View, t: View, keys: seq<string>)
    ensures view == "." + t ==> WaitDot(view, keys) == WaitKey(t, keys)
  {
    if view == "." + t {
      DotAt(view, t);
    }
  }

  /** Neither a dot nor a blank at the front. */
  lemma NoDotAt(view: View)
    requires view == [] || (view[0] != '.' && view[0] !in KEY_SPACES)
    ensures view == [] || !StartsWith(view, ".")
    ensures AfterSpace(view, KEY_SPACES, false) == view
  {
    AfterSpaceStays(view, KEY_SPACES);
    if view != [] {
      NotPrefixAt(".", view, 0);
    }
  }

  /** At `wait_dot`, anything but a dot or a blank is the `break`, which returns the keys. */
  lemma EndStep(view: View, keys: seq<string>)
    ensures keys != [] && (view == [] || (view[0] != '.' && view[0] !in KEY_SPACES)) ==>
              WaitDot(view, keys) == Ok(Parsed(keys, view))
  {
    if keys != [] && (view == [] || (view[0] != '.' && view[0] !in KEY_SPACES)) {
      NoDotAt(view);
    }
  }

  /** Pushing the first key, then the others, appends them all. */
  lemma PushAll(keys: seq<string>, ks: seq<string>)
    ensures ks != [] ==> keys + [ks[0]] + ks[1..] == keys + ks
    ensures |ks| == 1 ==> keys + [ks[0]] == keys + ks
    ensures [] + ks == ks
  {
    if ks != [] {
      assert ks == [ks[0]] + ks[1..];
    }
  }

  /** view spells the bare keys ks with dots between them, then rest, which does not go on with the last key. */
  predicate DottedInput(view: View, ks: seq<string>, rest: View)
  {
    ks != [] && (forall i :: 0 <= i < |ks| ==> BareKey(ks[i])) &&
    view == Dotted(ks) + rest && (rest == [] || !DetailString.IsBareChar(rest[0]))
  }

  /** How DottedInput splits at its first key. */
  lemma DottedSplit(view: View, ks: seq<string>, rest: View) returns (tail: View, m: View)
    requires DottedInput(view, ks, rest)
    ensures BareKey(ks[0]) && view == ks[0] + tail && (tail == [] || !DetailString.IsBareChar(tail[0]))
    ensures |ks| == 1 ==> tail == rest
    ensures |ks| > 1 ==> tail == "." + m && DottedInput(m, ks[1..], rest) && |m| < |view|
  {
    assert BareKey(ks[0]);
    if |ks| == 1 {
      tail, m := rest, rest;
    } else {
      var more := Dotted(ks[1..]) + rest;
      tail, m := "." + more, more;
      assert view == ks[0] + tail;
      assert forall i :: 0 <= i < |ks[1..]| ==> BareKey(ks[1..][i]) by {
        forall i | 0 <= i < |ks[1..]| ensures BareKey(ks[1..][i]) {
          assert ks[1..][i] == ks[i + 1];
        }
      }
    }
  }

  /** Dotted bare keys are pushed one by one, leaving the loop at `wait_dot` after the last. */
  lemma {:induction false} DottedKeys(view: View, ks: seq<string>, keys: seq<string>, rest: View)
    ensures DottedInput(view, ks, rest) ==> WaitKey(view, keys) == WaitDot(rest, keys + ks)
    decreases |view|
  {
    if DottedInput(view, ks, rest) {
      var tail, m := DottedSplit(view, ks, rest);
      PushAll(keys, ks);
      BareKeyStep(view, ks[0], tail, keys);
      if |ks| > 1 {
        DottedKeys(m, ks[1..], keys + [ks[0]], rest);
        DotStep(tail, m, keys + [ks[0]]);
      }
    }
  }

  /** Dotted bare keys followed by neither a key character, a dot nor a blank parse back to themselves. */
  lemma DottedKeysRoundTrip(view: View, ks: seq<string>, rest: View)
    requires ks != [] && (forall i :: 0 <= i < |ks| ==> BareKey(ks[i]))
    requires view == Dotted(ks) + rest
    requires rest == [] || (!DetailString.IsBareChar(rest[0]) && rest[0] != '.' && rest[0] !in KEY_SPACES)
    ensures KeysValue(view) == Ok(Parsed(ks, rest))
  {
    PushAll([], ks);
    DottedKeys(view, ks, [], rest);
    EndStep(rest, ks);
  }

  /** Dotted keys that end in a dot run out of input at `wait_key`. */
  lemma TrailingDotKeys(view: View, ks: seq<string>)
    requires ks != [] && (forall i :: 0 <= i < |ks| ==> BareKey(ks[i]))
    requires view == Dotted(ks) + "."
    ensures KeysValue(view) == Err(ParseError("unexpected end of input"))
  {
    DotInput(view, ks);
    PushAll([], ks);
    DottedKeys(view, ks, [], DOT);
    TrailingDot(ks);
  }

  const DOT: View := "."

  /** Dotted bare keys then a dot are a DottedInput that stops at the dot. */
  lemma DotInput(view: View, ks: seq<string>)
    ensures ks != [] && (forall i :: 0 <= i < |ks| ==> BareKey(ks[i])) && view == Dotted(ks) + "." ==>
              DottedInput(view, ks, DOT)
  {
  }

  /** A dot at the very end leaves `wait_key` with nothing to read. */
  lemma TrailingDot(keys: seq<string>)
    ensures WaitDot(DOT, keys) == Err(ParseError("unexpected end of input"))
  {
    var none: View := [];
    AfterSpaceStays(none, KEY_SPACES);
    DotStep(DOT, none, keys);
  }

  /** A literal-string key `'s'` is the text between its quotes. */
  lemma LiteralKeyToken(v: View, s: seq<char>, rest: seq<char>)
    requires v == "\'" + s + "\'" + rest
    requires forall i :: 0 <= i < |s| ==> s[i] != '\'' && s[i] != '\r' && s[i] != '\n'
    ensures KeyToken(v) == Ok(Parsed(s, rest))
  {
    DetailString.BareCharIff(v[0]);
    assert StartsWith(v, "\'") by { assert v[..1] == "\'"; }
    DetailStringProperties.LiteralRoundTrip(v, s, rest);
    assert v[|s| + 2..] == rest;
  }

  /** A basic-string key is the escaped text decoded. */
  lemma BasicKeyToken(v: View, s: seq<char>, rest: seq<char>)
    requires v == "\"" + DetailStringProperties.Escape(s) + "\"" + rest
    ensures KeyToken(v) == Ok(Parsed(s, rest))
  {
    var e := DetailStringProperties.Escape(s);
    DetailString.BareCharIff(v[0]);
    NotPrefixAt("\'", v, 0);
    assert StartsWith(v, "\"") by { assert v[..1] == "\""; }
    DetailStringProperties.StringRoundTrip(v, s, rest, UnicodeEscape.Current);
    assert v[|e| + 2..] == rest;
  }

  /** A key may not start with `=` or any other character outside keys and quotes. */
  lemma KeyExpectedString(v: View)
    requires v != [] && !DetailString.IsBareChar(v[0]) && v[0] != '\'' && v[0] != '"'
    ensures KeyToken(v) == Err(ParseError("expected string"))
  {
    DetailString.BareCharIff(v[0]);
    NotPrefixAt("\'", v, 0);
    NotPrefixAt("\"", v, 0);
  }
}
