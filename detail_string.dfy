/**
 * The string lexer of tomload/detail_string.cpp: for each TOML string
 * form (literal, multi-line literal, basic, multi-line basic) and for
 * bare keys, a `get_*_length` that measures the token at the front of a
 * view and a `parse_*` that decodes it, following the "String" and
 * "Keys" sections of TOML v1.0.0 as far as this code does.
 *
 * The scanners and decoders that the source writes as `for` loops are
 * methods proved equal to recursive specification functions; lemmas
 * give the token shapes and the round trips through an escaper.
 *
 * A decoder reads the token's content through `w`, the view from the
 * first content character to the end, and `n`, the content length: the
 * source reads one character past the content after a backslash, which
 * is the first closing quote.
 */
module DetailString {
  import opened Errors
  import opened StringView14
  import opened ViewT
  import UnicodeEscape

  const UPPER: View := "ABCDEFGHIJKLMNOPQRSTUVWXYZ"
  const LOWER: View := "abcdefghijklmnopqrstuvwxyz"
  const DIGITS: View := "0123456789"
  /** The characters of a bare key: A-Z, a-z, 0-9, `_` and `-`. */
  const BARE_CHARS: View := UPPER + LOWER + DIGITS + "_-"

  /** Membership in BARE_CHARS as character ranges. */
  predicate IsBareChar(c: char)
  {
    ('A' <= c <= 'Z') || ('a' <= c <= 'z') || ('0' <= c <= '9') || c == '_' || c == '-'
  }

  lemma BareCharIff(c: char)
    ensures c in BARE_CHARS <==> IsBareChar(c)
  {
    Spelling(UPPER, 65);
    Spelling(LOWER, 97);
    Spelling(DIGITS, 48);
    if 'A' <= c <= 'Z' {
      assert UPPER[c as int - 65] == c;
    } else if 'a' <= c <= 'z' {
      assert LOWER[c as int - 97] == c;
    } else if '0' <= c <= '9' {
      assert DIGITS[c as int - 48] == c;
    }
    assert c in BARE_CHARS <==> c in UPPER || c in LOWER || c in DIGITS || c in "_-";
  }

  /** UPPER, LOWER and DIGITS run through consecutive code points. */
  lemma Spelling(s: seq<char>, lo: nat)
    requires (s == UPPER && lo == 65) || (s == LOWER && lo == 97) || (s == DIGITS && lo == 48)
    ensures forall i :: 0 <= i < |s| ==> s[i] as int == lo + i
  {
  }
  /** The characters a backslash may stand before without further checks. */
  const SIMPLE_ESCAPES: View := "nrtbf\\\""
  const BLANKS_AND_NEWLINES: View := "\r\n\t "
  const BLANKS: View := "\t "

  /** The character a simple escape stands for. */
  function SimpleEscape(c: char): char
    requires c in SIMPLE_ESCAPES
  {
    if c == 'n' then '\n'
    else if c == 'r' then '\r'
    else if c == 't' then '\t'
    else if c == 'b' then 8 as char
    else if c == 'f' then 12 as char
    else c
  }

  /** A piece of decoded text in front of the result of decoding the rest. */
  function Prepend(p: seq<char>, r: Result<seq<char>>): Result<seq<char>>
  {
    match r
    case Ok(s) => Ok(p + s)
    case Err(e) => Err(e)
  }

  lemma PrependNothing(r: Result<seq<char>>)
    ensures Prepend([], r) == r
  {
    if r.Ok? { assert [] + r.value == r.value; }
  }

  lemma PrependPrepend(a: seq<char>, b: seq<char>, r: Result<seq<char>>)
    ensures Prepend(a, Prepend(b, r)) == Prepend(a + b, r)
  {
    if r.Ok? { assert a + (b + r.value) == (a + b) + r.value; }
  }

  /**
   * `view.find_first_not_of(chars, from)` where only its range is
   * needed; `FindFirstNotOfIsLeast` gives the rest.
   */
  function NextNotIn(view: View, chars: View, from: SizeT): (p: SizeT)
    ensures p == NPOS || (from <= p < |view| && view[p] !in chars)
  {
    FindFirstNotOfIsLeast(view, chars, from);
    FindFirstNotOfResult(view, chars, from)
  }

  // ---------------------------------------------------------------------
  // Literal strings
  // ---------------------------------------------------------------------

  /**
   * `get_multi_literal_string_length`: the first `'''` from index 3 ends
   * the token, and grows by one or two when it starts a run of four or
   * five quotes.
   */
  function GetMultiLiteralStringLength(view: View): (r: Result<SizeT>)
    ensures r.Ok? ==> 6 <= r.value <= |view|
  {
    var pos := FindResult(view, "'''", 3);
    FindIsLeastOccurrence(view, "'''", 3);
    if pos == NPOS then Err(ParseError("not closed by '''"))
    else if pos == FindResult(view, "'''''", 3) then
      FindIsLeastOccurrence(view, "'''''", 3);
      Ok(pos + 2 + 3)
    else if pos == FindResult(view, "''''", 3) then
      FindIsLeastOccurrence(view, "''''", 3);
      Ok(pos + 1 + 3)
    else Ok(pos + 3)
  }

  lemma LongerRunOccurs(view: View, run: seq<char>, i: nat)
    requires 3 <= |run| && run[..3] == "'''" && OccursAt(view, run, i)
    ensures OccursAt(view, "'''", i)
  {
    assert view[i .. i + 3] == view[i .. i + |run|][..3];
  }

  /**
   * The token ends at p + 5, p + 4 or p + 3 where p is the first `'''`
   * at or after index 3, by the length of the quote run at p; without
   * such a p it is parse_error.
   */
  lemma MultiLiteralClosing(view: View)
    ensures var r := GetMultiLiteralStringLength(view);
      var p := FindResult(view, "'''", 3);
      (r.Err? <==> p == NPOS) &&
      (r.Err? ==> r.error == ParseError("not closed by '''")) &&
      (r.Ok? ==> 3 <= p && OccursAt(view, "'''", p) &&
                 r.value == (if OccursAt(view, "'''''", p) then p + 5
                             else if OccursAt(view, "''''", p) then p + 4
                             else p + 3))
  {
    var p := FindResult(view, "'''", 3);
    FindIsLeastOccurrence(view, "'''", 3);
    if p != NPOS {
      FindIsLeastOccurrence(view, "'''''", 3);
      FindIsLeastOccurrence(view, "''''", 3);
      var p5 := FindResult(view, "'''''", 3);
      var p4 := FindResult(view, "''''", 3);
      if p5 != NPOS {
        assert "'''''"[..3] == "'''";
        LongerRunOccurs(view, "'''''", p5);
      }
      if p4 != NPOS {
        assert "''''"[..3] == "'''";
        LongerRunOccurs(view, "''''", p4);
      }
      if OccursAt(view, "'''''", p) { assert p5 <= p; }
      if OccursAt(view, "''''", p) { assert p4 <= p; }
    }
  }

  /** The closing delimiter the length includes. */
  lemma MultiLiteralEndsWithQuotes(view: View)
    requires GetMultiLiteralStringLength(view).Ok?
    ensures var n := GetMultiLiteralStringLength(view).value;
      view[n - 3 .. n] == "'''"
  {
    MultiLiteralClosing(view);
    var p := FindResult(view, "'''", 3);
    var n := GetMultiLiteralStringLength(view).value;
    if OccursAt(view, "'''''", p) {
      assert view[n - 3 .. n] == view[p .. p + 5][2..];
    } else if OccursAt(view, "''''", p) {
      assert view[n - 3 .. n] == view[p .. p + 4][1..];
    }
  }

  /** How many characters right after the opener `parse_multi_literal_string` drops. */
  function MultiLiteralSkip(view: View): nat
  {
    if StartsWith(view, "'''\r\n") then 2
    else if StartsWith(view, "'''\n") then 1
    else 0
  }

  /**
   * `parse_multi_literal_string`: the characters between the delimiters,
   * less one LF or CRLF right after the opener.
   */
  function ParseMultiLiteralString(view: View, length: SizeT): (r: seq<char>)
    requires GetMultiLiteralStringLength(view) == Ok(length)
    ensures |r| == length - 6 - MultiLiteralSkip(view)
    ensures r == view[3 + MultiLiteralSkip(view) .. length - 3]
  {
    MultiLiteralClosing(view);
    var p := FindResult(view, "'''", 3);
    if StartsWith(view, "'''\r\n") then
      assert view[3] == '\r' && view[4] == '\n';
      assert view[p] == '\'';
      view[5 .. 5 + (length - 8)]
    else if StartsWith(view, "'''\n") then
      assert view[3] == '\n';
      assert view[p] == '\'';
      view[4 .. 4 + (length - 7)]
    else
      view[3 .. 3 + (length - 6)]
  }

  /**
   * `get_literal_string_length`: one past the first `'` after the
   * opener; parse_error when there is none or when CR or LF comes first.
   */
  function GetLiteralStringLength(view: View): (r: Result<SizeT>)
    ensures r.Ok? ==> 2 <= r.value <= |view|
  {
    var pos := FindResult(view, "'", 1);
    FindIsLeastOccurrence(view, "'", 1);
    if pos == NPOS then Err(ParseError("not closed by '"))
    else
      var posR := FindResult(view, "\r", 1);
      var posN := FindResult(view, "\n", 1);
      if posR != NPOS && posR < pos then Err(ParseError("detect newline in literal string"))
      else if posN != NPOS && posN < pos then Err(ParseError("detect newline in literal string"))
      else Ok(pos + 1)
  }

  lemma OneCharOccurs(view: View, c: char, i: nat)
    ensures OccursAt(view, [c], i) <==> i < |view| && view[i] == c
  {
    if i < |view| && view[i] == c { assert view[i .. i + 1] == [c]; }
    if OccursAt(view, [c], i) { assert view[i .. i + 1][0] == view[i]; }
  }

  /** `view.find(c, from)` is the first index from `from` holding c, or npos. */
  lemma FindCharIsLeast(view: View, c: char, from: SizeT)
    ensures var r := FindResult(view, [c], from);
      (r == NPOS <==> forall i :: from <= i < |view| ==> view[i] != c) &&
      (r != NPOS ==> from <= r < |view| && view[r] == c && forall i :: from <= i < r ==> view[i] != c)
  {
    FindIsLeastOccurrence(view, [c], from);
    forall i: nat ensures OccursAt(view, [c], i) <==> i < |view| && view[i] == c {
      OneCharOccurs(view, c, i);
    }
  }

  /** q is the first `'` after the opener and no newline comes before it. */
  predicate LiteralCloseAt(view: seq<char>, q: nat)
  {
    1 <= q < |view| && view[q] == '\'' &&
    forall i :: 1 <= i < q ==> view[i] != '\'' && view[i] != '\r' && view[i] != '\n'
  }

  /**
   * The literal string is well formed exactly when some q closes it, and
   * then its length is q + 1; every failure is parse_error.
   */
  lemma LiteralLength(view: View)
    ensures var r := GetLiteralStringLength(view);
      (r.Ok? ==> LiteralCloseAt(view, r.value - 1)) &&
      (forall q :: LiteralCloseAt(view, q) ==> r == Ok(q + 1)) &&
      (r.Err? ==> r.error.ParseError?)
  {
    FindCharIsLeast(view, '\'', 1);
    FindCharIsLeast(view, '\r', 1);
    FindCharIsLeast(view, '\n', 1);
    assert "'" == ['\''] && "\r" == ['\r'] && "\n" == ['\n'];
  }


  /** `parse_literal_string`: the characters between the quotes. */
  function ParseLiteralString(view: View, length: SizeT): (r: seq<char>)
    requires GetLiteralStringLength(view) == Ok(length)
    ensures |r| == length - 2
    ensures r == view[1 .. length - 1]
  {
    LiteralLength(view);
    view[1 .. 1 + (length - 2)]
  }

  // ---------------------------------------------------------------------
  // Basic strings
  // ---------------------------------------------------------------------

  /**
   * The loop of `get_string_length` from index i, with `esc` the
   * `detected_backslash` flag.
   */
  function StringScan(view: View, i: nat, esc: bool): (r: Result<SizeT>)
    requires i <= |view| + 1
    decreases |view| + 1 - i
  {
    if i >= |view| then Err(ParseError("not closed by \""))
    else if !esc then
      if view[i] == '"' then Ok(i + 1)
      else if view[i] == '\\' then StringScan(view, i + 1, true)
      else if view[i] == '\n' || view[i] == '\r' then Err(ParseError("detect newline in string"))
      else StringScan(view, i + 1, false)
    else if view[i] in SIMPLE_ESCAPES then StringScan(view, i + 1, false)
    else if view[i] == 'u' then
      if i + 4 > |view| then Err(ParseError("invalid unicode escape sequence")) else StringScan(view, i + 5, false)
    else if view[i] == 'U' then
      if i + 8 > |view| then Err(ParseError("invalid unicode escape sequence")) else StringScan(view, i + 9, false)
    else Err(ParseError("invalid escape sequence"))
  }

  /** What `get_string_length` returns. */
  function StringLength(view: View): Result<SizeT>
  {
    StringScan(view, 1, false)
  }

  lemma {:induction false} StringScanShape(view: View, i: nat, esc: bool)
    requires 1 <= i <= |view| + 1
    ensures var r := StringScan(view, i, esc);
      (r.Ok? ==> i < r.value <= |view| && view[r.value - 1] == '"') &&
      (r.Err? ==> r.error.ParseError?)
    decreases |view| + 1 - i
  {
    if i < |view| {
      if !esc {
        if view[i] != '"' && view[i] != '\n' && view[i] != '\r' {
          StringScanShape(view, i + 1, view[i] == '\\');
        }
      } else if view[i] in SIMPLE_ESCAPES {
        StringScanShape(view, i + 1, false);
      } else if view[i] == 'u' && i + 4 <= |view| {
        StringScanShape(view, i + 5, false);
      } else if view[i] == 'U' && i + 8 <= |view| {
        StringScanShape(view, i + 9, false);
      }
    }
  }

  /** A measured basic string spans at least its two quotes and ends with `"`; every failure is parse_error. */
  lemma StringLengthShape(view: View)
    ensures var r := StringLength(view);
      (r.Ok? ==> 2 <= r.value <= |view| && view[r.value - 1] == '"') &&
      (r.Err? ==> r.error.ParseError?)
  {
    StringScanShape(view, 1, false);
  }

  /** `get_string_length`: the loop that stops at the first unescaped `"`. */
  method GetStringLength(view: View) returns (r: Result<SizeT>)
    ensures r == StringLength(view)
  {
    var esc := false;
    var i: nat := 1;
    while i < |view|
      invariant 1 <= i <= |view| + 1
      invariant StringLength(view) == StringScan(view, i, esc)
      decreases |view| + 1 - i
    {
      if !esc {
        if view[i] == '"' {
          return Ok(i + 1);
        } else if view[i] == '\\' {
          esc := true;
        } else if view[i] == '\n' || view[i] == '\r' {
          return Err(ParseError("detect newline in string"));
        }
      } else {
        if view[i] in SIMPLE_ESCAPES {
        } else if view[i] == 'u' {
          if i + 4 > |view| {
            return Err(ParseError("invalid unicode escape sequence"));
          }
          i := i + 4;
        } else if view[i] == 'U' {
          if i + 8 > |view| {
            return Err(ParseError("invalid unicode escape sequence"));
          }
          i := i + 8;
        } else {
          return Err(ParseError("invalid escape sequence"));
        }
        esc := false;
      }
      i := i + 1;
    }
    return Err(ParseError("not closed by \""));
  }

  /** What one pass of a decoding loop does: append text and go on at `next`, stop, or fail. */
  datatype Step = Emit(text: seq<char>, next: nat) | Stop | Fail(error: Error)

  /**
   * One pass of the `parse_string` loop at content index j < n, the
   * loop's own increment included.  The content is w[..n]; after a
   * final backslash the source reads w[n], the closing quote.  A
   * backslash before any other character drops both.
   */
  function BasicStep(w: View, n: nat, j: nat, rule: UnicodeEscape.Rule): (s: Step)
    requires j < n < |w|
    ensures s.Emit? ==> j < s.next
    ensures s.Fail? ==> s.error.ParseError? || s.error == OutOfRange("string_view14::substr()")
    ensures !s.Stop?
  {
    if w[j] != '\\' then Emit([w[j]], j + 1)
    else
      var k := j + 1;
      var c := w[k];
      if c in SIMPLE_ESCAPES then Emit([SimpleEscape(c)], k + 1)
      else if c == 'u' || c == 'U' then
        var size := if c == 'u' then 4 else 8;
        if k + 1 > n then Fail(OutOfRange("string_view14::substr()"))
        else
          match UnicodeEscape.ParseBy(rule, w[k + 1 .. n], size)
          case Err(e) => Fail(e)
          case Ok(chars) => Emit(chars, k + 1 + size)
      else Emit([], k + 1)
  }

  /** The `parse_string` loop from content index j. */
  function DecodeBasic(w: View, n: nat, j: nat, rule: UnicodeEscape.Rule): (r: Result<seq<char>>)
    requires n < |w|
    decreases if j < n then n - j else 0
  {
    if j >= n then Ok([])
    else
      match BasicStep(w, n, j, rule)
      case Emit(text, next) => Prepend(text, DecodeBasic(w, n, next, rule))
      case Stop => Ok([])
      case Fail(e) => Err(e)
  }

  /** What `parse_string(view, length)` returns: the decoded text between the quotes. */
  function StringValue(view: View, length: SizeT, rule: UnicodeEscape.Rule): Result<seq<char>>
    requires 2 <= length <= |view|
  {
    DecodeBasic(view[1..], length - 2, 0, rule)
  }

  /** The loop shared by the two versions of `parse_string`; they differ only in the `\u` rule. */
  method DecodeBasicLoop(w: View, n: nat, rule: UnicodeEscape.Rule) returns (r: Result<seq<char>>)
    requires n < |w|
    ensures r == DecodeBasic(w, n, 0, rule)
  {
    var ret: seq<char> := [];
    var i: nat := 0;
    PrependNothing(DecodeBasic(w, n, 0, rule));
    while i < n
      invariant DecodeBasic(w, n, 0, rule) == Prepend(ret, DecodeBasic(w, n, i, rule))
      decreases if i < n then n - i else 0
    {
      var step := BasicIteration(w, n, i, rule);
      match step
      case Fail(e) =>
        return Err(e);
      case Emit(text, next) =>
        PrependPrepend(ret, text, DecodeBasic(w, n, next, rule));
        ret := ret + text;
        i := next;
    }
    assert ret + [] == ret;
    return Ok(ret);
  }

  /** The body of the `parse_string` loop at index i0. */
  method BasicIteration(w: View, n: nat, i0: nat, rule: UnicodeEscape.Rule) returns (s: Step)
    requires i0 < n < |w|
    ensures s == BasicStep(w, n, i0, rule)
  {
    var i := i0;
    var piece: seq<char> := [];
    if w[i] == '\\' {
      i := i + 1;
      var c := w[i];
      if c in SIMPLE_ESCAPES {
        piece := [SimpleEscape(c)];
      } else if c == 'u' || c == 'U' {
        var size := if c == 'u' then 4 else 8;
        if i + 1 > n {
          return Fail(OutOfRange("string_view14::substr()"));
        }
        var esc := UnicodeEscape.ParseBy(rule, w[i + 1 .. n], size);
        if esc.Err? {
          return Fail(esc.error);
        }
        piece := esc.value;
        i := i + size;
      }
    } else {
      piece := [w[i]];
    }
    return Emit(piece, i + 1);
  }

  /** `parse_string(view, length)`: decode the content between the quotes. */
  method ParseString(view: View, length: SizeT) returns (r: Result<seq<char>>)
    requires 2 <= length <= |view|
    ensures r == StringValue(view, length, UnicodeEscape.Current)
  {
    r := DecodeBasicLoop(view[1..], length - 2, UnicodeEscape.Current);
  }

  // ---------------------------------------------------------------------
  // Multi-line basic strings
  // ---------------------------------------------------------------------

  const Q3: View := "\"\"\""
  const Q4: View := "\"\"\"\""
  const Q5: View := "\"\"\"\"\""

  /**
   * How many characters of view, from index i, close a multi-line basic
   * string: a run of five, four or three quotes, of which the first one
   * or two still belong to the content; 0 when no run of three starts
   * at i.
   */
  function CloseLength(view: View, i: nat): (k: nat)
    ensures k == 0 || k == 3 || k == 4 || k == 5
    ensures k != 0 ==> i + k <= |view| && IsQuote(view, i + k - 3) && IsQuote(view, i + k - 2) && IsQuote(view, i + k - 1)
    ensures k != 0 ==> IsQuote(view, i)
  {
    if IsQuote(view, i) && IsQuote(view, i + 1) && IsQuote(view, i + 2) then
      if IsQuote(view, i + 3) then (if IsQuote(view, i + 4) then 5 else 4) else 3
    else 0
  }

  predicate IsQuote(view: seq<char>, j: nat)
  {
    j < |view| && view[j] == '"'
  }

  /** The `substr(i, k) == "\"…\""` tests are tests for k quotes in a row. */
  lemma QuoteRuns(view: View, i: nat)
    ensures OccursAt(view, Q3, i) <==> IsQuote(view, i) && IsQuote(view, i + 1) && IsQuote(view, i + 2)
    ensures OccursAt(view, Q4, i) <==> OccursAt(view, Q3, i) && IsQuote(view, i + 3)
    ensures OccursAt(view, Q5, i) <==> OccursAt(view, Q4, i) && IsQuote(view, i + 4)
  {
    if i + 3 <= |view| {
      var v := view[i .. i + 3];
      assert v[0] == view[i] && v[1] == view[i + 1] && v[2] == view[i + 2];
    }
    if i + 4 <= |view| {
      var v := view[i .. i + 4];
      assert v[0] == view[i] && v[1] == view[i + 1] && v[2] == view[i + 2] && v[3] == view[i + 3];
      assert v[..3] == view[i .. i + 3];
    }
    if i + 5 <= |view| {
      var v := view[i .. i + 5];
      assert v[0] == view[i] && v[1] == view[i + 1] && v[2] == view[i + 2] && v[3] == view[i + 3] && v[4] == view[i + 4];
      assert v[..4] == view[i .. i + 4];
    }
  }

  /**
   * Where `get_multi_string_length` resumes after the escaped character
   * at index i, or the error it reports.  A line-ending backslash skips
   * the newline and every blank or newline after it; blanks between the
   * backslash and the newline are skipped too.
   */
  function MultiEscapeNext(view: View, i: nat): (r: Result<nat>)
    requires i < |view|
    ensures r.Ok? ==> i < r.value <= |view| + 1
    ensures r.Err? ==> r.error.ParseError?
  {
    if view[i] in SIMPLE_ESCAPES then Ok(i + 1)
    else if view[i] == 'u' then
      if i + 4 > |view| then Err(ParseError("invalid unicode escape sequence")) else Ok(i + 5)
    else if view[i] == 'U' then
      if i + 8 > |view| then Err(ParseError("invalid unicode escape sequence")) else Ok(i + 9)
    else if view[i] == '\r' || view[i] == '\n' then
      var pos := NextNotIn(view, BLANKS_AND_NEWLINES, i + 1);
      if pos == NPOS then Err(ParseError("not closed by \"\"\"")) else Ok(pos)
    else if view[i] == '\t' || view[i] == ' ' then
      var pos := NextNotIn(view, BLANKS, i + 1);
      if pos == NPOS then Err(ParseError("not closed by \"\"\""))
      else if view[pos] == '\r' || view[pos] == '\n' then
        var pos2 := NextNotIn(view, BLANKS_AND_NEWLINES, pos + 1);
        if pos2 == NPOS then Err(ParseError("not closed by \"\"\"")) else Ok(pos2)
      else Err(ParseError("invalid escape sequence"))
    else Err(ParseError("invalid escape sequence"))
  }

  /**
   * The loop of `get_multi_string_length` from index i, with `esc` the
   * `detected_backslash` flag.
   */
  function MultiScan(view: View, i: nat, esc: bool): (r: Result<SizeT>)
    requires i <= |view| + 3
    decreases |view| + 3 - i
  {
    if i >= |view| then Err(ParseError("not closed by \"\"\""))
    else if esc then
      match MultiEscapeNext(view, i)
      case Err(e) => Err(e)
      case Ok(j) => MultiScan(view, j, false)
    else if CloseLength(view, i) != 0 then Ok(i + CloseLength(view, i))
    else MultiScan(view, i + 1, view[i] == '\\')
  }

  /** What `get_multi_string_length` returns. */
  function MultiStringLength(view: View): Result<SizeT>
  {
    MultiScan(view, 3, false)
  }

  lemma {:induction false} MultiScanShape(view: View, i: nat, esc: bool)
    requires i <= |view| + 3
    ensures var r := MultiScan(view, i, esc);
      (r.Ok? ==> i + 3 <= r.value <= |view| && view[r.value - 3 .. r.value] == Q3) &&
      (r.Err? ==> r.error.ParseError?)
    decreases |view| + 3 - i
  {
    if i < |view| {
      if esc {
        var next := MultiEscapeNext(view, i);
        if next.Ok? { MultiScanShape(view, next.value, false); }
      } else if CloseLength(view, i) == 0 {
        MultiScanShape(view, i + 1, view[i] == '\\');
      }
    }
  }

  /**
   * A measured multi-line basic string spans at least its two
   * delimiters and ends with `"""`, of which up to two more quotes in
   * front belong to the content; every failure is parse_error.
   */
  lemma MultiStringLengthShape(view: View)
    ensures var r := MultiStringLength(view);
      (r.Ok? ==> 6 <= r.value <= |view| && view[r.value - 3 .. r.value] == Q3) &&
      (r.Err? ==> r.error.ParseError?)
  {
    MultiScanShape(view, 3, false);
  }

  /** `view.substr(i, x.size()) == x` tests for an occurrence of x at i. */
  lemma SubstrEqIsOccurrence(view: View, x: View, i: nat)
    requires i <= |view|
    ensures Eq(Substr(view, i, |x|).value, x) <==> OccursAt(view, x, i)
  {
    var sub := Substr(view, i, |x|).value;
    if i + |x| <= |view| {
      assert sub == view[i .. i + |x|];
    } else {
      assert |sub| < |x|;
    }
  }

  /**
   * The three tests the `get_multi_string_length` loop makes at an
   * unescaped index i: `view.substr(i, 5) == "\"\"\"\"\""` and so on.
   */
  method ClosingRun(view: View, i: nat) returns (k: nat)
    requires i < |view|
    ensures k == CloseLength(view, i)
  {
    SubstrEqIsOccurrence(view, Q5, i);
    SubstrEqIsOccurrence(view, Q4, i);
    SubstrEqIsOccurrence(view, Q3, i);
    QuoteRuns(view, i);
    if Eq(Substr(view, i, 5).value, Q5) {
      return 5;
    } else if Eq(Substr(view, i, 4).value, Q4) {
      return 4;
    } else if Eq(Substr(view, i, 3).value, Q3) {
      return 3;
    }
    return 0;
  }

  /**
   * The escape branch of the `get_multi_string_length` loop: where the
   * loop goes on after the escaped character at i, the loop's own
   * increment included.
   */
  method SkipEscaped(view: View, i0: nat) returns (r: Result<nat>)
    requires i0 < |view|
    ensures r == MultiEscapeNext(view, i0)
  {
    var i := i0;
    if view[i] in SIMPLE_ESCAPES {
    } else if view[i] == 'u' {
      if i + 4 > |view| {
        return Err(ParseError("invalid unicode escape sequence"));
      }
      i := i + 4;
    } else if view[i] == 'U' {
      if i + 8 > |view| {
        return Err(ParseError("invalid unicode escape sequence"));
      }
      i := i + 8;
    } else if view[i] == '\r' || view[i] == '\n' {
      var pos := FindFirstNotOf(view, BLANKS_AND_NEWLINES, i + 1);
      assert pos == NextNotIn(view, BLANKS_AND_NEWLINES, i + 1);
      if pos == NPOS {
        return Err(ParseError("not closed by \"\"\""));
      }
      i := i + (pos - (i + 1));
    } else if view[i] == '\t' || view[i] == ' ' {
      var pos := FindFirstNotOf(view, BLANKS, i + 1);
      assert pos == NextNotIn(view, BLANKS, i + 1);
      if pos == NPOS {
        return Err(ParseError("not closed by \"\"\""));
      }
      i := i + (pos - i);
      if view[i] == '\r' || view[i] == '\n' {
        pos := FindFirstNotOf(view, BLANKS_AND_NEWLINES, i + 1);
        assert pos == NextNotIn(view, BLANKS_AND_NEWLINES, i + 1);
        if pos == NPOS {
          return Err(ParseError("not closed by \"\"\""));
        }
        i := i + (pos - (i + 1));
      } else {
        return Err(ParseError("invalid escape sequence"));
      }
    } else {
      return Err(ParseError("invalid escape sequence"));
    }
    return Ok(i + 1);
  }

  /** `get_multi_string_length`: the loop that stops at the first unescaped run of three to five quotes. */
  method GetMultiStringLength(view: View) returns (r: Result<SizeT>)
    ensures r == MultiStringLength(view)
  {
    var esc := false;
    var i: nat := 3;
    while i < |view|
      invariant 3 <= i <= |view| + 3
      invariant MultiStringLength(view) == MultiScan(view, i, esc)
      decreases |view| + 3 - i
    {
      if !esc {
        var k := ClosingRun(view, i);
        if k != 0 {
          return Ok(i + k);
        } else if view[i] == '\\' {
          esc := true;
        }
        i := i + 1;
      } else {
        var next := SkipEscaped(view, i);
        if next.Err? {
          return Err(next.error);
        }
        i := next.value;
        esc := false;
      }
    }
    return Err(ParseError("not closed by \"\"\""));
  }

  /**
   * One pass of the `parse_multi_string` loop at content index j < n,
   * the loop's own increment included.  A backslash before a blank or a
   * newline drops everything up to the next other character; when none
   * is left, `i += npos - (i + 1)` and the increment wrap the index
   * around to npos and the loop stops.
   */
  function MultiStep(w: View, n: nat, j: nat): (s: Step)
    requires j < n < |w|
    ensures s.Emit? ==> j < s.next
    ensures s.Fail? ==> s.error.ParseError? || s.error == OutOfRange("string_view14::substr()")
  {
    if w[j] != '\\' then Emit([w[j]], j + 1)
    else
      var k := j + 1;
      var c := w[k];
      if c in SIMPLE_ESCAPES then Emit([SimpleEscape(c)], k + 1)
      else if c == 'u' || c == 'U' then
        var size := if c == 'u' then 4 else 8;
        if k + 1 > n then Fail(OutOfRange("string_view14::substr()"))
        else
          match UnicodeEscape.Parse(w[k + 1 .. n], size)
          case Err(e) => Fail(e)
          case Ok(chars) => Emit(chars, k + 1 + size)
      else if c in BLANKS_AND_NEWLINES then
        var pos := NextNotIn(w[..n], BLANKS_AND_NEWLINES, k + 1);
        if pos == NPOS then Stop else Emit([], pos)
      else Emit([], k + 1)
  }

  /** The `parse_multi_string` loop from content index j. */
  function DecodeMulti(w: View, n: nat, j: nat): (r: Result<seq<char>>)
    requires n < |w|
    decreases if j < n then n - j else 0
  {
    if j >= n then Ok([])
    else
      match MultiStep(w, n, j)
      case Emit(text, next) => Prepend(text, DecodeMulti(w, n, next))
      case Stop => Ok([])
      case Fail(e) => Err(e)
  }

  /** How many newline characters right after the opener `parse_multi_string` drops. */
  function MultiSkip(view: View, length: SizeT): nat
    requires 6 <= length <= |view|
  {
    var sub := view[3 .. length - 3];
    if StartsWith(sub, "\r\n") then 2 else if StartsWith(sub, "\n") then 1 else 0
  }

  /** What `parse_multi_string(view, length)` returns. */
  function MultiStringValue(view: View, length: SizeT): Result<seq<char>>
    requires 6 <= length <= |view|
  {
    var skip := MultiSkip(view, length);
    DecodeMulti(view[3 + skip ..], length - 6 - skip, 0)
  }

  /** `parse_multi_string(view, length)`: drop a first newline, then decode. */
  method ParseMultiString(view: View, length: SizeT) returns (r: Result<seq<char>>)
    requires 6 <= length <= |view|
    ensures r == MultiStringValue(view, length)
  {
    var skip := MultiSkip(view, length);
    r := DecodeMultiLoop(view[3 + skip ..], length - 6 - skip);
  }

  /** The body of the `parse_multi_string` loop at index i0. */
  method MultiIteration(w: View, n: nat, i0: nat) returns (s: Step)
    requires i0 < n < |w|
    ensures s == MultiStep(w, n, i0)
  {
    var i := i0;
    var piece: seq<char> := [];
    if w[i] == '\\' {
      i := i + 1;
      var c := w[i];
      if c in SIMPLE_ESCAPES {
        piece := [SimpleEscape(c)];
      } else if c == 'u' || c == 'U' {
        var size := if c == 'u' then 4 else 8;
        if i + 1 > n {
          return Fail(OutOfRange("string_view14::substr()"));
        }
        var esc := UnicodeEscape.Parse(w[i + 1 .. n], size);
        if esc.Err? {
          return Fail(esc.error);
        }
        piece := esc.value;
        i := i + size;
      } else if c in BLANKS_AND_NEWLINES {
        var pos := FindFirstNotOf(w[..n], BLANKS_AND_NEWLINES, i + 1);
        FindFirstNotOfIsLeast(w[..n], BLANKS_AND_NEWLINES, i + 1);
        if pos == NPOS {
          return Stop;
        }
        i := i + (pos - (i + 1));
      }
    } else {
      piece := [w[i]];
    }
    return Emit(piece, i + 1);
  }

  /** The decoding loop of `parse_multi_string`. */
  method DecodeMultiLoop(w: View, n: nat) returns (r: Result<seq<char>>)
    requires n < |w|
    ensures r == DecodeMulti(w, n, 0)
  {
    var ret: seq<char> := [];
    var i: nat := 0;
    PrependNothing(DecodeMulti(w, n, 0));
    while i < n
      invariant DecodeMulti(w, n, 0) == Prepend(ret, DecodeMulti(w, n, i))
      decreases if i < n then n - i else 0
    {
      var step := MultiIteration(w, n, i);
      match step
      case Fail(e) =>
        return Err(e);
      case Stop =>
        assert ret + [] == ret;
        return Ok(ret);
      case Emit(text, next) =>
        PrependPrepend(ret, text, DecodeMulti(w, n, next));
        ret := ret + text;
        i := next;
    }
    assert ret + [] == ret;
    return Ok(ret);
  }

  // ---------------------------------------------------------------------
  // Bare keys
  // ---------------------------------------------------------------------

  /** `get_bare_length`: the first index from 1 whose character is not a bare-key character, or the size. */
  function GetBareLength(view: View): (r: SizeT)
    ensures view != [] ==> 1 <= r
    ensures r <= |view|
    ensures forall i :: 1 <= i < r ==> view[i] in BARE_CHARS
    ensures r < |view| ==> view[r] !in BARE_CHARS
  {
    FindFirstNotOfIsLeast(view, BARE_CHARS, 1);
    var pos := NextNotIn(view, BARE_CHARS, 1);
    if pos != NPOS then pos else |view|
  }

  /** `parse_bare_value`: the first `length` characters. */
  function ParseBareValue(view: View, length: SizeT): (r: seq<char>)
    requires length <= |view|
    ensures r == view[..length]
  {
    view[..length]
  }
}

/**
 * Round trips through the four string forms: text written the way a
 * TOML writer would write it is measured to its closing delimiter and
 * decoded back to itself; and the examples of the string test cases in
 * unittest/test_functions.cpp.
 */
module DetailStringProperties {
  import opened Errors
  import opened StringView14
  import opened ViewT
  import opened DetailString
  import UnicodeEscape

  /** The escape a writer puts in a basic string for one character. */
  function EscapeChar(c: char): seq<char>
  {
    if NeedsEscape(c) then ['\\', EscapeLetter(c)] else [c]
  }

  /** The characters a writer cannot put in a basic string as they are. */
  predicate NeedsEscape(c: char)
  {
    c == '"' || c == '\\' || c == '\n' || c == '\r'
  }

  /** The letter after the backslash; the decoder's simple escapes map it back. */
  function EscapeLetter(c: char): (l: char)
    requires NeedsEscape(c)
    ensures l in SIMPLE_ESCAPES && SimpleEscape(l) == c
  {
    if c == '"' then '"' else if c == '\\' then '\\' else if c == '\n' then 'n' else 'r'
  }

  /** A slice that spells h + t splits into h and t. */
  lemma SliceSplit(w: seq<char>, j: nat, n: nat, h: seq<char>, t: seq<char>)
    requires j <= n <= |w| && w[j .. n] == h + t
    ensures j + |h| + |t| == n && w[j .. j + |h|] == h && w[j + |h| .. n] == t
  {
    assert w[j .. j + |h|] == w[j .. n][..|h|];
    assert w[j + |h| .. n] == w[j .. n][|h|..];
  }

  /** The body of a basic string holding s. */
  function Escape(s: seq<char>): (e: seq<char>)
    ensures |s| <= |e| <= 2 * |s|
  {
    if s == [] then [] else EscapeChar(s[0]) + Escape(s[1..])
  }

  lemma {:induction false} EscapeHasNoQuote(s: seq<char>)
    ensures forall k :: 0 <= k < |Escape(s)| && Escape(s)[k] == '"' ==> 0 < k && Escape(s)[k - 1] == '\\'
  {
    if s != [] {
      EscapeHasNoQuote(s[1..]);
      var e := Escape(s);
      var h := EscapeChar(s[0]);
      assert e == h + Escape(s[1..]);
      forall k | 0 <= k < |e| && e[k] == '"' ensures 0 < k && e[k - 1] == '\\' {
        if k >= |h| {
          assert e[k] == Escape(s[1..])[k - |h|];
          if k - |h| > 0 { assert e[k - 1] == Escape(s[1..])[k - |h| - 1]; }
        }
      }
    }
  }

  /** The basic-string scanner runs over an escaped body to the quote right after it. */
  lemma {:induction false} ScanEscaped(view: View, i: nat, s: seq<char>, p: nat)
    requires 1 <= i && p == i + |Escape(s)| < |view|
    requires view[i .. p] == Escape(s) && view[p] == '"'
    ensures StringScan(view, i, false) == Ok(p + 1)
    decreases |s|
  {
    if s != [] {
      EscapeSplits(view, p, i, s);
      ScanEscaped(view, i + |EscapeChar(s[0])|, s[1..], p);
      ScanEscapedChar(view, i, s[0]);
    }
  }

  /** The scanner steps over one escaped character. */
  lemma ScanEscapedChar(view: View, i: nat, c: char)
    requires 1 <= i && i + |EscapeChar(c)| < |view|
    requires view[i .. i + |EscapeChar(c)|] == EscapeChar(c)
    ensures StringScan(view, i, false) == StringScan(view, i + |EscapeChar(c)|, false)
  {
    var h := EscapeChar(c);
    assert view[i] == h[0];
    if |h| == 2 {
      assert view[i + 1] == h[1];
    }
  }

  /** One escaped character decodes to itself. */
  lemma DecodeEscapedChar(w: View, n: nat, j: nat, c: char, rule: UnicodeEscape.Rule)
    requires n < |w| && j + |EscapeChar(c)| <= n
    requires w[j .. j + |EscapeChar(c)|] == EscapeChar(c)
    ensures DecodeBasic(w, n, j, rule) == Prepend([c], DecodeBasic(w, n, j + |EscapeChar(c)|, rule))
  {
    EscapedCharAt(w, j, c);
    assert BasicStep(w, n, j, rule) == Emit([c], j + |EscapeChar(c)|);
  }

  /** Where a slice spells EscapeChar(c), its first one or two characters say so. */
  lemma EscapedCharAt(w: View, j: nat, c: char)
    requires j + |EscapeChar(c)| <= |w| && w[j .. j + |EscapeChar(c)|] == EscapeChar(c)
    ensures NeedsEscape(c) ==> |EscapeChar(c)| == 2 && w[j] == '\\' && w[j + 1] == EscapeLetter(c)
    ensures !NeedsEscape(c) ==> |EscapeChar(c)| == 1 && w[j] == c && c != '\\' && c != '"'
  {
    var h := EscapeChar(c);
    assert w[j] == h[0];
    if NeedsEscape(c) {
      assert w[j + 1] == h[1];
    }
  }

  /** The basic-string decoder turns an escaped body back into the text. */
  lemma {:induction false} DecodeEscaped(w: View, n: nat, j: nat, s: seq<char>, rule: UnicodeEscape.Rule)
    requires n < |w| && j + |Escape(s)| == n
    requires w[j .. n] == Escape(s)
    ensures DecodeBasic(w, n, j, rule) == Ok(s)
    decreases |s|
  {
    if s != [] {
      var m := j + |EscapeChar(s[0])|;
      EscapeSplits(w, n, j, s);
      DecodeEscaped(w, n, m, s[1..], rule);
      DecodeEscapedChar(w, n, j, s[0], rule);
      PrependHead(s);
    }
  }

  lemma PrependHead(s: seq<char>)
    requires s != []
    ensures Prepend([s[0]], Ok(s[1..])) == Ok(s)
  {
    assert [s[0]] + s[1..] == s;
  }

  lemma EscapeSplits(w: seq<char>, n: nat, j: nat, s: seq<char>)
    requires s != [] && j + |Escape(s)| == n <= |w|
    requires w[j .. n] == Escape(s)
    ensures var m := j + |EscapeChar(s[0])|;
      m + |Escape(s[1..])| == n && w[j .. m] == EscapeChar(s[0]) && w[m .. n] == Escape(s[1..])
  {
    assert Escape(s) == EscapeChar(s[0]) + Escape(s[1..]);
    SliceSplit(w, j, n, EscapeChar(s[0]), Escape(s[1..]));
  }

  /**
   * A basic string written by escaping s is measured up to its closing
   * quote, whatever follows it, and decodes back to s under both
   * versions of the `\u` rule.
   */
  lemma StringRoundTrip(view: View, s: seq<char>, rest: seq<char>, rule: UnicodeEscape.Rule)
    requires view == "\"" + Escape(s) + "\"" + rest
    ensures StringLength(view) == Ok(|Escape(s)| + 2)
    ensures StringValue(view, |Escape(s)| + 2, rule) == Ok(s)
  {
    var e := Escape(s);
    QuotedParts(view, e, rest);
    ScanEscaped(view, 1, s, 1 + |e|);
    DecodeEscaped(view[1..], |e|, 0, s, rule);
  }

  lemma QuotedParts(view: View, e: seq<char>, rest: seq<char>)
    requires view == "\"" + e + "\"" + rest
    ensures view[1 .. 1 + |e|] == e && view[1 + |e|] == '"' && view[1..][0 .. |e|] == e
  {
    assert view[1..] == e + "\"" + rest;
  }

  /** A literal string with no `'` and no newline in it reads back as itself. */
  lemma LiteralRoundTrip(view: View, s: seq<char>, rest: seq<char>)
    requires view == "'" + s + "'" + rest
    requires forall i :: 0 <= i < |s| ==> s[i] != '\'' && s[i] != '\r' && s[i] != '\n'
    ensures GetLiteralStringLength(view) == Ok(|s| + 2)
    ensures ParseLiteralString(view, |s| + 2) == s
  {
    assert forall i :: 1 <= i <= |s| ==> view[i] == s[i - 1];
    assert LiteralCloseAt(view, |s| + 1);
    LiteralLength(view);
  }

  /** The first `'''` from index 3 is at p when no `'` comes before it. */
  lemma FirstTripleQuote(view: View, p: nat)
    requires 3 <= p && p + 3 <= |view| && view[p .. p + 3] == "'''"
    requires forall i :: 3 <= i < p ==> view[i] != '\''
    ensures FindResult(view, "'''", 3) == p
  {
    assert OccursAt(view, "'''", p);
    forall i | 3 <= i < p ensures !OccursAt(view, "'''", i) {
      assert i + 3 <= |view| ==> view[i .. i + 3][0] == view[i];
    }
    FindIsLeastOccurrence(view, "'''", 3);
  }

  /**
   * A multi-line literal string whose text has no `'` reads back as its
   * text when the delimiter is not followed by another quote; a newline
   * right after the opener is dropped, and only that one.
   */
  lemma MultiLiteralRoundTrip(view: View, nl: seq<char>, s: seq<char>, rest: seq<char>)
    requires view == "'''" + nl + s + "'''" + rest
    requires nl == "" || nl == "\n" || nl == "\r\n"
    requires nl == "" ==> !IsPrefix("\n", s) && !IsPrefix("\r\n", s)
    requires forall i :: 0 <= i < |s| ==> s[i] != '\''
    requires rest == [] || rest[0] != '\''
    ensures GetMultiLiteralStringLength(view) == Ok(|nl| + |s| + 6)
    ensures ParseMultiLiteralString(view, |nl| + |s| + 6) == s
  {
    var p := 3 + |nl| + |s|;
    MultiLiteralParts(view, nl, s, rest);
    FirstTripleQuote(view, p);
    MultiLiteralClosing(view);
    MultiLiteralSkipOf(nl, s, rest, view);
  }

  lemma MultiLiteralParts(view: View, nl: seq<char>, s: seq<char>, rest: seq<char>)
    requires view == "'''" + nl + s + "'''" + rest
    requires forall i :: 0 <= i < |nl| ==> nl[i] != '\''
    requires forall i :: 0 <= i < |s| ==> s[i] != '\''
    requires rest == [] || rest[0] != '\''
    ensures var p := 3 + |nl| + |s|;
      (forall i :: 3 <= i < p ==> view[i] != '\'') &&
      view[p .. p + 3] == "'''" &&
      !OccursAt(view, "''''", p) && !OccursAt(view, "'''''", p)
  {
    var body := nl + s;
    assert view == "'''" + body + "'''" + rest;
    var p := 3 + |body|;
    forall i | 3 <= i < p ensures view[i] != '\'' {
      assert view[i] == body[i - 3];
      if i < 3 + |nl| { assert body[i - 3] == nl[i - 3]; } else { assert body[i - 3] == s[i - 3 - |nl|]; }
    }
    assert view[p .. p + 3] == "'''";
    assert p + 4 <= |view| ==> view[p .. p + 4][3] == view[p + 3] == rest[0];
    assert p + 5 <= |view| ==> view[p .. p + 5][3] == view[p + 3] == rest[0];
  }

  lemma MultiLiteralSkipOf(nl: seq<char>, s: seq<char>, rest: seq<char>, view: View)
    requires nl == "" || nl == "\n" || nl == "\r\n"
    requires nl == "" ==> !IsPrefix("\n", s) && !IsPrefix("\r\n", s)
    requires view == "'''" + nl + s + "'''" + rest
    ensures MultiLiteralSkip(view) == |nl|
    ensures view[3 + |nl| .. 3 + |nl| + |s|] == s
  {
    if nl == "" {
      NoNewlineSkip(view, s, rest);
    } else if nl == "\n" {
      assert view[..4] == "'''\n";
      assert view[..5] != "'''\r\n" by { assert view[..5][3] == '\n'; }
    } else {
      assert view[..5] == "'''\r\n";
    }
    MiddleSlice("'''" + nl, s, "'''" + rest, view);
  }

  /** The middle part of a three-part concatenation, sliced back out. */
  lemma MiddleSlice(a: seq<char>, b: seq<char>, c: seq<char>, v: seq<char>)
    requires v == a + b + c
    ensures v[|a| .. |a| + |b|] == b
  {
    assert forall k :: 0 <= k < |b| ==> v[|a| .. |a| + |b|][k] == b[k];
  }

  /** Without a newline after the opener nothing is dropped. */
  lemma NoNewlineSkip(view: View, s: seq<char>, rest: seq<char>)
    requires view == "'''" + s + "'''" + rest
    requires !IsPrefix("\n", s) && !IsPrefix("\r\n", s)
    ensures MultiLiteralSkip(view) == 0
  {
    var t := s + "'''";
    assert view == "'''" + t + rest;
    assert view[3] == t[0] && view[4] == t[1];
    assert s != [] ==> s[..1] == [s[0]];
    assert |s| >= 2 ==> s[..2] == [s[0], s[1]];
    assert view[..5][3] == view[3] && view[..5][4] == view[4] && view[..4][3] == view[3];
  }

  /** An escaped body never starts with a raw newline, so no first newline is dropped from it. */
  lemma EscapeHead(s: seq<char>)
    requires s != []
    ensures Escape(s)[0] != '\n' && Escape(s)[0] != '\r' && Escape(s)[0] != '"'
  {
    assert Escape(s) == EscapeChar(s[0]) + Escape(s[1..]);
  }

  /** The multi-line scanner steps over one escaped character. */
  lemma MultiScanEscapedChar(view: View, i: nat, c: char)
    requires i + |EscapeChar(c)| < |view|
    requires view[i .. i + |EscapeChar(c)|] == EscapeChar(c)
    ensures MultiScan(view, i, false) == MultiScan(view, i + |EscapeChar(c)|, false)
  {
    var h := EscapeChar(c);
    assert view[i] == h[0] && view[i] != '"';
    assert i + 3 <= |view| ==> view[i .. i + 3][0] == view[i];
    if |h| == 2 {
      assert view[i + 1] == h[1];
    }
  }

  /** The multi-line scanner runs over an escaped body to the delimiter right after it. */
  lemma {:induction false} MultiScanEscaped(view: View, i: nat, s: seq<char>, p: nat)
    requires p == i + |Escape(s)| && p + 3 <= |view|
    requires view[i .. p] == Escape(s) && CloseLength(view, p) == 3
    ensures MultiScan(view, i, false) == Ok(p + 3)
    decreases |s|
  {
    if s != [] {
      EscapeSplits(view, p, i, s);
      MultiScanEscaped(view, i + |EscapeChar(s[0])|, s[1..], p);
      MultiScanEscapedChar(view, i, s[0]);
    }
  }

  /** One escaped character decodes to itself in a multi-line basic string too. */
  lemma DecodeMultiEscapedChar(w: View, n: nat, j: nat, c: char)
    requires n < |w| && j + |EscapeChar(c)| <= n
    requires w[j .. j + |EscapeChar(c)|] == EscapeChar(c)
    ensures DecodeMulti(w, n, j) == Prepend([c], DecodeMulti(w, n, j + |EscapeChar(c)|))
  {
    EscapedCharAt(w, j, c);
    assert MultiStep(w, n, j) == Emit([c], j + |EscapeChar(c)|);
  }

  /** The multi-line decoder turns an escaped body back into the text. */
  lemma {:induction false} DecodeMultiEscaped(w: View, n: nat, j: nat, s: seq<char>)
    requires n < |w| && j + |Escape(s)| == n
    requires w[j .. n] == Escape(s)
    ensures DecodeMulti(w, n, j) == Ok(s)
    decreases |s|
  {
    if s != [] {
      var m := j + |EscapeChar(s[0])|;
      EscapeSplits(w, n, j, s);
      DecodeMultiEscaped(w, n, m, s[1..]);
      DecodeMultiEscapedChar(w, n, j, s[0]);
      PrependHead(s);
    }
  }

  lemma MultiQuotedParts(view: View, e: seq<char>, rest: seq<char>)
    requires view == Q3 + e + Q3 + rest
    requires rest == [] || rest[0] != '"'
    ensures view[3 .. 3 + |e|] == e && view[3..][0 .. |e|] == e && CloseLength(view, 3 + |e|) == 3
  {
    var p := 3 + |e|;
    assert view[3..] == e + Q3 + rest;
    assert view[p] == '"' && view[p + 1] == '"' && view[p + 2] == '"';
    assert p + 3 < |view| ==> view[p + 3] == rest[0];
  }

  /**
   * A multi-line basic string written by escaping s is measured up to
   * its closing delimiter when no quote follows that, and decodes back
   * to s.
   */
  lemma MultiStringRoundTrip(view: View, s: seq<char>, rest: seq<char>)
    requires view == Q3 + Escape(s) + Q3 + rest
    requires rest == [] || rest[0] != '"'
    ensures MultiStringLength(view) == Ok(|Escape(s)| + 6)
    ensures MultiStringValue(view, |Escape(s)| + 6) == Ok(s)
  {
    MultiQuotedParts(view, Escape(s), rest);
    MultiLengthOfEscaped(view, s);
    MultiValueOfEscaped(view, s);
  }

  lemma MultiLengthOfEscaped(view: View, s: seq<char>)
    requires |Escape(s)| + 6 <= |view|
    requires view[3 .. 3 + |Escape(s)|] == Escape(s) && CloseLength(view, 3 + |Escape(s)|) == 3
    ensures MultiStringLength(view) == Ok(|Escape(s)| + 6)
  {
    MultiScanEscaped(view, 3, s, 3 + |Escape(s)|);
  }

  lemma MultiValueOfEscaped(view: View, s: seq<char>)
    requires |Escape(s)| + 6 <= |view|
    requires view[3 .. 3 + |Escape(s)|] == Escape(s) && view[3..][0 .. |Escape(s)|] == Escape(s)
    ensures MultiStringValue(view, |Escape(s)| + 6) == Ok(s)
  {
    MultiEscapedNoSkip(s, view);
    DecodeMultiEscaped(view[3..], |Escape(s)|, 0, s);
  }

  lemma MultiEscapedNoSkip(s: seq<char>, view: View)
    requires 6 + |Escape(s)| <= |view| && view[3 .. 3 + |Escape(s)|] == Escape(s)
    ensures MultiSkip(view, |Escape(s)| + 6) == 0
  {
    var e := Escape(s);
    if s != [] {
      EscapeHead(s);
      assert view[3 .. |e| + 3][0] == e[0];
    }
  }
}
