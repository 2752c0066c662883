/**
 * `parse_main` of tomload/tomload.cpp, the line loop behind the
 * constructor `item_t(view_t)`: at `ini_state` it skips blank lines and
 * comments and reads either a `[header]`, which makes the header's
 * tables exist and becomes the current brackets, or a `keys = value`
 * pair, which is placed below the current brackets; after each of them
 * it waits for a newline, a comment or the end.
 *
 * The C++ loop advances the view and inserts into the root table in
 * place; here the method `ParseMain` does the same on a view and a map
 * and is proved equal to `Statements`, the loop run to its end as a
 * function.
 */
module Document {
  import opened Errors
  import opened StringView14
  import opened ViewT
  import opened Items
  import Tree
  import opened Parser

  /** What `parse_main` skips at `ini_state`: blanks, line breaks and comments. */
  const LINE_SPACES: View := " \t\r\n"

  /**
   * The loop from `ini_state` with the current brackets and the table
   * built so far: skip blank lines and comments; at the end of the input
   * the table is complete.
   */
  function Statements(view: View, brackets: seq<string>, m: map<string, Item>): (r: Result<map<string, Item>>)
    decreases |view|, 5
  {
    var v := AfterSpace(view, LINE_SPACES, true);
    if v == [] then Ok(m) else LineStart(v, brackets, m)
  }

  /** A line that is not blank: a header when it opens with `[`, a pair otherwise. */
  function LineStart(v: View, brackets: seq<string>, m: map<string, Item>): (r: Result<map<string, Item>>)
    decreases |v|, 4
  {
    if StartsWith(v, "[") then Header(After(v, 1), m) else Pair(v, brackets, m)
  }

  /** A header past its `[`: the keys, which become the brackets. */
  function Header(inner: View, m: map<string, Item>): (r: Result<map<string, Item>>)
    decreases |inner|, 3
  {
    match KeysValue(inner)
    case Err(e) => Err(e)
    case Ok(p) => HeaderClose(p.rest, p.value, m)
  }

  /** A header past its keys: `]`, then `insert_empty_table(brackets)`. */
  function HeaderClose(rest: View, brackets: seq<string>, m: map<string, Item>): (r: Result<map<string, Item>>)
    decreases |rest|, 2
  {
    var w := AfterSpace(rest, KEY_SPACES, false);
    if !StartsWith(w, "]") then Err(ParseError("expected ']'"))
    else
      match Tree.InsertEmptyTable(m, brackets)
      case Err(e) => Err(e)
      case Ok(m') =>
        var next := After(w, 1);
        SuffixTrans(next, w, rest);
        LineEnd(next, brackets, m')
  }

  /** A pair: the keys. */
  function Pair(v: View, brackets: seq<string>, m: map<string, Item>): (r: Result<map<string, Item>>)
    decreases |v|, 3
  {
    match KeysValue(v)
    case Err(e) => Err(e)
    case Ok(p) => PairValue(p.rest, p.value, brackets, m)
  }

  /** A pair past its keys: `=` and the blanks after it, then the value. */
  function PairValue(rest: View, keys: seq<string>, brackets: seq<string>, m: map<string, Item>): (r: Result<map<string, Item>>)
    decreases |rest|, 2
  {
    match EqualsNext(rest)
    case Err(e) => Err(e)
    case Ok(x) => PairItem(x, keys, brackets, m)
  }

  /** The view at the value of a pair, past the blanks, the `=` and the blanks after it; or "expected '='". */
  function EqualsNext(rest: View): (r: Result<View>)
    ensures r.Ok? ==> IsSuffix(r.value, rest) && |r.value| < |rest|
  {
    var w := AfterSpace(rest, KEY_SPACES, false);
    if !StartsWith(w, "=") then Err(ParseError("expected '='"))
    else
      var a := After(w, 1);
      var x := AfterSpace(a, KEY_SPACES, false);
      SuffixTrans(a, w, rest);
      SuffixTrans(x, a, rest);
      Ok(x)
  }

  /** The value of a pair: `insert_new_table(brackets, keys, parse_item(view))`. */
  function PairItem(x: View, keys: seq<string>, brackets: seq<string>, m: map<string, Item>): (r: Result<map<string, Item>>)
    decreases |x|, 1
  {
    match ItemValue(x)
    case Err(e) => Err(e)
    case Ok(q) =>
      match Tree.InsertNewTable(m, brackets, keys, q.value)
      case Err(e) => Err(e)
      case Ok(m') => LineEnd(q.rest, brackets, m')
  }

  /** The loop past `ini_state`: `wait_newline`, or "expected newline". */
  function LineEnd(view: View, brackets: seq<string>, m: map<string, Item>): (r: Result<map<string, Item>>)
    decreases |view|, 6
  {
    var p := NewlineWait(view);
    if p.value then Statements(p.rest, brackets, m) else Err(ParseError("expected newline"))
  }

  /** What `item_t(view)` builds: `parse_main` on an empty root table, read as a table. */
  function Load(view: View): (r: Result<Item>)
    ensures r.Ok? ==> r.value.Table?
  {
    match Statements(view, [], map[])
    case Err(e) => Err(e)
    case Ok(m) => Ok(Table(m))
  }

  // ---------------------------------------------------------------------
  // The loop of parse_main
  // ---------------------------------------------------------------------

  /**
   * The state of the `parse_main` loop: running over the view with the
   * current brackets and table at `ini_state` or past it, or finished
   * with the outcome of the whole loop.
   */
  datatype Stage = Stop(r: Result<map<string, Item>>) | Go(v: View, brackets: seq<string>, m: map<string, Item>, ini: bool)

  /** What the loop yields from a running state. */
  function Run(s: Stage): (r: Result<map<string, Item>>)
    requires s.Go?
  {
    if s.ini then Statements(s.v, s.brackets, s.m) else LineEnd(s.v, s.brackets, s.m)
  }

  /** The loop variant: the view shrinks across `ini_state`, and stays while leaving it. */
  function Measure(s: Stage): nat
    requires s.Go?
  {
    2 * |s.v| + (if s.ini then 0 else 1)
  }

  /** One pass ends the loop with the outcome target, or goes on from a state with that outcome and a smaller variant. */
  predicate Advances(s: Stage, target: Result<map<string, Item>>, bound: nat)
  {
    (s.Stop? ==> s.r == target) && (s.Go? ==> Run(s) == target && Measure(s) < bound)
  }

  /** `parse_main`, run on the root table `m`. */
  method ParseMain(view: View, m: map<string, Item>) returns (r: Result<map<string, Item>>)
    ensures r == Statements(view, [], m)
  {
    var s := Go(view, [], m, true);
    while true
      invariant s.Go? && Run(s) == Statements(view, [], m)
      decreases Measure(s)
    {
      var next := Iteration(s);
      if next.Stop? {
        return next.r;
      }
      s := next;
    }
  }

  /** One pass of the `for(;;)`. */
  method Iteration(s: Stage) returns (next: Stage)
    requires s.Go?
    ensures Advances(next, Run(s), Measure(s))
  {
    if s.ini {
      var v := SkipSpace(s.v, LINE_SPACES, true);
      if v == [] {
        return Stop(Ok(s.m));
      }
      next := LineIteration(v, s.brackets, s.m);
    } else {
      var ok, rest := WaitNewline(s.v);
      if !ok {
        return Stop(Err(ParseError("expected newline")));
      }
      next := Go(rest, s.brackets, s.m, true);
    }
  }

  /** A header or a pair at `ini_state`. */
  method LineIteration(v: View, brackets: seq<string>, m: map<string, Item>) returns (next: Stage)
    requires v != []
    ensures Advances(next, LineStart(v, brackets, m), 2 * |v|)
  {
    if StartsWith(v, "[") {
      next := HeaderIteration(After(v, 1), m);
    } else {
      next := PairIteration(v, brackets, m);
    }
  }

  /** A header past its `[`. */
  method HeaderIteration(inner: View, m: map<string, Item>) returns (next: Stage)
    ensures Advances(next, Header(inner, m), 2 * |inner| + 1)
  {
    var keys := ParseKeys(inner);
    if keys.Err? {
      return Stop(Err(keys.error));
    }
    var w := SkipSpace(keys.value.rest, KEY_SPACES, false);
    if !StartsWith(w, "]") {
      return Stop(Err(ParseError("expected ']'")));
    }
    var t := Tree.InsertEmptyTable(m, keys.value.value);
    if t.Err? {
      return Stop(Err(t.error));
    }
    return Go(After(w, 1), keys.value.value, t.value, false);
  }

  /** A pair: its keys. */
  method PairIteration(v: View, brackets: seq<string>, m: map<string, Item>) returns (next: Stage)
    ensures Advances(next, Pair(v, brackets, m), 2 * |v|)
  {
    var keys := ParseKeys(v);
    if keys.Err? {
      return Stop(Err(keys.error));
    }
    next := PairValueIteration(keys.value.rest, keys.value.value, brackets, m);
  }

  /** A pair past its keys. */
  method PairValueIteration(rest: View, keys: seq<string>, brackets: seq<string>, m: map<string, Item>) returns (next: Stage)
    ensures Advances(next, PairValue(rest, keys, brackets, m), 2 * |rest|)
  {
    var x := EqualsSign(rest);
    if x.Err? {
      return Stop(Err(x.error));
    }
    next := PairItemIteration(x.value, keys, brackets, m);
  }

  /** The `=` of a pair and the blanks around it. */
  method EqualsSign(rest: View) returns (x: Result<View>)
    ensures x == EqualsNext(rest)
  {
    var w := SkipSpace(rest, KEY_SPACES, false);
    if !StartsWith(w, "=") {
      return Err(ParseError("expected '='"));
    }
    var v := SkipSpace(After(w, 1), KEY_SPACES, false);
    return Ok(v);
  }

  /** The value of a pair, and its insertion. */
  method PairItemIteration(x: View, keys: seq<string>, brackets: seq<string>, m: map<string, Item>) returns (next: Stage)
    ensures Advances(next, PairItem(x, keys, brackets, m), 2 * |x|)
  {
    var item := ParseItem(x);
    if item.Err? {
      return Stop(Err(item.error));
    }
    var t := Tree.InsertNewTable(m, brackets, keys, item.value.value);
    if t.Err? {
      return Stop(Err(t.error));
    }
    return Go(item.value.rest, brackets, t.value, false);
  }

  // ---------------------------------------------------------------------
  // What parse_main builds
  // ---------------------------------------------------------------------

  /** skip_space with comments leaves blank text entirely, so blank input is the table as it was. */
  lemma BlankStatements(view: View, brackets: seq<string>, m: map<string, Item>)
    ensures Blank(view, LINE_SPACES) ==> Statements(view, brackets, m) == Ok(m)
  {
    if Blank(view, LINE_SPACES) {
      BlankSkipsAll(view, LINE_SPACES);
    }
  }

  /** Empty, blank or comment-only input loads as an empty table. */
  lemma BlankLoad(view: View)
    requires Blank(view, LINE_SPACES)
    ensures Load(view) == Ok(Table(map[]))
  {
    BlankStatements(view, [], map[]);
  }

  /** A line of a document written with bare dotted keys: a header, or a pair with a boolean value. */
  datatype Line = HeaderLine(keys: seq<string>) | PairLine(keys: seq<string>, value: bool)

  /** Keys that can be written bare, with dots between them. */
  predicate GoodKeys(ks: seq<string>)
  {
    ks != [] && forall i :: 0 <= i < |ks| ==> BareKey(ks[i])
  }

  predicate GoodLines(lines: seq<Line>)
  {
    forall i :: 0 <= i < |lines| ==> GoodKeys(lines[i].keys)
  }

  /** How a boolean is written. */
  function Word(b: bool): seq<char>
  {
    if b then "true" else "false"
  }

  /** `[a.b]` or `a.b=true`, each ended by a line feed. */
  function LineText(l: Line): seq<char>
    requires GoodKeys(l.keys)
  {
    match l
    case HeaderLine(ks) => "[" + Dotted(ks) + "]\n"
    case PairLine(ks, b) => Dotted(ks) + "=" + Word(b) + "\n"
  }

  /** A document: its lines one after the other. */
  function Text(lines: seq<Line>): seq<char>
    requires GoodLines(lines)
  {
    if lines == [] then [] else LineText(lines[0]) + Text(lines[1..])
  }

  /**
   * What one line does to the current brackets and the table: a header
   * makes its tables exist and becomes the brackets; a pair places its
   * value at the brackets followed by its keys.
   */
  function Apply(l: Line, brackets: seq<string>, m: map<string, Item>): Result<(seq<string>, map<string, Item>)>
  {
    match l
    case HeaderLine(ks) =>
      (match Tree.InsertEmptyTable(m, ks)
       case Err(e) => Err(e)
       case Ok(m') => Ok((ks, m')))
    case PairLine(ks, b) =>
      (match Tree.InsertNewTable(m, brackets, ks, Boolean(b))
       case Err(e) => Err(e)
       case Ok(m') => Ok((brackets, m')))
  }

  /** The lines applied in order, stopping at the first error. */
  function Build(lines: seq<Line>, brackets: seq<string>, m: map<string, Item>): Result<map<string, Item>>
    decreases |lines|
  {
    if lines == [] then Ok(m)
    else
      match Apply(lines[0], brackets, m)
      case Err(e) => Err(e)
      case Ok((b, m')) => Build(lines[1..], b, m')
  }

  /** The loop going on at `ini_state` over rest after one line did a. */
  function Continue(a: Result<(seq<string>, map<string, Item>)>, rest: View): Result<map<string, Item>>
  {
    match a
    case Err(e) => Err(e)
    case Ok((b, m')) => Statements(rest, b, m')
  }

  /** The error a line ends a parse with, unless placing it failed first. */
  function Refused(a: Result<(seq<string>, map<string, Item>)>, e: Error): Result<map<string, Item>>
  {
    match a
    case Err(e') => Err(e')
    case Ok(_) => Err(e)
  }

  /** How a nonempty document splits into its first line and the others. */
  lemma TextCons(lines: seq<Line>)
    ensures GoodLines(lines) && lines != [] ==>
              GoodKeys(lines[0].keys) && GoodLines(lines[1..]) && Text(lines) == LineText(lines[0]) + Text(lines[1..])
  {
    if GoodLines(lines) && lines != [] {
      assert GoodKeys(lines[0].keys);
      assert forall i :: 0 <= i < |lines[1..]| ==> lines[1..][i] == lines[i + 1];
    }
  }

  /** A bare-key character is neither a blank, a line break, `#`, `[`, `.` nor `=`. */
  lemma BareCharIsNone(c: char)
    ensures DetailString.IsBareChar(c) ==> c !in LINE_SPACES && c != '#' && c != '[' && c != '.' && c != '='
  {
  }

  /** The characters that come right after keys in a line. */
  lemma KeyEnds()
    ensures !DetailString.IsBareChar(']') && ']' !in KEY_SPACES
    ensures !DetailString.IsBareChar('=') && '=' !in KEY_SPACES
  {
  }

  /** A line feed is what `wait_newline` consumes. */
  lemma NewlineAt(t: View, rest: seq<char>)
    ensures t == "\n" + rest ==> NewlineWait(t) == Parsed(true, rest)
  {
    if t == "\n" + rest {
      AfterSpaceStays(t, " \t\r");
      WaitNewlineRest(t, t);
      assert t[1..] == rest;
    }
  }

  /** After the keys of a header: `]` right away, then a line feed. */
  lemma CloseText(t: View, rest: seq<char>)
    ensures t == "]\n" + rest ==>
              AfterSpace(t, KEY_SPACES, false) == t && StartsWith(t, "]") && NewlineWait(After(t, 1)) == Parsed(true, rest)
  {
    if t == "]\n" + rest {
      AfterSpaceStays(t, KEY_SPACES);
      assert t[..1] == "]";
      assert t[1..] == "\n" + rest;
      NewlineAt(t[1..], rest);
    }
  }

  /** `]` and a line feed close a header: its tables are made, and the loop goes on with it as the brackets. */
  lemma HeaderCloseStep(t: View, rest: seq<char>, keys: seq<string>, brackets: seq<string>, m: map<string, Item>)
    ensures t == "]\n" + rest ==> HeaderClose(t, keys, m) == Continue(Apply(HeaderLine(keys), brackets, m), rest)
  {
    CloseText(t, rest);
  }

  /** `]` and then whatever wait_newline accepts close a header. */
  lemma ClosedBy(t: View, u: View, rest: View, keys: seq<string>, brackets: seq<string>, m: map<string, Item>)
    ensures t == "]" + u && NewlineWait(u) == Parsed(true, rest) ==>
              HeaderClose(t, keys, m) == Continue(Apply(HeaderLine(keys), brackets, m), rest)
  {
    CloseAt(t, u);
  }

  lemma CloseAt(t: View, u: View)
    ensures t == "]" + u ==> AfterSpace(t, KEY_SPACES, false) == t && StartsWith(t, "]") && After(t, 1) == u
  {
    if t == "]" + u {
      AfterSpaceStays(t, KEY_SPACES);
      assert t[..1] == "]" && t[1..] == u;
    }
  }

  /** The front of a header line: nothing to skip, the `[`, and the keys after it. */
  lemma HeaderFront(view: View, keys: seq<string>, t: View) returns (inner: View)
    ensures GoodKeys(keys) && view == "[" + Dotted(keys) + t ==>
              AfterSpace(view, LINE_SPACES, true) == view && StartsWith(view, "[") &&
              inner == After(view, 1) && inner == Dotted(keys) + t
  {
    inner := view;
    if GoodKeys(keys) && view == "[" + Dotted(keys) + t {
      AfterSpaceStaysComment(view, LINE_SPACES);
      assert view[..1] == "[";
      inner := view[1..];
      assert inner == Dotted(keys) + t;
    }
  }

  /** A header line: its front, then `]` and a line feed after the keys. */
  lemma HeaderText(view: View, keys: seq<string>, rest: View) returns (inner: View, t: View)
    ensures GoodKeys(keys) && view == "[" + Dotted(keys) + "]\n" + rest ==>
              AfterSpace(view, LINE_SPACES, true) == view && StartsWith(view, "[") &&
              inner == After(view, 1) && inner == Dotted(keys) + t && t == "]\n" + rest &&
              KeyEnd(t)
  {
    inner, t := view, view;
    if GoodKeys(keys) && view == "[" + Dotted(keys) + "]\n" + rest {
      t := "]\n" + rest;
      assert view == "[" + Dotted(keys) + t;
      inner := HeaderFront(view, keys, t);
      KeyEnds();
    }
  }

  /** What follows keys starts with a character that neither goes on with a key, nor is a dot or a blank. */
  predicate KeyEnd(t: seq<char>)
  {
    t != [] && !DetailString.IsBareChar(t[0]) && t[0] != '.' && t[0] !in KEY_SPACES
  }

  /** Keys followed by a KeyEnd are read whole. */
  lemma KeysAt(inner: View, keys: seq<string>, t: View)
    ensures GoodKeys(keys) && inner == Dotted(keys) + t && KeyEnd(t) ==> KeysValue(inner) == Ok(Parsed(keys, t))
  {
    if GoodKeys(keys) && inner == Dotted(keys) + t && KeyEnd(t) {
      DottedKeysRoundTrip(inner, keys, t);
    }
  }

  /** A line with nothing to skip in front. */
  lemma LineAt(view: View, brackets: seq<string>, m: map<string, Item>)
    ensures view != [] && AfterSpace(view, LINE_SPACES, true) == view ==>
              Statements(view, brackets, m) == LineStart(view, brackets, m)
  {
  }

  /** A line that opens with `[` is a header. */
  lemma HeaderAt(view: View, inner: View, brackets: seq<string>, m: map<string, Item>)
    ensures StartsWith(view, "[") && inner == After(view, 1) ==> LineStart(view, brackets, m) == Header(inner, m)
  {
  }

  /** A header's keys, once read, are the brackets it closes. */
  lemma HeaderKeys(inner: View, keys: seq<string>, t: View, m: map<string, Item>)
    ensures KeysValue(inner) == Ok(Parsed(keys, t)) ==> Header(inner, m) == HeaderClose(t, keys, m)
  {
  }

  /** A header line makes its tables exist and becomes the brackets. */
  lemma HeaderStep(view: View, keys: seq<string>, rest: View, brackets: seq<string>, m: map<string, Item>)
    ensures GoodKeys(keys) && view == "[" + Dotted(keys) + "]\n" + rest ==>
              Statements(view, brackets, m) == Continue(Apply(HeaderLine(keys), brackets, m), rest)
  {
    var inner, t := HeaderText(view, keys, rest);
    LineAt(view, brackets, m);
    HeaderAt(view, inner, brackets, m);
    KeysAt(inner, keys, t);
    HeaderKeys(inner, keys, t, m);
    HeaderCloseStep(t, rest, keys, brackets, m);
  }

  /** Bare dotted keys start with the first character of the first key. */
  lemma DottedHead(ks: seq<string>)
    ensures GoodKeys(ks) ==> Dotted(ks) != [] && Dotted(ks)[0] == ks[0][0] && DetailString.IsBareChar(ks[0][0])
  {
    if GoodKeys(ks) {
      assert BareKey(ks[0]);
      if |ks| > 1 {
        assert Dotted(ks) == ks[0] + ("." + Dotted(ks[1..]));
      }
    }
  }

  /** The pieces of a pair line: the keys, the `=`, the word and the line feed. */
  lemma PairText(view: View, keys: seq<string>, b: bool, c: char, rest: View) returns (t: View, x: View, u: View)
    ensures GoodKeys(keys) && view == Dotted(keys) + "=" + Word(b) + [c] + rest ==>
              AfterSpace(view, LINE_SPACES, true) == view && !StartsWith(view, "[") &&
              view == Dotted(keys) + t && t == "=" + x && x == Word(b) + u && u == [c] + rest &&
              KeyEnd(t) && x[0] !in KEY_SPACES
  {
    t, x, u := view, view, view;
    if GoodKeys(keys) && view == Dotted(keys) + "=" + Word(b) + [c] + rest {
      DottedHead(keys);
      var d, w := Dotted(keys), Word(b);
      assert |view| == |d| + 1 + |w| + 1 + |rest|;
      u := [c] + rest;
      x := w + u;
      t := "=" + x;
      assert x[0] == w[0];
      Regroup(d, w, c, rest);
      assert view[0] == d[0];
      BareCharIsNone(view[0]);
      AfterSpaceStaysComment(view, LINE_SPACES);
      NotPrefixAt("[", view, 0);
      KeyEnds();
    }
  }

  /** The pieces of a pair line, grouped from the right. */
  lemma Regroup(d: seq<char>, w: seq<char>, c: char, rest: seq<char>)
    ensures d + "=" + w + [c] + rest == d + ("=" + (w + ([c] + rest)))
  {
  }

  /** A pair's `=` with no blanks around it. */
  lemma EqualsAt(t: View, x: View)
    ensures t == "=" + x && (x == [] || x[0] !in KEY_SPACES) ==> EqualsNext(t) == Ok(x)
  {
    if t == "=" + x && (x == [] || x[0] !in KEY_SPACES) {
      assert t[0] == '=' && t[..1] == "=" && t[1..] == x;
      AfterSpaceStays(t, KEY_SPACES);
      AfterSpaceStays(x, KEY_SPACES);
    }
  }

  /** A boolean word is parsed as its item. */
  lemma WordAt(x: View, b: bool, u: seq<char>)
    ensures x == Word(b) + u ==> ItemValue(x) == Ok(Parsed(Boolean(b), u))
  {
    if x == Word(b) + u {
      FixedWordItem(if b then 0 else 1, x, u);
    }
  }

  /** The value of a pair line and its line feed: the value is placed, and the loop goes on. */
  lemma PairItemStep(x: View, keys: seq<string>, b: bool, u: View, rest: View, brackets: seq<string>, m: map<string, Item>)
    ensures x == Word(b) + u && u == "\n" + rest ==>
              PairItem(x, keys, brackets, m) == Continue(Apply(PairLine(keys, b), brackets, m), rest)
  {
    WordAt(x, b, u);
    NewlineAt(u, rest);
  }

  /** A line that does not open with `[` is a pair. */
  lemma PairAt(view: View, brackets: seq<string>, m: map<string, Item>)
    ensures !StartsWith(view, "[") ==> LineStart(view, brackets, m) == Pair(view, brackets, m)
  {
  }

  /** A pair's keys, once read, are where its value goes. */
  lemma PairKeys(view: View, keys: seq<string>, t: View, brackets: seq<string>, m: map<string, Item>)
    ensures KeysValue(view) == Ok(Parsed(keys, t)) ==> Pair(view, brackets, m) == PairValue(t, keys, brackets, m)
  {
  }

  /** Past a pair's `=`, its value. */
  lemma PairEquals(t: View, x: View, keys: seq<string>, brackets: seq<string>, m: map<string, Item>)
    ensures EqualsNext(t) == Ok(x) ==> PairValue(t, keys, brackets, m) == PairItem(x, keys, brackets, m)
  {
  }

  /** A pair line places its value below the current brackets. */
  lemma PairStep(view: View, keys: seq<string>, b: bool, rest: View, brackets: seq<string>, m: map<string, Item>)
    ensures GoodKeys(keys) && view == Dotted(keys) + "=" + Word(b) + "\n" + rest ==>
              Statements(view, brackets, m) == Continue(Apply(PairLine(keys, b), brackets, m), rest)
  {
    var t, x, u := PairText(view, keys, b, '\n', rest);
    LineAt(view, brackets, m);
    PairAt(view, brackets, m);
    KeysAt(view, keys, t);
    PairKeys(view, keys, t, brackets, m);
    EqualsAt(t, x);
    PairEquals(t, x, keys, brackets, m);
    PairItemStep(x, keys, b, u, rest, brackets, m);
  }

  /** Any line at `ini_state` does what Apply says, and the loop goes on after it. */
  lemma LineStep(l: Line, rest: View, brackets: seq<string>, m: map<string, Item>)
    ensures GoodKeys(l.keys) && |LineText(l) + rest| < NPOS ==>
              Statements(LineText(l) + rest, brackets, m) == Continue(Apply(l, brackets, m), rest)
  {
    if GoodKeys(l.keys) && |LineText(l) + rest| < NPOS {
      var view: View := LineText(l) + rest;
      match l
      case HeaderLine(ks) => HeaderStep(view, ks, rest, brackets, m);
      case PairLine(ks, b) => PairStep(view, ks, b, rest, brackets, m);
    }
  }

  /**
   * A document of headers and pairs is read line by line: headers make
   * their tables and become the brackets, pairs are placed below the
   * most recent header, and the first failing insertion is the error.
   */
  lemma {:induction false} DocumentRoundTrip(lines: seq<Line>, brackets: seq<string>, m: map<string, Item>)
    ensures GoodLines(lines) && |Text(lines)| < NPOS ==> Statements(Text(lines), brackets, m) == Build(lines, brackets, m)
    decreases |lines|
  {
    if GoodLines(lines) && |Text(lines)| < NPOS && lines != [] {
      TextCons(lines);
      var rest: View := Text(lines[1..]);
      LineStep(lines[0], rest, brackets, m);
      match Apply(lines[0], brackets, m)
      case Err(_) =>
      case Ok((b, m')) => DocumentRoundTrip(lines[1..], b, m');
    }
  }

  /** `item_t(view)` on such a document is the table Build makes from an empty one. */
  lemma LoadRoundTrip(lines: seq<Line>)
    requires GoodLines(lines) && |Text(lines)| < NPOS
    ensures Load(Text(lines)) == (match Build(lines, [], map[])
                                  case Err(e) => Err(e)
                                  case Ok(m) => Ok(Table(m)))
  {
    DocumentRoundTrip(lines, [], map[]);
  }

  // ---------------------------------------------------------------------
  // The errors of parse_main
  // ---------------------------------------------------------------------

  /** Where the keys of a header are not followed by `]`. */
  lemma NotCloseAt(t: View)
    ensures KeyEnd(t) && t[0] != ']' ==> AfterSpace(t, KEY_SPACES, false) == t && !StartsWith(t, "]")
  {
    if KeyEnd(t) && t[0] != ']' {
      AfterSpaceStays(t, KEY_SPACES);
      NotPrefixAt("]", t, 0);
    }
  }

  lemma UnclosedAt(t: View, keys: seq<string>, m: map<string, Item>)
    ensures KeyEnd(t) && t[0] != ']' ==> HeaderClose(t, keys, m) == Err(ParseError("expected ']'"))
  {
    NotCloseAt(t);
  }

  /** A header whose keys are followed by anything but `]` (or blanks and `]`) is "expected ']'". */
  lemma HeaderUnclosed(view: View, keys: seq<string>, t: View, brackets: seq<string>, m: map<string, Item>)
    ensures GoodKeys(keys) && view == "[" + Dotted(keys) + t && KeyEnd(t) && t[0] != ']' ==>
              Statements(view, brackets, m) == Err(ParseError("expected ']'"))
  {
    var inner := HeaderFront(view, keys, t);
    LineAt(view, brackets, m);
    HeaderAt(view, inner, brackets, m);
    KeysAt(inner, keys, t);
    HeaderKeys(inner, keys, t, m);
    UnclosedAt(t, keys, m);
  }

  /** The front of a pair line: nothing to skip and no `[`. */
  lemma PairFront(view: View, keys: seq<string>, t: View)
    ensures GoodKeys(keys) && view == Dotted(keys) + t ==>
              !StartsWith(view, "[") && view != [] && AfterSpace(view, LINE_SPACES, true) == view
  {
    if GoodKeys(keys) && view == Dotted(keys) + t {
      DottedHead(keys);
      assert view[0] == Dotted(keys)[0];
      BareCharIsNone(view[0]);
      AfterSpaceStaysComment(view, LINE_SPACES);
      NotPrefixAt("[", view, 0);
    }
  }

  /** Where the keys of a pair are not followed by `=`. */
  lemma NoEqualsAt(t: View)
    ensures KeyEnd(t) && t[0] != '=' ==> EqualsNext(t) == Err(ParseError("expected '='"))
  {
    if KeyEnd(t) && t[0] != '=' {
      AfterSpaceStays(t, KEY_SPACES);
      NotPrefixAt("=", t, 0);
    }
  }

  lemma NoEqualsValue(t: View, keys: seq<string>, brackets: seq<string>, m: map<string, Item>)
    ensures KeyEnd(t) && t[0] != '=' ==> PairValue(t, keys, brackets, m) == Err(ParseError("expected '='"))
  {
    NoEqualsAt(t);
  }

  /** Keys at the start of a line followed by anything but `=` (or blanks and `=`) are "expected '='". */
  lemma PairWithoutEquals(view: View, keys: seq<string>, t: View, brackets: seq<string>, m: map<string, Item>)
    ensures GoodKeys(keys) && view == Dotted(keys) + t && KeyEnd(t) && t[0] != '=' ==>
              Statements(view, brackets, m) == Err(ParseError("expected '='"))
  {
    PairFront(view, keys, t);
    LineAt(view, brackets, m);
    PairAt(view, brackets, m);
    KeysAt(view, keys, t);
    PairKeys(view, keys, t, brackets, m);
    NoEqualsValue(t, keys, brackets, m);
  }

  /** What `wait_newline` refuses: anything but a blank, a CR, a line feed or a `#` right away. */
  lemma NoNewlineAt(u: View, c: char, rest: View)
    ensures u == [c] + rest && c !in LINE_SPACES && c != '#' ==> !NewlineWait(u).value
  {
    if u == [c] + rest && c !in LINE_SPACES && c != '#' {
      assert u[0] == c;
      AfterSpaceStays(u, " \t\r");
      WaitNewlineValue(u, u);
    }
  }

  lemma JunkAfterItem(x: View, keys: seq<string>, b: bool, u: View, c: char, rest: View, brackets: seq<string>, m: map<string, Item>)
    ensures x == Word(b) + u && u == [c] + rest && c !in LINE_SPACES && c != '#' ==>
              PairItem(x, keys, brackets, m) == Refused(Apply(PairLine(keys, b), brackets, m), ParseError("expected newline"))
  {
    WordAt(x, b, u);
    NoNewlineAt(u, c, rest);
  }

  /**
   * A pair whose value is followed by anything but blanks, a line break,
   * a comment or the end is "expected newline", once its value is placed.
   */
  lemma MissingNewline(view: View, keys: seq<string>, b: bool, c: char, rest: View, brackets: seq<string>, m: map<string, Item>)
    ensures GoodKeys(keys) && view == Dotted(keys) + "=" + Word(b) + [c] + rest && c !in LINE_SPACES && c != '#' ==>
              Statements(view, brackets, m) == Refused(Apply(PairLine(keys, b), brackets, m), ParseError("expected newline"))
  {
    var t, x, u := PairText(view, keys, b, c, rest);
    LineAt(view, brackets, m);
    PairAt(view, brackets, m);
    KeysAt(view, keys, t);
    PairKeys(view, keys, t, brackets, m);
    EqualsAt(t, x);
    PairEquals(t, x, keys, brackets, m);
    JunkAfterItem(x, keys, b, u, c, rest, brackets, m);
  }

  // ---------------------------------------------------------------------
  // A header followed by a comment
  // ---------------------------------------------------------------------

  /** The pieces of `[aa]  #comm` and its line feed. */
  lemma CommentText() returns (view: View, keys: seq<string>, t: View, u: View, nl: View)
    ensures view == "[aa]  #comm\n" && keys == ["aa"] && GoodKeys(keys) && view == "[" + Dotted(keys) + t
    ensures KeyEnd(t) && t == "]" + u && NewlineWait(u) == Parsed(true, nl) && nl == "\n"
  {
    view, keys, t, u := CommentWords();
    nl := "\n";
    KeyEnds();
    CommentLine();
  }

  lemma CommentWords() returns (view: View, keys: seq<string>, t: View, u: View)
    ensures view == "[aa]  #comm\n" && keys == ["aa"] && GoodKeys(keys) && view == "[" + Dotted(keys) + t
    ensures t == "]" + u && u == "  #comm\n"
  {
    view, keys, u := "[aa]  #comm\n", ["aa"], "  #comm\n";
    t := "]" + u;
    assert BareKey(keys[0]);
    var d := Dotted(keys);
    assert d == "aa";
    assert |"[" + d + t| == |view|;
    assert forall i :: 0 <= i < |view| ==> ("[" + d + t)[i] == view[i];
  }

  /** wait_newline on `  #comm` and a line feed drops the blanks and the comment, and stops at the line feed. */
  lemma CommentLine()
    ensures NewlineWait("  #comm\n") == Parsed(true, "\n")
  {
    var u: View, c: View, nl: View := "  #comm\n", "#comm\n", "\n";
    AfterBlanks(u, "  ", c, " \t\r");
    WaitNewlineComment(u, c);
    CommentDrop(c, nl);
  }

  lemma CommentDrop(c: View, nl: View)
    requires c == "#comm\n" && nl == "\n"
    ensures DropComment(c) == nl
  {
    var text := "#comm";
    assert forall i :: 0 <= i < |text| ==> text[i] != '\n';
    DropCommentAt(c, text, nl);
  }

  /** `[aa]` makes the table aa, empty. */
  lemma OneHeader()
    ensures Apply(HeaderLine(["aa"]), [], map[]) == Ok((["aa"], map["aa" := Table(map[])]))
  {
    assert Tree.Descend(map[], "aa") == Ok(map[]);
    assert ["aa"][1..] == [];
  }

  /**
   * The document `[aa]  #comm` and a line feed holds one key, aa, an
   * empty table: the header makes its table before any pair.
   */
  lemma CommentAfterHeader()
    ensures Load("[aa]  #comm\n") == Ok(Table(map["aa" := Table(map[])]))
  {
    var view, keys, t, u, nl := CommentText();
    HeaderLineBy(view, keys, t, u, nl, [], map[]);
    OneHeader();
    BlankStatements(nl, keys, map["aa" := Table(map[])]);
  }

  /** A header closed by `]` and by anything wait_newline accepts makes its tables, and the loop goes on. */
  lemma HeaderLineBy(view: View, keys: seq<string>, t: View, u: View, rest: View, brackets: seq<string>, m: map<string, Item>)
    ensures GoodKeys(keys) && view == "[" + Dotted(keys) + t && KeyEnd(t) && t == "]" + u && NewlineWait(u) == Parsed(true, rest) ==>
              Statements(view, brackets, m) == Continue(Apply(HeaderLine(keys), brackets, m), rest)
  {
    var inner := HeaderFront(view, keys, t);
    LineAt(view, brackets, m);
    HeaderAt(view, inner, brackets, m);
    KeysAt(inner, keys, t);
    HeaderKeys(inner, keys, t, m);
    ClosedBy(t, u, rest, keys, brackets, m);
  }
}
