/**
 * How the C++ side reads the text the doctest generators emit: a string
 * expression built from literals, decimal integer literals, the float
 * expressions, an accessor chain `t[..][..]`, and a whole
 * `    CHECK(t<chain>.<name>() == <value>);` line together with the
 * `item_t` member it calls. These are the reference the generators'
 * encoders are proved against.
 */
module CppReading {
  import opened PyTree

  // ---------------------------------------------------------------------
  // String expressions
  // ---------------------------------------------------------------------

  /**
   * Inside a literal, `" + std::string(1, '\0') + "` closes the literal,
   * appends one NUL character and opens the next literal.
   */
  const SPLICE: string := "\" + std::string(1, '\\0') + \""

  predicate IsSplice(s: seq<char>)
  {
    |SPLICE| <= |s| && s[..|SPLICE|] == SPLICE
  }

  /** The character a two-character escape `\x` of this subset stands for. */
  function Unescape(x: char): Option<char>
  {
    if x == '"' then Some('"')
    else if x == '\\' then Some('\\')
    else if x == 'r' then Some('\r')
    else if x == 'n' then Some('\n')
    else if x == 't' then Some('\t')
    else if x == 'b' then Some('\U{0008}')
    else None
  }

  /** What a character contributes: nothing once a raw NUL has ended the literal's C string. */
  function Kept(cut: bool, c: char): string
  {
    if cut then [] else [c]
  }

  function Prepend(x: string, r: Option<(string, seq<char>)>): (p: Option<(string, seq<char>)>)
    ensures p.Some? <==> r.Some?
    ensures p.Some? ==> p.value.1 == r.value.1
  {
    match r
    case Some((v, rest)) => Some((x + v, rest))
    case None => None
  }

  /**
   * The value of a string expression from just after its opening quote to
   * its closing quote, and what follows the closing quote. A literal is a
   * `const char*` where it meets `std::string` (`operator+` and
   * `operator==` stop at its first NUL), so once a raw NUL is seen (`cut`)
   * the rest of that literal adds nothing.
   */
  function ReadLiteral(s: seq<char>, cut: bool): (r: Option<(string, seq<char>)>)
    ensures r.Some? ==> |r.value.1| < |s|
    decreases |s|
  {
    if s == [] then None
    else if IsSplice(s) then Prepend("\0", ReadLiteral(s[|SPLICE|..], false))
    else if s[0] == '"' then Some(([], s[1..]))
    else if s[0] == '\\' then
      if |s| >= 2 && Unescape(s[1]).Some? then Prepend(Kept(cut, Unescape(s[1]).value), ReadLiteral(s[2..], cut))
      else None
    else if s[0] == '\0' then ReadLiteral(s[1..], true)
    else Prepend(Kept(cut, s[0]), ReadLiteral(s[1..], cut))
  }

  /** The C string a character array holds: everything before its first NUL. */
  function UpToNul(s: string): (r: string)
    ensures '\0' !in s ==> r == s
  {
    if s == [] || s[0] == '\0' then [] else [s[0]] + UpToNul(s[1..])
  }

  /** The `std::string` a whole string expression compares equal to. */
  function StringValue(e: seq<char>): Option<string>
  {
    if e != [] && e[0] == '"' then
      match ReadLiteral(e[1..], false)
      case Some((v, rest)) => if rest == [] then Some(v) else None
      case None => None
    else None
  }

  // ---------------------------------------------------------------------
  // Integer and boolean literals
  // ---------------------------------------------------------------------

  function DigitValue(c: char): nat
    requires IsDigit(c)
  {
    c as int - '0' as int
  }

  predicate AllDigits(s: seq<char>)
  {
    forall i :: 0 <= i < |s| ==> IsDigit(s[i])
  }

  /** The value of a string of decimal digits, most significant first. */
  function DigitsValue(s: seq<char>): nat
    requires AllDigits(s)
    decreases |s|
  {
    if s == [] then 0 else DigitsValue(s[..|s| - 1]) * 10 + DigitValue(s[|s| - 1])
  }

  /**
   * A decimal literal: digits with no leading zero (a leading `0` makes an
   * octal literal), or `0` itself.
   */
  function ReadNat(s: seq<char>): (r: Option<nat>)
  {
    if s != [] && AllDigits(s) && (s[0] != '0' || |s| == 1) then Some(DigitsValue(s)) else None
  }

  /** A decimal literal, negated by a leading unary minus. */
  function ReadInt(s: seq<char>): Option<int>
  {
    if s != [] && s[0] == '-' then
      match ReadNat(s[1..])
      case Some(n) => Some(-(n as int))
      case None => None
    else
      match ReadNat(s)
      case Some(n) => Some(n as int)
      case None => None
  }

  function BoolValue(s: seq<char>): Option<bool>
  {
    if s == "true" then Some(true) else if s == "false" then Some(false) else None
  }

  // ---------------------------------------------------------------------
  // Float expressions
  // ---------------------------------------------------------------------

  const INFINITY: string := "std::numeric_limits<double>::infinity()"

  /**
   * `get_float() == e` holds: the infinity expression and its negation
   * match the infinities, `rhs_nan{}` matches a NaN through the
   * `std::isnan` overload the suite declares, and a decimal literal
   * matches every double that compares equal to the one whose shortest
   * text it is: that double alone, except that `0.0` and `-0.0` match
   * each other. Anything else (`inf`, `nan`) is not an expression the
   * suite declares.
   */
  predicate FloatMatches(f: FloatTag, e: string)
  {
    if e == INFINITY then f == PosInf
    else if e == "-" + INFINITY then f == NegInf
    else if e == "rhs_nan{}" then f == NaN
    else IsDecimalText(e) && SameDouble(f, Finite(e))
  }

  /** The shortest texts of the two zeros. */
  predicate IsZeroText(r: string)
  {
    r == "0.0" || r == "-0.0"
  }

  /**
   * Two floats a test cannot tell apart with `==`: the same float, or
   * the two signed zeros, which compare equal as doubles.
   */
  predicate SameDouble(a: FloatTag, b: FloatTag)
  {
    a == b || (a.Finite? && b.Finite? && IsZeroText(a.repr) && IsZeroText(b.repr))
  }

  // ---------------------------------------------------------------------
  // Accessor chains and CHECK lines
  // ---------------------------------------------------------------------

  /** The number of leading decimal digits. */
  function DigitRun(s: seq<char>): (d: nat)
    ensures d <= |s| && AllDigits(s[..d])
    ensures d < |s| ==> !IsDigit(s[d])
    decreases |s|
  {
    if s != [] && IsDigit(s[0]) then
      var d := 1 + DigitRun(s[1..]);
      assert s[..d] == [s[0]] + s[1..][..d - 1];
      d
    else 0
  }

  /** One subscript `[..]` from just after its `[`: a string expression or a decimal index. */
  function ReadKey(s: seq<char>): (r: Option<(Key, seq<char>)>)
    ensures r.Some? ==> |r.value.1| < |s|
  {
    if s != [] && s[0] == '"' then
      match ReadLiteral(s[1..], false)
      case Some((v, rest)) => if rest != [] && rest[0] == ']' then Some((StrKey(v), rest[1..])) else None
      case None => None
    else
      var d := DigitRun(s);
      if d < |s| && s[d] == ']' then
        match ReadNat(s[..d])
        case Some(n) => Some((IntKey(n), s[d + 1..]))
        case None => None
      else None
  }

  /** A chain of subscripts, up to the first character that is not `[`. */
  function ReadPath(s: seq<char>): (r: Option<(seq<Key>, seq<char>)>)
    ensures r.Some? ==> |r.value.1| <= |s|
    decreases |s|
  {
    if s == [] || s[0] != '[' then Some(([], s))
    else
      match ReadKey(s[1..])
      case Some((k, rest)) =>
        (match ReadPath(rest)
         case Some((keys, tail)) => Some(([k] + keys, tail))
         case None => None)
      case None => None
  }

  const CHECK_OPEN: string := "    CHECK(t"
  const CALL_EQ: string := "() == "
  const CHECK_CLOSE: string := ");"

  /** A CHECK line taken apart: the chain's keys, the member called and the text it is compared with. */
  datatype Line = Line(path: seq<Key>, name: string, value: string)

  /** The number of characters before the first `(`. */
  function NameRun(s: seq<char>): (n: nat)
    ensures n <= |s| && '(' !in s[..n]
    ensures n < |s| ==> s[n] == '('
    decreases |s|
  {
    if s != [] && s[0] != '(' then
      var n := 1 + NameRun(s[1..]);
      assert s[..n] == [s[0]] + s[1..][..n - 1];
      n
    else 0
  }

  /** `    CHECK(t<chain>.<name>() == <value>);` */
  function ReadLine(l: seq<char>): Option<Line>
  {
    if |CHECK_OPEN| <= |l| && l[..|CHECK_OPEN|] == CHECK_OPEN then
      match ReadPath(l[|CHECK_OPEN|..])
      case Some((keys, r)) => ReadCall(keys, r)
      case None => None
    else None
  }

  /** The part of a CHECK line after the chain. */
  function ReadCall(keys: seq<Key>, r: seq<char>): Option<Line>
  {
    if r != [] && r[0] == '.' then
      var n := NameRun(r[1..]);
      var after := r[1 + n..];
      if |CALL_EQ| + |CHECK_CLOSE| <= |after| && after[..|CALL_EQ|] == CALL_EQ
         && after[|after| - |CHECK_CLOSE|..] == CHECK_CLOSE
      then Some(Line(keys, r[1..1 + n], after[|CALL_EQ|..|after| - |CHECK_CLOSE|]))
      else None
    else None
  }

  // ---------------------------------------------------------------------
  // The item_t members a CHECK line calls
  // ---------------------------------------------------------------------

  /**
   * The two accessor vocabularies the generators target: tomload's
   * `item_t` (`is_integer`, `is_boolean`, `get_integer`, ...) and the
   * earlier prototype spelled `is_int`, `is_bool`, `get_int`.
   */
  datatype Api = TomloadApi | PrototypeApi

  /** The type test a member name performs. */
  function TestedKind(api: Api, name: string): Option<Kind>
  {
    if name == "is_array" then Some(ArrayKind)
    else if name == "is_table" then Some(TableKind)
    else if name == "is_float" then Some(FloatKind)
    else if name == "is_string" then Some(StrKind)
    else if api == TomloadApi then
      if name == "is_integer" then Some(IntKind)
      else if name == "is_boolean" then Some(BoolKind)
      else None
    else
      if name == "is_int" then Some(IntKind)
      else if name == "is_bool" then Some(BoolKind)
      else None
  }

  /** The scalar a getter name returns. */
  function GotKind(api: Api, name: string): Option<Kind>
  {
    if name == "get_float" then Some(FloatKind)
    else if name == "get_bool" then Some(BoolKind)
    else if name == "get_string" then Some(StrKind)
    else if api == TomloadApi then
      if name == "get_integer" then Some(IntKind) else None
    else
      if name == "get_int" then Some(IntKind) else None
  }

  /** What a CHECK line asserts of the node its chain reaches. */
  datatype Claim =
    | IsKind(kind: Kind)
    | HasSize(n: nat)
    | IntIs(i: int)
    | BoolIs(b: bool)
    | StrIs(s: string)
    | FloatIs(e: string)

  function Interpret(api: Api, name: string, value: string): Option<Claim>
  {
    if name == "size" then
      match ReadNat(value)
      case Some(n) => Some(HasSize(n))
      case None => None
    else if TestedKind(api, name).Some? then
      if value == "true" then Some(IsKind(TestedKind(api, name).value)) else None
    else if GotKind(api, name) == Some(IntKind) then
      match ReadInt(value)
      case Some(i) => Some(IntIs(i))
      case None => None
    else if GotKind(api, name) == Some(BoolKind) then
      match BoolValue(value)
      case Some(b) => Some(BoolIs(b))
      case None => None
    else if GotKind(api, name) == Some(StrKind) then
      match StringValue(value)
      case Some(s) => Some(StrIs(s))
      case None => None
    else if GotKind(api, name) == Some(FloatKind) then Some(FloatIs(value))
    else None
  }

  /** The claim is true of the node. */
  predicate Holds(v: PyValue, c: Claim)
  {
    match c
    case IsKind(k) => KindOf(v) == Some(k)
    case HasSize(n) => IsContainer(v) && Len(v) == n
    case IntIs(i) => v == PyInt(i)
    case BoolIs(b) => v == PyBool(b)
    case StrIs(s) => v == PyStr(s)
    case FloatIs(e) => v.PyFloat? && FloatMatches(v.f, e)
  }

  /** The line is a CHECK whose chain reaches a node of the tree and whose claim is true of that node. */
  predicate LineHolds(api: Api, root: PyValue, l: string)
  {
    match ReadLine(l)
    case Some(Line(path, name, value)) =>
      Lookup(root, path).Some? && Interpret(api, name, value).Some?
      && Holds(Lookup(root, path).value, Interpret(api, name, value).value)
    case None => false
  }
}
