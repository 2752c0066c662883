/**
 * The doctest generators: the literal encoders, the accessor chain, the
 * three kinds of CHECK line and the pre-order walk that prints them.
 * unittest/toml-test/tests2doctest.py, unittest/samples/toml2doctest.py
 * and the root toml2doctest.py share this code and differ in three
 * places, which `Script` selects: whether `c_str` splices NUL
 * characters, whether floats get the infinity and NaN expressions, and
 * the spelling of the accessor names. `print` is modelled as producing
 * the sequence of printed strings.
 */
module DoctestGen {
  import opened PyTree
  import opened CppReading

  datatype Script = TestsToDoctest | SamplesToDoctest | RootToDoctest

  /** The accessor vocabulary each script writes. */
  function ApiOf(g: Script): Api
  {
    if g == RootToDoctest then PrototypeApi else TomloadApi
  }

  // ---------------------------------------------------------------------
  // Literal encoders
  // ---------------------------------------------------------------------

  /** The six entries of `C_STR` all three scripts have. */
  function EscapeSix(c: char): Option<string>
  {
    if c == '"' then Some("\\\"")
    else if c == '\\' then Some("\\\\")
    else if c == '\r' then Some("\\r")
    else if c == '\n' then Some("\\n")
    else if c == '\t' then Some("\\t")
    else if c == '\U{0008}' then Some("\\b")
    else None
  }

  /** `C_STR.get(c, c)` of tests2doctest.py, whose table also maps NUL. */
  function EscapeNul(c: char): string
  {
    if c == '\0' then "\" + std::string(1, '\\0') + \""
    else match EscapeSix(c)
      case Some(e) => e
      case None => [c]
  }

  /** `C_STR.get(c, c)` of the two earlier scripts, which copy NUL as it is. */
  function EscapeRaw(c: char): string
  {
    match EscapeSix(c)
    case Some(e) => e
    case None => [c]
  }

  function NulBody(s: string): string
  {
    if s == [] then [] else EscapeNul(s[0]) + NulBody(s[1..])
  }

  function RawBody(s: string): string
  {
    if s == [] then [] else EscapeRaw(s[0]) + RawBody(s[1..])
  }

  /** `c_str` of tests2doctest.py. */
  function CStr(s: string): string
  {
    "\"" + NulBody(s) + "\""
  }

  /** `c_str` of unittest/samples/toml2doctest.py and toml2doctest.py. */
  function CStrRaw(s: string): string
  {
    "\"" + RawBody(s) + "\""
  }

  function StrText(g: Script, s: string): string
  {
    if g == TestsToDoctest then CStr(s) else CStrRaw(s)
  }

  /** `str.lower` on the ASCII letters. */
  function Lower(s: string): (r: string)
    ensures |r| == |s|
  {
    if s == [] then []
    else [if 'A' <= s[0] <= 'Z' then (s[0] as int + 32) as char else s[0]] + Lower(s[1..])
  }

  /** `c_bool`: `str(b).lower()`. */
  function CBool(b: bool): string
  {
    Lower(if b then "True" else "False")
  }

  /** `str(f)` of a Python float. */
  function PyFloatStr(f: FloatTag): string
  {
    match f
    case PosInf => "inf"
    case NegInf => "-inf"
    case NaN => "nan"
    case Finite(r) => r
  }

  /** `c_float` of the two later scripts. */
  function CFloat(f: FloatTag): string
  {
    if f == PosInf then "std::numeric_limits<double>::infinity()"
    else if f == NegInf then "-std::numeric_limits<double>::infinity()"
    else if f.NaN? then "rhs_nan{}"
    else PyFloatStr(f)
  }

  /** The float converter: `c_float`, or plain `float` formatting in toml2doctest.py. */
  function FloatText(g: Script, f: FloatTag): string
  {
    if g == RootToDoctest then PyFloatStr(f) else CFloat(f)
  }

  function Digit(d: nat): char
    requires d < 10
  {
    ('0' as int + d) as char
  }

  /** `str(n)` of a non-negative int: decimal, no leading zero. */
  function NatText(n: nat): string
  {
    if n < 10 then [Digit(n)] else NatText(n / 10) + [Digit(n % 10)]
  }

  /** `str(i)` of an int. */
  function IntText(i: int): string
  {
    if i < 0 then "-" + NatText(-i) else NatText(i)
  }

  // ---------------------------------------------------------------------
  // Names, chains and CHECK lines
  // ---------------------------------------------------------------------

  /** `TYPE_CHECK[type(val)]`. */
  function TypeName(g: Script, k: Kind): string
  {
    match k
    case ArrayKind => "is_array"
    case TableKind => "is_table"
    case IntKind => if g == RootToDoctest then "is_int" else "is_integer"
    case FloatKind => "is_float"
    case BoolKind => if g == RootToDoctest then "is_bool" else "is_boolean"
    case StrKind => "is_string"
  }

  /** `TYPE_GET[type(val)]`, defined for the four scalar types. */
  function GetterName(g: Script, k: Kind): string
    requires k in {IntKind, FloatKind, BoolKind, StrKind}
  {
    match k
    case IntKind => if g == RootToDoctest then "get_int" else "get_integer"
    case FloatKind => "get_float"
    case BoolKind => "get_bool"
    case StrKind => "get_string"
  }

  /** `f'[{KEY_CONV[type(key)](key)}]'`. */
  function KeyText(g: Script, k: Key): string
  {
    match k
    case IntKey(n) => "[" + NatText(n) + "]"
    case StrKey(s) => "[" + StrText(g, s) + "]"
  }

  /** `''.join(chain_keys(keys))`, root to leaf. */
  function ChainKeys(g: Script, keys: seq<Key>): string
  {
    if keys == [] then [] else KeyText(g, keys[0]) + ChainKeys(g, keys[1..])
  }

  /** The line `check_*` joins: `    CHECK(t`, the chain, then `.<name>() == <value>);`. */
  function CheckLine(g: Script, keys: seq<Key>, name: string, value: string): string
  {
    "    CHECK(t" + ChainKeys(g, keys) + "." + name + "() == " + value + ");"
  }

  /** `check_type`. */
  function CheckType(g: Script, keys: seq<Key>, v: PyValue): string
    requires v != PyOther
  {
    CheckLine(g, keys, TypeName(g, KindOf(v).value), "true")
  }

  /** `check_size`. */
  function CheckSize(g: Script, keys: seq<Key>, v: PyValue): string
    requires IsContainer(v)
  {
    CheckLine(g, keys, "size", NatText(Len(v)))
  }

  /** `VAL_CONV[type(val)](val)`. */
  function ValueText(g: Script, v: PyValue): string
    requires IsScalar(v)
  {
    match v
    case PyInt(i) => IntText(i)
    case PyFloat(f) => FloatText(g, f)
    case PyBool(b) => CBool(b)
    case PyStr(s) => StrText(g, s)
  }

  /** `check_val`. */
  function CheckVal(g: Script, keys: seq<Key>, v: PyValue): string
    requires IsScalar(v)
  {
    CheckLine(g, keys, GetterName(g, KindOf(v).value), ValueText(g, v))
  }

  /** The lines printed for the node itself: its type line, then its size line or its value line. */
  function NodeLines(g: Script, t: PyValue, keys: seq<Key>): seq<string>
  {
    if t == PyOther then []
    else if IsContainer(t) then [CheckType(g, keys, t), CheckSize(g, keys, t)]
    else [CheckType(g, keys, t), CheckVal(g, keys, t)]
  }

  /**
   * `print_accessor(tom, keys)` of tests2doctest.py, `print_check` of the
   * two earlier scripts: the node's lines, then for a container each
   * child's walk, list elements by index and dict entries in order.
   */
  function Accessor(g: Script, t: PyValue, keys: seq<Key>): seq<string>
    decreases t, 0
  {
    NodeLines(g, t, keys) +
    match t
    case PyList(elems) => ListLines(g, elems, keys, 0)
    case PyDict(entries) => DictLines(g, entries, keys, 0)
    case _ => []
  }

  function ListLines(g: Script, elems: seq<PyValue>, keys: seq<Key>, j: nat): seq<string>
    decreases elems, |elems| - j
  {
    if j >= |elems| then []
    else Accessor(g, elems[j], keys + [IntKey(j)]) + ListLines(g, elems, keys, j + 1)
  }

  function DictLines(g: Script, entries: seq<Entry>, keys: seq<Key>, j: nat): seq<string>
    decreases entries, |entries| - j
  {
    if j >= |entries| then []
    else Accessor(g, entries[j].val, keys + [StrKey(entries[j].key)]) + DictLines(g, entries, keys, j + 1)
  }
}
