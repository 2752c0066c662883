/**
 * What the generators' encoders mean to the C++ side: each encoded string,
 * integer, boolean and float reads back as the Python value it came from,
 * and an accessor chain and a CHECK line read back as the path, name and
 * value they were built from.
 */
module DoctestLiterals {
  import opened PyTree
  import opened CppReading
  import opened DoctestGen

  // ---------------------------------------------------------------------
  // Strings
  // ---------------------------------------------------------------------

  /** A closing quote not followed by ` ` is not a splice, so it ends the literal. */
  lemma QuoteEnds(input: seq<char>, tail: seq<char>, cut: bool)
    requires input == "\"" + tail
    requires tail == [] || tail[0] != ' '
    ensures ReadLiteral(input, cut) == Some(([], tail))
  {
    if |SPLICE| <= |input| {
      assert input[..|SPLICE|][1] != SPLICE[1];
    }
  }

  /** The NUL splice stands for one NUL character. */
  lemma SpliceReads(rest: seq<char>, input: seq<char>)
    requires input == SPLICE + rest
    ensures ReadLiteral(input, false) == Prepend("\0", ReadLiteral(rest, false))
  {
    assert input[..|SPLICE|] == SPLICE;
    assert input[|SPLICE|..] == rest;
  }

  /** A two-character escape stands for its character. */
  lemma EscapedReads(x: char, c: char, rest: seq<char>, input: seq<char>, cut: bool)
    requires input == ['\\', x] + rest && Unescape(x) == Some(c)
    ensures ReadLiteral(input, cut) == Prepend(Kept(cut, c), ReadLiteral(rest, cut))
  {
    assert input[0] == '\\' && input[1] == x && input[2..] == rest;
    NotSplice(input);
  }

  /** Text that does not open with a quote is not the NUL splice. */
  lemma NotSplice(s: seq<char>)
    requires s != [] && s[0] != '"'
    ensures !IsSplice(s)
  {
    assert SPLICE[0] == '"';
    if |SPLICE| <= |s| {
      assert s[..|SPLICE|][0] == s[0];
    }
  }

  /** Any other character but a quote, a backslash and NUL stands for itself. */
  lemma PlainReads(c: char, rest: seq<char>, input: seq<char>, cut: bool)
    requires input == [c] + rest && c != '"' && c != '\\' && c != '\0'
    ensures ReadLiteral(input, cut) == Prepend(Kept(cut, c), ReadLiteral(rest, cut))
  {
    assert input[0] == c && input[1..] == rest;
    NotSplice(input);
  }

  /** Each of the six escapes is a backslash and a letter that stands for the character. */
  lemma SixShape(c: char)
    ensures EscapeSix(c).Some? ==>
              var e := EscapeSix(c).value; e == ['\\', e[1]] && Unescape(e[1]) == Some(c)
    ensures EscapeSix(c) == None ==> c != '"' && c != '\\'
  {
  }

  /** One character of tests2doctest.py's `c_str` reads back as itself. */
  lemma NulCharReads(c: char, rest: seq<char>, input: seq<char>)
    requires input == EscapeNul(c) + rest
    ensures ReadLiteral(input, false) == Prepend([c], ReadLiteral(rest, false))
  {
    SixShape(c);
    if c == '\0' {
      SpliceReads(rest, input);
    } else if EscapeSix(c).Some? {
      EscapedReads(EscapeSix(c).value[1], c, rest, input, false);
    } else {
      PlainReads(c, rest, input, false);
    }
  }

  /** The body of tests2doctest.py's `c_str`, closed by a quote, reads back as the whole string. */
  lemma {:induction false} NulBodyReads(s: string, tail: seq<char>, input: seq<char>)
    requires input == NulBody(s) + "\"" + tail
    requires tail == [] || tail[0] != ' '
    ensures ReadLiteral(input, false) == Some((s, tail))
    decreases |s|
  {
    if s == [] {
      QuoteEnds(input, tail, false);
    } else {
      var rest := NulBody(s[1..]) + "\"" + tail;
      assert input == EscapeNul(s[0]) + rest;
      NulBodyReads(s[1..], tail, rest);
      NulCharReads(s[0], rest, input);
      assert [s[0]] + s[1..] == s;
    }
  }

  /** tests2doctest.py's `c_str` is a C++ string expression whose value is its input, NUL characters included. */
  lemma CStrValue(s: string)
    ensures StringValue(CStr(s)) == Some(s)
  {
    var e := CStr(s);
    var body := NulBody(s);
    Unquote(body, e);
    NulBodyReads(s, [], e[1..]);
  }

  /** A string literal's text after its opening quote. */
  lemma Unquote(body: seq<char>, e: seq<char>)
    requires e == "\"" + body + "\""
    ensures e != [] && e[0] == '"' && e[1..] == body + "\"" + []
  {
  }

  /** One character of the earlier `c_str`: a raw NUL ends the literal's C string. */
  lemma RawCharReads(c: char, rest: seq<char>, input: seq<char>, cut: bool)
    requires input == EscapeRaw(c) + rest
    ensures ReadLiteral(input, cut) ==
              if c == '\0' then ReadLiteral(rest, true) else Prepend(Kept(cut, c), ReadLiteral(rest, cut))
  {
    SixShape(c);
    if EscapeSix(c).Some? {
      EscapedReads(EscapeSix(c).value[1], c, rest, input, cut);
    } else if c == '\0' {
      RawNulReads(rest, input, cut);
    } else {
      PlainReads(c, rest, input, cut);
    }
  }

  /** A raw NUL: the literal's C string ends there. */
  lemma RawNulReads(rest: seq<char>, input: seq<char>, cut: bool)
    requires input == ['\0'] + rest
    ensures ReadLiteral(input, cut) == ReadLiteral(rest, true)
  {
    assert input[0] == '\0' && input[1..] == rest;
    NotSplice(input);
  }

  /** The earlier `c_str`'s body reads back as the string up to its first NUL. */
  lemma {:induction false} RawBodyReads(s: string, tail: seq<char>, input: seq<char>, cut: bool)
    requires input == RawBody(s) + "\"" + tail
    requires tail == [] || tail[0] != ' '
    ensures ReadLiteral(input, cut) == Some((if cut then [] else UpToNul(s), tail))
    decreases |s|
  {
    if s == [] {
      QuoteEnds(input, tail, cut);
    } else {
      var rest := RawBody(s[1..]) + "\"" + tail;
      assert input == EscapeRaw(s[0]) + rest;
      RawCharReads(s[0], rest, input, cut);
      if s[0] == '\0' {
        RawBodyReads(s[1..], tail, rest, true);
      } else {
        RawBodyReads(s[1..], tail, rest, cut);
        if cut {
          assert Kept(cut, s[0]) + [] == [];
        } else {
          assert UpToNul(s) == Kept(cut, s[0]) + UpToNul(s[1..]);
        }
      }
    }
  }

  /** The earlier `c_str`'s value is its input up to the first NUL. */
  lemma CStrRawValue(s: string)
    ensures StringValue(CStrRaw(s)) == Some(UpToNul(s))
  {
    var e := CStrRaw(s);
    var body := RawBody(s);
    Unquote(body, e);
    RawBodyReads(s, [], e[1..], false);
  }

  /** The earlier `c_str` keeps a string exactly when it holds no NUL. */
  lemma CStrRawKeeps(s: string)
    ensures StringValue(CStrRaw(s)) == Some(s) <==> '\0' !in s
  {
    CStrRawValue(s);
    if '\0' in s {
      UpToNulShorter(s);
    }
  }

  lemma {:induction false} UpToNulShorter(s: string)
    requires '\0' in s
    ensures |UpToNul(s)| < |s|
  {
    if s[0] != '\0' {
      UpToNulShorter(s[1..]);
    }
  }

  /** The string `a`, NUL, `b`: the earlier `c_str` writes a literal whose value stops at the NUL. */
  lemma RawNulTruncates()
    ensures StringValue(CStrRaw("a\0b")) == Some("a")
  {
    var s := "a\0b";
    CStrRawValue(s);
    assert s[0] == 'a' && s[1] == '\0';
    assert UpToNul(s[1..]) == [];
    assert UpToNul(s) == [s[0]] + UpToNul(s[1..]);
    assert UpToNul(s) == "a";
  }

  /** What a script's string expression compares equal to. */
  lemma StrTextValue(g: Script, s: string)
    ensures StringValue(StrText(g, s)) == Some(if g == TestsToDoctest then s else UpToNul(s))
  {
    if g == TestsToDoctest {
      CStrValue(s);
    } else {
      CStrRawValue(s);
    }
  }

  // ---------------------------------------------------------------------
  // Integers, booleans and floats
  // ---------------------------------------------------------------------

  /** `str(n)` is a decimal literal: digits only, and no leading zero unless it is `0`. */
  lemma {:induction false} NatTextShape(n: nat)
    ensures NatText(n) != [] && AllDigits(NatText(n))
    ensures n > 0 ==> NatText(n)[0] != '0'
    ensures n == 0 ==> NatText(n) == "0"
  {
    if n >= 10 {
      NatTextShape(n / 10);
      var d := NatText(n / 10);
      assert NatText(n) == d + [Digit(n % 10)];
      assert NatText(n)[0] == d[0];
    }
  }

  /** The decimal literal `str(n)` has the value n. */
  lemma {:induction false} NatTextValue(n: nat)
    ensures AllDigits(NatText(n)) && DigitsValue(NatText(n)) == n
  {
    NatTextShape(n);
    if n >= 10 {
      NatTextValue(n / 10);
      var d := NatText(n / 10);
      var t := NatText(n);
      assert t == d + [Digit(n % 10)];
      assert t[..|t| - 1] == d;
    }
  }

  /** `str(n)` reads back as n. */
  lemma NatTextReads(n: nat)
    ensures ReadNat(NatText(n)) == Some(n)
  {
    NatTextShape(n);
    NatTextValue(n);
  }

  /** `str(i)` reads back as i, through a unary minus when i is negative. */
  lemma IntTextReads(i: int)
    ensures ReadInt(IntText(i)) == Some(i)
  {
    if i < 0 {
      var t := IntText(i);
      assert t[1..] == NatText(-i);
      NatTextReads(-i);
    } else {
      NatTextShape(i);
      NatTextReads(i);
    }
  }

  /** `str.lower` leaves a string with no capital letter as it is. */
  lemma {:induction false} LowerKeeps(s: string)
    requires forall i :: 0 <= i < |s| ==> !('A' <= s[i] <= 'Z')
    ensures Lower(s) == s
    decreases |s|
  {
    if s != [] {
      LowerKeeps(s[1..]);
    }
  }

  /** `c_bool` writes `true` or `false`. */
  lemma CBoolText(b: bool)
    ensures CBool(b) == if b then "true" else "false"
  {
    var w := if b then "True" else "False";
    LowerKeeps(w[1..]);
    assert Lower(w) == [(w[0] as int + 32) as char] + Lower(w[1..]);
  }

  /** `c_bool`'s literal reads back as the boolean. */
  lemma CBoolReads(b: bool)
    ensures BoolValue(CBool(b)) == Some(b)
  {
    CBoolText(b);
  }

  /**
   * `c_float`'s expression is matched by exactly the floats that compare
   * equal to the one it came from: the infinities through the infinity
   * expression, NaN through `rhs_nan{}`, a finite float through its
   * decimal text (which a zero of the other sign matches too).
   */
  lemma CFloatMatches(f: FloatTag, x: FloatTag)
    requires f.Finite? ==> IsDecimalText(f.repr)
    ensures FloatMatches(x, CFloat(f)) <==> SameDouble(x, f)
  {
    match f
    case PosInf => PosInfMatches(x);
    case NegInf => NegInfMatches(x);
    case NaN => NanMatches(x);
    case Finite(r) => NotFloatWord(r);
  }

  lemma PosInfMatches(x: FloatTag)
    ensures FloatMatches(x, CFloat(PosInf)) <==> x == PosInf
  {
    assert CFloat(PosInf) == INFINITY;
  }

  lemma NegInfMatches(x: FloatTag)
    ensures FloatMatches(x, CFloat(NegInf)) <==> x == NegInf
  {
    var e := CFloat(NegInf);
    assert e[0] != INFINITY[0];
    assert |e| == 1 + |INFINITY| && e[1..] == INFINITY;
  }

  lemma NanMatches(x: FloatTag)
    ensures FloatMatches(x, CFloat(NaN)) <==> x == NaN
  {
    var e := CFloat(NaN);
    assert e == "rhs_nan{}";
    assert e[0] != INFINITY[0] && e[0] != ("-" + INFINITY)[0];
  }

  /**
   * toml2doctest.py formats floats with no special case: a finite float
   * still matches what compares equal to it, but the text of an infinity or a NaN
   * (`inf`, `-inf`, `nan`) is matched by no float at all.
   */
  lemma RootFloatMatches(f: FloatTag, x: FloatTag)
    requires f.Finite? ==> IsDecimalText(f.repr)
    ensures FloatMatches(x, PyFloatStr(f)) <==> f.Finite? && SameDouble(x, f)
  {
    if f.Finite? {
      NotFloatWord(f.repr);
    } else {
      var e := PyFloatStr(f);
      assert e[0] == 'i' || e[0] == 'n' || (e[0] == '-' && e[1] == 'i');
    }
  }

  /** Decimal text is none of the three float expressions. */
  lemma NotFloatWord(r: string)
    requires IsDecimalText(r)
    ensures r != INFINITY && r != "-" + INFINITY && r != "rhs_nan{}"
  {
    assert INFINITY[0] == 's';
    assert ("-" + INFINITY)[1] == 's';
    assert "rhs_nan{}"[0] == 'r';
  }

  // ---------------------------------------------------------------------
  // Accessor chains and CHECK lines
  // ---------------------------------------------------------------------

  /** A key the script's `c_str` keeps intact: tests2doctest.py keeps all of them, the others lose what follows a NUL. */
  predicate KeyRenderable(g: Script, k: Key)
  {
    g == TestsToDoctest || !k.StrKey? || '\0' !in k.s
  }

  predicate KeysRenderable(g: Script, keys: seq<Key>)
  {
    forall i :: 0 <= i < |keys| ==> KeyRenderable(g, keys[i])
  }

  /** The digit run of digits followed by a non-digit is the digits. */
  lemma {:induction false} DigitRunOf(d: seq<char>, rest: seq<char>)
    requires AllDigits(d) && (rest == [] || !IsDigit(rest[0]))
    ensures DigitRun(d + rest) == |d|
    decreases |d|
  {
    if d != [] {
      assert (d + rest)[1..] == d[1..] + rest;
      DigitRunOf(d[1..], rest);
    } else {
      assert d + rest == rest;
    }
  }

  /** A string key's subscript, from just after its `[`, reads back as the key. */
  lemma StrKeyReads(g: Script, k: string, after: seq<char>, input: seq<char>)
    requires input == StrText(g, k) + "]" + after
    requires g == TestsToDoctest || '\0' !in k
    ensures ReadKey(input) == Some((StrKey(k), after))
  {
    if g == TestsToDoctest {
      NulKeyReads(k, NulBody(k), after, input);
    } else {
      RawKeyReads(k, RawBody(k), after, input);
    }
  }

  lemma NulKeyReads(k: string, body: seq<char>, after: seq<char>, input: seq<char>)
    requires body == NulBody(k) && input == CStr(k) + "]" + after
    ensures ReadKey(input) == Some((StrKey(k), after))
  {
    var tail := "]" + after;
    assert CStr(k) == "\"" + body + "\"";
    QuotedKey(body, after, input);
    NulBodyReads(k, tail, body + "\"" + tail);
    LiteralKey(k, body, after, input);
  }

  lemma RawKeyReads(k: string, body: seq<char>, after: seq<char>, input: seq<char>)
    requires body == RawBody(k) && input == CStrRaw(k) + "]" + after && '\0' !in k
    ensures ReadKey(input) == Some((StrKey(k), after))
  {
    var tail := "]" + after;
    assert CStrRaw(k) == "\"" + body + "\"";
    QuotedKey(body, after, input);
    RawBodyReads(k, tail, body + "\"" + tail, false);
    LiteralKey(k, body, after, input);
  }

  /** A quoted literal and its `]`, grouped as the reader takes them. */
  lemma QuotedKey(body: seq<char>, after: seq<char>, input: seq<char>)
    requires input == ("\"" + body + "\"") + "]" + after
    ensures input == "\"" + body + "\"" + ("]" + after)
  {
  }

  /** A subscript's text after its `[`. */
  lemma OpenBracket(x: seq<char>, after: seq<char>, input: seq<char>)
    requires input == "[" + x + "]" + after
    ensures input != [] && input[0] == '[' && input[1..] == x + "]" + after
  {
  }

  lemma LiteralKey(k: string, body: seq<char>, after: seq<char>, input: seq<char>)
    requires input == "\"" + body + "\"" + ("]" + after)
    requires ReadLiteral(body + "\"" + ("]" + after), false) == Some((k, "]" + after))
    ensures ReadKey(input) == Some((StrKey(k), after))
  {
    assert input[0] == '"';
    assert input[1..] == body + "\"" + ("]" + after);
    assert ("]" + after)[0] == ']' && ("]" + after)[1..] == after;
  }

  /** An index's subscript, from just after its `[`, reads back as the index. */
  lemma IntKeyReads(n: nat, after: seq<char>, input: seq<char>)
    requires input == NatText(n) + "]" + after
    ensures ReadKey(input) == Some((IntKey(n), after))
  {
    var d := NatText(n);
    NatTextShape(n);
    NatTextReads(n);
    assert input == d + ("]" + after);
    DigitRunOf(d, "]" + after);
    assert input[..|d|] == d;
    assert input[|d| + 1..] == after;
  }

  /** One subscript `[..]` reads back as its key. */
  lemma KeyReads(g: Script, k: Key, after: seq<char>, input: seq<char>)
    requires input == KeyText(g, k) + after && KeyRenderable(g, k)
    ensures input != [] && input[0] == '['
    ensures ReadKey(input[1..]) == Some((k, after))
  {
    match k
    case IntKey(n) =>
      IntSubscriptReads(n, after, input);
    case StrKey(s) =>
      StrSubscriptReads(g, s, after, input);
  }

  lemma IntSubscriptReads(n: nat, after: seq<char>, input: seq<char>)
    requires input == "[" + NatText(n) + "]" + after
    ensures input != [] && input[0] == '['
    ensures ReadKey(input[1..]) == Some((IntKey(n), after))
  {
    OpenBracket(NatText(n), after, input);
    IntKeyReads(n, after, input[1..]);
  }

  lemma StrSubscriptReads(g: Script, s: string, after: seq<char>, input: seq<char>)
    requires input == "[" + StrText(g, s) + "]" + after
    requires g == TestsToDoctest || '\0' !in s
    ensures input != [] && input[0] == '['
    ensures ReadKey(input[1..]) == Some((StrKey(s), after))
  {
    OpenBracket(StrText(g, s), after, input);
    StrKeyReads(g, s, after, input[1..]);
  }

  /** A subscript and then the chain after it. */
  lemma PathStep(input: seq<char>, k: Key, after: seq<char>)
    requires input != [] && input[0] == '[' && ReadKey(input[1..]) == Some((k, after))
    ensures ReadPath(after).Some? ==> ReadPath(input) == Some(([k] + ReadPath(after).value.0, ReadPath(after).value.1))
  {
  }

  /** `chain_keys` reads back as the path it was built from, up to what follows it. */
  lemma {:induction false} ChainReads(g: Script, keys: seq<Key>, tail: seq<char>, input: seq<char>)
    requires input == ChainKeys(g, keys) + tail && KeysRenderable(g, keys)
    requires tail == [] || tail[0] != '['
    ensures ReadPath(input) == Some((keys, tail))
    decreases |keys|
  {
    if keys == [] {
      assert input == tail;
    } else {
      var after := ChainKeys(g, keys[1..]) + tail;
      ChainHead(g, keys, tail, input, after);
      ChainReads(g, keys[1..], tail, after);
      ChainCons(g, keys, tail, input, after);
    }
  }

  /** The first subscript of a chain, and the chain after it. */
  lemma ChainHead(g: Script, keys: seq<Key>, tail: seq<char>, input: seq<char>, after: seq<char>)
    requires keys != [] && input == ChainKeys(g, keys) + tail && KeysRenderable(g, keys)
    requires after == ChainKeys(g, keys[1..]) + tail
    ensures input == KeyText(g, keys[0]) + after
    ensures KeyRenderable(g, keys[0]) && KeysRenderable(g, keys[1..])
  {
    var kt := KeyText(g, keys[0]);
    var rt := ChainKeys(g, keys[1..]);
    assert ChainKeys(g, keys) == kt + rt;
    Regroup(kt, rt, tail);
    RenderableTail(g, keys);
  }

  lemma Regroup(a: seq<char>, b: seq<char>, c: seq<char>)
    ensures (a + b) + c == a + (b + c)
  {
  }

  lemma RenderableTail(g: Script, keys: seq<Key>)
    requires keys != [] && KeysRenderable(g, keys)
    ensures KeyRenderable(g, keys[0]) && KeysRenderable(g, keys[1..])
  {
    assert KeyRenderable(g, keys[0]);
    forall i | 0 <= i < |keys[1..]|
      ensures KeyRenderable(g, keys[1..][i])
    {
      assert keys[1..][i] == keys[i + 1];
    }
  }

  /** The first key read back, then the keys after it. */
  lemma ChainCons(g: Script, keys: seq<Key>, tail: seq<char>, input: seq<char>, after: seq<char>)
    requires keys != [] && input == KeyText(g, keys[0]) + after && KeyRenderable(g, keys[0])
    requires ReadPath(after) == Some((keys[1..], tail))
    ensures ReadPath(input) == Some((keys, tail))
  {
    KeyReads(g, keys[0], after, input);
    PathStep(input, keys[0], after);
    assert [keys[0]] + keys[1..] == keys;
  }

  /** The name run of a name without `(` followed by `(` is the name. */
  lemma {:induction false} NameRunOf(name: seq<char>, rest: seq<char>)
    requires '(' !in name && rest != [] && rest[0] == '('
    ensures NameRun(name + rest) == |name|
    decreases |name|
  {
    if name != [] {
      assert (name + rest)[1..] == name[1..] + rest;
      assert name[0] in name;
      NameRunOf(name[1..], rest);
    } else {
      assert name + rest == rest;
    }
  }

  /** The part of a CHECK line after the chain reads back as the name and the value. */
  lemma CallReads(keys: seq<Key>, name: string, value: string, r: seq<char>)
    requires r == "." + name + "() == " + value + ");" && '(' !in name
    ensures ReadCall(keys, r) == Some(Line(keys, name, value))
  {
    var after := "() == " + value + ");";
    assert r[1..] == name + after;
    NameRunOf(name, after);
    assert r[1 + |name|..] == after;
    assert r[1..1 + |name|] == name;
    assert after[..|CALL_EQ|] == CALL_EQ;
    assert after[|after| - |CHECK_CLOSE|..] == CHECK_CLOSE;
    assert after[|CALL_EQ|..|after| - |CHECK_CLOSE|] == value;
  }

  /** A CHECK line reads back as the path, the member name and the compared text it was built from. */
  lemma LineReads(g: Script, keys: seq<Key>, name: string, value: string)
    requires '(' !in name && KeysRenderable(g, keys)
    ensures ReadLine(CheckLine(g, keys, name, value)) == Some(Line(keys, name, value))
  {
    var l := CheckLine(g, keys, name, value);
    var chain := ChainKeys(g, keys);
    var r := "." + name + "() == " + value + ");";
    assert l == CHECK_OPEN + (chain + r);
    assert l[..|CHECK_OPEN|] == CHECK_OPEN;
    assert l[|CHECK_OPEN|..] == chain + r;
    ChainReads(g, keys, r, chain + r);
    CallReads(keys, name, value, r);
  }
}
