/**
 * Integers, as tomload/detail_number.cpp measures and reads them: the
 * `0x`/`0o`/`0b` radix forms and signed decimals, with the underscore
 * rules of the "Integer" section of TOML v1.0.0 as the code applies
 * them, and `std::stoll` for the conversion.  The legacy tomload.hpp
 * has the same two radix helpers with the digit set and the base passed
 * in; they are `RadixLengthWith` and `RadixValueWith` below.
 */
module DetailNumber {
  import opened Errors
  import opened StringView14
  import opened ViewT

  const INT64_MIN: int := -0x8000_0000_0000_0000
  const INT64_MAX: int := 0x7FFF_FFFF_FFFF_FFFF

  /** `integer_t`, a 64-bit signed integer. */
  type Int64 = x: int | INT64_MIN <= x <= INT64_MAX

  const HEX_ALLOWED: View := "0123456789ABCDEFabcdef_"
  const OCT_ALLOWED: View := "01234567_"
  const BIN_ALLOWED: View := "01_"
  const DEC_ALLOWED: View := "0123456789_"

  // ---------------------------------------------------------------------
  // std::stoll
  // ---------------------------------------------------------------------

  /** What `std::stoll` gives: a value, or one of the two exceptions it throws. */
  datatype Converted = Value(x: Int64) | InvalidArgument | TooLarge

  /** The digit value `strtoll` gives a character: 0-9, then letters from 10; 36 for anything else. */
  function DigitValue(c: char): nat
  {
    if '0' <= c <= '9' then c as int - '0' as int
    else if 'a' <= c <= 'z' then c as int - 'a' as int + 10
    else if 'A' <= c <= 'Z' then c as int - 'A' as int + 10
    else 36
  }

  predicate IsDigitOf(c: char, base: nat)
  {
    DigitValue(c) < base
  }

  predicate AllDigitsOf(s: seq<char>, base: nat)
  {
    forall k :: 0 <= k < |s| ==> IsDigitOf(s[k], base)
  }

  /** The number a run of digits denotes in base, most significant first. */
  function NumberValue(digits: seq<char>, base: nat): nat
    requires AllDigitsOf(digits, base)
  {
    if digits == [] then 0
    else NumberValue(digits[..|digits| - 1], base) * base + DigitValue(digits[|digits| - 1])
  }

  /** The white space `isspace` accepts in the C locale. */
  predicate IsSpace(c: char)
  {
    c == ' ' || c == '\t' || c == '\n' || c == 11 as char || c == 12 as char || c == '\r'
  }

  /** The first index from i whose character is not white space, or |s|. */
  function SpaceEnd(s: seq<char>, i: nat): (e: nat)
    requires i <= |s|
    ensures i <= e <= |s|
    ensures forall k :: i <= k < e ==> IsSpace(s[k])
    ensures e < |s| ==> !IsSpace(s[e])
    decreases |s| - i
  {
    if i == |s| || !IsSpace(s[i]) then i else SpaceEnd(s, i + 1)
  }

  /** The first index from i whose character is not a digit of base, or |s|. */
  function DigitEnd(s: seq<char>, i: nat, base: nat): (e: nat)
    requires i <= |s|
    ensures i <= e <= |s|
    ensures forall k :: i <= k < e ==> IsDigitOf(s[k], base)
    ensures e < |s| ==> !IsDigitOf(s[e], base)
    decreases |s| - i
  {
    if i == |s| || !IsDigitOf(s[i], base) then i else DigitEnd(s, i + 1, base)
  }

  /**
   * `std::stoll(str, nullptr, base)`, which calls `strtoll`: leading white
   * space, an optional sign, for base 16 an optional `0x`/`0X` when a hex
   * digit follows it, then the longest run of digits.  No digit is
   * `std::invalid_argument`; a value outside `long long` is
   * `std::out_of_range`.
   */
  function StoLL(str: seq<char>, base: nat): (r: Converted)
    requires 2 <= base <= 36
  {
    var i := SpaceEnd(str, 0);
    var j := SignEnd(str, i);
    var k := HexPrefixEnd(str, j, base);
    var e := DigitEnd(str, k, base);
    if e == k then InvalidArgument
    else Signed(i < |str| && str[i] == '-', NumberValue(str[k .. e], base))
  }

  /** Past an optional `+` or `-` at i. */
  function SignEnd(str: seq<char>, i: nat): (j: nat)
    requires i <= |str|
    ensures i <= j <= |str|
  {
    if i < |str| && (str[i] == '+' || str[i] == '-') then i + 1 else i
  }

  /** Past an optional `0x`/`0X` at j in base 16, taken only when a hex digit follows it. */
  function HexPrefixEnd(str: seq<char>, j: nat, base: nat): (k: nat)
    requires j <= |str|
    ensures j <= k <= |str|
  {
    if base == 16 && j + 2 < |str| && str[j] == '0' && (str[j + 1] == 'x' || str[j + 1] == 'X') &&
       IsDigitOf(str[j + 2], 16)
    then j + 2 else j
  }

  /** The sign applied, then the `long long` range check. */
  function Signed(neg: bool, v: nat): (r: Converted)
    ensures var x: int := if neg then 0 - v else v;
      (r.Value? <==> INT64_MIN <= x <= INT64_MAX) && (r.Value? ==> r.x == x) && (r.Value? || r.TooLarge?)
  {
    var x: int := if neg then 0 - v else v;
    if x < INT64_MIN || x > INT64_MAX then TooLarge else Value(x)
  }

  /** On a plain run of digits `std::stoll` is the number they denote, bounded by int64. */
  lemma StoLLOfDigits(str: seq<char>, base: nat)
    requires 2 <= base <= 16 && AllDigitsOf(str, base)
    ensures StoLL(str, base) == if str == [] then InvalidArgument else Signed(false, NumberValue(str, base))
  {
    if str != [] {
      assert !IsSpace(str[0]) && str[0] != '+' && str[0] != '-';
      assert SpaceEnd(str, 0) == 0 && SignEnd(str, 0) == 0;
      if |str| > 1 {
        assert IsDigitOf(str[1], base);
      }
      assert HexPrefixEnd(str, 0, base) == 0;
      assert DigitEnd(str, 0, base) == |str|;
      assert str[0 .. |str|] == str;
    }
  }

  /** After a sign, `std::stoll` reads the digits and applies the sign. */
  lemma StoLLOfSigned(sign: char, digits: seq<char>)
    requires sign == '+' || sign == '-'
    requires AllDigitsOf(digits, 10)
    ensures StoLL([sign] + digits, 10) == if digits == [] then InvalidArgument
                                          else Signed(sign == '-', NumberValue(digits, 10))
  {
    var str := [sign] + digits;
    assert !IsSpace(str[0]) && SpaceEnd(str, 0) == 0;
    assert SignEnd(str, 0) == 1 && HexPrefixEnd(str, 1, 10) == 1;
    assert forall k :: 1 <= k < |str| ==> str[k] == digits[k - 1];
    assert DigitEnd(str, 1, 10) == |str|;
    assert str[1 .. |str|] == digits;
  }

  // ---------------------------------------------------------------------
  // Underscores
  // ---------------------------------------------------------------------

  /** `s` with every `_` left out, built from the front as the push_back loops build it. */
  function Strip(s: seq<char>): (t: seq<char>)
    ensures |t| <= |s|
  {
    if s == [] then []
    else Strip(s[..|s| - 1]) + (if s[|s| - 1] == '_' then [] else [s[|s| - 1]])
  }

  /** Strip keeps exactly the characters other than `_`, in order. */
  lemma {:induction false} StripContents(s: seq<char>)
    ensures forall k :: 0 <= k < |Strip(s)| ==> Strip(s)[k] != '_' && Strip(s)[k] in s
    ensures '_' !in s ==> Strip(s) == s
  {
    if s != [] {
      var p := s[..|s| - 1];
      StripContents(p);
      assert s == p + [s[|s| - 1]];
      forall k | 0 <= k < |Strip(s)| ensures Strip(s)[k] != '_' && Strip(s)[k] in s {
        if k < |Strip(p)| {
          assert Strip(s)[k] == Strip(p)[k];
          assert Strip(p)[k] in p;
        }
      }
    }
  }

  /** Strip distributes over concatenation. */
  lemma {:induction false} StripConcat(a: seq<char>, b: seq<char>)
    ensures Strip(a + b) == Strip(a) + Strip(b)
    decreases |b|
  {
    if b != [] {
      var b' := b[..|b| - 1];
      assert (a + b)[..|a + b| - 1] == a + b';
      StripConcat(a, b');
    } else {
      assert a + b == a;
    }
  }

  /** Removing the underscores of a run of digits and `_` leaves only digits. */
  lemma StripDigits(s: seq<char>, base: nat)
    requires forall k :: 0 <= k < |s| ==> s[k] == '_' || IsDigitOf(s[k], base)
    ensures AllDigitsOf(Strip(s), base)
  {
    StripContents(s);
  }

  /** The loop that copies every character but `_` into `str`. */
  method RemoveUnderscores(sub: View) returns (str: seq<char>)
    ensures str == Strip(sub)
  {
    str := [];
    var i := 0;
    while i < |sub|
      invariant 0 <= i <= |sub|
      invariant str == Strip(sub[..i])
    {
      assert sub[..i + 1][..i] == sub[..i];
      if sub[i] != '_' {
        str := str + [sub[i]];
      }
      i := i + 1;
    }
    assert sub[..|sub|] == sub;
  }

  /** The TOML rule: every `_` has a character on each side and no `_` right after it. */
  predicate WellPlacedUnderscores(s: seq<char>)
  {
    forall k :: 0 <= k < |s| && s[k] == '_' ==> 0 < k && k + 1 < |s| && s[k + 1] != '_'
  }

  /** The radix check `starts_with(sub, "_") || ends_with(sub, "_") || sub.find("__") != npos`. */
  predicate BadRadixUnderscores(sub: View)
  {
    StartsWith(sub, "_") || EndsWith(sub, "_") || Contains(sub, "__")
  }

  /** The radix check fails exactly when some `_` is at an end or doubled. */
  lemma BadRadixUnderscoresIff(sub: View)
    ensures BadRadixUnderscores(sub) <==> !WellPlacedUnderscores(sub)
  {
    if !WellPlacedUnderscores(sub) {
      var k :| 0 <= k < |sub| && sub[k] == '_' && !(0 < k && k + 1 < |sub| && sub[k + 1] != '_');
      if k == 0 {
        assert IsPrefix("_", sub);
      } else if k + 1 == |sub| {
        assert IsSuffix("_", sub);
      } else {
        assert OccursAt(sub, "__", k);
      }
    }
    if Contains(sub, "__") {
      var k :| 0 <= k <= |sub| && OccursAt(sub, "__", k);
      assert sub[k] == sub[k .. k + 2][0] && sub[k + 1] == sub[k .. k + 2][1];
    }
    if IsSuffix("_", sub) {
      assert sub[|sub| - 1] == sub[|sub| - 1 ..][0];
    }
    if IsPrefix("_", sub) {
      assert sub[0] == sub[..1][0];
    }
  }

  /** The decimal check `ends_with(sub, "_") || sub.find("__") != npos`: a leading `_` is not looked for. */
  predicate BadDecimalUnderscores(sub: View)
  {
    EndsWith(sub, "_") || Contains(sub, "__")
  }

  // ---------------------------------------------------------------------
  // Radix integers
  // ---------------------------------------------------------------------

  /**
   * `get_radix_length(view, allowed)` of tomload.hpp, which is also the
   * body of tomload/detail_number.cpp's: the first index from 2 whose
   * character is not allowed, or the size.
   */
  function RadixLengthWith(view: View, allowed: View): (r: SizeT)
    ensures r <= |view|
    ensures |view| >= 2 ==> 2 <= r
    ensures |view| < 2 ==> r == |view|
    ensures forall i :: 2 <= i < r ==> view[i] in allowed
    ensures r < |view| ==> view[r] !in allowed
  {
    FindFirstNotOfIsLeast(view, allowed, 2);
    var pos := FindFirstNotOfResult(view, allowed, 2);
    if pos == NPOS then |view| else pos
  }

  /** The digit set `get_radix_length` picks from the prefix. */
  function RadixAllowed(view: View): View
  {
    if StartsWith(view, "0x") then HEX_ALLOWED
    else if StartsWith(view, "0o") then OCT_ALLOWED
    else if StartsWith(view, "0b") then BIN_ALLOWED
    else ""
  }

  /** The base `parse_radix_value` picks from the prefix. */
  function RadixBase(view: View): (b: nat)
    ensures b == 2 || b == 8 || b == 10 || b == 16
  {
    if StartsWith(view, "0x") then 16
    else if StartsWith(view, "0o") then 8
    else if StartsWith(view, "0b") then 2
    else 10
  }

  /** `get_radix_length(view)` of tomload/detail_number.cpp. */
  function GetRadixLength(view: View): SizeT
  {
    RadixLengthWith(view, RadixAllowed(view))
  }

  /** The allowed set of each prefix is exactly the digits of its base and `_`. */
  lemma RadixAllowedIsDigits(view: View, c: char)
    requires StartsWith(view, "0x") || StartsWith(view, "0o") || StartsWith(view, "0b")
    ensures c in RadixAllowed(view) <==> c == '_' || IsDigitOf(c, RadixBase(view))
  {
  }

  /** The message `parse_radix_value` and `parse_integer` throw for each `std::stoll` outcome. */
  function Convert(c: Converted): (r: Result<Int64>)
    ensures r.Ok? <==> c.Value?
    ensures r.Ok? ==> r.value == c.x
  {
    match c
    case Value(x) => Ok(x)
    case InvalidArgument => Err(ParseError("invalid_argument"))
    case TooLarge => Err(ParseError("out_of_range"))
  }

  /** `parse_radix_value(view, length, base)` of tomload.hpp, the body of the newer one. */
  function RadixValueWith(view: View, length: SizeT, base: nat): Result<Int64>
    requires 2 <= length <= |view| && 2 <= base <= 36
  {
    var sub := view[2 .. length];
    if BadRadixUnderscores(sub) then Err(ParseError("invalid `_`"))
    else Convert(StoLL(Strip(sub), base))
  }

  /** `parse_radix_value(view, length)` of tomload/detail_number.cpp. */
  function RadixValue(view: View, length: SizeT): Result<Int64>
    requires 2 <= length <= |view|
  {
    RadixValueWith(view, length, RadixBase(view))
  }

  /** The loop body the two `parse_radix_value`s share. */
  method ParseRadixValueWith(view: View, length: SizeT, base: nat) returns (r: Result<Int64>)
    requires 2 <= length <= |view| && 2 <= base <= 36
    ensures r == RadixValueWith(view, length, base)
  {
    var sub := view[2 .. length];
    if StartsWith(sub, "_") || EndsWith(sub, "_") || Contains(sub, "__") {
      return Err(ParseError("invalid `_`"));
    }
    var str := RemoveUnderscores(sub);
    r := Convert(StoLL(str, base));
  }

  /** `parse_radix_value(view, length)`: the base from the prefix, then the shared body. */
  method ParseRadixValue(view: View, length: SizeT) returns (r: Result<Int64>)
    requires 2 <= length <= |view|
    ensures r == RadixValue(view, length)
  {
    var base := if StartsWith(view, "0x") then 16
                else if StartsWith(view, "0o") then 8
                else if StartsWith(view, "0b") then 2
                else 10;
    r := ParseRadixValueWith(view, length, base);
  }

  /**
   * Over the token `get_radix_length` measures, `parse_radix_value` is
   * "invalid `_`" when an underscore is misplaced, and otherwise the
   * value of the digits with the underscores removed: no digit is
   * "invalid_argument" and a value above int64 max is "out_of_range".
   */
  lemma RadixValueMeaning(view: View)
    requires StartsWith(view, "0x") || StartsWith(view, "0o") || StartsWith(view, "0b")
    ensures var length := GetRadixLength(view);
      var sub := view[2 .. length];
      var base := RadixBase(view);
      2 <= length && AllDigitsOf(Strip(sub), base) &&
      RadixValue(view, length) ==
        if !WellPlacedUnderscores(sub) then Err(ParseError("invalid `_`"))
        else if Strip(sub) == [] then Err(ParseError("invalid_argument"))
        else if NumberValue(Strip(sub), base) > INT64_MAX then Err(ParseError("out_of_range"))
        else Ok(NumberValue(Strip(sub), base))
  {
    var length := GetRadixLength(view);
    var sub := view[2 .. length];
    var base := RadixBase(view);
    forall k | 0 <= k < |sub| ensures sub[k] == '_' || IsDigitOf(sub[k], base) {
      assert sub[k] == view[k + 2] && view[k + 2] in RadixAllowed(view);
      RadixAllowedIsDigits(view, sub[k]);
    }
    StripDigits(sub, base);
    BadRadixUnderscoresIff(sub);
    StoLLOfDigits(Strip(sub), base);
  }

  /** "0xF_f" is 255 (unittest/test_functions.cpp). */
  lemma RadixExampleHex(view: View)
    requires view == "0xF_f"
    ensures GetRadixLength(view) == 5 && RadixValue(view, 5) == Ok(255)
  {
    assert IsPrefix("0x", view);
    RadixValueMeaning(view);
    assert view[4] in HEX_ALLOWED;
    assert GetRadixLength(view) == 5;
    StripOfHex(view[2 .. 5]);
  }

  lemma StripOfHex(sub: seq<char>)
    requires sub == "F_f"
    ensures Strip(sub) == "Ff" && AllDigitsOf("Ff", 16) && NumberValue("Ff", 16) == 255
  {
    assert sub[..2] == "F_" && "F_"[..1] == "F" && "F"[..0] == [];
    assert Strip("F") == "F";
    assert Strip("F_") == "F";
    assert Strip(sub) == Strip("F_") + "f";
    assert "Ff"[..1] == "F";
  }

  /** A leading underscore after the prefix is refused: "0x_F_F". */
  lemma RadixExampleUnderscore(view: View)
    requires view == "0x_F_F"
    ensures GetRadixLength(view) == 6 && RadixValue(view, 6) == Err(ParseError("invalid `_`"))
  {
    assert IsPrefix("0x", view);
    RadixValueMeaning(view);
    assert view[5] in HEX_ALLOWED;
    assert view[2 .. 6][0] == '_';
  }

  /** No digit after the prefix is "invalid_argument": "0x". */
  lemma RadixExampleBareHex(view: View)
    requires view == "0x"
    ensures GetRadixLength(view) == 2 && RadixValue(view, 2) == Err(ParseError("invalid_argument"))
  {
    assert IsPrefix("0x", view);
    NoDigitAfterPrefix(view);
  }

  /** "0xz": `z` is not a hex digit. */
  lemma RadixExampleNotHex(view: View)
    requires view == "0xz"
    ensures GetRadixLength(view) == 2 && RadixValue(view, 2) == Err(ParseError("invalid_argument"))
  {
    assert IsPrefix("0x", view);
    NoDigitAfterPrefix(view);
  }

  /** "0o99": `9` is not an octal digit. */
  lemma RadixExampleNotOctal(view: View)
    requires view == "0o99"
    ensures GetRadixLength(view) == 2 && RadixValue(view, 2) == Err(ParseError("invalid_argument"))
  {
    assert IsPrefix("0o", view) && !IsPrefix("0x", view);
    NoDigitAfterPrefix(view);
  }

  /** "0b24": `2` is not a binary digit. */
  lemma RadixExampleNotBinary(view: View)
    requires view == "0b24"
    ensures GetRadixLength(view) == 2 && RadixValue(view, 2) == Err(ParseError("invalid_argument"))
  {
    assert IsPrefix("0b", view) && !IsPrefix("0x", view) && !IsPrefix("0o", view);
    NoDigitAfterPrefix(view);
  }

  lemma NoDigitAfterPrefix(view: View)
    requires StartsWith(view, "0x") || StartsWith(view, "0o") || StartsWith(view, "0b")
    requires |view| > 2 ==> view[2] !in RadixAllowed(view)
    ensures GetRadixLength(view) == 2 && RadixValue(view, 2) == Err(ParseError("invalid_argument"))
  {
    RadixValueMeaning(view);
    assert view[2 .. 2] == [];
  }

  // ---------------------------------------------------------------------
  // Decimal integers
  // ---------------------------------------------------------------------

  /** `get_integer_length`: the first index from 1 not in "0123456789_", or the size. */
  function GetIntegerLength(view: View): (r: SizeT)
    ensures r <= |view|
    ensures view != [] ==> 1 <= r
    ensures forall i :: 1 <= i < r ==> view[i] in DEC_ALLOWED
    ensures r < |view| ==> view[r] !in DEC_ALLOWED
  {
    FindFirstNotOfIsLeast(view, DEC_ALLOWED, 1);
    var pos := FindFirstNotOfResult(view, DEC_ALLOWED, 1);
    if pos == NPOS then |view| else pos
  }

  /** `parse_integer(view, length)`: the underscore checks, then `std::stoll(str, nullptr, 10)`. */
  function IntegerValue(view: View, length: SizeT): Result<Int64>
    requires length <= |view|
  {
    var sub := view[..length];
    if BadDecimalUnderscores(sub) then Err(ParseError("invalid `_`"))
    else Convert(StoLL(Strip(sub), 10))
  }

  method ParseInteger(view: View, length: SizeT) returns (r: Result<Int64>)
    requires length <= |view|
    ensures r == IntegerValue(view, length)
  {
    var sub := view[..length];
    if EndsWith(sub, "_") || Contains(sub, "__") {
      return Err(ParseError("invalid `_`"));
    }
    var str := RemoveUnderscores(sub);
    r := Convert(StoLL(str, 10));
  }

  /** The decimal check fails exactly when some `_` is last or followed by another. */
  lemma BadDecimalUnderscoresIff(sub: View)
    ensures BadDecimalUnderscores(sub) <==>
            exists k :: 0 <= k < |sub| && sub[k] == '_' && (k + 1 == |sub| || sub[k + 1] == '_')
  {
    if exists k :: 0 <= k < |sub| && sub[k] == '_' && (k + 1 == |sub| || sub[k + 1] == '_') {
      var k :| 0 <= k < |sub| && sub[k] == '_' && (k + 1 == |sub| || sub[k + 1] == '_');
      if k + 1 == |sub| {
        assert IsSuffix("_", sub);
      } else {
        assert OccursAt(sub, "__", k);
      }
    }
    if Contains(sub, "__") {
      var k :| 0 <= k <= |sub| && OccursAt(sub, "__", k);
      assert sub[k] == sub[k .. k + 2][0] && sub[k + 1] == sub[k .. k + 2][1];
    }
    if IsSuffix("_", sub) {
      assert sub[|sub| - 1] == sub[|sub| - 1 ..][0];
    }
  }

  /** The sign and digits of a decimal token: the digits are what follows the sign, underscores removed. */
  function DecimalDigits(sub: seq<char>): seq<char>
  {
    if sub != [] && (sub[0] == '+' || sub[0] == '-') then Strip(sub[1..]) else Strip(sub)
  }

  /** The digits' value v with the token's sign applied. */
  function SignedValue(sub: seq<char>, v: nat): int
  {
    if IsNegative(sub) then 0 - v else v
  }

  /**
   * Over the token `get_integer_length` measures, `parse_integer` is
   * "invalid `_`" for a trailing or doubled underscore, and otherwise
   * the signed value of the digits: no digit is "invalid_argument" and a
   * value outside int64 is "out_of_range".
   */
  lemma IntegerValueMeaning(view: View)
    requires view != [] && (view[0] == '+' || view[0] == '-' || '0' <= view[0] <= '9')
    ensures var sub := view[..GetIntegerLength(view)];
      AllDigitsOf(DecimalDigits(sub), 10) &&
      IntegerValue(view, GetIntegerLength(view)) ==
        if BadDecimalUnderscores(sub) then Err(ParseError("invalid `_`")) else DecimalOutcome(sub)
  {
    var length := GetIntegerLength(view);
    var sub := view[..length];
    forall k | 1 <= k < |sub| ensures sub[k] == '_' || IsDigitOf(sub[k], 10) {
      assert sub[k] == view[k] && view[k] in DEC_ALLOWED;
    }
    DecimalMeaning(sub);
  }

  /** The same, for any token whose characters after the first are digits or `_`. */
  lemma DecimalMeaning(sub: seq<char>)
    requires sub != [] && (sub[0] == '+' || sub[0] == '-' || '0' <= sub[0] <= '9')
    requires forall k :: 1 <= k < |sub| ==> sub[k] == '_' || IsDigitOf(sub[k], 10)
    ensures AllDigitsOf(DecimalDigits(sub), 10)
    ensures Convert(StoLL(Strip(sub), 10)) == DecimalOutcome(sub)
  {
    if sub[0] == '+' || sub[0] == '-' {
      SignedDecimal(sub);
    } else {
      UnsignedDecimal(sub);
    }
  }

  lemma SignedDecimal(sub: seq<char>)
    requires sub != [] && (sub[0] == '+' || sub[0] == '-')
    requires forall k :: 1 <= k < |sub| ==> sub[k] == '_' || IsDigitOf(sub[k], 10)
    ensures AllDigitsOf(DecimalDigits(sub), 10)
    ensures Convert(StoLL(Strip(sub), 10)) == DecimalOutcome(sub)
  {
    var tail := sub[1..];
    assert forall k :: 0 <= k < |tail| ==> tail[k] == sub[k + 1];
    StripDigits(tail, 10);
    StripAfterSign(sub);
    SignedOutcome(sub, tail, Strip(tail));
  }

  lemma SignedOutcome(sub: seq<char>, tail: seq<char>, d: seq<char>)
    requires sub != [] && (sub[0] == '+' || sub[0] == '-') && tail == sub[1..]
    requires d == Strip(tail) && AllDigitsOf(d, 10) && Strip(sub) == [sub[0]] + d
    ensures AllDigitsOf(DecimalDigits(sub), 10)
    ensures Convert(StoLL([sub[0]] + d, 10)) == DecimalOutcome(sub)
  {
    assert DecimalDigits(sub) == d && (IsNegative(sub) <==> sub[0] == '-');
    StoLLOfSigned(sub[0], d);
  }

  lemma UnsignedDecimal(sub: seq<char>)
    requires sub != [] && '0' <= sub[0] <= '9'
    requires forall k :: 1 <= k < |sub| ==> sub[k] == '_' || IsDigitOf(sub[k], 10)
    ensures AllDigitsOf(DecimalDigits(sub), 10)
    ensures Convert(StoLL(Strip(sub), 10)) == DecimalOutcome(sub)
  {
    assert forall k :: 0 <= k < |sub| ==> sub[k] == '_' || IsDigitOf(sub[k], 10);
    StripDigits(sub, 10);
    UnsignedOutcome(sub, Strip(sub));
  }

  lemma UnsignedOutcome(sub: seq<char>, d: seq<char>)
    requires sub != [] && '0' <= sub[0] <= '9'
    requires d == Strip(sub) && AllDigitsOf(d, 10)
    ensures AllDigitsOf(DecimalDigits(sub), 10)
    ensures Convert(StoLL(d, 10)) == DecimalOutcome(sub)
  {
    assert DecimalDigits(sub) == d && !IsNegative(sub);
    StoLLOfDigits(d, 10);
  }

  /**
   * What a decimal token denotes: no digit is "invalid_argument", and
   * otherwise its signed value, "out_of_range" outside int64.
   */
  function DecimalOutcome(sub: seq<char>): (r: Result<Int64>)
    requires AllDigitsOf(DecimalDigits(sub), 10)
    ensures r.Ok? ==> DecimalDigits(sub) != [] && r.value == SignedValue(sub, NumberValue(DecimalDigits(sub), 10))
    ensures r == Err(ParseError("invalid_argument")) <==> DecimalDigits(sub) == []
  {
    var digits := DecimalDigits(sub);
    if digits == [] then Err(ParseError("invalid_argument"))
    else Convert(Signed(IsNegative(sub), NumberValue(digits, 10)))
  }

  predicate IsNegative(sub: seq<char>)
  {
    sub != [] && sub[0] == '-'
  }

  /** A sign is kept in front of the stripped digits. */
  lemma StripAfterSign(sub: seq<char>)
    requires sub != [] && sub[0] != '_'
    ensures Strip(sub) == [sub[0]] + Strip(sub[1..])
  {
    assert sub == [sub[0]] + sub[1..];
    StripConcat([sub[0]], sub[1..]);
    assert [sub[0]][..0] == [];
  }
}
