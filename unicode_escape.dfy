/**
 * `parse_unicode_escape(view, size)`: the 4 or 8 hex digits of a `\u`
 * or `\U` escape, read with `std::stoul(…, 16)` and encoded as UTF-8.
 * tomload/detail_string.cpp and the root detail_string.cpp differ in
 * which code points they accept, so both versions are here and the
 * string decoders take the rule to apply.
 */
module UnicodeEscape {
  import opened Errors
  import Utf8

  /** Which `parse_unicode_escape` a decoder calls. */
  datatype Rule = Current | Legacy

  /** The locale-independent `is_hex` of both versions. */
  predicate IsHex(c: char)
  {
    ('0' <= c <= '9') || ('A' <= c <= 'F') || ('a' <= c <= 'f')
  }

  function HexDigit(c: char): (d: nat)
    requires IsHex(c)
    ensures d < 16
  {
    if '0' <= c <= '9' then c as int - '0' as int
    else if 'A' <= c <= 'F' then c as int - 'A' as int + 10
    else c as int - 'a' as int + 10
  }

  function Pow16(n: nat): (p: nat)
    ensures p >= 1
  {
    if n == 0 then 1 else 16 * Pow16(n - 1)
  }

  /** The value `std::stoul(s, nullptr, 16)` gives for a string of hex digits. */
  function HexValue(s: seq<char>): (v: nat)
    requires forall i :: 0 <= i < |s| ==> IsHex(s[i])
    ensures v < Pow16(|s|)
  {
    if s == [] then 0 else HexValue(s[..|s| - 1]) * 16 + HexDigit(s[|s| - 1])
  }

  /** Code points the legacy version rejects: U+0000..U+0008, U+000A..U+001F and U+007F. */
  predicate IsRejectedControl(cp: nat)
  {
    cp <= 0x08 || (0x0A <= cp <= 0x1F) || cp == 0x7F
  }

  /** The checks both versions make first: enough characters, all of them hex. */
  predicate HexDigitsAt(view: seq<char>, size: nat)
  {
    size <= |view| && forall i :: 0 <= i < size ==> IsHex(view[i])
  }

  /** `parse_unicode_escape` of tomload/detail_string.cpp. */
  function Parse(view: seq<char>, size: nat): (r: Result<seq<char>>)
    requires size == 4 || size == 8
    ensures r.Ok? <==> HexDigitsAt(view, size) && Utf8.IsScalar(HexValue(view[..size]))
    ensures r.Ok? ==> Utf8.Decode(r.value) == Ok(HexValue(view[..size]))
    ensures r.Err? ==> r.error.ParseError?
  {
    if size > |view| then Err(ParseError("invalid unicode escape sequence"))
    else if !(forall i :: 0 <= i < size ==> IsHex(view[i])) then Err(ParseError("invalid unicode escape sequence"))
    else
      var cp := HexValue(view[..size]);
      assert Pow16(8) == 0x1_0000_0000;
      assert Pow16(4) == 0x1_0000;
      Utf8.EncodeDecode(cp);
      Utf8.Encode(cp)
  }

  /** `parse_unicode_escape` of the root detail_string.cpp. */
  function ParseLegacy(view: seq<char>, size: nat): (r: Result<seq<char>>)
    requires size == 4 || size == 8
    ensures r.Ok? <==> HexDigitsAt(view, size) && HexValue(view[..size]) <= 0x10FFFF &&
                       !IsRejectedControl(HexValue(view[..size]))
    ensures r.Ok? ==> r.value == Utf8.Bytes(HexValue(view[..size]))
    ensures r.Err? ==> r.error.ParseError?
  {
    if size > |view| then Err(ParseError("invalid unicode escape sequence"))
    else if !(forall i :: 0 <= i < size ==> IsHex(view[i])) then Err(ParseError("invalid unicode escape sequence"))
    else
      var cp := HexValue(view[..size]);
      assert Pow16(8) == 0x1_0000_0000;
      assert Pow16(4) == 0x1_0000;
      if IsRejectedControl(cp) then Err(ParseError("invalid unicode escape sequence"))
      else
        var chars := Utf8.EncodeLegacy(cp);
        if chars == [] then Err(ParseError("invalid unicode escape sequence"))
        else Ok(chars)
  }

  function ParseBy(rule: Rule, view: seq<char>, size: nat): Result<seq<char>>
    requires size == 4 || size == 8
  {
    match rule
    case Current => Parse(view, size)
    case Legacy => ParseLegacy(view, size)
  }

  /** `\u0000` decodes to one NUL in the current version and is refused by the legacy one. */
  lemma NulEscape()
    ensures Parse("0000", 4) == Ok(['\0'])
    ensures ParseLegacy("0000", 4).Err?
  {
    HexValueOf("0000", "000", "00", "0");
  }

  /** HexValue of four digits, by peeling off the last one three times. */
  lemma HexValueOf(d4: seq<char>, d3: seq<char>, d2: seq<char>, d1: seq<char>)
    requires |d4| == 4 && d3 == d4[..3] && d2 == d3[..2] && d1 == d2[..1]
    requires forall i :: 0 <= i < 4 ==> IsHex(d4[i])
    ensures d4[..4] == d4
    ensures HexValue(d4) == ((HexDigit(d4[0]) * 16 + HexDigit(d4[1])) * 16 + HexDigit(d4[2])) * 16 + HexDigit(d4[3])
  {
    assert d1[..0] == [] && d1[0] == d4[0] && d2[1] == d4[1] && d3[2] == d4[2];
    assert HexValue(d1) == HexDigit(d4[0]);
    assert HexValue(d2) == HexDigit(d4[0]) * 16 + HexDigit(d4[1]);
    assert HexValue(d3) == HexValue(d2) * 16 + HexDigit(d4[2]);
  }

  /** `あ` is HIRAGANA LETTER A, E3 81 82, in both versions. */
  lemma HiraganaEscape()
    ensures Parse("3042", 4) == Ok([0xE3 as char, 0x81 as char, 0x82 as char])
    ensures ParseLegacy("3042", 4) == Parse("3042", 4)
  {
    HexValueOf("3042", "304", "30", "3");
    Utf8.HiraganaA();
  }
}
