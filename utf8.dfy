/**
 * UTF-8 encoding of one code point, as `utf8_encode` writes it in
 * tomload/detail_string.cpp and in the root detail_string.cpp, and a
 * decoder of one well-formed UTF-8 sequence (section 3 of RFC 3629)
 * that serves as its inverse.
 *
 * The encoders build each byte as `lead | (codepoint >> k)` and
 * `0x80 | ((codepoint >> k) & 0x3F)`; within each length range the
 * OR'ed bits are disjoint, so the model writes them as additions of
 * quotients and remainders.  A byte is a `char` in 0..255.
 */
module Utf8 {
  import opened Errors

  /** A `uint32_t` code point. */
  type Uint32 = n: nat | n <= 0xFFFF_FFFF

  predicate IsSurrogate(cp: nat) { 0xD800 <= cp <= 0xDFFF }

  /** A Unicode scalar value: at most U+10FFFF and not a surrogate. */
  predicate IsScalar(cp: nat) { cp <= 0x10FFFF && !IsSurrogate(cp) }

  predicate IsContinuation(c: char) { 0x80 <= c as int <= 0xBF }

  /** The bytes both encoders produce for a code point up to U+10FFFF. */
  function Bytes(cp: nat): (b: seq<char>)
    requires cp <= 0x10FFFF
    ensures 1 <= |b| <= 4
    ensures forall i :: 0 <= i < |b| ==> b[i] as int < 256
  {
    if cp <= 0x7F then [cp as char]
    else if cp <= 0x7FF then
      [(0xC0 + cp / 64) as char, (0x80 + cp % 64) as char]
    else if cp <= 0xFFFF then
      [(0xE0 + cp / 4096) as char, (0x80 + (cp / 64) % 64) as char, (0x80 + cp % 64) as char]
    else
      [(0xF0 + cp / 262144) as char, (0x80 + (cp / 4096) % 64) as char,
       (0x80 + (cp / 64) % 64) as char, (0x80 + cp % 64) as char]
  }

  /**
   * `utf8_encode` of tomload/detail_string.cpp: parse_error for a
   * surrogate and for anything above U+10FFFF.
   */
  function Encode(cp: Uint32): (r: Result<seq<char>>)
    ensures r.Ok? <==> IsScalar(cp)
    ensures r.Err? ==> r.error.ParseError?
  {
    if cp <= 0x7F then Ok(Bytes(cp))
    else if cp <= 0x7FF then Ok(Bytes(cp))
    else if cp <= 0xFFFF then
      if 0xD800 <= cp && cp <= 0xDFFF then Err(ParseError("detect surrogate pair in 2bytes (U+D800 - U+DFFF)"))
      else Ok(Bytes(cp))
    else if cp <= 0x10FFFF then Ok(Bytes(cp))
    else Err(ParseError("invalid unicode escape sequence"))
  }

  /**
   * `utf8_encode` of the root detail_string.cpp: surrogates are encoded
   * like any other three-byte code point and anything above U+10FFFF
   * gives the empty string.
   */
  function EncodeLegacy(cp: Uint32): (r: seq<char>)
    ensures r == [] <==> cp > 0x10FFFF
  {
    if cp <= 0x10FFFF then Bytes(cp) else []
  }

  /** One well-formed UTF-8 sequence, decoded to its code point: no overlong form, no surrogate. */
  function Decode(b: seq<char>): (r: Result<nat>)
  {
    if |b| == 1 && b[0] as int <= 0x7F then Ok(b[0] as int)
    else if |b| == 2 && 0xC0 <= b[0] as int <= 0xDF && IsContinuation(b[1]) then
      var cp := (b[0] as int - 0xC0) * 64 + (b[1] as int - 0x80);
      if cp >= 0x80 then Ok(cp) else Err(ParseError("overlong"))
    else if |b| == 3 && 0xE0 <= b[0] as int <= 0xEF && IsContinuation(b[1]) && IsContinuation(b[2]) then
      var cp := (b[0] as int - 0xE0) * 4096 + (b[1] as int - 0x80) * 64 + (b[2] as int - 0x80);
      if cp >= 0x800 && !IsSurrogate(cp) then Ok(cp) else Err(ParseError("overlong or surrogate"))
    else if |b| == 4 && 0xF0 <= b[0] as int <= 0xF7 && IsContinuation(b[1]) && IsContinuation(b[2]) && IsContinuation(b[3]) then
      var cp := (b[0] as int - 0xF0) * 262144 + (b[1] as int - 0x80) * 4096 + (b[2] as int - 0x80) * 64 + (b[3] as int - 0x80);
      if 0x10000 <= cp <= 0x10FFFF then Ok(cp) else Err(ParseError("overlong or out of range"))
    else Err(ParseError("ill-formed"))
  }

  lemma DivMod64(q: nat, r: nat)
    requires r < 64
    ensures (q * 64 + r) / 64 == q && (q * 64 + r) % 64 == r
  {
  }

  /** Every scalar value is encoded as the one sequence that decodes back to it. */
  lemma DecodeBytes(cp: nat)
    requires IsScalar(cp)
    ensures Decode(Bytes(cp)) == Ok(cp)
  {
    var b := Bytes(cp);
    if cp <= 0x7F {
    } else if cp <= 0x7FF {
      assert cp == (cp / 64) * 64 + cp % 64;
    } else if cp <= 0xFFFF {
      assert cp / 64 == (cp / 4096) * 64 + (cp / 64) % 64;
      assert cp == (cp / 64) * 64 + cp % 64;
    } else {
      assert cp / 4096 == (cp / 262144) * 64 + (cp / 4096) % 64;
      assert cp / 64 == (cp / 4096) * 64 + (cp / 64) % 64;
      assert cp == (cp / 64) * 64 + cp % 64;
    }
  }

  lemma BytesOfDecode2(b: seq<char>)
    requires |b| == 2 && Decode(b).Ok?
    ensures Bytes(Decode(b).value) == b
  {
    var cp := Decode(b).value;
    var q, r := b[0] as int - 0xC0, b[1] as int - 0x80;
    DivMod64(q, r);
    assert cp / 64 == q && cp % 64 == r;
    assert Bytes(cp)[0] == b[0] && Bytes(cp)[1] == b[1];
  }

  lemma BytesOfDecode3(b: seq<char>)
    requires |b| == 3 && Decode(b).Ok?
    ensures Bytes(Decode(b).value) == b
  {
    var cp := Decode(b).value;
    var q1, r1, r2 := b[0] as int - 0xE0, b[1] as int - 0x80, b[2] as int - 0x80;
    DivMod64(q1 * 64 + r1, r2);
    DivMod64(q1, r1);
    assert cp == (q1 * 64 + r1) * 64 + r2;
    assert cp / 64 == q1 * 64 + r1 && cp % 64 == r2;
    assert cp / 4096 == (cp / 64) / 64;
    assert Bytes(cp)[0] == b[0] && Bytes(cp)[1] == b[1] && Bytes(cp)[2] == b[2];
  }

  lemma BytesOfDecode4(b: seq<char>)
    requires |b| == 4 && Decode(b).Ok?
    ensures Bytes(Decode(b).value) == b
  {
    var cp := Decode(b).value;
    var q1, r1, r2, r3 := b[0] as int - 0xF0, b[1] as int - 0x80, b[2] as int - 0x80, b[3] as int - 0x80;
    DivMod64((q1 * 64 + r1) * 64 + r2, r3);
    DivMod64(q1 * 64 + r1, r2);
    DivMod64(q1, r1);
    assert cp == ((q1 * 64 + r1) * 64 + r2) * 64 + r3;
    assert cp / 64 == (q1 * 64 + r1) * 64 + r2 && cp % 64 == r3;
    assert cp / 4096 == (cp / 64) / 64;
    assert cp / 262144 == (cp / 4096) / 64;
    assert Bytes(cp)[0] == b[0] && Bytes(cp)[1] == b[1] && Bytes(cp)[2] == b[2] && Bytes(cp)[3] == b[3];
  }

  /** Conversely, every well-formed sequence is what the encoder writes for its code point. */
  lemma BytesOfDecode(b: seq<char>)
    requires Decode(b).Ok?
    ensures IsScalar(Decode(b).value) && Bytes(Decode(b).value) == b
  {
    if |b| == 2 {
      BytesOfDecode2(b);
    } else if |b| == 3 {
      BytesOfDecode3(b);
    } else if |b| == 4 {
      BytesOfDecode4(b);
    }
  }

  /**
   * The length and the lead and continuation byte patterns of section 3
   * of RFC 3629: 0xxxxxxx, 110xxxxx 10xxxxxx, 1110xxxx 10xxxxxx 10xxxxxx,
   * 11110xxx 10xxxxxx 10xxxxxx 10xxxxxx.
   */
  lemma EncodeShape(cp: Uint32)
    requires IsScalar(cp)
    ensures Encode(cp).Ok?
    ensures var b := Encode(cp).value;
      (cp <= 0x7F ==> |b| == 1 && b[0] as int == cp) &&
      (0x80 <= cp <= 0x7FF ==> |b| == 2 && 0xC2 <= b[0] as int <= 0xDF) &&
      (0x800 <= cp <= 0xFFFF ==> |b| == 3 && 0xE0 <= b[0] as int <= 0xEF) &&
      (0x10000 <= cp ==> |b| == 4 && 0xF0 <= b[0] as int <= 0xF4) &&
      (forall i :: 1 <= i < |b| ==> IsContinuation(b[i]))
  {
  }

  /** `utf8_encode` round-trips through the decoder exactly on the scalar values. */
  lemma EncodeDecode(cp: Uint32)
    ensures Encode(cp).Ok? <==> IsScalar(cp)
    ensures Encode(cp).Ok? ==> Decode(Encode(cp).value) == Ok(cp)
  {
    if IsScalar(cp) { DecodeBytes(cp); }
  }

  /** The legacy encoder agrees with the current one except on surrogates, which it does not reject. */
  lemma LegacyAgrees(cp: Uint32)
    ensures Encode(cp).Ok? ==> EncodeLegacy(cp) == Encode(cp).value
    ensures IsSurrogate(cp) ==> Encode(cp).Err? && |EncodeLegacy(cp)| == 3
  {
  }

  /** U+3042 HIRAGANA LETTER A is E3 81 82. */
  lemma HiraganaA()
    ensures Encode(0x3042) == Ok([0xE3 as char, 0x81 as char, 0x82 as char])
  {
  }
}
