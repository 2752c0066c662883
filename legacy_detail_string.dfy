/**
 * The root detail_string.cpp, the string helpers that came before
 * tomload/detail_string.cpp.
 *
 * Its `utf8_encode` and `parse_unicode_escape` are Utf8.EncodeLegacy
 * and UnicodeEscape.ParseLegacy.  Its `get_string_length`, literal-string
 * helpers and `get_bare_length` (which scans from index 1) have the same
 * bodies as those of tomload/, so they are DetailString's functions; its
 * `parse_string` is the same loop calling the legacy
 * `parse_unicode_escape`.  It has no multi-line basic strings.  Its
 * `parse_keys` has no branch for a character that starts no key: there
 * a pass of the loop changes nothing and the loop never ends.
 */
module LegacyDetailString {
  import opened Errors
  import opened StringView14
  import opened ViewT
  import opened Parser
  import DetailString
  import UnicodeEscape

  /** `parse_string(view, length)`: the content between the quotes, decoded with the legacy `\u` rule. */
  method ParseString(view: View, length: SizeT) returns (r: Result<seq<char>>)
    requires 2 <= length <= |view|
    ensures r == DetailString.StringValue(view, length, UnicodeEscape.Legacy)
  {
    r := DetailString.DecodeBasicLoop(view[1..], length - 2, UnicodeEscape.Legacy);
  }

  // ---------------------------------------------------------------------
  // parse_keys
  // ---------------------------------------------------------------------

  /** What a pass at `wait_key` does once the blanks are skipped: a key read, an exception, or no branch taken. */
  datatype Token = Read(p: Parsed<string>) | Thrown(e: Error) | NoBranch

  /**
   * One key at `wait_key`: a bare key, a literal string or a basic
   * string; an empty view is "unexpected end of input", and any other
   * character is the empty `else`.
   */
  function KeyToken(v: View): (t: Token)
    ensures t.Read? ==> IsSuffix(t.p.rest, v) && |t.p.rest| < |v|
    ensures v == [] ==> t == Thrown(ParseError("unexpected end of input"))
  {
    if v == [] then Thrown(ParseError("unexpected end of input"))
    else if DetailString.IsBareChar(v[0]) then
      var length := DetailString.GetBareLength(v);
      Read(Parsed(DetailString.ParseBareValue(v, length), After(v, length)))
    else if StartsWith(v, "\'") then
      match DetailString.GetLiteralStringLength(v)
      case Err(e) => Thrown(e)
      case Ok(length) => Read(Parsed(DetailString.ParseLiteralString(v, length), After(v, length)))
    else if StartsWith(v, "\"") then
      DetailString.StringLengthShape(v);
      match DetailString.StringLength(v)
      case Err(e) => Thrown(e)
      case Ok(length) =>
        match DetailString.StringValue(v, length, UnicodeEscape.Legacy)
        case Err(e) => Thrown(e)
        case Ok(key) => Read(Parsed(key, After(v, length)))
    else NoBranch
  }

  /** How the `parse_keys` loop ends: by `return` or an exception, or spinning at a `wait_key` state it repeats. */
  datatype KeysEnd = Found(r: Result<Parsed<seq<string>>>) | Spins(at: View, keys: seq<string>)

  /** The loop from `wait_key` with the keys pushed so far. */
  function WaitKey(view: View, keys: seq<string>): (e: KeysEnd)
    ensures e.Found? && e.r.Ok? ==> IsSuffix(e.r.value.rest, view)
    decreases |view|, 1
  {
    var v := AfterSpace(view, KEY_SPACES, false);
    match KeyToken(v)
    case Thrown(err) => Found(Err(err))
    case NoBranch => Spins(v, keys)
    case Read(p) =>
      SuffixTrans(p.rest, v, view);
      var e := WaitDot(p.rest, keys + [p.value]);
      if e.Found? && e.r.Ok? then SuffixTrans(e.r.value.rest, p.rest, view); e else e
  }

  /** The loop from `wait_dot`: a dot goes back to `wait_key`, anything else is the `break`. */
  function WaitDot(view: View, keys: seq<string>): (e: KeysEnd)
    ensures e.Found? && e.r.Ok? ==> IsSuffix(e.r.value.rest, view)
    decreases |view|, 0
  {
    var v := AfterSpace(view, KEY_SPACES, false);
    if v == [] || !StartsWith(v, ".") then Found(KeysFound(keys, v))
    else
      var w := After(v, 1);
      SuffixTrans(w, v, view);
      var e := WaitKey(w, keys);
      if e.Found? && e.r.Ok? then SuffixTrans(e.r.value.rest, w, view); e else e
  }

  /** What `parse_keys(view)` of the root detail_string.cpp does. */
  function KeysValue(view: View): KeysEnd
  {
    WaitKey(view, [])
  }

  /**
   * `parse_keys`: the `for(;;)` loop.  At the empty `else` the C++ loop
   * goes round forever with nothing changed; the model returns that
   * state instead.
   */
  method ParseKeys(view: View) returns (e: KeysEnd)
    ensures e == KeysValue(view)
  {
    var keys: seq<string> := [];
    var v := view;
    var waitDot := false;
    while true
      invariant (if waitDot then WaitDot(v, keys) else WaitKey(v, keys)) == KeysValue(view)
      decreases |v|
    {
      var w := SkipSpace(v, KEY_SPACES, false);
      if !waitDot {
        var key := ParseKeyToken(w);
        if !key.Read? {
          e := if key.Thrown? then Found(Err(key.e)) else Spins(w, keys);
          return;
        }
        v, keys, waitDot := key.p.rest, keys + [key.p.value], true;
      } else if w == [] || !StartsWith(w, ".") {
        v := w;
        break;
      } else {
        v, waitDot := After(w, 1), false;
      }
    }
    if keys == [] {
      return Found(Err(ParseError("no keys found")));
    }
    return Found(Ok(Parsed(keys, v)));
  }

  /** A key at `wait_key`. */
  method ParseKeyToken(v: View) returns (t: Token)
    ensures t == KeyToken(v)
  {
    if v == [] {
      return Thrown(ParseError("unexpected end of input"));
    }
    var bare := Find(DetailString.BARE_CHARS, [v[0]], 0);
    DetailString.FindCharIsLeast(DetailString.BARE_CHARS, v[0], 0);
    DetailString.BareCharIff(v[0]);
    if bare != NPOS {
      var length := DetailString.GetBareLength(v);
      return Read(Parsed(DetailString.ParseBareValue(v, length), After(v, length)));
    }
    if StartsWith(v, "\'") {
      var length := DetailString.GetLiteralStringLength(v);
      if length.Err? {
        return Thrown(length.error);
      }
      return Read(Parsed(DetailString.ParseLiteralString(v, length.value), After(v, length.value)));
    } else if StartsWith(v, "\"") {
      var length := DetailString.GetStringLength(v);
      DetailString.StringLengthShape(v);
      if length.Err? {
        return Thrown(length.error);
      }
      var key := ParseString(v, length.value);
      if key.Err? {
        return Thrown(key.error);
      }
      return Read(Parsed(key.value, After(v, length.value)));
    }
    return NoBranch;
  }

  // ---------------------------------------------------------------------
  // Properties of parse_keys
  // ---------------------------------------------------------------------

  /**
   * Where the model stops at Spins, the C++ loop is at a fixed point:
   * skip_space leaves the view as it is and no branch of `wait_key`
   * is taken, so every later pass is the same.
   */
  lemma {:induction false} WaitKeySpins(view: View, keys: seq<string>)
    ensures WaitKey(view, keys).Spins? ==>
              var e := WaitKey(view, keys);
              IsSuffix(e.at, view) && AfterSpace(e.at, KEY_SPACES, false) == e.at && KeyToken(e.at) == NoBranch &&
              keys <= e.keys
    decreases |view|, 1
  {
    var v := AfterSpace(view, KEY_SPACES, false);
    match KeyToken(v)
    case Thrown(_) =>
    case NoBranch =>
      assert WaitKey(view, keys) == Spins(v, keys);
      SkippedStays(view, v);
    case Read(p) =>
      WaitDotSpins(p.rest, keys + [p.value]);
      var e := WaitDot(p.rest, keys + [p.value]);
      assert WaitKey(view, keys) == e;
      if e.Spins? {
        SuffixTrans(p.rest, v, view);
        SuffixTrans(e.at, p.rest, view);
        PrefixTrans(keys, keys + [p.value], e.keys);
      }
  }

  /** A prefix of a prefix is a prefix. */
  lemma PrefixTrans(a: seq<string>, b: seq<string>, c: seq<string>)
    requires a <= b && b <= c
    ensures a <= c
  {
    assert c[..|a|] == c[..|b|][..|a|];
  }

  /** What skip_space leaves, it leaves as it is. */
  lemma SkippedStays(view: View, v: View)
    requires v == AfterSpace(view, KEY_SPACES, false)
    ensures IsSuffix(v, view) && AfterSpace(v, KEY_SPACES, false) == v
  {
    AfterSpaceStays(v, KEY_SPACES);
  }

  lemma {:induction false} WaitDotSpins(view: View, keys: seq<string>)
    ensures WaitDot(view, keys).Spins? ==>
              var e := WaitDot(view, keys);
              IsSuffix(e.at, view) && AfterSpace(e.at, KEY_SPACES, false) == e.at && KeyToken(e.at) == NoBranch &&
              keys <= e.keys
    decreases |view|, 0
  {
    var v := AfterSpace(view, KEY_SPACES, false);
    if v != [] && StartsWith(v, ".") {
      var w := After(v, 1);
      assert WaitDot(view, keys) == WaitKey(w, keys);
      WaitKeySpins(w, keys);
      if WaitKey(w, keys).Spins? {
        SuffixTrans(w, v, view);
        SuffixTrans(WaitKey(w, keys).at, w, view);
      }
    }
  }

  /** What tomload/ makes of a legacy outcome: the empty `else` became "expected string". */
  function AsCurrent(t: Token): (r: Result<Parsed<string>>)
    ensures r.Ok? <==> t.Read?
  {
    match t
    case Read(p) => Ok(p)
    case Thrown(e) => Err(e)
    case NoBranch => Err(ParseError("expected string"))
  }

  function KeysAsCurrent(e: KeysEnd): (r: Result<Parsed<seq<string>>>)
    ensures r.Ok? ==> e.Found?
  {
    match e
    case Found(r) => r
    case Spins(_, _) => Err(ParseError("expected string"))
  }

  /**
   * Away from basic strings, a key is read by tomload/ as it is here,
   * except that where no branch is taken tomload/ throws "expected
   * string".
   */
  lemma KeyTokenAgrees(v: View)
    ensures !StartsWith(v, "\"") ==> Parser.KeyToken(v) == AsCurrent(KeyToken(v))
  {
    if v != [] {
      DetailString.BareCharIff(v[0]);
    }
  }

  /**
   * On a text without `"`, the parse_keys of tomload/ is this one with
   * the loop that never ends turned into "expected string".
   */
  lemma {:induction false} WaitKeyAgrees(view: View, keys: seq<string>)
    ensures NoQuote(view) ==> Parser.WaitKey(view, keys) == KeysAsCurrent(WaitKey(view, keys))
    decreases |view|, 1
  {
    if NoQuote(view) {
      var v := AfterSpace(view, KEY_SPACES, false);
      NoQuoteSuffix(v, view);
      NoQuoteStart(v);
      KeyTokenAgrees(v);
      match KeyToken(v)
      case Thrown(_) =>
      case NoBranch =>
      case Read(p) =>
        NoQuoteSuffix(p.rest, v);
        WaitDotAgrees(p.rest, keys + [p.value]);
    }
  }

  lemma {:induction false} WaitDotAgrees(view: View, keys: seq<string>)
    ensures NoQuote(view) ==> Parser.WaitDot(view, keys) == KeysAsCurrent(WaitDot(view, keys))
    decreases |view|, 0
  {
    if NoQuote(view) {
      var v := AfterSpace(view, KEY_SPACES, false);
      if v != [] && StartsWith(v, ".") {
        var w := After(v, 1);
        NoQuoteSuffix(v, view);
        NoQuoteSuffix(w, v);
        WaitKeyAgrees(w, keys);
      }
    }
  }

  /** A one-letter key and a dot before `=`: after the dot, `=` starts no key, and the loop spins there. */
  lemma TrailingDotSpins(k: string)
    requires |k| == 1 && DetailString.IsBareChar(k[0])
    ensures KeysValue(k + ".=") == Spins("=", [k])
  {
    FirstKey(k + ".=", k, ".=");
    DotThenStuck([k]);
  }

  /** A one-letter key is read and pushed. */
  lemma FirstKey(view: View, k: string, rest: View)
    requires view == k + rest && |k| == 1 && DetailString.IsBareChar(k[0])
    requires rest != [] && !DetailString.IsBareChar(rest[0])
    ensures WaitKey(view, []) == WaitDot(rest, [k])
  {
    BareKeyAt(view, k, rest);
    PushOnEmpty(k);
    KeyStep(view, [], Parsed(k, rest), [k]);
  }

  /** From `wait_dot` at `.=`: the dot, then `=` where no branch is taken. */
  lemma DotThenStuck(keys: seq<string>)
    ensures WaitDot(".=", keys) == Spins("=", keys)
  {
    DotStep(".=", "=", keys);
    StuckAt("=");
    StuckStep("=", keys);
  }

  /** Where the loop spins, tomload/ throws "expected string". */
  lemma TrailingDotThrows(k: string)
    requires |k| == 1 && DetailString.IsBareChar(k[0])
    ensures Parser.KeysValue(k + ".=") == Err(ParseError("expected string"))
  {
    TrailingDotSpins(k);
    NoQuoteKeyDot(k);
    WaitKeyAgrees(k + ".=", []);
  }

  /** `k.=` holds no `"`. */
  lemma NoQuoteKeyDot(k: string)
    requires |k| == 1 && DetailString.IsBareChar(k[0])
    ensures NoQuote(k + ".=")
  {
    var v := k + ".=";
    assert v[0] == k[0] && v[1] == '.' && v[2] == '=';
  }

  /** A key read at `wait_key` moves to `wait_dot` with it pushed. */
  lemma KeyStep(view: View, keys: seq<string>, p: Parsed<string>, pushed: seq<string>)
    requires AfterSpace(view, KEY_SPACES, false) == view && KeyToken(view) == Read(p) && pushed == keys + [p.value]
    ensures WaitKey(view, keys) == WaitDot(p.rest, pushed)
  {
  }

  /** Pushing onto no keys. */
  lemma PushOnEmpty(k: string)
    ensures [] + [k] == [k]
  {
  }

  /** The dot of `.=` goes back to `wait_key` at `=`. */
  lemma DotStep(v: View, w: View, keys: seq<string>)
    requires v == ".=" && w == "="
    ensures WaitDot(v, keys) == WaitKey(w, keys)
  {
    DotFront(v, w);
  }

  /** No branch taken at `wait_key`: the loop spins there. */
  lemma StuckStep(v: View, keys: seq<string>)
    requires AfterSpace(v, KEY_SPACES, false) == v && KeyToken(v) == NoBranch
    ensures WaitKey(v, keys) == Spins(v, keys)
  {
  }

  /** A one-letter bare key with no bare character after it. */
  lemma BareKeyAt(view: View, k: seq<char>, rest: seq<char>)
    requires view == k + rest && |k| == 1 && DetailString.IsBareChar(k[0])
    requires rest != [] && !DetailString.IsBareChar(rest[0])
    ensures AfterSpace(view, KEY_SPACES, false) == view && KeyToken(view) == Read(Parsed(k, rest))
  {
    assert view[0] == k[0] && view[1] == rest[0];
    DetailString.BareCharIff(view[0]);
    DetailString.BareCharIff(view[1]);
    AfterSpaceStays(view, KEY_SPACES);
    assert view[..1] == k && view[1..] == rest;
  }

  /** The dot, and what is left after it. */
  lemma DotFront(v: View, w: View)
    requires v == ".=" && w == "="
    ensures AfterSpace(v, KEY_SPACES, false) == v && StartsWith(v, ".") && After(v, 1) == w && NoQuote(v)
  {
    AfterSpaceStays(v, KEY_SPACES);
    assert v[..1] == ".";
  }

  /** `=` starts no key. */
  lemma StuckAt(v: View)
    requires v == "="
    ensures AfterSpace(v, KEY_SPACES, false) == v && KeyToken(v) == NoBranch
  {
    NotPrefixAt("\'", v, 0);
    NotPrefixAt("\"", v, 0);
    AfterSpaceStays(v, KEY_SPACES);
  }
}
