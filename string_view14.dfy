/**
 * `tomload::string_view14`, the C++14 stand-in for `std::string_view`.
 *
 * A view is modelled by the characters it shows.  The read-only members
 * (`substr`, `compare`, the searches, `at`) take the viewed characters
 * as a `View`; the members that move the view itself (`remove_prefix`,
 * `remove_suffix`, `swap`) and `copy` live on the class `StringView`,
 * which keeps the fields `data_` and `size_` over a character buffer.
 *
 * Each search member is a loop method proved equal to a specification
 * function; lemmas state what the specification function computes
 * (the least or greatest matching index, or npos).
 */
module StringView14 {
  import opened Errors

  /** `string_view14::npos`, `static_cast<size_t>(-1)` for a 64-bit `size_t`. */
  const NPOS: nat := 0xFFFF_FFFF_FFFF_FFFF

  /** A `size_type` argument. */
  type SizeT = n: nat | n <= NPOS

  /** The characters of a view; no view is npos characters long. */
  type View = s: seq<char> | |s| < NPOS

  function Min(a: nat, b: nat): nat { if a <= b then a else b }

  // ---------------------------------------------------------------------
  // Character order
  // ---------------------------------------------------------------------

  /**
   * `compare` orders characters as the platform's signed `char`: bytes
   * 0x80..0xFF are negative and sort before 0x00..0x7F.  Characters above
   * 0xFF never come from a C++ `char`; they are ranked above every byte so
   * that the order stays total.
   */
  function Rank(c: char): int
  {
    if c as int < 128 then c as int
    else if c as int < 256 then c as int - 256
    else c as int
  }

  lemma RankInjective(a: char, b: char)
    ensures Rank(a) == Rank(b) <==> a == b
  {
  }

  /** `a` comes strictly before `b` in the lexicographic order on ranks. */
  predicate LexLess(a: seq<char>, b: seq<char>)
  {
    (|a| < |b| && a == b[..|a|]) ||
    (exists k :: 0 <= k < |a| && k < |b| && a[..k] == b[..k] && Rank(a[k]) < Rank(b[k]))
  }

  /** What `compare(sv)` returns: -1, 0 or 1 by the first differing character, then by length. */
  function Cmp(a: seq<char>, b: seq<char>): (r: int)
    ensures -1 <= r <= 1
  {
    if |a| == 0 || |b| == 0 then
      (if |a| < |b| then -1 else if |a| > |b| then 1 else 0)
    else if Rank(a[0]) < Rank(b[0]) then -1
    else if Rank(a[0]) > Rank(b[0]) then 1
    else Cmp(a[1..], b[1..])
  }

  lemma {:induction false} CmpZero(a: seq<char>, b: seq<char>)
    ensures Cmp(a, b) == 0 <==> a == b
    decreases |a|
  {
    if |a| > 0 && |b| > 0 {
      RankInjective(a[0], b[0]);
      CmpZero(a[1..], b[1..]);
      if a[1..] == b[1..] && a[0] == b[0] {
        assert a == [a[0]] + a[1..] && b == [b[0]] + b[1..];
      }
      if a == b {
        assert a[1..] == b[1..];
      }
    }
  }

  lemma {:induction false} CmpAntisymmetric(a: seq<char>, b: seq<char>)
    ensures Cmp(b, a) == -Cmp(a, b)
    decreases |a|
  {
    if |a| > 0 && |b| > 0 && Rank(a[0]) == Rank(b[0]) {
      CmpAntisymmetric(a[1..], b[1..]);
    }
  }

  /** `compare` is the lexicographic order: it returns -1 exactly when `a` sorts before `b`. */
  lemma {:induction false} CmpIsLexicographic(a: seq<char>, b: seq<char>)
    ensures Cmp(a, b) == -1 <==> LexLess(a, b)
    decreases |a|
  {
    if |a| == 0 {
      if |b| > 0 { assert a == b[..0]; }
      if LexLess(a, b) { assert |a| < |b|; }
    } else if |b| == 0 {
      assert !LexLess(a, b);
    } else if Rank(a[0]) < Rank(b[0]) {
      assert a[..0] == b[..0];
    } else if Rank(a[0]) > Rank(b[0]) {
      forall k | 0 < k <= |a| && k <= |b|
        ensures a[..k] != b[..k]
      {
        assert a[..k][0] == a[0] && b[..k][0] == b[0];
      }
    } else {
      RankInjective(a[0], b[0]);
      CmpIsLexicographic(a[1..], b[1..]);
      var a', b' := a[1..], b[1..];
      if LexLess(a', b') {
        if |a'| < |b'| && a' == b'[..|a'|] {
          assert a == b[..|a|];
        } else {
          var k :| 0 <= k < |a'| && k < |b'| && a'[..k] == b'[..k] && Rank(a'[k]) < Rank(b'[k]);
          assert a[..k + 1] == [a[0]] + a'[..k];
          assert b[..k + 1] == [b[0]] + b'[..k];
          assert a[k + 1] == a'[k] && b[k + 1] == b'[k];
        }
      }
      if LexLess(a, b) {
        if |a| < |b| && a == b[..|a|] {
          assert a' == b'[..|a'|];
        } else {
          var k :| 0 <= k < |a| && k < |b| && a[..k] == b[..k] && Rank(a[k]) < Rank(b[k]);
          assert k > 0;
          assert a'[..k - 1] == a[..k][1..] && b'[..k - 1] == b[..k][1..];
          assert a'[k - 1] == a[k] && b'[k - 1] == b[k];
        }
      }
    }
  }

  /** A proper prefix compares smaller. */
  lemma ProperPrefixIsSmaller(a: seq<char>, b: seq<char>)
    requires |a| < |b| && a == b[..|a|]
    ensures Cmp(a, b) == -1
  {
    CmpIsLexicographic(a, b);
  }

  lemma {:induction false} CmpTransitive(a: seq<char>, b: seq<char>, c: seq<char>)
    requires Cmp(a, b) == -1 && Cmp(b, c) == -1
    ensures Cmp(a, c) == -1
    decreases |a|
  {
    if |a| > 0 && Rank(a[0]) == Rank(b[0]) && Rank(b[0]) == Rank(c[0]) {
      CmpTransitive(a[1..], b[1..], c[1..]);
    }
  }

  /** `compare(sv)`: the loop over the common length, then the lengths. */
  method Compare(s: View, sv: View) returns (r: int)
    ensures r == Cmp(s, sv)
  {
    var len := Min(|s|, |sv|);
    var i := 0;
    while i < len
      invariant 0 <= i <= len
      invariant Cmp(s, sv) == Cmp(s[i..], sv[i..])
    {
      if Rank(s[i]) < Rank(sv[i]) {
        return -1;
      } else if Rank(s[i]) > Rank(sv[i]) {
        return 1;
      }
      assert s[i..][1..] == s[i + 1..] && sv[i..][1..] == sv[i + 1..];
      i := i + 1;
    }
    if |s| < |sv| {
      r := -1;
    } else if |s| > |sv| {
      r := 1;
    } else {
      r := 0;
    }
  }

  /** `operator==`, defined from `compare`. */
  function Eq(a: View, b: View): (r: bool)
    ensures r <==> a == b
  {
    CmpZero(a, b);
    Cmp(a, b) == 0
  }

  /** `operator!=`, defined from `compare`. */
  function Ne(a: View, b: View): (r: bool)
    ensures r <==> a != b
  {
    CmpZero(a, b);
    Cmp(a, b) != 0
  }

  /** `operator<`, defined from `compare`. */
  function Lt(a: View, b: View): (r: bool)
    ensures r <==> LexLess(a, b)
  {
    CmpIsLexicographic(a, b);
    Cmp(a, b) < 0
  }

  /** `operator<=`, defined from `compare`. */
  function Le(a: View, b: View): (r: bool)
    ensures r <==> LexLess(a, b) || a == b
  {
    CmpIsLexicographic(a, b);
    CmpZero(a, b);
    Cmp(a, b) <= 0
  }

  /** `operator>`, defined from `compare`. */
  function Gt(a: View, b: View): (r: bool)
    ensures r <==> LexLess(b, a)
  {
    CmpAntisymmetric(a, b);
    CmpIsLexicographic(b, a);
    Cmp(a, b) > 0
  }

  /** `operator>=`, defined from `compare`. */
  function Ge(a: View, b: View): (r: bool)
    ensures r <==> LexLess(b, a) || a == b
  {
    CmpAntisymmetric(a, b);
    CmpIsLexicographic(b, a);
    CmpZero(a, b);
    Cmp(a, b) >= 0
  }

  // ---------------------------------------------------------------------
  // substr, the positional compare and at
  // ---------------------------------------------------------------------

  /** `substr(pos, n)`: out_of_range past the end, else at most n characters from pos. */
  function Substr(s: View, pos: SizeT, n: SizeT): (r: Result<View>)
    ensures r.Err? <==> pos > |s|
    ensures r.Err? ==> r.error == OutOfRange("string_view14::substr()")
    ensures r.Ok? ==> |r.value| == Min(|s| - pos, n)
    ensures r.Ok? ==> forall i :: 0 <= i < |r.value| ==> r.value[i] == s[pos + i]
  {
    if pos > |s| then Err(OutOfRange("string_view14::substr()"))
    else
      var sub: View := s[pos .. pos + Min(|s| - pos, n)];
      Ok(sub)
  }

  /** Cutting a view at any position and taking the rest with `substr(pos)` gives it back whole. */
  lemma SubstrSplits(s: View, pos: SizeT)
    requires pos <= |s|
    ensures Substr(s, 0, pos).Ok? && Substr(s, pos, NPOS).Ok?
    ensures Substr(s, 0, pos).value + Substr(s, pos, NPOS).value == s
  {
    assert s[..pos] + s[pos..] == s;
  }

  /** `compare(pos1, n1, sv)`: `substr(pos1, n1).compare(sv)`, so out_of_range when pos1 > size. */
  function CompareAt(s: View, pos1: SizeT, n1: SizeT, sv: View): (r: Result<int>)
    ensures r.Err? <==> pos1 > |s|
    ensures r.Ok? ==> (r.value == 0 <==> sv == s[pos1 .. pos1 + Min(|s| - pos1, n1)])
  {
    match Substr(s, pos1, n1)
    case Err(e) => Err(e)
    case Ok(sub) =>
      CmpZero(sub, sv);
      Ok(Cmp(sub, sv))
  }

  /** `at(pos)`: the character at pos, out_of_range when pos >= size. */
  function At(s: View, pos: SizeT): (r: Result<char>)
    ensures r.Ok? <==> pos < |s|
    ensures r.Ok? ==> r.value == s[pos]
    ensures r.Err? ==> r.error == OutOfRange("string_view14::at()")
  {
    if pos >= |s| then Err(OutOfRange("string_view14::at()")) else Ok(s[pos])
  }

  // ---------------------------------------------------------------------
  // find and rfind
  // ---------------------------------------------------------------------

  /** `sv` occurs in `s` starting at index i. */
  predicate OccursAt(s: seq<char>, sv: seq<char>, i: nat)
  {
    i + |sv| <= |s| && s[i .. i + |sv|] == sv
  }

  /** The least i with from <= i <= |s| where sv occurs, or npos. */
  function FirstOccurrence(s: View, sv: View, from: nat): (r: SizeT)
    decreases |s| + 1 - from
  {
    if from > |s| then NPOS
    else if OccursAt(s, sv, from) then from
    else FirstOccurrence(s, sv, from + 1)
  }

  /** What `find(sv, pos)` returns. */
  function FindResult(s: View, sv: View, pos: SizeT): SizeT
  {
    if pos > |s| then NPOS else FirstOccurrence(s, sv, pos)
  }

  lemma {:induction false} FirstOccurrenceIsLeast(s: View, sv: View, from: nat)
    requires from <= |s| + 1
    ensures var r := FirstOccurrence(s, sv, from);
      (r == NPOS <==> forall i :: from <= i <= |s| ==> !OccursAt(s, sv, i)) &&
      (r != NPOS ==> from <= r <= |s| && OccursAt(s, sv, r) &&
                     forall i :: from <= i < r ==> !OccursAt(s, sv, i))
    decreases |s| + 1 - from
  {
    if from <= |s| && !OccursAt(s, sv, from) {
      FirstOccurrenceIsLeast(s, sv, from + 1);
    }
  }

  /**
   * `find(sv, pos)` is npos when pos > size; otherwise it is the least
   * index i >= pos where sv occurs (pos itself for an empty sv), or npos
   * when there is none.
   */
  lemma FindIsLeastOccurrence(s: View, sv: View, pos: SizeT)
    ensures var r := FindResult(s, sv, pos);
      (r == NPOS <==> pos > |s| || forall i :: pos <= i <= |s| ==> !OccursAt(s, sv, i)) &&
      (r != NPOS ==> pos <= r <= |s| && OccursAt(s, sv, r) &&
                     forall i :: pos <= i < r ==> !OccursAt(s, sv, i))
    ensures pos <= |s| && sv == [] ==> FindResult(s, sv, pos) == pos
  {
    if pos <= |s| {
      FirstOccurrenceIsLeast(s, sv, pos);
      if sv == [] { assert OccursAt(s, sv, pos); }
    }
  }

  /** `find(sv, pos)`: try every start index from pos, then fall back on pos for an empty sv. */
  method Find(s: View, sv: View, pos: SizeT) returns (r: SizeT)
    ensures r == FindResult(s, sv, pos)
  {
    if pos > |s| {
      return NPOS;
    }
    var i: nat := pos;
    while i < |s|
      invariant pos <= i <= |s|
      invariant FirstOccurrence(s, sv, pos) == FirstOccurrence(s, sv, i)
    {
      var sub := Substr(s, i, |sv|).value;
      if Eq(sub, sv) {
        return i;
      }
      i := i + 1;
    }
    r := if sv == [] then pos else NPOS;
    assert OccursAt(s, sv, |s|) <==> sv == [];
  }

  /** The greatest i <= upto where sv occurs, or npos. */
  function LastOccurrence(s: View, sv: View, upto: nat): (r: SizeT)
    decreases upto
  {
    if OccursAt(s, sv, upto) then (if upto <= NPOS then upto else NPOS)
    else if upto == 0 then NPOS
    else LastOccurrence(s, sv, upto - 1)
  }

  /** What `rfind(sv, pos)` returns. */
  function RFindResult(s: View, sv: View, pos: SizeT): SizeT
  {
    LastOccurrence(s, sv, Min(|s|, pos))
  }

  lemma {:induction false} LastOccurrenceIsGreatest(s: View, sv: View, upto: nat)
    requires upto <= |s|
    ensures var r := LastOccurrence(s, sv, upto);
      (r == NPOS <==> forall i :: 0 <= i <= upto ==> !OccursAt(s, sv, i)) &&
      (r != NPOS ==> r <= upto && OccursAt(s, sv, r) &&
                     forall i :: r < i <= upto ==> !OccursAt(s, sv, i))
    decreases upto
  {
    if !OccursAt(s, sv, upto) && upto > 0 {
      LastOccurrenceIsGreatest(s, sv, upto - 1);
    }
  }

  /** `rfind(sv, pos)` is the greatest index i <= min(size, pos) where sv occurs, or npos. */
  lemma RFindIsGreatestOccurrence(s: View, sv: View, pos: SizeT)
    ensures var r := RFindResult(s, sv, pos);
      (r == NPOS <==> forall i :: 0 <= i <= Min(|s|, pos) ==> !OccursAt(s, sv, i)) &&
      (r != NPOS ==> r <= Min(|s|, pos) && OccursAt(s, sv, r) &&
                     forall i :: r < i <= Min(|s|, pos) ==> !OccursAt(s, sv, i))
  {
    LastOccurrenceIsGreatest(s, sv, Min(|s|, pos));
  }

  /** `rfind(sv, pos)`: try every start index from min(size, pos) down to 0. */
  method RFind(s: View, sv: View, pos: SizeT) returns (r: SizeT)
    ensures r == RFindResult(s, sv, pos)
  {
    var target := Min(|s|, pos);
    var i: nat := 0;
    while i <= target
      invariant i <= target + 1
      invariant RFindResult(s, sv, pos) == if i <= target then LastOccurrence(s, sv, target - i) else NPOS
    {
      var idx := target - i;
      var sub := Substr(s, idx, |sv|).value;
      if Eq(sub, sv) {
        assert OccursAt(s, sv, idx);
        return idx;
      }
      assert !OccursAt(s, sv, idx);
      i := i + 1;
    }
    r := NPOS;
  }

  // ---------------------------------------------------------------------
  // find_first_of, find_first_not_of, find_last_of, find_last_not_of
  // ---------------------------------------------------------------------

  /**
   * The test those four members make of one character: `sv.find(c)` is
   * other than npos exactly when c is one of the characters of sv.
   */
  lemma FindCharIsMembership(sv: View, c: char)
    ensures FindResult(sv, [c], 0) != NPOS <==> c in sv
  {
    FindIsLeastOccurrence(sv, [c], 0);
    if c in sv {
      var i :| 0 <= i < |sv| && sv[i] == c;
      assert OccursAt(sv, [c], i);
    }
    if FindResult(sv, [c], 0) != NPOS {
      var r := FindResult(sv, [c], 0);
      assert sv[r .. r + 1] == [c];
      assert sv[r] == c;
    }
  }

  /** The least i with from <= i < |s| whose character's membership in chars is `want`, or npos. */
  function FirstWhere(s: View, chars: View, want: bool, from: nat): (r: SizeT)
    decreases |s| - from
  {
    if from >= |s| then NPOS
    else if (s[from] in chars) == want then from
    else FirstWhere(s, chars, want, from + 1)
  }

  /** The greatest i < upto whose character's membership in chars is `want`, or npos. */
  function LastWhere(s: View, chars: View, want: bool, upto: nat): (r: SizeT)
    requires upto <= |s|
    decreases upto
  {
    if upto == 0 then NPOS
    else if (s[upto - 1] in chars) == want then upto - 1
    else LastWhere(s, chars, want, upto - 1)
  }

  lemma {:induction false} FirstWhereIsLeast(s: View, chars: View, want: bool, from: nat)
    ensures var r := FirstWhere(s, chars, want, from);
      (r == NPOS <==> forall i :: from <= i < |s| ==> (s[i] in chars) != want) &&
      (r != NPOS ==> from <= r < |s| && (s[r] in chars) == want &&
                     forall i :: from <= i < r ==> (s[i] in chars) != want)
    decreases |s| - from
  {
    if from < |s| && (s[from] in chars) != want {
      FirstWhereIsLeast(s, chars, want, from + 1);
    }
  }

  lemma {:induction false} LastWhereIsGreatest(s: View, chars: View, want: bool, upto: nat)
    requires upto <= |s|
    ensures var r := LastWhere(s, chars, want, upto);
      (r == NPOS <==> forall i :: 0 <= i < upto ==> (s[i] in chars) != want) &&
      (r != NPOS ==> r < upto && (s[r] in chars) == want &&
                     forall i :: r < i < upto ==> (s[i] in chars) != want)
    decreases upto
  {
    if upto > 0 && (s[upto - 1] in chars) != want {
      LastWhereIsGreatest(s, chars, want, upto - 1);
    }
  }

  /**
   * `min(size_, max(pos, pos + 1))` in `size_t` arithmetic: pos + 1 wraps
   * to 0 when pos is npos, so the whole view is searched; otherwise the
   * search covers indices up to and including pos.
   */
  function LastTarget(s: View, pos: SizeT): (t: nat)
    ensures t <= |s|
    ensures pos == NPOS ==> t == |s|
    ensures pos < NPOS ==> t == Min(|s|, pos + 1)
  {
    var next := (pos + 1) % (NPOS + 1);
    Min(|s|, if pos >= next then pos else next)
  }

  function FindFirstOfResult(s: View, sv: View, pos: SizeT): SizeT { FirstWhere(s, sv, true, pos) }
  function FindFirstNotOfResult(s: View, sv: View, pos: SizeT): SizeT { FirstWhere(s, sv, false, pos) }
  function FindLastOfResult(s: View, sv: View, pos: SizeT): SizeT { LastWhere(s, sv, true, LastTarget(s, pos)) }
  function FindLastNotOfResult(s: View, sv: View, pos: SizeT): SizeT { LastWhere(s, sv, false, LastTarget(s, pos)) }

  /** `find_first_of(sv, pos)` is the least i >= pos whose character is in sv, or npos. */
  lemma FindFirstOfIsLeast(s: View, sv: View, pos: SizeT)
    ensures var r := FindFirstOfResult(s, sv, pos);
      (r == NPOS <==> forall i :: pos <= i < |s| ==> s[i] !in sv) &&
      (r != NPOS ==> pos <= r < |s| && s[r] in sv && forall i :: pos <= i < r ==> s[i] !in sv)
  {
    FirstWhereIsLeast(s, sv, true, pos);
  }

  /** `find_first_not_of(sv, pos)` is the least i >= pos whose character is not in sv, or npos. */
  lemma FindFirstNotOfIsLeast(s: View, sv: View, pos: SizeT)
    ensures var r := FindFirstNotOfResult(s, sv, pos);
      (r == NPOS <==> forall i :: pos <= i < |s| ==> s[i] in sv) &&
      (r != NPOS ==> pos <= r < |s| && s[r] !in sv && forall i :: pos <= i < r ==> s[i] in sv)
  {
    FirstWhereIsLeast(s, sv, false, pos);
  }

  /** `find_last_of(sv, pos)` is the greatest i <= pos (any i for npos) whose character is in sv, or npos. */
  lemma FindLastOfIsGreatest(s: View, sv: View, pos: SizeT)
    ensures var r := FindLastOfResult(s, sv, pos);
      (r == NPOS <==> forall i :: 0 <= i < |s| && i <= pos ==> s[i] !in sv) &&
      (r != NPOS ==> r < |s| && r <= pos && s[r] in sv &&
                     forall i :: r < i < |s| && i <= pos ==> s[i] !in sv)
  {
    LastWhereIsGreatest(s, sv, true, LastTarget(s, pos));
  }

  /** `find_last_not_of(sv, pos)` is the greatest i <= pos (any i for npos) whose character is not in sv, or npos. */
  lemma FindLastNotOfIsGreatest(s: View, sv: View, pos: SizeT)
    ensures var r := FindLastNotOfResult(s, sv, pos);
      (r == NPOS <==> forall i :: 0 <= i < |s| && i <= pos ==> s[i] in sv) &&
      (r != NPOS ==> r < |s| && r <= pos && s[r] !in sv &&
                     forall i :: r < i < |s| && i <= pos ==> s[i] in sv)
  {
    LastWhereIsGreatest(s, sv, false, LastTarget(s, pos));
  }

  /** `find_first_of(sv, pos)`: scan forward from pos. */
  method FindFirstOf(s: View, sv: View, pos: SizeT) returns (r: SizeT)
    ensures r == FindFirstOfResult(s, sv, pos)
  {
    var i: nat := pos;
    while i < |s|
      invariant pos <= i
      invariant FirstWhere(s, sv, true, pos) == FirstWhere(s, sv, true, i)
    {
      FindCharIsMembership(sv, s[i]);
      if FindResult(sv, [s[i]], 0) != NPOS {
        return i;
      }
      i := i + 1;
    }
    r := NPOS;
  }

  /** `find_first_not_of(sv, pos)`: scan forward from pos. */
  method FindFirstNotOf(s: View, sv: View, pos: SizeT) returns (r: SizeT)
    ensures r == FindFirstNotOfResult(s, sv, pos)
  {
    var i: nat := pos;
    while i < |s|
      invariant pos <= i
      invariant FirstWhere(s, sv, false, pos) == FirstWhere(s, sv, false, i)
    {
      FindCharIsMembership(sv, s[i]);
      if FindResult(sv, [s[i]], 0) == NPOS {
        return i;
      }
      i := i + 1;
    }
    r := NPOS;
  }

  /** `find_last_of(sv, pos)`: scan backward from the wrapped target. */
  method FindLastOf(s: View, sv: View, pos: SizeT) returns (r: SizeT)
    ensures r == FindLastOfResult(s, sv, pos)
  {
    var next := (pos + 1) % (NPOS + 1);
    var i: nat := Min(|s|, if pos >= next then pos else next);
    while i > 0
      invariant i <= |s|
      invariant FindLastOfResult(s, sv, pos) == LastWhere(s, sv, true, i)
    {
      FindCharIsMembership(sv, s[i - 1]);
      if FindResult(sv, [s[i - 1]], 0) != NPOS {
        return i - 1;
      }
      i := i - 1;
    }
    r := NPOS;
  }

  /** `find_last_not_of(sv, pos)`: scan backward from the wrapped target. */
  method FindLastNotOf(s: View, sv: View, pos: SizeT) returns (r: SizeT)
    ensures r == FindLastNotOfResult(s, sv, pos)
  {
    var next := (pos + 1) % (NPOS + 1);
    var i: nat := Min(|s|, if pos >= next then pos else next);
    while i > 0
      invariant i <= |s|
      invariant FindLastNotOfResult(s, sv, pos) == LastWhere(s, sv, false, i)
    {
      FindCharIsMembership(sv, s[i - 1]);
      if FindResult(sv, [s[i - 1]], 0) == NPOS {
        return i - 1;
      }
      i := i - 1;
    }
    r := NPOS;
  }

  // ---------------------------------------------------------------------
  // The view object: data_ and size_ over a character buffer
  // ---------------------------------------------------------------------

  /**
   * A `string_view14` object.  `mem` is the character buffer `data_`
   * points into, `data` is the offset of `data_` in it and `size` is
   * `size_`.
   */
  class StringView {
    var mem: seq<char>
    var data: nat
    var size: nat

    ghost predicate Valid()
      reads this
    {
      data + size <= |mem| && size < NPOS
    }

    /** The characters the view shows. */
    function Chars(): (v: View)
      reads this
      requires Valid()
      ensures |v| == size
    {
      mem[data .. data + size]
    }

    /** `string_view14(str, len)`: a view of len characters of buf, from offset start. */
    constructor (buf: seq<char>, start: nat, len: nat)
      requires start + len <= |buf| && len < NPOS
      ensures Valid() && mem == buf && data == start && size == len
      ensures Chars() == buf[start .. start + len]
    {
      mem, data, size := buf, start, len;
    }

    /** `remove_prefix(n)`: advance `data_` and shrink `size_`; n must not exceed the size. */
    method RemovePrefix(n: nat)
      requires Valid() && n <= size
      modifies this
      ensures Valid() && mem == old(mem)
      ensures data == old(data) + n && size == old(size) - n
      ensures Chars() == old(Chars())[n..]
    {
      data := data + n;
      size := size - n;
    }

    /** `remove_suffix(n)`: shrink `size_` only; n must not exceed the size. */
    method RemoveSuffix(n: nat)
      requires Valid() && n <= size
      modifies this
      ensures Valid() && mem == old(mem) && data == old(data)
      ensures size == old(size) - n
      ensures Chars() == old(Chars())[..old(size) - n]
    {
      ghost var before := Chars();
      size := size - n;
      assert Chars() == before[..size];
    }

    /** `swap(s)`: exchange both fields with the other view. */
    method Swap(other: StringView)
      requires Valid() && other.Valid()
      modifies this, other
      ensures Valid() && other.Valid()
      ensures mem == old(other.mem) && data == old(other.data) && size == old(other.size)
      ensures other.mem == old(mem) && other.data == old(data) && other.size == old(size)
      ensures Chars() == old(other.Chars()) && other.Chars() == old(Chars())
    {
      mem, other.mem := other.mem, mem;
      data, other.data := other.data, data;
      size, other.size := other.size, size;
    }

    /**
     * `copy(s, n, pos)`: when pos < size, write the min(size - pos, n)
     * characters from pos to the front of dst and return that count;
     * otherwise write nothing and return 0.
     */
    method Copy(dst: array<char>, n: SizeT, pos: SizeT) returns (len: SizeT)
      requires Valid()
      requires pos < size ==> Min(size - pos, n) <= dst.Length
      modifies dst
      ensures len == (if pos < size then Min(size - pos, n) else 0)
      ensures len <= dst.Length
      ensures pos < size ==> dst[..len] == Chars()[pos .. pos + len]
      ensures dst[len..] == old(dst[len..])
    {
      if pos < size {
        len := Min(size - pos, n);
        var i := 0;
        while i < len
          invariant 0 <= i <= len
          invariant dst[..i] == Chars()[pos .. pos + i]
          invariant dst[i..] == old(dst[i..])
        {
          dst[i] := mem[data + pos + i];
          assert dst[..i + 1] == dst[..i] + [dst[i]];
          i := i + 1;
        }
      } else {
        len := 0;
      }
    }
  }
}
