/**
 * The drivers of the doctest generators: `print_check` and `main` of
 * unittest/toml-test/tests2doctest.py (one TEST_CASE per fixture, named by
 * the last three path components, in sorted order, with two fixtures
 * skipped), and `print_load`/`main` of unittest/samples/toml2doctest.py
 * and the root toml2doctest.py. Reading a file and `tomllib.load` are
 * inputs: each fixture comes with what loading it gave. `print` appends
 * its argument to the output; an exception ends the run with what was
 * printed so far.
 */
module DoctestMain {
  import opened PyTree
  import opened CppReading
  import opened DoctestGen
  import opened DoctestWalk

  /** What `tomllib.load` gave for a file. */
  datatype Loaded = Decoded(tom: PyValue) | DecodeError(msg: string)

  datatype Raised = RuntimeError(msg: string) | TomlDecodeError(msg: string)

  /** The strings printed, and the exception that ended the run, if any. */
  datatype Run = Run(out: seq<string>, raised: Option<Raised>)

  // ---------------------------------------------------------------------
  // Strings and paths
  // ---------------------------------------------------------------------

  /** Python's `w in s` on strings: w occurs somewhere in s. */
  predicate Contains(s: string, w: string)
    decreases |s|
  {
    w <= s || (s != [] && Contains(s[1..], w))
  }

  /** `s.rfind('/')`. */
  function LastSlash(s: string): (r: int)
    ensures -1 <= r < |s|
    ensures r >= 0 ==> s[r] == '/'
    ensures forall i :: r < i < |s| ==> s[i] != '/'
    decreases |s|
  {
    if s == [] then -1
    else if s[|s| - 1] == '/' then |s| - 1
    else LastSlash(s[..|s| - 1])
  }

  /** `head.rstrip('/')`. */
  function RStripSlash(s: string): string
    decreases |s|
  {
    if s != [] && s[|s| - 1] == '/' then RStripSlash(s[..|s| - 1]) else s
  }

  predicate AllSlashes(s: string)
  {
    forall i :: 0 <= i < |s| ==> s[i] == '/'
  }

  /** `os.path.split(path)` with `/` as the separator. */
  function PathSplit(path: string): (string, string)
  {
    var i := LastSlash(path) + 1;
    var head := path[..i];
    var tail := path[i..];
    if head != [] && !AllSlashes(head) then (RStripSlash(head), tail) else (head, tail)
  }

  /** `os.path.basename(path)`. */
  function Basename(path: string): string
  {
    PathSplit(path).1
  }

  /** `s.split('/')`: the pieces between separators, empty ones included. */
  function SplitOn(s: string): (r: seq<string>)
    ensures |r| >= 1
    ensures forall i :: 0 <= i < |r| ==> '/' !in r[i]
    decreases |s|
  {
    if s == [] then [[]]
    else
      var r := SplitOn(s[1..]);
      if s[0] == '/' then [[]] + r else [[s[0]] + r[0]] + r[1..]
  }

  /** `'/'.join(parts)`. */
  function JoinWith(parts: seq<string>): string
    decreases |parts|
  {
    if parts == [] then []
    else if |parts| == 1 then parts[0]
    else parts[0] + "/" + JoinWith(parts[1..])
  }

  function LastThree(xs: seq<string>): seq<string>
  {
    if |xs| <= 3 then xs else xs[|xs| - 3..]
  }

  /** The TEST_CASE name: the directory's pieces and the file name, last three joined by `/`. */
  function TestCaseName(path: string): string
  {
    var (dir, file) := PathSplit(path);
    JoinWith(LastThree(SplitOn(dir) + [file]))
  }

  /** Pieces that `split('/')` can give back unchanged: none holds a separator. */
  predicate NoSlashes(parts: seq<string>)
  {
    forall i :: 0 <= i < |parts| ==> '/' !in parts[i]
  }

  /** Joining the pieces of a split gives the string back. */
  lemma {:induction false} JoinSplit(s: string)
    ensures JoinWith(SplitOn(s)) == s
    decreases |s|
  {
    if s != [] {
      var r := SplitOn(s[1..]);
      JoinSplit(s[1..]);
      if s[0] == '/' {
        assert SplitOn(s) == [[]] + r;
        assert JoinWith([[]] + r) == [] + "/" + JoinWith(r);
        assert s == [s[0]] + s[1..];
      } else if |r| == 1 {
        assert JoinWith(r) == r[0];
        assert s == [s[0]] + s[1..];
      } else {
        assert JoinWith(r) == r[0] + "/" + JoinWith(r[1..]);
        assert SplitOn(s) == [[s[0]] + r[0]] + r[1..];
        assert s == [s[0]] + s[1..];
      }
    }
  }

  /** Splitting a join of separator-free pieces gives the pieces back. */
  lemma {:induction false} SplitJoin(parts: seq<string>)
    requires |parts| >= 1 && NoSlashes(parts)
    ensures SplitOn(JoinWith(parts)) == parts
    decreases |parts|
  {
    if |parts| == 1 {
      SplitPlain(parts[0], []);
      assert parts[0] + [] == parts[0];
      assert SplitOn([]) == [[]];
      assert parts == [parts[0]];
    } else {
      var j := JoinWith(parts[1..]);
      SplitJoin(parts[1..]);
      assert ("/" + j)[1..] == j;
      assert SplitOn("/" + j) == [[]] + parts[1..];
      SplitPlain(parts[0], "/" + j);
      assert parts[0] + [] == parts[0];
      assert JoinWith(parts) == parts[0] + ("/" + j);
      assert parts == [parts[0]] + parts[1..];
    }
  }

  /** A separator-free piece in front lengthens the first piece of a split. */
  lemma {:induction false} SplitPlain(a: string, rest: string)
    requires '/' !in a
    ensures SplitOn(a + rest) == [a + SplitOn(rest)[0]] + SplitOn(rest)[1..]
    decreases |a|
  {
    var r := SplitOn(rest);
    if a != [] {
      assert a[0] in a;
      SplitPlain(a[1..], rest);
      assert (a + rest)[1..] == a[1..] + rest;
      assert SplitOn(a + rest) == [[a[0]] + SplitOn(a[1..] + rest)[0]] + SplitOn(a[1..] + rest)[1..];
      assert [a[0]] + (a[1..] + r[0]) == a + r[0];
    } else {
      assert a + rest == rest;
      assert a + r[0] == r[0];
      assert r == [r[0]] + r[1..];
    }
  }

  lemma {:induction false} JoinSnoc(init: seq<string>, last: string)
    requires |init| >= 1
    ensures JoinWith(init + [last]) == JoinWith(init) + "/" + last
    decreases |init|
  {
    if |init| > 1 {
      JoinSnoc(init[1..], last);
      assert (init + [last])[1..] == init[1..] + [last];
    }
  }

  /** A path made of non-empty, separator-free pieces splits into the join of all but the last, and the last. */
  lemma PathSplitOf(init: seq<string>, last: string)
    requires |init| >= 1 && NoSlashes(init + [last])
    requires forall i :: 0 <= i < |init| ==> init[i] != []
    ensures PathSplit(JoinWith(init + [last])) == (JoinWith(init), last)
  {
    JoinSnoc(init, last);
    assert (init + [last])[|init|] == last;
    assert NoSlashes(init) by {
      assert forall i :: 0 <= i < |init| ==> (init + [last])[i] == init[i];
    }
    var a := JoinWith(init);
    JoinShape(init);
    LastSlashAt(a, last);
    SplitAtSlash(a, last);
  }

  /** The last separator of `a/b`, when b holds none, is the one after a. */
  lemma LastSlashAt(a: string, b: string)
    requires '/' !in b
    ensures LastSlash(a + "/" + b) == |a|
  {
    var path := a + "/" + b;
    var k := LastSlash(path);
    assert path[|a|] == '/';
    assert k >= |a|;
  }

  lemma SplitAtSlash(a: string, b: string)
    requires a != [] && a[0] != '/' && a[|a| - 1] != '/'
    requires LastSlash(a + "/" + b) == |a|
    ensures PathSplit(a + "/" + b) == (a, b)
  {
    var path := a + "/" + b;
    assert path[..|a| + 1] == a + "/";
    assert path[|a| + 1..] == b;
    assert (a + "/")[..|a|] == a;
    assert RStripSlash(a + "/") == RStripSlash(a);
    assert RStripSlash(a) == a;
    assert !AllSlashes(a + "/") by {
      assert (a + "/")[0] == a[0];
    }
  }

  /** The join of non-empty, separator-free pieces starts and ends with a character other than `/`. */
  lemma {:induction false} JoinShape(parts: seq<string>)
    requires |parts| >= 1 && NoSlashes(parts)
    requires forall i :: 0 <= i < |parts| ==> parts[i] != []
    ensures var s := JoinWith(parts); s != [] && s[0] != '/' && s[|s| - 1] != '/'
    decreases |parts|
  {
    assert '/' !in parts[0];
    if |parts| > 1 {
      JoinShape(parts[1..]);
      assert '/' !in parts[|parts| - 1];
      assert parts[1..][|parts| - 2] == parts[|parts| - 1];
    }
  }

  /**
   * The TEST_CASE name of a path of at least two non-empty,
   * separator-free components is its last three components.
   */
  lemma TestCaseNameOf(parts: seq<string>)
    requires |parts| >= 2 && NoSlashes(parts)
    requires forall i :: 0 <= i < |parts| ==> parts[i] != []
    ensures TestCaseName(JoinWith(parts)) == JoinWith(LastThree(parts))
  {
    var init := parts[..|parts| - 1];
    var last := parts[|parts| - 1];
    Snoc(parts);
    PathSplitOf(init, last);
    SplitJoin(init);
  }

  /** A non-empty sequence is all but its last element, then that element. */
  lemma Snoc<T>(xs: seq<T>)
    requires xs != []
    ensures xs == xs[..|xs| - 1] + [xs[|xs| - 1]]
  {
  }

  /** A file name with no directory part gets an empty first component. */
  lemma NoDirName(path: string)
    requires '/' !in path
    ensures TestCaseName(path) == "/" + path
  {
    assert LastSlash(path) == -1;
    assert path[..0] == [];
    assert SplitOn([]) == [[]];
    assert JoinWith([[], path]) == [] + "/" + JoinWith([path]);
  }

  /** `os.path.basename` gives the last component. */
  lemma BasenameOf(parts: seq<string>)
    requires |parts| >= 1 && NoSlashes(parts)
    requires forall i :: 0 <= i < |parts| ==> parts[i] != []
    ensures Basename(JoinWith(parts)) == parts[|parts| - 1]
  {
    if |parts| == 1 {
      assert LastSlash(parts[0]) == -1;
    } else {
      var init := parts[..|parts| - 1];
      Snoc(parts);
      PathSplitOf(init, parts[|parts| - 1]);
    }
  }

  // ---------------------------------------------------------------------
  // tests2doctest.py
  // ---------------------------------------------------------------------

  const HEAD: string :=
    "#include \"doctest/doctest.h\"\n#include <cmath>\n#include <fstream>\n#include <sstream>\n"
    + "#include <string>\n#include \"tomload/tomload.h\"\n\nnamespace {\n\n"
    + "std::string load_file(const std::string& filename) {\n"
    + "    std::ifstream file(std::string(TOML_TEST_DIR) + filename);\n"
    + "    if (not file.is_open()) {\n"
    + "        throw std::runtime_error(\"Cannot open \" + filename);\n    }\n\n"
    + "    std::stringstream buffer;\n    buffer << file.rdbuf();\n    return buffer.str();\n}\n\n"
    + "struct rhs_nan {};\nbool operator==(tomload::float_t f, rhs_nan) {\n    return std::isnan(f);\n}\n\n"
    + "}  // namespace\n\nusing namespace tomload;\n"

  /** The two lines that open a TEST_CASE and load the fixture under that name. */
  function CaseOpen(name: string): seq<string>
  {
    ["TEST_CASE(\"" + name + "\") {", "    std::string content = load_file(\"" + name + "\");"]
  }

  /** A fixture whose path names it invalid must fail to load; any other must load. */
  predicate Expected(path: string, loaded: Loaded)
  {
    Contains(path, "invalid") <==> loaded.DecodeError?
  }

  /**
   * `print_check(path)`. It raises exactly when the fixture does not load
   * as its path says, and then before printing anything: a RuntimeError
   * for an invalid fixture that loads, the decode error itself for a valid
   * one that does not. Otherwise it prints one TEST_CASE: an invalid
   * fixture gets the load line and one CHECK_THROWS_AS, a valid one the
   * `item_t` line and two lines per node of its tree.
   */
  function PrintCheck(path: string, loaded: Loaded): (r: Run)
    ensures r.raised == None <==> Expected(path, loaded)
    ensures r.raised.Some? ==> r.out == []
    ensures loaded.Decoded? && r.raised.Some? ==> r.raised.value == RuntimeError("unexpected valid TOML file")
    ensures loaded.DecodeError? && r.raised.Some? ==> r.raised.value == TomlDecodeError(loaded.msg)
  {
    var invalid := Contains(path, "invalid");
    match loaded
    case Decoded(tom) =>
      if invalid then Run([], Some(RuntimeError("unexpected valid TOML file")))
      else
        Run(CaseOpen(TestCaseName(path))
            + ["    item_t t(view_t{content.c_str()});", ""]
            + Accessor(TestsToDoctest, tom, [])
            + ["}", ""], None)
    case DecodeError(m) =>
      if invalid then
        Run(CaseOpen(TestCaseName(path))
            + ["", "    CHECK_THROWS_AS(item_t(view_t{content.c_str()}), parse_error&);"]
            + ["}", ""], None)
      else Run([], Some(TomlDecodeError(m)))
  }

  /**
   * The shape of a TEST_CASE `print_check` completes: the two opening
   * lines under the fixture's name, the closing brace and blank line, and
   * in between one CHECK_THROWS_AS for an invalid fixture and two CHECK
   * lines per node for a valid one.
   */
  lemma PrintCheckShape(path: string, loaded: Loaded)
    requires Expected(path, loaded)
    ensures var out := PrintCheck(path, loaded).out;
            |out| >= 6 && out[..2] == CaseOpen(TestCaseName(path)) && out[|out| - 2..] == ["}", ""]
    ensures loaded.DecodeError? ==>
              var out := PrintCheck(path, loaded).out;
              |out| == 6 && out[3] == "    CHECK_THROWS_AS(item_t(view_t{content.c_str()}), parse_error&);"
    ensures loaded.Decoded? ==>
              var out := PrintCheck(path, loaded).out;
              |out| == 6 + 2 * KnownNodes(loaded.tom) && out[4..|out| - 2] == Accessor(TestsToDoctest, loaded.tom, [])
  {
    if loaded.Decoded? {
      LineCount(TestsToDoctest, loaded.tom, []);
    }
  }

  /**
   * Every CHECK line `print_check` writes for a valid fixture holds of the
   * tree the C++ reader builds from it, when that tree is the one Python
   * decoded.
   */
  lemma PrintCheckSound(path: string, tom: PyValue)
    requires WellFormed(tom) && !Contains(path, "invalid")
    ensures var out := PrintCheck(path, Decoded(tom)).out;
            |out| >= 6 && AllHold(TomloadApi, tom, out[4..|out| - 2])
  {
    PrintCheckShape(path, Decoded(tom));
    TestsWalkSound(tom);
  }

  /** A fixture found by the glob, with what loading it gives. */
  datatype Fixture = Fixture(path: string, loaded: Loaded)

  /** The two fixtures `main` passes over. */
  predicate Skipped(path: string)
  {
    Contains(path, "hex-escape.toml") || Contains(path, "escape-esc.toml")
  }

  /**
   * The `for` loop of `main` over the sorted fixtures. It runs to the end
   * exactly when every fixture it does not skip loads as its path says.
   */
  function Checks(files: seq<Fixture>): (r: Run)
    ensures r.raised == None <==>
              forall i :: 0 <= i < |files| && !Skipped(files[i].path) ==> Expected(files[i].path, files[i].loaded)
    decreases |files|
  {
    if files == [] then Run([], None)
    else if Skipped(files[0].path) then Checks(files[1..])
    else
      var r := PrintCheck(files[0].path, files[0].loaded);
      if r.raised.Some? then r
      else
        var rest := Checks(files[1..]);
        Run(r.out + rest.out, rest.raised)
  }

  /**
   * `main`: with a directory argument, the header and then every fixture
   * the glob found, sorted by path. The run ends normally exactly when
   * every fixture but the two skipped ones loads as its path says.
   */
  function TestsMain(hasArgument: bool, found: seq<Fixture>): (r: Run)
    ensures hasArgument ==> r.out != [] && r.out[0] == HEAD
    ensures r.raised == None <==>
              !hasArgument || forall f :: f in found && !Skipped(f.path) ==> Expected(f.path, f.loaded)
  {
    if !hasArgument then Run([], None)
    else
      var sorted := SortByPath(found);
      var r := Checks(sorted);
      SameFixtures(found, sorted);
      Run([HEAD] + r.out, r.raised)
  }

  /** Two sequences with the same fixtures satisfy "every kept fixture loads as expected" together. */
  lemma SameFixtures(a: seq<Fixture>, b: seq<Fixture>)
    requires multiset(a) == multiset(b)
    ensures (forall i :: 0 <= i < |b| && !Skipped(b[i].path) ==> Expected(b[i].path, b[i].loaded)) <==>
            (forall f :: f in a && !Skipped(f.path) ==> Expected(f.path, f.loaded))
  {
    forall f | f in a
      ensures f in b
    {
      assert f in multiset(a);
    }
    forall i | 0 <= i < |b|
      ensures b[i] in a
    {
      assert b[i] in multiset(b);
    }
  }

  // ---------------------------------------------------------------------
  // `sorted` on paths
  // ---------------------------------------------------------------------

  /** Python's `<=` on strings: lexicographic by code point, a prefix first. */
  predicate StrLe(a: string, b: string)
    decreases |a|
  {
    a == [] || (b != [] && (a[0] < b[0] || (a[0] == b[0] && StrLe(a[1..], b[1..]))))
  }

  predicate SortedByPath(files: seq<Fixture>)
  {
    forall i, j :: 0 <= i < j < |files| ==> StrLe(files[i].path, files[j].path)
  }

  /** Insertion into a sorted sequence keeps it sorted and adds exactly f. */
  function Insert(f: Fixture, sorted: seq<Fixture>): (r: seq<Fixture>)
    requires SortedByPath(sorted)
    ensures SortedByPath(r) && multiset(r) == multiset{f} + multiset(sorted)
    decreases |sorted|
  {
    if sorted == [] || StrLe(f.path, sorted[0].path) then
      InsertFront(f, sorted);
      [f] + sorted
    else
      var r := Insert(f, sorted[1..]);
      assert sorted == [sorted[0]] + sorted[1..];
      StrLeTotal(f.path, sorted[0].path);
      InsertBehind(f, sorted, r);
      [sorted[0]] + r
  }

  lemma InsertFront(f: Fixture, sorted: seq<Fixture>)
    requires SortedByPath(sorted) && (sorted == [] || StrLe(f.path, sorted[0].path))
    ensures SortedByPath([f] + sorted)
  {
    forall i, j | 0 <= i < j < |[f] + sorted|
      ensures StrLe(([f] + sorted)[i].path, ([f] + sorted)[j].path)
    {
      if i == 0 && j > 1 {
        StrLeTrans(f.path, sorted[0].path, sorted[j - 1].path);
      }
    }
  }

  lemma InsertBehind(f: Fixture, sorted: seq<Fixture>, r: seq<Fixture>)
    requires sorted != [] && SortedByPath(sorted) && StrLe(sorted[0].path, f.path)
    requires SortedByPath(r) && multiset(r) == multiset{f} + multiset(sorted[1..])
    ensures SortedByPath([sorted[0]] + r)
  {
    forall j | 0 <= j < |r|
      ensures StrLe(sorted[0].path, r[j].path)
    {
      assert r[j] in multiset(r);
      if r[j] != f {
        assert r[j] in multiset(sorted[1..]);
        var k :| 0 <= k < |sorted[1..]| && sorted[1..][k] == r[j];
        assert sorted[k + 1] == r[j];
      }
    }
    forall i, j | 0 <= i < j < |[sorted[0]] + r|
      ensures StrLe(([sorted[0]] + r)[i].path, ([sorted[0]] + r)[j].path)
    {
      if i == 0 {
        assert ([sorted[0]] + r)[j] == r[j - 1];
      } else {
        assert ([sorted[0]] + r)[i] == r[i - 1];
        assert ([sorted[0]] + r)[j] == r[j - 1];
      }
    }
  }

  /** `sorted(glob(...))`: the same fixtures, in path order. */
  function SortByPath(files: seq<Fixture>): (r: seq<Fixture>)
    ensures SortedByPath(r) && multiset(r) == multiset(files)
    decreases |files|
  {
    if files == [] then []
    else
      assert files == [files[0]] + files[1..];
      Insert(files[0], SortByPath(files[1..]))
  }

  /** Any two strings are ordered one way or the other. */
  lemma {:induction false} StrLeTotal(a: string, b: string)
    ensures StrLe(a, b) || StrLe(b, a)
    decreases |a|
  {
    if a != [] && b != [] && a[0] == b[0] {
      StrLeTotal(a[1..], b[1..]);
    }
  }

  lemma {:induction false} StrLeTrans(a: string, b: string, c: string)
    requires StrLe(a, b) && StrLe(b, c)
    ensures StrLe(a, c)
    decreases |a|
  {
    if a != [] && b != [] && c != [] && a[0] == b[0] && b[0] == c[0] {
      StrLeTrans(a[1..], b[1..], c[1..]);
    }
  }

  // ---------------------------------------------------------------------
  // unittest/samples/toml2doctest.py and toml2doctest.py
  // ---------------------------------------------------------------------

  /** `print_load(argv1)`: the file's basename names the TEST_CASE and the file to load. */
  function PrintLoad(argv1: string): seq<string>
  {
    CaseOpen(Basename(argv1)) + ["    item_t t(view_t{content.c_str()});", ""]
  }

  /**
   * `main` of unittest/samples/toml2doctest.py: `print_load` runs before
   * the file is decoded, so its lines are printed even when decoding
   * raises.
   */
  function SamplesMain(argv1: Option<string>, loaded: Loaded): (r: Run)
    ensures r.raised.Some? <==> argv1.Some? && loaded.DecodeError?
    ensures argv1.Some? ==> |r.out| >= 4 && r.out[..4] == PrintLoad(argv1.value)
    ensures argv1.Some? && loaded.Decoded? ==> |r.out| == 5 + 2 * KnownNodes(loaded.tom) && r.out[|r.out| - 1] == "}"
  {
    match argv1
    case None => Run([], None)
    case Some(p) =>
      match loaded
      case Decoded(tom) =>
        LineCount(SamplesToDoctest, tom, []);
        Run(PrintLoad(p) + Accessor(SamplesToDoctest, tom, []) + ["}"], None)
      case DecodeError(m) => Run(PrintLoad(p), Some(TomlDecodeError(m)))
  }

  /** The CHECK lines of unittest/samples/toml2doctest.py hold of a tree it can spell. */
  lemma SamplesSound(argv1: string, tom: PyValue)
    requires WellFormed(tom) && Renderable(SamplesToDoctest, tom)
    ensures var out := SamplesMain(Some(argv1), Decoded(tom)).out;
            |out| >= 5 && AllHold(TomloadApi, tom, out[4..|out| - 1])
  {
    var out := SamplesMain(Some(argv1), Decoded(tom)).out;
    assert out[4..|out| - 1] == Accessor(SamplesToDoctest, tom, []);
    WalkSound(SamplesToDoctest, tom, tom, []);
  }

  /** `main` of toml2doctest.py: only the CHECK lines, two per node. */
  function RootMain(hasArgument: bool, loaded: Loaded): (r: Run)
    ensures r.raised.Some? <==> hasArgument && loaded.DecodeError?
    ensures hasArgument && loaded.Decoded? ==> |r.out| == 2 * KnownNodes(loaded.tom)
  {
    if !hasArgument then Run([], None)
    else
      match loaded
      case Decoded(tom) =>
        LineCount(RootToDoctest, tom, []);
        Run(Accessor(RootToDoctest, tom, []), None)
      case DecodeError(m) => Run([], Some(TomlDecodeError(m)))
  }
}
