/** Heuristics over the changed paths: the emoji suggested for a set of
    files, and the per-kind and per-file-type counts of a change set with
    the commit type they suggest. */
module Validation {
  import opened Errors
  import opened Text
  import opened Git

  // ----- emoji suggestion -----

  /** The seven glyphs the file heuristics can suggest. */
  datatype Glyph = Docs | Test | Style | Configuration | Docker | Security | Performance

  /** The glyph literals exactly as the source spells them: the UTF-8
      bytes of each emoji read back as Windows-1252 text. */
  function Literal(g: Glyph): string {
    match g
    case Docs => "\U{F0}\U{178}\U{201C}"
    case Test => "\U{E2}\U{153}\U{2026}"
    case Style => "\U{F0}\U{178}\U{2019}\U{201E}"
    case Configuration => "\U{F0}\U{178}\U{201D}\U{A7}"
    case Docker => "\U{F0}\U{178}\U{B3}"
    case Security => "\U{F0}\U{178}\U{201D}\U{2019}"
    case Performance => "\U{E2}\U{161}\U{A1}"
  }

  /** The docs literal is not the memo emoji U+1F4DD: it is three code
      points long, so a search for the emoji among the suggestions fails. */
  lemma DocsLiteralIsNotMemo()
    ensures Literal(Docs) != "\U{1F4DD}"
  {
    assert |Literal(Docs)| == 3;
  }

  /** Position of a glyph in the order in which `sort` arranges the literals. */
  function Rank(g: Glyph): (r: nat)
    ensures r < 7
  {
    match g
    case Test => 0
    case Performance => 1
    case Docker => 2
    case Style => 3
    case Docs => 4
    case Configuration => 5
    case Security => 6
  }

  /** `Rank` is the string order of the literals, so sorting by rank is
      sorting the source's strings. */
  lemma RankIsLiteralOrder(a: Glyph, b: Glyph)
    ensures Rank(a) < Rank(b) <==> LexLess(Literal(a), Literal(b))
  {
    var x, y := Literal(a), Literal(b);
    if a == b {
      LexLessIrreflexive(x);
    } else {
      var k := if x[0] != y[0] then 0 else if x[1] != y[1] then 1 else if x[2] != y[2] then 2 else 3;
      LexLessAt(x, y, k);
    }
  }

  /** The glyph one path contributes: the first branch of the chain that
      matches its lower-cased text, or none. */
  function EmojiFor(file: string): Option<Glyph> {
    EmojiForLower(ToLower(file))
  }

  /** The heuristics ignore case: a path and its lower-cased form suggest
      the same glyph. */
  lemma EmojiIgnoresCase(file: string)
    ensures EmojiFor(ToLower(file)) == EmojiFor(file)
  {
    ToLowerIdempotent(file);
  }

  /** The branches of the chain, tried in order on the lower-cased path. */
  function EmojiForLower(f: string): (r: Option<Glyph>)
    ensures r == Some(Docs) <==> EndsWith(f, ".md") || EndsWith(f, ".rst") || EndsWith(f, ".txt")
    ensures r == Some(Test) ==> Contains(f, "test") || Contains(f, "spec")
    ensures r == Some(Security) ==> Contains(f, "security") || Contains(f, "auth")
    ensures r == None ==> !Contains(f, "test") && !Contains(f, "spec") && !Contains(f, "auth")
  {
    if EndsWith(f, ".md") || EndsWith(f, ".rst") || EndsWith(f, ".txt") then Some(Docs)
    else if Contains(f, "test") || Contains(f, "spec") then Some(Test)
    else if EndsWith(f, ".css") || EndsWith(f, ".scss") || EndsWith(f, ".sass") then Some(Style)
    else if EndsWith(f, ".json") || EndsWith(f, ".toml") || EndsWith(f, ".yaml") || EndsWith(f, ".yml")
    then Some(Configuration)
    else if StartsWith(f, "dockerfile") || EndsWith(f, ".dockerfile") then Some(Docker)
    else if Contains(f, "security") || Contains(f, "auth") then Some(Security)
    else if Contains(f, "performance") || Contains(f, "perf") then Some(Performance)
    else None
  }

  /** The glyph of each path, in order. */
  function GlyphsOf(files: seq<string>): (r: seq<Option<Glyph>>)
    ensures |r| == |files|
    ensures forall i :: 0 <= i < |files| ==> r[i] == EmojiFor(files[i])
  {
    seq(|files|, i requires 0 <= i < |files| => EmojiFor(files[i]))
  }

  /** One step of the loop: the path's glyph, if any, is pushed. */
  function Push(pushed: seq<Glyph>, glyph: Option<Glyph>): seq<Glyph> {
    match glyph
    case None => pushed
    case Some(g) => pushed + [g]
  }

  /** The glyphs the loop pushes, in push order. */
  function Pushed(glyphs: seq<Option<Glyph>>): seq<Glyph> {
    if glyphs == [] then []
    else Push(Pushed(glyphs[..|glyphs| - 1]), glyphs[|glyphs| - 1])
  }

  /** The loop pushes in path order: the glyphs of a concatenation are the
      glyphs of the first part followed by those of the second. */
  lemma {:induction false} PushedAppend(a: seq<Option<Glyph>>, b: seq<Option<Glyph>>)
    ensures Pushed(a + b) == Pushed(a) + Pushed(b)
  {
    if b == [] {
      assert a + b == a;
    } else {
      var init := b[..|b| - 1];
      PushedAppend(a, init);
      assert (a + b)[..|a + b| - 1] == a + init;
      assert (a + b)[|a + b| - 1] == b[|b| - 1];
    }
  }

  /** Each path pushes at most one glyph, and the glyphs pushed are those of
      the paths that match a branch. */
  lemma {:induction false} PushedGlyphs(glyphs: seq<Option<Glyph>>)
    ensures |Pushed(glyphs)| <= |glyphs|
    ensures forall g :: g in Pushed(glyphs) <==> Some(g) in glyphs
  {
    if glyphs != [] {
      var init := glyphs[..|glyphs| - 1];
      PushedGlyphs(init);
      assert glyphs == init + [glyphs[|glyphs| - 1]];
    }
  }

  predicate Sorted(s: seq<Glyph>) {
    forall i, j :: 0 <= i < j < |s| ==> Rank(s[i]) <= Rank(s[j])
  }

  predicate StrictlySorted(s: seq<Glyph>) {
    forall i, j :: 0 <= i < j < |s| ==> Rank(s[i]) < Rank(s[j])
  }

  /** Inserts `x` into a sorted sequence. */
  function Insert(x: Glyph, s: seq<Glyph>): (r: seq<Glyph>)
    requires Sorted(s)
    ensures Sorted(r)
    ensures multiset(r) == multiset(s) + multiset{x}
  {
    if s == [] then [x]
    else if Rank(x) <= Rank(s[0]) then [x] + s
    else
      var t := Insert(x, s[1..]);
      assert s == [s[0]] + s[1..];
      InsertedAbove(x, s, t);
      [s[0]] + t
  }

  /** A sorted sequence whose elements all rank at least as high as `h`
      stays sorted behind `h`; this holds of the tail of a sorted sequence
      with `x` inserted, when `x` ranks above its head. */
  lemma InsertedAbove(x: Glyph, s: seq<Glyph>, t: seq<Glyph>)
    requires s != [] && Sorted(s) && Rank(s[0]) < Rank(x)
    requires Sorted(t) && multiset(t) == multiset(s[1..]) + multiset{x}
    ensures Sorted([s[0]] + t)
  {
    forall i | 0 <= i < |t|
      ensures Rank(s[0]) <= Rank(t[i])
    {
      assert t[i] in multiset(t);
      if t[i] != x {
        assert t[i] in s[1..];
        var k :| 0 <= k < |s[1..]| && s[1..][k] == t[i];
        assert s[k + 1] == t[i];
      }
    }
    var r := [s[0]] + t;
    forall i, j | 0 <= i < j < |r|
      ensures Rank(r[i]) <= Rank(r[j])
    {
      assert r[j] == t[j - 1];
      if i > 0 {
        assert r[i] == t[i - 1];
      }
    }
  }

  /** `sort()`: a sorted permutation. */
  function SortGlyphs(s: seq<Glyph>): (r: seq<Glyph>)
    ensures Sorted(r)
    ensures multiset(r) == multiset(s)
  {
    if s == [] then []
    else
      assert s == s[..|s| - 1] + [s[|s| - 1]];
      Insert(s[|s| - 1], SortGlyphs(s[..|s| - 1]))
  }

  /** `dedup()`: drops every element equal to the one before it. */
  function Dedup(s: seq<Glyph>): (r: seq<Glyph>)
    ensures |r| <= |s|
    ensures forall g :: g in r <==> g in s
    ensures s != [] ==> r != [] && r[|r| - 1] == s[|s| - 1]
    ensures Sorted(s) ==> StrictlySorted(r)
  {
    if |s| <= 1 then s
    else
      var init := s[..|s| - 1];
      assert s == init + [s[|s| - 1]];
      var d := Dedup(init);
      if s[|s| - 1] == s[|s| - 2] then d else d + [s[|s| - 1]]
  }

  /** The emoji suggested for a list of changed files. */
  function SuggestedEmojis(files: seq<string>): seq<Glyph> {
    Suggest(GlyphsOf(files))
  }

  /** Sorting and deduplicating the pushed glyphs. */
  function Suggest(glyphs: seq<Option<Glyph>>): seq<Glyph> {
    Dedup(SortGlyphs(Pushed(glyphs)))
  }

  /** `suggest_emoji_by_files`: one pass pushing the glyph of every file
      that matches a rule, then sort and dedup. The result is strictly
      sorted and holds exactly the glyphs of the matching files. */
  method SuggestEmojiByFiles(files: seq<string>) returns (suggestions: seq<Glyph>)
    ensures suggestions == SuggestedEmojis(files)
    ensures StrictlySorted(suggestions)
    ensures forall g :: g in suggestions <==> exists f :: f in files && EmojiFor(f) == Some(g)
  {
    suggestions := [];
    var i := 0;
    while i < |files|
      invariant 0 <= i <= |files|
      invariant suggestions == Pushed(GlyphsOf(files[..i]))
    {
      assert GlyphsOf(files[..i + 1]) == GlyphsOf(files[..i]) + [EmojiFor(files[i])];
      assert GlyphsOf(files[..i + 1])[..i] == GlyphsOf(files[..i]);
      var glyph := EmojiFor(files[i]);
      if glyph.Some? {
        suggestions := suggestions + [glyph.value];
      }
      i := i + 1;
    }
    assert files[..i] == files;
    suggestions := SortGlyphs(suggestions);
    suggestions := Dedup(suggestions);
    SuggestedGlyphs(files);
  }

  /** A strictly sorted glyph list has at most one entry per glyph. */
  lemma {:induction false} StrictlySortedAtMostSeven(s: seq<Glyph>)
    requires StrictlySorted(s)
    ensures |s| <= 7
  {
    var i := 0;
    while i < |s|
      invariant 0 <= i <= |s|
      invariant i > 0 ==> Rank(s[i - 1]) >= i - 1
    {
      i := i + 1;
    }
  }

  /** At most one glyph per file and at most the seven there are. */
  lemma SuggestionsBounded(files: seq<string>)
    ensures |SuggestedEmojis(files)| <= 7
    ensures |SuggestedEmojis(files)| <= |files|
  {
    var pushed := Pushed(GlyphsOf(files));
    PushedGlyphs(GlyphsOf(files));
    var sorted := SortGlyphs(pushed);
    assert |sorted| == |multiset(sorted)| == |multiset(pushed)| == |pushed|;
    StrictlySortedAtMostSeven(SuggestedEmojis(files));
  }

  /** What the documentation file of the integration test matches. */
  lemma ReadmeFacts()
    ensures ToLower("README.md") == "readme.md" && EndsWith("readme.md", ".md")
  {
  }

  /** What the test file of the integration test matches. */
  lemma TestFileFacts()
    ensures ToLower("test_file.rs") == "test_file.rs"
    ensures !EndsWith("test_file.rs", ".md") && !EndsWith("test_file.rs", ".rst") && !EndsWith("test_file.rs", ".txt")
    ensures Contains("test_file.rs", "test")
  {
    assert StartsWith("test_file.rs", "test");
  }

  /** What the stylesheet of the integration test matches. */
  lemma StyleFacts()
    ensures ToLower("style.css") == "style.css"
    ensures !EndsWith("style.css", ".md") && !EndsWith("style.css", ".rst") && !EndsWith("style.css", ".txt")
    ensures EndsWith("style.css", ".css")
  {
  }

  /** The stylesheet's name does not hold `test`. */
  lemma StyleNotTest()
    ensures !Contains("style.css", "test")
  {
    MissingPairNotContained("style.css", "test");
  }

  /** The stylesheet's name does not hold `spec`. */
  lemma StyleNotSpec()
    ensures !Contains("style.css", "spec")
  {
    MissingCharNotContained("style.css", "spec", 'p');
  }

  /** What `main.rs` fails to match. */
  lemma MainFacts(f: string)
    requires f == "main.rs"
    ensures ToLower(f) == f
    ensures !EndsWith(f, ".md") && !EndsWith(f, ".rst") && !EndsWith(f, ".txt")
    ensures !Contains(f, "test") && !Contains(f, "spec")
    ensures !EndsWith(f, ".css") && !EndsWith(f, ".scss") && !EndsWith(f, ".sass")
    ensures !EndsWith(f, ".json") && !EndsWith(f, ".toml") && !EndsWith(f, ".yaml") && !EndsWith(f, ".yml")
  {
    MissingCharNotContained(f, "test", 't');
    MissingCharNotContained(f, "spec", 'p');
  }

  /** The later branches do not match a Rust source file either. */
  lemma MainLaterFacts(f: string)
    requires f == "main.rs"
    ensures !StartsWith(f, "dockerfile") && !EndsWith(f, ".dockerfile")
    ensures !Contains(f, "security") && !Contains(f, "auth")
    ensures !Contains(f, "performance") && !Contains(f, "perf")
  {
    MissingCharNotContained(f, "security", 'y');
    MissingCharNotContained(f, "auth", 'u');
    MissingCharNotContained(f, "performance", 'p');
    MissingCharNotContained(f, "perf", 'p');
  }

  /** The glyphs of the test-case paths: the documentation file, the test
      file and the stylesheet are told apart; a source file matches no
      branch. */
  lemma PathGlyphs()
    ensures EmojiFor("README.md") == Some(Docs)
    ensures EmojiFor("test_file.rs") == Some(Test)
    ensures EmojiFor("style.css") == Some(Style)
    ensures EmojiFor("main.rs") == None
  {
    ReadmeFacts();
    TestFileFacts();
    StyleFacts();
    StyleNotTest();
    StyleNotSpec();
    MainFacts("main.rs");
    MainLaterFacts("main.rs");
  }

  /** The suggestions hold exactly the glyphs of the matching files, each
      once, in the order of the literals. */
  lemma SuggestedGlyphs(files: seq<string>)
    ensures StrictlySorted(SuggestedEmojis(files))
    ensures forall g :: g in SuggestedEmojis(files) <==> exists f :: f in files && EmojiFor(f) == Some(g)
  {
    var glyphs := GlyphsOf(files);
    PushedGlyphs(glyphs);
    var pushed := Pushed(glyphs);
    var sorted := SortGlyphs(pushed);
    forall g ensures g in sorted <==> g in pushed {
      assert g in sorted <==> g in multiset(sorted);
      assert g in pushed <==> g in multiset(pushed);
    }
    forall g ensures Some(g) in glyphs <==> exists f :: f in files && EmojiFor(f) == Some(g) {
      if Some(g) in glyphs {
        var i :| 0 <= i < |glyphs| && glyphs[i] == Some(g);
        assert files[i] in files;
      }
      if exists f :: f in files && EmojiFor(f) == Some(g) {
        var f :| f in files && EmojiFor(f) == Some(g);
        var i :| 0 <= i < |files| && files[i] == f;
        assert glyphs[i] == Some(g);
      }
    }
  }

  /** A documentation file, a test file and a stylesheet, in that order,
      suggest the test, style and docs glyphs, in that order. */
  lemma DocsTestStyle()
    ensures Suggest([Some(Docs), Some(Test), Some(Style)]) == [Test, Style, Docs]
  {
    var glyphs := [Some(Docs), Some(Test), Some(Style)];
    assert glyphs[..2] == [Some(Docs), Some(Test)] && glyphs[..2][..1] == [Some(Docs)];
    assert [Some(Docs)][..0] == [];
    assert Pushed([Some(Docs)]) == [Docs];
    assert Pushed(glyphs[..2]) == [Docs, Test];
    assert Pushed(glyphs) == [Docs, Test, Style];
    SortExample([Docs, Test, Style]);
    DedupExample();
  }

  /** The push order docs, test, style sorts to test, style, docs. */
  lemma SortExample(s: seq<Glyph>)
    requires s == [Docs, Test, Style]
    ensures SortGlyphs(s) == [Test, Style, Docs]
  {
    SortTwo();
    InsertStyle();
    assert s[..2] == [Docs, Test];
    assert SortGlyphs(s) == Insert(Style, SortGlyphs([Docs, Test]));
  }

  /** Docs then test sorts to test then docs. */
  lemma SortTwo()
    ensures SortGlyphs([Docs, Test]) == [Test, Docs]
  {
    assert SortGlyphs([Docs]) == [Docs];
    assert Insert(Test, [Docs]) == [Test, Docs];
    assert [Docs, Test][..1] == [Docs];
  }

  /** Style goes between test and docs. */
  lemma InsertStyle()
    ensures Insert(Style, [Test, Docs]) == [Test, Style, Docs]
  {
    assert Insert(Style, [Docs]) == [Style, Docs];
    assert [Test, Docs][1..] == [Docs];
  }

  /** A list without repeats is its own deduplication. */
  lemma DedupExample()
    ensures Dedup([Test, Style, Docs]) == [Test, Style, Docs]
  {
    var q := [Test, Style, Docs];
    assert q[..2] == [Test, Style] && q[..2][..1] == [Test];
  }

  /** No files, no suggestion. The files of the integration test suggest
      the docs and style glyphs it looks for, and the test glyph. */
  lemma SuggestionExample(files: seq<string>)
    requires files == ["README.md", "test_file.rs", "style.css"]
    ensures SuggestedEmojis([]) == []
    ensures Docs in SuggestedEmojis(files) && Style in SuggestedEmojis(files) && Test in SuggestedEmojis(files)
  {
    PathGlyphs();
    SuggestedGlyphs(files);
    assert "README.md" in files && "test_file.rs" in files && "style.css" in files;
  }

  // ----- change analysis -----

  /** The file-type counters of `analyze_changes`. */
  datatype FileType = RustFile | ScriptFile | PythonFile | DocFile | TestFile

  /** The counter a path increments, if any: the first branch of the chain
      that matches the lower-cased path. */
  function FileTypeOf(path: string): (r: Option<FileType>)
    ensures r == Some(RustFile) <==> EndsWith(ToLower(path), ".rs")
    ensures r == Some(DocFile) ==> EndsWith(ToLower(path), ".md")
    ensures r == Some(TestFile) ==> Contains(ToLower(path), "test") && !EndsWith(ToLower(path), ".md")
    ensures r == None ==> !Contains(ToLower(path), "test")
  {
    var f := ToLower(path);
    if EndsWith(f, ".rs") then Some(RustFile)
    else if EndsWith(f, ".js") || EndsWith(f, ".ts") then Some(ScriptFile)
    else if EndsWith(f, ".py") then Some(PythonFile)
    else if EndsWith(f, ".md") then Some(DocFile)
    else if Contains(f, "test") then Some(TestFile)
    else None
  }

  datatype ChangeAnalysis = ChangeAnalysis(
    addedCount: nat,
    modifiedCount: nat,
    deletedCount: nat,
    renamedCount: nat,
    untrackedCount: nat,
    rustFiles: nat,
    jsFiles: nat,
    pythonFiles: nat,
    docFiles: nat,
    testFiles: nat)

  const EmptyAnalysis := ChangeAnalysis(0, 0, 0, 0, 0, 0, 0, 0, 0, 0)

  /** One more change of kind `k`: one kind counter, none for a copy. */
  function CountKind(a: ChangeAnalysis, k: ChangeKind): ChangeAnalysis {
    match k
    case Added => a.(addedCount := a.addedCount + 1)
    case Modified => a.(modifiedCount := a.modifiedCount + 1)
    case Deleted => a.(deletedCount := a.deletedCount + 1)
    case Renamed => a.(renamedCount := a.renamedCount + 1)
    case Untracked => a.(untrackedCount := a.untrackedCount + 1)
    case Copied => a
  }

  /** One more path of file type `t`: at most one file-type counter. */
  function CountType(a: ChangeAnalysis, t: Option<FileType>): ChangeAnalysis {
    match t
    case None => a
    case Some(RustFile) => a.(rustFiles := a.rustFiles + 1)
    case Some(ScriptFile) => a.(jsFiles := a.jsFiles + 1)
    case Some(PythonFile) => a.(pythonFiles := a.pythonFiles + 1)
    case Some(DocFile) => a.(docFiles := a.docFiles + 1)
    case Some(TestFile) => a.(testFiles := a.testFiles + 1)
  }

  /** The counts after one more change. */
  function Count(a: ChangeAnalysis, c: Change): ChangeAnalysis {
    CountType(CountKind(a, c.kind), FileTypeOf(c.path))
  }

  function Analysis(changes: seq<Change>): ChangeAnalysis {
    if changes == [] then EmptyAnalysis
    else Count(Analysis(changes[..|changes| - 1]), changes[|changes| - 1])
  }

  /** `total_files`: the changes counted by kind. */
  function TotalFiles(a: ChangeAnalysis): (n: nat)
    ensures n == 0 <==>
      a.addedCount == 0 && a.modifiedCount == 0 && a.deletedCount == 0 && a.renamedCount == 0 && a.untrackedCount == 0
  {
    a.addedCount + a.modifiedCount + a.deletedCount + a.renamedCount + a.untrackedCount
  }

  /** Number of changes of kind `k`. */
  function KindCount(changes: seq<Change>, k: ChangeKind): (n: nat)
    ensures n <= |changes|
  {
    if changes == [] then 0
    else KindCount(changes[..|changes| - 1], k) + (if changes[|changes| - 1].kind == k then 1 else 0)
  }

  /** Number of changes whose path has file type `t`. */
  function TypeCount(changes: seq<Change>, t: FileType): (n: nat)
    ensures n <= |changes|
  {
    if changes == [] then 0
    else TypeCount(changes[..|changes| - 1], t) + (if FileTypeOf(changes[|changes| - 1].path) == Some(t) then 1 else 0)
  }

  /** `analyze_changes`: one pass over the changes incrementing counters. */
  method AnalyzeChanges(changes: seq<Change>) returns (analysis: ChangeAnalysis)
    ensures analysis == Analysis(changes)
    ensures TotalFiles(analysis) == |changes| - KindCount(changes, Copied)
  {
    analysis := EmptyAnalysis;
    var i := 0;
    while i < |changes|
      invariant 0 <= i <= |changes|
      invariant analysis == Analysis(changes[..i])
    {
      var change := changes[i];
      assert Analysis(changes[..i + 1]) == Count(analysis, change) by {
        assert changes[..i + 1][..i] == changes[..i];
      }
      ghost var before := analysis;
      match change.kind {
        case Added => analysis := analysis.(addedCount := analysis.addedCount + 1);
        case Modified => analysis := analysis.(modifiedCount := analysis.modifiedCount + 1);
        case Deleted => analysis := analysis.(deletedCount := analysis.deletedCount + 1);
        case Renamed => analysis := analysis.(renamedCount := analysis.renamedCount + 1);
        case Untracked => analysis := analysis.(untrackedCount := analysis.untrackedCount + 1);
        case Copied =>
      }
      assert analysis == CountKind(before, change.kind);
      analysis := CountFileType(analysis, change.path);
      i := i + 1;
    }
    assert changes[..i] == changes;
    KindCounts(changes);
  }

  /** The file-type half of one step of `analyze_changes`. */
  method CountFileType(a: ChangeAnalysis, path: string) returns (analysis: ChangeAnalysis)
    ensures analysis == CountType(a, FileTypeOf(path))
  {
    analysis := a;
    var fileType := FileTypeOf(path);
    if fileType == Some(RustFile) {
      analysis := analysis.(rustFiles := analysis.rustFiles + 1);
    } else if fileType == Some(ScriptFile) {
      analysis := analysis.(jsFiles := analysis.jsFiles + 1);
    } else if fileType == Some(PythonFile) {
      analysis := analysis.(pythonFiles := analysis.pythonFiles + 1);
    } else if fileType == Some(DocFile) {
      analysis := analysis.(docFiles := analysis.docFiles + 1);
    } else if fileType == Some(TestFile) {
      analysis := analysis.(testFiles := analysis.testFiles + 1);
    }
  }

  /** The counter that changes of kind `k` increment; copies have none. */
  function KindCounter(a: ChangeAnalysis, k: ChangeKind): nat {
    match k
    case Added => a.addedCount
    case Modified => a.modifiedCount
    case Deleted => a.deletedCount
    case Renamed => a.renamedCount
    case Untracked => a.untrackedCount
    case Copied => 0
  }

  /** One more change increments the counter of its own kind and no other
      kind counter. */
  lemma CountKindStep(a: ChangeAnalysis, c: Change, k: ChangeKind)
    ensures KindCounter(Count(a, c), k) == KindCounter(a, k) + (if c.kind == k && k != Copied then 1 else 0)
  {
    var b := CountKind(a, c.kind);
    assert KindCounter(Count(a, c), k) == KindCounter(b, k) by {
      match FileTypeOf(c.path) {
        case None =>
        case Some(_) =>
      }
    }
    match c.kind {
      case Added => case Modified => case Deleted =>
      case Renamed => case Untracked => case Copied =>
    }
  }

  /** Each kind counter is the number of changes of its kind. */
  lemma {:induction false} KindCounterIsCount(changes: seq<Change>, k: ChangeKind)
    requires k != Copied
    ensures KindCounter(Analysis(changes), k) == KindCount(changes, k)
  {
    if changes != [] {
      var init := changes[..|changes| - 1];
      KindCounterIsCount(init, k);
      CountKindStep(Analysis(init), changes[|changes| - 1], k);
    }
  }

  /** Every change has exactly one of the six kinds. */
  lemma {:induction false} KindCountsCover(changes: seq<Change>)
    ensures KindCount(changes, Added) + KindCount(changes, Modified) + KindCount(changes, Deleted)
      + KindCount(changes, Renamed) + KindCount(changes, Untracked) + KindCount(changes, Copied) == |changes|
  {
    if changes != [] {
      KindCountsCover(changes[..|changes| - 1]);
    }
  }

  /** Each kind counter is the number of changes of its kind, so the kind
      counters add up to every change but the copies. */
  lemma KindCounts(changes: seq<Change>)
    ensures var a := Analysis(changes);
      && a.addedCount == KindCount(changes, Added)
      && a.modifiedCount == KindCount(changes, Modified)
      && a.deletedCount == KindCount(changes, Deleted)
      && a.renamedCount == KindCount(changes, Renamed)
      && a.untrackedCount == KindCount(changes, Untracked)
    ensures TotalFiles(Analysis(changes)) == |changes| - KindCount(changes, Copied)
  {
    KindCounterIsCount(changes, Added);
    KindCounterIsCount(changes, Modified);
    KindCounterIsCount(changes, Deleted);
    KindCounterIsCount(changes, Renamed);
    KindCounterIsCount(changes, Untracked);
    KindCountsCover(changes);
  }

  /** Each file-type counter is the number of changes whose path has that
      type. */
  lemma {:induction false} TypeCounts(changes: seq<Change>)
    ensures var a := Analysis(changes);
      && a.rustFiles == TypeCount(changes, RustFile)
      && a.jsFiles == TypeCount(changes, ScriptFile)
      && a.pythonFiles == TypeCount(changes, PythonFile)
      && a.docFiles == TypeCount(changes, DocFile)
      && a.testFiles == TypeCount(changes, TestFile)
  {
    if changes != [] {
      var init := changes[..|changes| - 1];
      var c := changes[|changes| - 1];
      TypeCounts(init);
      var k := CountKind(Analysis(init), c.kind);
      var t := FileTypeOf(c.path);
      assert Analysis(changes) == CountType(k, t);
      assert k.rustFiles == Analysis(init).rustFiles && k.jsFiles == Analysis(init).jsFiles
        && k.pythonFiles == Analysis(init).pythonFiles && k.docFiles == Analysis(init).docFiles
        && k.testFiles == Analysis(init).testFiles;
      match t {
        case None =>
        case Some(RustFile) =>
        case Some(ScriptFile) =>
        case Some(PythonFile) =>
        case Some(DocFile) =>
        case Some(TestFile) =>
      }
    }
  }

  /** `suggest_commit_type` */
  function SuggestCommitType(a: ChangeAnalysis): (r: Option<string>)
    ensures r.Some? ==> TotalFiles(a) > 0
    ensures r == Some("test") <==> a.testFiles > 0 && a.testFiles == TotalFiles(a)
    ensures r == Some("refactor") ==> a.deletedCount > a.addedCount
    ensures r == None ==> a.deletedCount <= a.addedCount
  {
    if a.testFiles > 0 && a.testFiles == TotalFiles(a) then Some("test")
    else if a.docFiles > 0 && a.docFiles == TotalFiles(a) then Some("docs")
    else if a.addedCount > 0 && a.modifiedCount == 0 && a.deletedCount == 0 then Some("feat")
    else if a.deletedCount > a.addedCount then Some("refactor")
    else None
  }

  /** The suggestion read off the changes themselves: every branch of
      `suggest_commit_type` is a statement about how many changes have each
      kind and each file type. */
  lemma CommitTypeOfChanges(changes: seq<Change>)
    ensures var total := |changes| - KindCount(changes, Copied);
      var tests := TypeCount(changes, TestFile);
      var docs := TypeCount(changes, DocFile);
      var added := KindCount(changes, Added);
      var deleted := KindCount(changes, Deleted);
      SuggestCommitType(Analysis(changes)) ==
        if 0 < tests == total then Some("test")
        else if 0 < docs == total then Some("docs")
        else if added > 0 && KindCount(changes, Modified) == 0 && deleted == 0 then Some("feat")
        else if deleted > added then Some("refactor")
        else None
  {
    KindCounts(changes);
    TypeCounts(changes);
  }

  /** Changes that all have kind `k` count `|changes|` for `k` and nothing
      for any other kind. */
  lemma {:induction false} AllOfKind(changes: seq<Change>, k: ChangeKind, other: ChangeKind)
    requires forall i :: 0 <= i < |changes| ==> changes[i].kind == k
    requires other != k
    ensures KindCount(changes, k) == |changes|
    ensures KindCount(changes, other) == 0
  {
    if changes != [] {
      AllOfKind(changes[..|changes| - 1], k, other);
    }
  }

  /** Paths that all have type `t` count `|changes|` for `t`. */
  lemma {:induction false} AllOfType(changes: seq<Change>, t: FileType)
    requires forall i :: 0 <= i < |changes| ==> FileTypeOf(changes[i].path) == Some(t)
    ensures TypeCount(changes, t) == |changes|
  {
    if changes != [] {
      AllOfType(changes[..|changes| - 1], t);
    }
  }

  /** Paths none of which has type `t` count nothing for `t`. */
  lemma {:induction false} NoneOfType(changes: seq<Change>, t: FileType)
    requires forall i :: 0 <= i < |changes| ==> FileTypeOf(changes[i].path) != Some(t)
    ensures TypeCount(changes, t) == 0
  {
    if changes != [] {
      NoneOfType(changes[..|changes| - 1], t);
    }
  }

  /** Changes that are all test files, none of them a copy, suggest `test`. */
  lemma TestFilesSuggestTest(changes: seq<Change>)
    requires changes != []
    requires forall i :: 0 <= i < |changes| ==> FileTypeOf(changes[i].path) == Some(TestFile)
    requires forall i :: 0 <= i < |changes| ==> changes[i].kind != Copied
    ensures SuggestCommitType(Analysis(changes)) == Some("test")
  {
    CommitTypeOfChanges(changes);
    AllOfType(changes, TestFile);
    NoCopies(changes);
  }

  /** No change is a copy: no copy is counted. */
  lemma {:induction false} NoCopies(changes: seq<Change>)
    requires forall i :: 0 <= i < |changes| ==> changes[i].kind != Copied
    ensures KindCount(changes, Copied) == 0
  {
    if changes != [] {
      NoCopies(changes[..|changes| - 1]);
    }
  }

  /** Changes that are all documentation files, none of them a copy,
      suggest `docs`. */
  lemma DocFilesSuggestDocs(changes: seq<Change>)
    requires changes != []
    requires forall i :: 0 <= i < |changes| ==> FileTypeOf(changes[i].path) == Some(DocFile)
    requires forall i :: 0 <= i < |changes| ==> changes[i].kind != Copied
    ensures SuggestCommitType(Analysis(changes)) == Some("docs")
  {
    CommitTypeOfChanges(changes);
    AllOfType(changes, DocFile);
    NoneOfType(changes, TestFile);
    NoCopies(changes);
  }

  /** Additions only, of files that are neither tests nor documentation,
      suggest `feat`. */
  lemma AdditionsSuggestFeat(changes: seq<Change>)
    requires changes != []
    requires forall i :: 0 <= i < |changes| ==> changes[i].kind == Added
    requires forall i :: 0 <= i < |changes| ==> FileTypeOf(changes[i].path) != Some(TestFile)
    requires forall i :: 0 <= i < |changes| ==> FileTypeOf(changes[i].path) != Some(DocFile)
    ensures SuggestCommitType(Analysis(changes)) == Some("feat")
  {
    CommitTypeOfChanges(changes);
    AllOfKind(changes, Added, Modified);
    AllOfKind(changes, Added, Deleted);
    NoneOfType(changes, TestFile);
    NoneOfType(changes, DocFile);
  }

  /** Deletions only, of files that are neither tests nor documentation,
      suggest `refactor`. */
  lemma DeletionsSuggestRefactor(changes: seq<Change>)
    requires changes != []
    requires forall i :: 0 <= i < |changes| ==> changes[i].kind == Deleted
    requires forall i :: 0 <= i < |changes| ==> FileTypeOf(changes[i].path) != Some(TestFile)
    requires forall i :: 0 <= i < |changes| ==> FileTypeOf(changes[i].path) != Some(DocFile)
    ensures SuggestCommitType(Analysis(changes)) == Some("refactor")
  {
    CommitTypeOfChanges(changes);
    AllOfKind(changes, Deleted, Added);
    NoneOfType(changes, TestFile);
    NoneOfType(changes, DocFile);
  }

  /** Copies are counted by file type but not in the total, so changes that
      are all copies suggest nothing, whatever their paths. */
  lemma CopiesSuggestNothing(changes: seq<Change>)
    requires forall i :: 0 <= i < |changes| ==> changes[i].kind == Copied
    ensures TotalFiles(Analysis(changes)) == 0
    ensures SuggestCommitType(Analysis(changes)) == None
  {
    CommitTypeOfChanges(changes);
    KindCounts(changes);
    AllOfKind(changes, Copied, Added);
    AllOfKind(changes, Copied, Modified);
    AllOfKind(changes, Copied, Deleted);
  }
}
