/** The pure post-processing of the interactive prompts: title and body
    validation, the conventional-commit test, capitalisation, the suggested
    title, and the resolution of a prompt's answer back to the record it
    names. The prompts themselves are not modelled: their answers are
    parameters. */
module Ui {
  import opened Errors
  import opened Text
  import opened Config
  import opened Git

  // ---------------------------------------------------------------------
  // Capitalisation

  /** `format_string_to_title`: the first character upper-cased, the rest
      as given. */
  function FormatStringToTitle(input: string): (r: string)
    ensures |r| == |input|
    ensures input == [] ==> r == []
    ensures input != [] ==> r[1..] == input[1..] && !IsLowerAsciiLetter(r[0])
    ensures input != [] ==> LowerChar(r[0]) == LowerChar(input[0])
  {
    if input == [] then [] else [UpperChar(input[0])] + input[1..]
  }

  /** Capitalising twice is capitalising once. */
  lemma FormatIdempotent(input: string)
    ensures FormatStringToTitle(FormatStringToTitle(input)) == FormatStringToTitle(input)
  {
  }

  /** Capitalising a title that already starts with anything but a lower-case
      letter changes nothing. */
  lemma FormatKeepsCapitalized(input: string)
    requires input != [] && !IsLowerAsciiLetter(input[0])
    ensures FormatStringToTitle(input) == input
  {
    assert input == [input[0]] + input[1..];
  }

  /** Capitalising does not change the byte length, so it never changes the
      verdict of a length check. */
  lemma FormatKeepsByteLength(input: string)
    ensures Utf8Len(FormatStringToTitle(input)) == Utf8Len(input)
  {
    if input != [] {
      var r := FormatStringToTitle(input);
      assert r[1..] == input[1..];
      assert Utf8Width(r[0]) == Utf8Width(input[0]);
    }
  }

  // ---------------------------------------------------------------------
  // Conventional commits

  /** The commit types `is_conventional_commit` accepts, in the order it
      tries them. */
  const ConventionalTypes: seq<string> :=
    [Feat, Fix, Docs, Style, Refactor, Test, Chore, Perf, Ci, Build, Revert]

  const Feat: string := "feat"
  const Fix: string := "fix"
  const Docs: string := "docs"
  const Style: string := "style"
  const Refactor: string := "refactor"
  const Test: string := "test"
  const Chore: string := "chore"
  const Perf: string := "perf"
  const Ci: string := "ci"
  const Build: string := "build"
  const Revert: string := "revert"

  /** The title `t: description`. */
  function Typed(t: string, description: string): string {
    t + ": " + description
  }

  /** `title` opens with type `t` followed by `": "` or by `"("`. */
  predicate MatchesType(title: string, t: string) {
    StartsWith(title, t + ": ") || StartsWith(title, t + "(")
  }

  /** Some conventional type opens `title`. */
  predicate IsConventional(title: string) {
    exists k :: 0 <= k < |ConventionalTypes| && MatchesType(title, ConventionalTypes[k])
  }

  /** `is_conventional_commit`: tries the types in order and stops at the
      first that opens the title. */
  method IsConventionalCommit(title: string) returns (b: bool)
    ensures b <==> IsConventional(title)
  {
    for k := 0 to |ConventionalTypes|
      invariant forall j :: 0 <= j < k ==> !MatchesType(title, ConventionalTypes[j])
    {
      var pattern1 := ConventionalTypes[k] + ": ";
      var pattern2 := ConventionalTypes[k] + "(";
      if StartsWith(title, pattern1) || StartsWith(title, pattern2) {
        return true;
      }
    }
    return false;
  }

  /** Every conventional type starts with a lower-case letter. */
  lemma TypesStartLower(k: nat)
    requires k < |ConventionalTypes|
    ensures ConventionalTypes[k] != [] && IsLowerAsciiLetter(ConventionalTypes[k][0])
  {
  }

  /** A title whose first character is not a lower-case letter is never
      conventional. */
  lemma CapitalNotConventional(title: string)
    requires title != [] && !IsLowerAsciiLetter(title[0])
    ensures !IsConventional(title)
  {
    forall k | 0 <= k < |ConventionalTypes|
      ensures !MatchesType(title, ConventionalTypes[k])
    {
      var t := ConventionalTypes[k];
      TypesStartLower(k);
      assert (t + ": ")[0] == t[0] && (t + "(")[0] == t[0];
      assert !StartsWith(title, t + ": ") by {
        if |t + ": "| <= |title| {
          assert title[..|t + ": "|][0] == title[0];
        }
      }
      assert !StartsWith(title, t + "(") by {
        if |t + "("| <= |title| {
          assert title[..|t + "("|][0] == title[0];
        }
      }
    }
  }

  /** Whatever follows a conventional prefix, the title stays conventional. */
  lemma ConventionalExtends(title: string, more: string)
    requires IsConventional(title)
    ensures IsConventional(title + more)
  {
    var k :| 0 <= k < |ConventionalTypes| && MatchesType(title, ConventionalTypes[k]);
    var t := ConventionalTypes[k];
    if StartsWith(title, t + ": ") {
      assert (title + more)[..|t + ": "|] == title[..|t + ": "|];
    } else {
      assert (title + more)[..|t + "("|] == title[..|t + "("|];
    }
    assert MatchesType(title + more, t);
  }

  /** A colon that is not followed by a space does not make a title
      conventional. */
  lemma ColonWithoutSpaceRejected(title: string)
    requires title == "fix:x"
    ensures !IsConventional(title)
  {
    assert ' ' !in title && '(' !in title;
    forall k | 0 <= k < |ConventionalTypes|
      ensures !MatchesType(title, ConventionalTypes[k])
    {
      var t := ConventionalTypes[k];
      assert (t + ": ")[|t| + 1] == ' ' && (t + "(")[|t|] == '(';
      MissingCharNotContained(title, t + ": ", ' ');
      MissingCharNotContained(title, t + "(", '(');
    }
  }

  /** A type, a colon, a space and a description make a conventional title. */
  lemma TypeColonSpaceAccepted(title: string)
    requires title == "fix: correct null check"
    ensures IsConventional(title)
  {
    assert MatchesType(title, ConventionalTypes[1]);
  }

  // ---------------------------------------------------------------------
  // Title validation

  /** The message of a title that is `n` bytes long against a bound `max`. */
  function LengthMessage(n: nat, max: nat): string {
    "Title is " + Decimal(n) + " characters (max " + Decimal(max) + ")"
  }

  /** The message of a title that is not conventional. */
  const ConventionalHelp: string :=
    "Must follow conventional commit format: type(scope): description\n"
    + "Valid types: feat, fix, docs, style, refactor, test, chore, perf, ci, build, revert\n"
    + "Examples:\n"
    + "\U{2022} feat: add user authentication\n"
    + "\U{2022} fix(ui): resolve button alignment\n"
    + "\U{2022} docs: update installation guide"

  /** The title is longer, in bytes, than the configured bound. */
  predicate TitleTooLong(title: string, c: CommitConfig) {
    Utf8Len(title) > c.maxTitleLength
  }

  /** Conventional form is required and the title lacks it. */
  predicate TitleNotConventional(title: string, c: CommitConfig) {
    c.enforceConventional && !IsConventional(title)
  }

  /** The errors of the two checks, in the order the checks run. */
  function TitleErrors(title: string, c: CommitConfig): (errors: seq<string>)
    ensures |errors| <= 2
    ensures errors == [] <==> !TitleTooLong(title, c) && !TitleNotConventional(title, c)
  {
    (if TitleTooLong(title, c) then [LengthMessage(Utf8Len(title), c.maxTitleLength)] else [])
    + (if TitleNotConventional(title, c) then [ConventionalHelp] else [])
  }

  /** The verdict of `validate_commit_title`: both checks run, and their
      errors are joined by a blank line. */
  function ValidateTitle(title: string, c: CommitConfig): (r: Result<()>)
    ensures r.Ok? <==> !TitleTooLong(title, c) && !TitleNotConventional(title, c)
    ensures TitleTooLong(title, c) && !TitleNotConventional(title, c) ==>
      r == Err(ValidationError(LengthMessage(Utf8Len(title), c.maxTitleLength)))
    ensures !TitleTooLong(title, c) && TitleNotConventional(title, c) ==>
      r == Err(ValidationError(ConventionalHelp))
    ensures TitleTooLong(title, c) && TitleNotConventional(title, c) ==>
      r == Err(ValidationError(LengthMessage(Utf8Len(title), c.maxTitleLength) + "\n\n" + ConventionalHelp))
  {
    var errors := TitleErrors(title, c);
    if errors == [] then Ok(()) else Err(ValidationError(Join(errors, "\n\n")))
  }

  /** `validate_commit_title`: collects the errors of the two checks. */
  method ValidateCommitTitle(title: string, c: CommitConfig) returns (r: Result<()>)
    ensures r == ValidateTitle(title, c)
  {
    var errors: seq<string> := [];
    if Utf8Len(title) > c.maxTitleLength {
      errors := errors + [LengthMessage(Utf8Len(title), c.maxTitleLength)];
    }
    if c.enforceConventional {
      var conventional := IsConventionalCommit(title);
      if !conventional {
        errors := errors + [ConventionalHelp];
      }
    }
    if errors != [] {
      return Err(ValidationError(Join(errors, "\n\n")));
    }
    return Ok(());
  }

  /** The length reported by the message is the title's byte length. */
  lemma LengthMessageReadsBack(title: string, c: CommitConfig)
    requires TitleTooLong(title, c)
    ensures var m := LengthMessage(Utf8Len(title), c.maxTitleLength);
      var digits := m[9..9 + |Decimal(Utf8Len(title))|];
      StartsWith(m, "Title is ") && DigitsValue(digits) == Utf8Len(title)
  {
    var d := Decimal(Utf8Len(title));
    var m := LengthMessage(Utf8Len(title), c.maxTitleLength);
    assert m[9..9 + |d|] == d;
    assert m[..9] == "Title is ";
    DecimalRoundTrip(Utf8Len(title));
  }

  // ---------------------------------------------------------------------
  // Body validation

  /** The message of a body with an over-long line. The figure 72 is part of
      the text whatever bound is configured. */
  const BodyTooLong: string := "Body lines should be 72 characters or less"

  /** Every line of `body` is at most `max` bytes long. */
  predicate BodyFits(body: string, max: nat) {
    var lines := Lines(body);
    forall k :: 0 <= k < |lines| ==> Utf8Len(lines[k]) <= max
  }

  /** `validate_commit_body`: scans the lines and stops at the first one
      that is too long. */
  method ValidateCommitBody(body: string, c: CommitConfig) returns (r: Result<()>)
    ensures r.Ok? <==> BodyFits(body, c.maxBodyLength)
    ensures r.Err? ==> r.error == ValidationError(BodyTooLong)
  {
    var lines := Lines(body);
    var errors: seq<string> := [];
    var i := 0;
    while i < |lines|
      invariant 0 <= i <= |lines|
      invariant errors == []
      invariant forall k :: 0 <= k < i ==> Utf8Len(lines[k]) <= c.maxBodyLength
    {
      if Utf8Len(lines[i]) > c.maxBodyLength {
        errors := errors + [BodyTooLong];
        break;
      }
      i := i + 1;
    }
    if errors != [] {
      return Err(ValidationError(Join(errors, ", ")));
    }
    return Ok(());
  }

  /** A body without line feeds is one line: it fits iff its byte length
      is within the bound. */
  lemma SingleLineBody(body: string, max: nat)
    requires body != [] && '\n' !in body
    ensures BodyFits(body, max) <==> Utf8Len(body) <= max
  {
    SingleLine(body);
    assert Lines(body)[0] == body;
  }

  /** `get_commit_message` after its prompt: a blank answer means no body;
      otherwise the answer, capitalised when configured, must pass the body
      check. */
  method CommitMessage(message: string, c: CommitConfig) returns (r: Result<Option<string>>)
    ensures IsBlank(message) ==> r == Ok(None)
    ensures !IsBlank(message) ==>
      var body := if c.autoCapitalizeTitle then FormatStringToTitle(message) else message;
      (BodyFits(body, c.maxBodyLength) ==> r == Ok(Some(body)))
      && (!BodyFits(body, c.maxBodyLength) ==> r == Err(ValidationError(BodyTooLong)))
  {
    if IsBlank(message) {
      return Ok(None);
    }
    var body := if c.autoCapitalizeTitle then FormatStringToTitle(message) else message;
    var verdict := ValidateCommitBody(body, c);
    if verdict.Err? {
      return Err(verdict.error);
    }
    return Ok(Some(body));
  }

  // ---------------------------------------------------------------------
  // Title entry

  /** `get_commit_title` after its prompt, as written: the answer is
      capitalised when configured and then validated. */
  function TitleInputAsWritten(title: string, c: CommitConfig): (r: Result<string>)
    ensures r.Ok? ==> ValidateTitle(r.value, c).Ok?
    ensures var formatted := if c.autoCapitalizeTitle then FormatStringToTitle(title) else title;
      (r.Ok? <==> ValidateTitle(formatted, c).Ok?)
      && (r.Ok? ==> r.value == formatted)
      && (r.Err? ==> r.error == ValidateTitle(formatted, c).error)
  {
    var formatted := if c.autoCapitalizeTitle then FormatStringToTitle(title) else title;
    match ValidateTitle(formatted, c)
    case Ok(_) => Ok(formatted)
    case Err(e) => Err(e)
  }

  /** With capitalisation and conventional form both switched on, no
      answer is ever accepted: capitalising removes the lower-case type
      every conventional title starts with. */
  lemma CapitalizedNeverAccepted(title: string, c: CommitConfig)
    requires c.autoCapitalizeTitle && c.enforceConventional
    ensures TitleInputAsWritten(title, c).Err?
  {
    var formatted := FormatStringToTitle(title);
    if title != [] {
      CapitalNotConventional(formatted);
    }
  }

  /** The default record, which switches on both capitalisation and the
      conventional form, rejects a well-formed conventional title. */
  lemma DefaultRejectsConventionalTitle(title: string)
    requires title == "feat: add login"
    ensures IsConventional(title) && Utf8Len(title) <= DefaultConfig().commit.maxTitleLength
    ensures TitleInputAsWritten(title, DefaultConfig().commit).Err?
  {
    assert MatchesType(title, ConventionalTypes[0]);
    assert IsAscii(title);
    AsciiUtf8Len(title);
    CapitalizedNeverAccepted(title, DefaultConfig().commit);
  }

  /** `get_commit_title` after its prompt, corrected: capitalisation is
      skipped when the conventional form, which starts in lower case, is
      required. */
  function TitleInput(title: string, c: CommitConfig): (r: Result<string>)
    ensures r.Ok? ==> ValidateTitle(r.value, c).Ok?
    ensures var formatted := if c.autoCapitalizeTitle && !c.enforceConventional then FormatStringToTitle(title) else title;
      (r.Ok? <==> ValidateTitle(formatted, c).Ok?)
      && (r.Ok? ==> r.value == formatted)
      && (r.Err? ==> r.error == ValidateTitle(formatted, c).error)
  {
    var formatted := if c.autoCapitalizeTitle && !c.enforceConventional then FormatStringToTitle(title) else title;
    match ValidateTitle(formatted, c)
    case Ok(_) => Ok(formatted)
    case Err(e) => Err(e)
  }

  /** A conventional title within the bound is accepted as typed when the
      conventional form is required, and any title within the bound is
      accepted, capitalised as configured, when it is not. */
  lemma TitleInputAccepts(title: string, c: CommitConfig)
    requires Utf8Len(title) <= c.maxTitleLength
    ensures c.enforceConventional && IsConventional(title) ==> TitleInput(title, c) == Ok(title)
    ensures c.enforceConventional && !IsConventional(title) ==> TitleInput(title, c).Err?
    ensures !c.enforceConventional ==>
      TitleInput(title, c) == Ok(if c.autoCapitalizeTitle then FormatStringToTitle(title) else title)
  {
    FormatKeepsByteLength(title);
  }

  // ---------------------------------------------------------------------
  // Suggested title

  /** The categories of `generate_smart_placeholder`'s classification. */
  datatype Category = DocsCategory | TestsCategory | ConfigCategory | UiCategory | DepsCategory

  /** The first branch of the chain that matches the lower-cased path. */
  function CategoryOf(path: string): (r: Option<Category>)
    ensures r == Some(DocsCategory) <==>
      EndsWith(ToLower(path), ".md") || EndsWith(ToLower(path), ".rst") || Contains(ToLower(path), "readme")
    ensures r == Some(DepsCategory) ==>
      (Contains(ToLower(path), "cargo.toml") || Contains(ToLower(path), "package.json"))
      && !EndsWith(ToLower(path), ".toml") && !EndsWith(ToLower(path), ".json")
  {
    var f := ToLower(path);
    if EndsWith(f, ".md") || EndsWith(f, ".rst") || Contains(f, "readme") then Some(DocsCategory)
    else if Contains(f, "test") || Contains(f, "spec") then Some(TestsCategory)
    else if EndsWith(f, ".toml") || EndsWith(f, ".json") || EndsWith(f, ".yml") then Some(ConfigCategory)
    else if EndsWith(f, ".css") || EndsWith(f, ".scss") || Contains(f, "ui") then Some(UiCategory)
    else if Contains(f, "cargo.toml") || Contains(f, "package.json") then Some(DepsCategory)
    else None
  }

  /** The six flags the scan sets. */
  datatype Flags = Flags(newFiles: bool, docs: bool, tests: bool, config: bool, ui: bool, deps: bool)

  const NoFlags := Flags(false, false, false, false, false, false)

  /** Sets the flag of category `cat`, if any. */
  function Mark(f: Flags, cat: Option<Category>): Flags {
    match cat
    case None => f
    case Some(DocsCategory) => f.(docs := true)
    case Some(TestsCategory) => f.(tests := true)
    case Some(ConfigCategory) => f.(config := true)
    case Some(UiCategory) => f.(ui := true)
    case Some(DepsCategory) => f.(deps := true)
  }

  /** The flags after one more change. */
  function Step(f: Flags, c: Change): Flags {
    Mark(if c.kind == Added then f.(newFiles := true) else f, CategoryOf(c.path))
  }

  /** The flags after scanning `changes`. */
  function Scan(changes: seq<Change>): Flags {
    if changes == [] then NoFlags else Step(Scan(changes[..|changes| - 1]), changes[|changes| - 1])
  }

  /** The flag of category `cat`. */
  function Flag(f: Flags, cat: Category): bool {
    match cat
    case DocsCategory => f.docs
    case TestsCategory => f.tests
    case ConfigCategory => f.config
    case UiCategory => f.ui
    case DepsCategory => f.deps
  }

  /** Marking a category sets its flag and no other; the new-file flag is
      untouched. */
  lemma MarkFlag(f: Flags, k: Option<Category>, cat: Category)
    ensures Mark(f, k).newFiles == f.newFiles
    ensures Flag(Mark(f, k), cat) <==> Flag(f, cat) || k == Some(cat)
  {
    match k {
      case None =>
      case Some(_) =>
        match cat {
          case DocsCategory => case TestsCategory => case ConfigCategory =>
          case UiCategory => case DepsCategory =>
        }
    }
  }

  /** Setting the new-file flag leaves the category flags alone. */
  lemma NewFileFlag(f: Flags, cat: Category)
    ensures Flag(f.(newFiles := true), cat) == Flag(f, cat)
  {
    match cat {
      case DocsCategory => case TestsCategory => case ConfigCategory =>
      case UiCategory => case DepsCategory =>
    }
  }

  /** What one step does to the flags: it sets the new-file flag for an
      addition and the flag of the path's category, and clears nothing. */
  lemma StepFlag(f: Flags, c: Change, cat: Category)
    ensures Step(f, c).newFiles <==> f.newFiles || c.kind == Added
    ensures Flag(Step(f, c), cat) <==> Flag(f, cat) || CategoryOf(c.path) == Some(cat)
  {
    var g := if c.kind == Added then f.(newFiles := true) else f;
    NewFileFlag(f, cat);
    MarkFlag(g, CategoryOf(c.path), cat);
  }

  /** The category of every path, in change order. */
  function Categories(changes: seq<Change>): (r: seq<Option<Category>>)
    ensures |r| == |changes| && forall i :: 0 <= i < |changes| ==> r[i] == CategoryOf(changes[i].path)
  {
    seq(|changes|, i requires 0 <= i < |changes| => CategoryOf(changes[i].path))
  }

  /** One change more appends its category. */
  lemma CategoriesStep(changes: seq<Change>)
    requires changes != []
    ensures Categories(changes) == Categories(changes[..|changes| - 1]) + [CategoryOf(changes[|changes| - 1].path)]
  {
    var n := |changes| - 1;
    assert forall i :: 0 <= i < n ==> changes[..n][i] == changes[i];
  }

  /** After the scan the new-file flag is set iff some change is an
      addition. */
  lemma {:induction false} ScanNewFiles(changes: seq<Change>)
    ensures Scan(changes).newFiles <==> exists i :: 0 <= i < |changes| && changes[i].kind == Added
  {
    if changes != [] {
      var init := changes[..|changes| - 1];
      ScanNewFiles(init);
      StepFlag(Scan(init), changes[|changes| - 1], DocsCategory);
      assert forall i :: 0 <= i < |init| ==> init[i] == changes[i];
    }
  }

  /** After the scan the flag of a category is set iff some path has that
      category. */
  lemma {:induction false} ScanCategory(changes: seq<Change>, cat: Category)
    ensures Flag(Scan(changes), cat) <==> Some(cat) in Categories(changes)
  {
    if changes != [] {
      var init := changes[..|changes| - 1];
      var last := changes[|changes| - 1];
      ScanCategory(init, cat);
      StepFlag(Scan(init), last, cat);
      CategoriesStep(changes);
    }
  }

  const ConventionalPlaceholders: seq<string> := [
    Typed(Chore, "update dependencies"), Typed(Docs, "update documentation"), Typed(Test, "add unit tests"),
    Typed(Chore, "update configuration"), Typed(Style, "improve UI components"), Typed(Feat, "add new feature"),
    Typed(Fix, "resolve issue")]

  const PlainPlaceholders: seq<string> := [
    "update dependencies", "update documentation", "add tests", "update configuration",
    "improve styling", "add new feature", "fix issue"]

  /** The suggestion the flags lead to, in conventional form or plain. */
  function Placeholder(f: Flags, conventional: bool): (s: string)
    ensures conventional ==> s in ConventionalPlaceholders
    ensures !conventional ==> s in PlainPlaceholders
    ensures f.deps ==> s == (if conventional then ConventionalPlaceholders[0] else PlainPlaceholders[0])
  {
    if conventional then
      if f.deps then Typed(Chore, "update dependencies")
      else if f.docs && !f.tests && !f.newFiles then Typed(Docs, "update documentation")
      else if f.tests && !f.newFiles then Typed(Test, "add unit tests")
      else if f.config then Typed(Chore, "update configuration")
      else if f.ui then Typed(Style, "improve UI components")
      else if f.newFiles then Typed(Feat, "add new feature")
      else Typed(Fix, "resolve issue")
    else
      if f.deps then "update dependencies"
      else if f.docs then "update documentation"
      else if f.tests then "add tests"
      else if f.config then "update configuration"
      else if f.ui then "improve styling"
      else if f.newFiles then "add new feature"
      else "fix issue"
  }

  /** The suggested title for `changes` under `c`. */
  function SmartPlaceholder(changes: seq<Change>, c: CommitConfig): (s: string)
    ensures s in (if c.enforceConventional then ConventionalPlaceholders else PlainPlaceholders)
    ensures c.enforceConventional ==> IsConventional(s)
  {
    ConventionalPlaceholdersConform(Scan(changes));
    Placeholder(Scan(changes), c.enforceConventional)
  }

  /** `generate_smart_placeholder`: one pass setting flags, then the
      priority chain. */
  method GenerateSmartPlaceholder(changes: seq<Change>, c: CommitConfig) returns (s: string)
    ensures s == SmartPlaceholder(changes, c)
  {
    var flags := NoFlags;
    var i := 0;
    while i < |changes|
      invariant 0 <= i <= |changes|
      invariant flags == Scan(changes[..i])
    {
      var change := changes[i];
      assert Scan(changes[..i + 1]) == Step(flags, change) by {
        assert changes[..i + 1][..i] == changes[..i];
      }
      if change.kind == Added {
        flags := flags.(newFiles := true);
      }
      flags := MarkPath(flags, change.path);
      i := i + 1;
    }
    assert changes[..i] == changes;
    if c.enforceConventional {
      if flags.deps {
        s := Typed(Chore, "update dependencies");
      } else if flags.docs && !flags.tests && !flags.newFiles {
        s := Typed(Docs, "update documentation");
      } else if flags.tests && !flags.newFiles {
        s := Typed(Test, "add unit tests");
      } else if flags.config {
        s := Typed(Chore, "update configuration");
      } else if flags.ui {
        s := Typed(Style, "improve UI components");
      } else if flags.newFiles {
        s := Typed(Feat, "add new feature");
      } else {
        s := Typed(Fix, "resolve issue");
      }
    } else {
      if flags.deps {
        s := "update dependencies";
      } else if flags.docs {
        s := "update documentation";
      } else if flags.tests {
        s := "add tests";
      } else if flags.config {
        s := "update configuration";
      } else if flags.ui {
        s := "improve styling";
      } else if flags.newFiles {
        s := "add new feature";
      } else {
        s := "fix issue";
      }
    }
  }

  /** The category half of one step of `generate_smart_placeholder`. */
  method MarkPath(f: Flags, path: string) returns (flags: Flags)
    ensures flags == Mark(f, CategoryOf(path))
  {
    flags := f;
    var fileLower := ToLower(path);
    if EndsWith(fileLower, ".md") || EndsWith(fileLower, ".rst") || Contains(fileLower, "readme") {
      flags := flags.(docs := true);
    } else if Contains(fileLower, "test") || Contains(fileLower, "spec") {
      flags := flags.(tests := true);
    } else if EndsWith(fileLower, ".toml") || EndsWith(fileLower, ".json") || EndsWith(fileLower, ".yml") {
      flags := flags.(config := true);
    } else if EndsWith(fileLower, ".css") || EndsWith(fileLower, ".scss") || Contains(fileLower, "ui") {
      flags := flags.(ui := true);
    } else if Contains(fileLower, "cargo.toml") || Contains(fileLower, "package.json") {
      flags := flags.(deps := true);
    }
  }

  /** A title made of a conventional type, a colon, a space and a
      description is conventional. */
  lemma TypedTitleConforms(t: string, description: string)
    requires t in ConventionalTypes
    ensures IsConventional(Typed(t, description))
  {
    var k :| 0 <= k < |ConventionalTypes| && ConventionalTypes[k] == t;
    var p := t + ": ";
    assert (p + description)[..|p|] == p;
    assert MatchesType(p + description, ConventionalTypes[k]);
  }

  /** Every conventional suggestion is itself a conventional title. */
  lemma ConventionalPlaceholdersConform(f: Flags)
    ensures IsConventional(Placeholder(f, true))
  {
    if f.deps {
      TypedTitleConforms(Chore, "update dependencies");
    } else if f.docs && !f.tests && !f.newFiles {
      TypedTitleConforms(Docs, "update documentation");
    } else if f.tests && !f.newFiles {
      TypedTitleConforms(Test, "add unit tests");
    } else if f.config {
      TypedTitleConforms(Chore, "update configuration");
    } else if f.ui {
      TypedTitleConforms(Style, "improve UI components");
    } else if f.newFiles {
      TypedTitleConforms(Feat, "add new feature");
    } else {
      TypedTitleConforms(Fix, "resolve issue");
    }
  }

  /** A change of any dependency category decides the suggestion, whatever
      else the change set holds. */
  lemma DependenciesFirst(changes: seq<Change>, c: CommitConfig, i: nat)
    requires i < |changes| && CategoryOf(changes[i].path) == Some(DepsCategory)
    ensures SmartPlaceholder(changes, c) == (if c.enforceConventional then Typed(Chore, "update dependencies") else "update dependencies")
  {
    ScanCategory(changes, DepsCategory);
    assert Categories(changes)[i] == Some(DepsCategory);
  }

  /** The manifest itself ends in `.toml` and is classified as configuration,
      not as a dependency change. */
  lemma ManifestIsConfiguration(path: string)
    requires path == "Cargo.toml"
    ensures CategoryOf(path) == Some(ConfigCategory)
  {
    var f := ToLower(path);
    assert f == "cargo.toml";
    assert !EndsWith(f, ".md") && !EndsWith(f, ".rst") && EndsWith(f, ".toml");
    MissingCharNotContained(f, "readme", 'e');
    MissingCharNotContained(f, "test", 'e');
    MissingCharNotContained(f, "spec", 'e');
  }

  // ---------------------------------------------------------------------
  // Resolving prompt answers

  /** The text shown for a change in the file picker. */
  function Label(c: Change): (r: string)
    ensures StartsWith(r, Color(c.kind)) && EndsWith(r, c.path + "\U{1b}[0m")
  {
    Color(c.kind) + KindName(c.kind) + ": " + c.path + "\U{1b}[0m"
  }

  function Labels(changes: seq<Change>): (r: seq<string>)
    ensures |r| == |changes| && forall i :: 0 <= i < |changes| ==> r[i] == Label(changes[i])
  {
    seq(|changes|, i requires 0 <= i < |changes| => Label(changes[i]))
  }

  function Paths(changes: seq<Change>): (r: seq<string>)
    ensures |r| == |changes| && forall i :: 0 <= i < |changes| ==> r[i] == changes[i].path
  {
    seq(|changes|, i requires 0 <= i < |changes| => changes[i].path)
  }

  /** The colour escape is seven characters long, the sixth naming the kind. */
  lemma ColorShape(k: ChangeKind)
    ensures |Color(k)| == 7 && Color(k)[5] == ColorDigit(k)
  {
  }

  /** Different changes have different labels, so a chosen label names
      exactly one change. */
  lemma LabelInjective(a: Change, b: Change)
    requires Label(a) == Label(b)
    ensures a == b
  {
    ColorShape(a.kind);
    ColorShape(b.kind);
    assert Label(a)[5] == Color(a.kind)[5];
    assert Label(b)[5] == Color(b.kind)[5];
    assert a.kind == b.kind by {
      match a.kind {
        case Untracked => case Added => case Modified =>
        case Deleted => case Renamed => case Copied =>
      }
    }
    var n := |Color(a.kind) + KindName(a.kind) + ": "|;
    assert |a.path| == |b.path|;
    assert a.path == Label(a)[n..n + |a.path|];
    assert b.path == Label(b)[n..n + |b.path|];
  }

  /** The paths of the changes whose entry in `keep` is set, in change
      order. */
  function Kept(changes: seq<Change>, keep: seq<bool>): (r: seq<string>)
    requires |keep| == |changes|
    ensures |r| <= |changes|
  {
    if changes == [] then []
    else
      var n := |changes| - 1;
      Kept(changes[..n], keep[..n]) + (if keep[n] then [changes[n].path] else [])
  }

  /** For every change, whether its label was chosen. */
  function Chosen(changes: seq<Change>, selected: seq<string>): (keep: seq<bool>)
    ensures |keep| == |changes| && forall i :: 0 <= i < |changes| ==> (keep[i] <==> Label(changes[i]) in selected)
  {
    seq(|changes|, i requires 0 <= i < |changes| => Label(changes[i]) in selected)
  }

  /** The filter and map of `select_files_to_commit`: the paths of the
      changes whose labels were chosen, in change order. */
  function SelectedFiles(changes: seq<Change>, selected: seq<string>): (r: seq<string>)
    ensures |r| <= |changes|
  {
    Kept(changes, Chosen(changes, selected))
  }

  /** Strictly increasing positions. */
  predicate Increasing(idx: seq<nat>) {
    forall j, k :: 0 <= j < k < |idx| ==> idx[j] < idx[k]
  }

  /** The positions whose entry is set, in increasing order. */
  function Positions(keep: seq<bool>): (idx: seq<nat>)
    ensures forall j :: 0 <= j < |idx| ==> idx[j] < |keep|
  {
    if keep == [] then []
    else
      var n := |keep| - 1;
      Positions(keep[..n]) + (if keep[n] then [n] else [])
  }

  /** The positions increase and are exactly those whose entry is set. */
  lemma {:induction false} PositionsExact(keep: seq<bool>)
    ensures Increasing(Positions(keep))
    ensures forall i :: 0 <= i < |keep| ==> (i in Positions(keep) <==> keep[i])
  {
    if keep != [] {
      var n := |keep| - 1;
      PositionsExact(keep[..n]);
      assert forall i :: 0 <= i < n ==> keep[..n][i] == keep[i];
    }
  }

  /** The kept paths are the paths at the positions whose entry is set. */
  lemma {:induction false} KeptAtPositions(changes: seq<Change>, keep: seq<bool>)
    requires |keep| == |changes|
    ensures |Kept(changes, keep)| == |Positions(keep)|
    ensures forall j :: 0 <= j < |Positions(keep)| ==> Kept(changes, keep)[j] == changes[Positions(keep)[j]].path
  {
    if changes != [] {
      var n := |changes| - 1;
      KeptAtPositions(changes[..n], keep[..n]);
      assert forall i :: 0 <= i < n ==> changes[..n][i] == changes[i];
    }
  }

  /** The result is the paths at increasing positions of the change set,
      exactly the positions whose label was chosen. */
  lemma SelectedSubsequence(changes: seq<Change>, selected: seq<string>) returns (idx: seq<nat>)
    ensures |idx| == |SelectedFiles(changes, selected)|
    ensures forall j :: 0 <= j < |idx| ==> idx[j] < |changes|
    ensures Increasing(idx)
    ensures forall j :: 0 <= j < |idx| ==> SelectedFiles(changes, selected)[j] == changes[idx[j]].path
    ensures forall i :: 0 <= i < |changes| ==> (i in idx <==> Label(changes[i]) in selected)
  {
    var keep := Chosen(changes, selected);
    idx := Positions(keep);
    PositionsExact(keep);
    KeptAtPositions(changes, keep);
  }

  /** Keeping every change gives every path. */
  lemma {:induction false} KeptAll(changes: seq<Change>, keep: seq<bool>)
    requires |keep| == |changes| && forall i :: 0 <= i < |keep| ==> keep[i]
    ensures Kept(changes, keep) == Paths(changes)
  {
    if changes != [] {
      var n := |changes| - 1;
      KeptAll(changes[..n], keep[..n]);
      assert Paths(changes) == Paths(changes[..n]) + [changes[n].path];
    }
  }

  /** Choosing every label gives every path. */
  lemma SelectAll(changes: seq<Change>, selected: seq<string>)
    requires forall i :: 0 <= i < |changes| ==> Label(changes[i]) in selected
    ensures SelectedFiles(changes, selected) == Paths(changes)
  {
    KeptAll(changes, Chosen(changes, selected));
  }

  /** Choosing every option the file picker offers stages every path, in
      order. */
  lemma SelectEveryOption(changes: seq<Change>)
    ensures SelectedFiles(changes, Labels(changes)) == Paths(changes)
  {
    SelectAll(changes, Labels(changes));
  }

  /** An emoji of the catalogue. */
  datatype Emoji = Emoji(code: string, name: string, emoji: string, entity: string, description: string)

  /** The text shown for an emoji in the emoji picker. */
  function EmojiOption(e: Emoji): string {
    e.emoji + " - " + e.description
  }

  /** The `find` of `select_emoji`: the first emoji whose glyph opens the
      chosen text, or `InvalidEmoji`. */
  function FindEmoji(emojis: seq<Emoji>, selected: string): (r: Result<Emoji>)
    ensures r.Err? <==> forall i :: 0 <= i < |emojis| ==> !StartsWith(selected, emojis[i].emoji)
    ensures r.Err? ==> r.error == InvalidEmoji
    ensures r.Ok? ==> exists i :: 0 <= i < |emojis| && emojis[i] == r.value && StartsWith(selected, emojis[i].emoji)
                         && (forall j :: 0 <= j < i ==> !StartsWith(selected, emojis[j].emoji))
  {
    if emojis == [] then Err(InvalidEmoji)
    else if StartsWith(selected, emojis[0].emoji) then Ok(emojis[0])
    else
      var r := FindEmoji(emojis[1..], selected);
      assert forall i :: 1 <= i < |emojis| ==> emojis[1..][i - 1] == emojis[i];
      r
  }

  /** Choosing the option shown for `emojis[i]` always resolves, to that
      emoji or to an earlier one whose glyph is a prefix of its glyph. */
  lemma ChosenOptionResolves(emojis: seq<Emoji>, i: nat)
    requires i < |emojis|
    ensures FindEmoji(emojis, EmojiOption(emojis[i])).Ok?
    ensures (forall j :: 0 <= j < i ==> !StartsWith(EmojiOption(emojis[i]), emojis[j].emoji))
      ==> FindEmoji(emojis, EmojiOption(emojis[i])) == Ok(emojis[i])
  {
    var s := EmojiOption(emojis[i]);
    assert s[..|emojis[i].emoji|] == emojis[i].emoji;
    assert StartsWith(s, emojis[i].emoji);
  }
}
