# git-cli core in Dafny

A model of the core of `git-cli`, a terminal helper that wraps `git` to
stage, commit and pull with conventional, emoji-prefixed commit messages.
The model covers:

- how `git status --porcelain` output becomes a list of changes;
- the argument vectors that `commit`, `pull` and `add` pass to `git`;
- how commit titles and bodies are capitalised and validated against the
  configured limits and the conventional-commit format;
- the smart title placeholder derived from the changed files;
- which files and which emoji a user's menu choice resolves to;
- the emoji suggestions and the change analysis with its suggested commit type;
- the configuration records and their defaults.

Layout, one module per file:

- `errors.dfy` (`Errors`): `Option`, `Result` and the error enum.
- `text.dfy` (`Text`): the Rust string operations the core relies on:
  - `starts_with`, `ends_with`, `contains` and ASCII case mapping;
  - UTF-8 byte length and `lines()`;
  - decimal formatting and byte-order comparison.
- `config.dfy` (`Config`): the configuration records and their defaults.
- `git.dfy` (`Git`): `Change`, the status classification and the argv builders.
- `validation.dfy` (`Validation`): emoji suggestion, change analysis and
  the commit-type suggestion.
- `ui.dfy` (`Ui`): title and body validation, the conventional-commit
  check, title capitalisation, the placeholder, and file and emoji selection.

Loops in the source are methods with invariants. Each method is proved
equal to a specification function, and lemmas prove the properties of that
function. Those methods are `GetStatus`, `IsConventionalCommit`,
`ValidateCommitBody`, `GenerateSmartPlaceholder`, `SuggestEmojiByFiles`
and `AnalyzeChanges`. The configuration is a parameter of the `Ui`
operations. The terminal prompts are not modelled: the text the user
types or picks is a parameter.

The source reads `config.commit.enforce_conventional`, but its
`CommitConfig` record (src/config/mod.rs:21-25) has no such field. The
model adds it as `enforceConventional`, and the default record sets it to
true.

## Model

| member | source | states |
|---|---|---|
| Config.DefaultConfig | src/config/mod.rs:34-54 | The default record: emoji ✨, no auto-push, confirm before push, no debug, titles up to 50 bytes, body lines up to 72, auto-capitalised titles, and every hook flag on. |
| Git.KindOf | src/git/mod.rs:58-101 | A line is Untracked exactly when both status columns are `?`. Any kind other than Untracked and the fallback Modified has its letter in one of the two columns. |
| Git.KindByPrecedence | src/git/mod.rs:64-93 | Outside the untracked case, the first letter of A, M, D, R, C found in either column decides the kind. |
| Git.KindDefault | src/git/mod.rs:94-100 | When neither column holds any of those letters, the kind falls back to Modified. |
| Git.ParseLine | src/git/mod.rs:48-55 | Lines shorter than three characters are skipped. Any other line yields a change whose path starts at the fourth character and whose kind comes from the first two. |
| Git.KeptLines | src/git/mod.rs:47-50 | The length filter never yields more lines than it is given, and each line it yields has at least three characters. |
| Git.KeptLinesMembers | src/git/mod.rs:47-50 | A line is kept exactly when it is one of the input lines and has at least three characters. |
| Git.ParseStatusLines | src/git/mod.rs:47-104 | At most one change per line of output. `Git.StatusLinesClassified` states what each change is. |
| Git.StatusLinesClassified | src/git/mod.rs:47-104 | There is exactly one change per kept line, in order. The k-th change has the kind of the k-th kept line's columns and that line's text from the fourth character. |
| Git.GetStatus | src/git/mod.rs:44-107 | The loop over the output's lines returns the classification of those lines, and never more changes than there are lines. |
| Git.StatusExample | src/git/mod.rs:58-101 | The lines `M  src/a.rs`, `?? b.txt` and `A  c.rs` give Modified `src/a.rs`, Untracked `b.txt` and Added `c.rs`. |
| Git.StatusOfPrintedLines | src/git/mod.rs:44-47 | For status lines printed one per line feed, the parsed output gives exactly the changes of those lines. |
| Git.CommitArgs | src/git/mod.rs:181-187 | The argv is `commit -m <title>`, plus `-m <body>` when there is a body. The message values in argv are exactly the title and then the body. |
| Git.PullArgs | src/git/mod.rs:252-257 | The argv is `pull`, then `--rebase` exactly when rebasing is asked for, then `origin <branch>`. |
| Git.AddArgs | src/git/mod.rs:110-118 | The argv is `add` followed by the files in order, or by `.` when the file list is empty. |
| Git.SpawnedArgs | src/git/mod.rs:134 | Empty arguments are dropped before spawning. The spawned list is never longer than the given one and holds no empty string, and an argument is spawned exactly when it is given and non-empty. |
| Git.SpawnedAppend | src/git/mod.rs:134 | Filtering keeps the order of the arguments: the spawned form of a concatenation is the spawned forms of its parts, concatenated. |
| Git.SpawnedNonEmpty | src/git/mod.rs:134 | When no argument is empty, the spawned arguments are the given ones unchanged. |
| Git.CommitArgsSpawned | src/git/mod.rs:181-190 | A non-empty title and body reach `git` unchanged. An empty title is dropped, leaving `commit -m`. |
| Validation.DocsLiteralIsNotMemo | tests/integration_tests.rs:23 | The docs literal is not the memo emoji U+1F4DD that the integration test looks for, so the test's first assertion fails as the source is written. |
| Validation.Rank | src/validation.rs:38 | The sort position of each of the seven glyphs, below 7. |
| Validation.RankIsLiteralOrder | src/validation.rs:21-38 | Ordering glyphs by rank is the same as ordering their string literals, which is how `sort` orders them. |
| Validation.EmojiForLower | src/validation.rs:20-34 | The docs glyph is chosen exactly when the name ends in `.md`, `.rst` or `.txt`, whatever else it contains. The test and security glyphs need their keywords. A name with no glyph contains none of `test`, `spec` and `auth`. |
| Validation.EmojiIgnoresCase | src/validation.rs:18 | Paths are classified after lower-casing, so a path and its lower-case form get the same glyph. |
| Validation.GlyphsOf | src/validation.rs:17-35 | One classification per file, in file order, by the first rule the lower-cased name matches. |
| Validation.PushedGlyphs | src/validation.rs:17-35 | At most one glyph is pushed per file, and a glyph is pushed exactly when some file's classification is that glyph. |
| Validation.PushedAppend | src/validation.rs:17-35 | Glyphs are pushed in file order: the glyphs of a concatenation are those of the first part followed by those of the second. |
| Validation.Insert | src/validation.rs:38 | Inserting into a sorted list keeps it sorted and adds exactly that glyph to its multiset. |
| Validation.SortGlyphs | src/validation.rs:38 | `sort` returns a sorted permutation of its input. |
| Validation.Dedup | src/validation.rs:39 | `dedup` keeps the same set of glyphs and the last element, never grows the list, and turns a sorted list into a strictly increasing one. |
| Validation.SuggestEmojiByFiles | src/validation.rs:14-41 | The loop returns the specified suggestion list, which is strictly increasing, so it has no duplicates. |
| Validation.SuggestedGlyphs | src/validation.rs:14-41 | The suggestions are strictly sorted. A glyph is suggested exactly when some file's name selects it. |
| Validation.StrictlySortedAtMostSeven | src/validation.rs:38-39 | A strictly sorted glyph list has at most seven elements. |
| Validation.SuggestionsBounded | src/validation.rs:14-41 | There are never more than seven suggestions, and never more suggestions than files. |
| Validation.PathGlyphs | tests/integration_tests.rs:15-19 | `README.md` selects docs, `test_file.rs` selects test, `style.css` selects style, and `main.rs` selects nothing. |
| Validation.DocsTestStyle | src/validation.rs:38-40 | Pushing docs, test and style gives test, style, docs once sorted and deduplicated. |
| Validation.SortExample | src/validation.rs:38 | docs, test, style sorts to test, style, docs. |
| Validation.DedupExample | src/validation.rs:39 | The list test, style, docs has no repeats and is unchanged by `dedup`. |
| Validation.SuggestionExample | tests/integration_tests.rs:13-25 | The test's three files suggest docs, style and test. No files suggest nothing. |
| Validation.KindCount | src/validation.rs:94-101 | The number of changes of one kind is at most the number of changes. |
| Validation.TypeCount | src/validation.rs:104-115 | The number of changes of one file type is at most the number of changes. |
| Validation.AnalyzeChanges | src/validation.rs:90-119 | The loop returns the specified analysis. Its total is the number of changes that are not copies. |
| Validation.FileTypeOf | src/validation.rs:104-115 | A path counts as Rust exactly when it ends in `.rs`. A doc file ends in `.md`. A test file contains `test` and is not Markdown, so Markdown wins. A path that counts as nothing does not contain `test`. |
| Validation.TotalFiles | src/validation.rs:151-153 | The total is zero exactly when all five kind counters are zero. `Validation.KindCounts` gives its value for a change set. |
| Validation.CountFileType | src/validation.rs:104-115 | Increments only the counter of the file type the lower-cased path selects, if it selects one. |
| Validation.CountKindStep | src/validation.rs:94-101 | One more change increments only the counter of its own kind. A copy increments none. |
| Validation.KindCounterIsCount | src/validation.rs:93-101 | Each kind counter equals the number of changes of that kind. |
| Validation.KindCountsCover | src/validation.rs:94-101 | The per-kind counts, copies included, add up to the number of changes. |
| Validation.KindCounts | src/validation.rs:90-153 | The five kind counters match the per-kind counts, and `total_files` is the number of changes minus the copies. |
| Validation.TypeCounts | src/validation.rs:103-115 | The five file-type counters match the per-type counts. |
| Validation.SuggestCommitType | src/validation.rs:137-149 | A type is suggested only when some change is counted. `test` is suggested exactly when the test-file counter is positive and equals the total, since that check comes first. The test-file counter also counts copies, while the total does not. `refactor` needs more deletions than additions. No suggestion means deletions do not outnumber additions. |
| Validation.CommitTypeOfChanges | src/validation.rs:137-149 | Each branch of `suggest_commit_type`, restated as a condition on how many changes have each kind and each file type. |
| Validation.AllOfKind | src/validation.rs:94-101 | When every change has one kind, that kind's count is the total and any other kind's count is zero. |
| Validation.AllOfType | src/validation.rs:104-115 | When every path has one file type, that type's count is the total. |
| Validation.NoneOfType | src/validation.rs:104-115 | When no path has a given file type, its count is zero. |
| Validation.NoCopies | src/validation.rs:94-101 | Without copies, the copy count is zero. |
| Validation.TestFilesSuggestTest | src/validation.rs:138-139 | A non-empty change set made only of test files, with no copies, suggests `test`. |
| Validation.DocFilesSuggestDocs | src/validation.rs:140-141 | A non-empty change set made only of Markdown files, with no copies, suggests `docs`. |
| Validation.AdditionsSuggestFeat | src/validation.rs:142-143 | Only additions, none of them a test or doc file, suggest `feat`. |
| Validation.DeletionsSuggestRefactor | src/validation.rs:144-145 | Only deletions, none of them a test or doc file, suggest `refactor`. |
| Validation.CopiesSuggestNothing | src/validation.rs:138-153 | When every change is a copy, the total is zero and no type is suggested. |
| Ui.FormatStringToTitle | src/ui/mod.rs:201-207 | Empty stays empty. Otherwise only the first character may change. It becomes the upper-case form of the original: the same character when lower-cased, and not a lower-case ASCII letter. |
| Ui.FormatIdempotent | src/ui/mod.rs:201-207 | Capitalising twice gives the same result as capitalising once. |
| Ui.FormatKeepsCapitalized | src/ui/mod.rs:201-207 | A title that does not start with a lower-case letter is returned unchanged. |
| Ui.FormatKeepsByteLength | src/ui/mod.rs:201-213 | ASCII capitalising never changes the UTF-8 length the title limit is measured in. |
| Ui.IsConventionalCommit | src/ui/mod.rs:263-285 | The loop answers true exactly when the title starts with one of the eleven types followed by `: ` or `(`. |
| Ui.TypesStartLower | src/ui/mod.rs:264-267 | Every conventional type starts with a lower-case ASCII letter. |
| Ui.CapitalNotConventional | src/ui/mod.rs:263-285 | A title whose first character is not a lower-case letter is never conventional. |
| Ui.ConventionalExtends | src/ui/mod.rs:277 | Anything appended to a conventional title leaves it conventional. |
| Ui.ColonWithoutSpaceRejected | src/ui/mod.rs:272-277 | `fix:x` is not conventional, because the colon must be followed by a space. |
| Ui.TypeColonSpaceAccepted | src/ui/mod.rs:272-277 | `fix: correct null check` is conventional. |
| Ui.TitleErrors | src/ui/mod.rs:210-231 | At most two errors, and none exactly when the title fits and, if enforced, is conventional. |
| Ui.ValidateTitle | src/ui/mod.rs:209-239 | Ok exactly when neither check fires. Otherwise the error carries the length message, the format help, or both joined by a blank line. |
| Ui.ValidateCommitTitle | src/ui/mod.rs:209-239 | The method returns the result specified by `ValidateTitle`. |
| Ui.LengthMessageReadsBack | src/ui/mod.rs:214-218 | The length message starts with `Title is ` followed by digits that read back as the title's byte length. |
| Ui.ValidateCommitBody | src/ui/mod.rs:241-261 | Ok exactly when every line fits the body limit. Otherwise the error is the body-too-long message (src/errors.rs:50). |
| Ui.SingleLineBody | src/ui/mod.rs:244-245 | A one-line body is valid exactly when its byte length is within the limit. |
| Ui.CommitMessage | src/ui/mod.rs:121-142 | A blank message gives no body. Otherwise the message, capitalised if configured, is returned when every line fits, and the body-too-long error otherwise. |
| Ui.TitleInputAsWritten | src/ui/mod.rs:99-110 | One round of title entry as written. The title is capitalised when configured and then validated. It is accepted exactly when that formatted title passes, and the accepted value is the formatted title. Otherwise the error is the validation error. |
| Ui.CapitalizedNeverAccepted | src/ui/mod.rs:99-106 | With auto-capitalise and the conventional check both on, every title is rejected. |
| Ui.DefaultRejectsConventionalTitle | src/ui/mod.rs:99-106 | `feat: add login` is conventional and within 50 bytes, yet it is rejected under the model's default record. That record has auto-capitalise on, and the conventional check on by the model's choice. |
| Ui.TitleInput | src/ui/mod.rs:99-110 | The corrected title entry, which does not capitalise when the conventional check is on. Otherwise it behaves as written: accepted exactly when the formatted title passes validation, with the formatted title as its value. |
| Ui.TitleInputAccepts | src/ui/mod.rs:99-110 | Within the length limit, a conventional title is accepted unchanged when the check is enforced and a non-conventional one is rejected. Without the check, every title within the limit is accepted, capitalised as configured. |
| Ui.CategoryOf | src/ui/mod.rs:303-313 | A path is documentation exactly when it ends in `.md` or `.rst` or contains `readme`. A dependency path contains `cargo.toml` or `package.json` but does not end in `.toml` or `.json`, so the manifests themselves never reach that branch. |
| Ui.MarkFlag | src/ui/mod.rs:303-313 | Classifying one path sets exactly the flag of its category and leaves the others as they were. |
| Ui.NewFileFlag | src/ui/mod.rs:299-301 | Setting the new-files flag leaves every category flag unchanged. |
| Ui.StepFlag | src/ui/mod.rs:296-314 | One change sets new-files when it is an addition, and sets the flag of its path's category. |
| Ui.Categories | src/ui/mod.rs:296-313 | The category of each changed path, in order. |
| Ui.ScanNewFiles | src/ui/mod.rs:289-314 | After the scan, new-files is set exactly when some change is an addition. |
| Ui.ScanCategory | src/ui/mod.rs:289-314 | After the scan, a category flag is set exactly when some changed path falls in that category. |
| Ui.Placeholder | src/ui/mod.rs:316-349 | The placeholder comes from the conventional list or the plain list, as configured. A dependency change always gives the dependency placeholder. |
| Ui.SmartPlaceholder | src/ui/mod.rs:287-350 | The suggestion is one of the seven texts of the configured mode. Under the conventional setting it passes the conventional check. |
| Ui.GenerateSmartPlaceholder | src/ui/mod.rs:287-350 | The loop and the decision return the specified placeholder for the changes and configuration. |
| Ui.MarkPath | src/ui/mod.rs:303-313 | Sets the flag of the category the lower-cased path selects, if any. |
| Ui.TypedTitleConforms | src/ui/mod.rs:263-285 | Any `type: description` built from a conventional type is conventional. |
| Ui.ConventionalPlaceholdersConform | src/ui/mod.rs:317-332 | Every placeholder offered under the conventional setting passes the conventional check. |
| Ui.DependenciesFirst | src/ui/mod.rs:317-335 | One dependency change anywhere decides the placeholder, whatever the other changes are. |
| Ui.ManifestIsConfiguration | src/ui/mod.rs:307-312 | `Cargo.toml` itself is classed as configuration, not dependencies, because the `.toml` test comes first. |
| Ui.Label | src/ui/mod.rs:30-32 | A menu label starts with the kind's colour escape and ends with the path followed by the reset escape. |
| Ui.Labels | src/ui/mod.rs:27-35 | One menu label per change, in order. |
| Ui.SelectEveryOption | src/ui/mod.rs:27-50 | Choosing every option the file picker offers stages every changed path, in order. |
| Ui.Paths | src/ui/mod.rs:41-49 | The path of each change, in order. |
| Ui.ColorShape | src/git/mod.rs:60-97 | Each colour code is seven characters long, and its sixth character is the kind's digit. |
| Ui.LabelInjective | src/ui/mod.rs:27-35 | Two changes with the same label are the same change, so matching a label picks out one change. |
| Ui.Chosen | src/ui/mod.rs:43-48 | A change is kept exactly when its label is among the selected options. |
| Ui.SelectedFiles | src/ui/mod.rs:41-50 | The selected paths are never more than the changes. |
| Ui.SelectedSubsequence | src/ui/mod.rs:41-50 | The selected paths are the paths at an increasing list of positions. A position is in that list exactly when the label of its change was selected. |
| Ui.SelectAll | src/ui/mod.rs:41-50 | When every label is selected, the result is every path in order. |
| Ui.FindEmoji | src/ui/mod.rs:67-71 | InvalidEmoji exactly when no emoji is a prefix of the selection. Otherwise the result is the first emoji whose glyph is a prefix. |
| Ui.ChosenOptionResolves | src/ui/mod.rs:57-71 | Picking any option always resolves to an emoji. It resolves to the option's own emoji when no earlier glyph is a prefix of it. |
| Text.Utf8Len | src/ui/mod.rs:213 | The UTF-8 length, which `len()` measures, is at least the character count, at most four times it, and zero only for the empty string. |
| Text.Lines | src/git/mod.rs:47 | `lines()` gives no more lines than characters, and no line contains a line feed. |
| Text.LinesOfTerminated | src/git/mod.rs:47 | Lines each followed by a line feed are read back as the same lines. |
| Text.DecimalRoundTrip | src/ui/mod.rs:214-218 | The decimal rendering of a number reads back as that number. |

## Left out

- Running `git` is not modelled. That covers process spawning, the reader
  threads, output streaming, exit statuses and their error messages. The
  model keeps the argv and the status text `git` would print.
- The remaining `git` wrappers are not modelled: `verify_git_initialized`,
  `get_current_branch`, `fetch_origin`, `has_remote_changes`, `push`,
  `stash`, `stash_pop` and `get_recent_commits`. They build fixed argv and
  otherwise only do I/O.
- Terminal prompts are not modelled: `MultiSelect`, `Select`, `Text` and
  the confirms. The model takes the user's answer as a parameter.
  `confirm_add_all_files`, `confirm_push` and the `show_*` printers are
  therefore left out.
- The retry loop of `get_commit_title` is not modelled, since each round
  waits on a prompt. `Ui.TitleInputAsWritten` models one round.
- Loading and saving the configuration file is not modelled.
  `src/emojis.rs`, `src/main.rs`, `src/utils.rs` and `src/lib.rs` are not
  part of this model.
- `get_commit_templates` is not modelled; it is a constant table that the
  core does not use.
- The `Display` text of the errors is not modelled, except the
  body-too-long message. That message states 72 whatever limit is
  configured, as the source does.
- Git.GetStatus: the source tests `line.len() < 3` in bytes, indexes the
  status columns by character and takes the path from byte offset 3. The
  model counts characters for all three. The two agree because `git`
  prints ASCII status columns and separator. On other text the source
  can panic, for example on a line made of one three-byte character, and
  the model does not capture that.
- Git.GetStatus: the UTF-8 decoding of `git`'s output, with replacement of
  invalid bytes, is not modelled. The model starts from the decoded text.
- Text.ToLower and Ui.FormatStringToTitle map ASCII letters only. The
  source's Unicode `to_lowercase` and `to_uppercase` also map other
  letters, some of them to several characters.
- Validation.Literal: the glyph literals are kept exactly as the source
  spells them, including their mis-decoded form. The source's
  integration test compares them with the emoji themselves. For the docs
  glyph that comparison fails (Validation.DocsLiteralIsNotMemo). The model
  has no corrected set of literals: the real emoji would sort in another
  order, and the suggestion order would have to be proved again.
- Config.DefaultConfig: the source has no `enforce_conventional` field
  and so no default for it. The model chooses true. Only
  Ui.DefaultRejectsConventionalTitle depends on that choice. The
  finding below holds whenever both flags are on.
- Ui.Placeholder: the model states which list the text comes from, but
  not a bound on its length.
- Validation.CountFileType and Ui.MarkPath are the loop bodies of
  `analyze_changes` and `generate_smart_placeholder`, split out as
  helpers. They are not separate operations of the source.

## Findings

| source | as written | input that shows it | evidently intended | confidence | as-written member | corrected member |
|---|---|---|---|---|---|---|
| src/ui/mod.rs:99-106 | With `auto_capitalize_title` on, the title is capitalised before `validate_commit_title` checks for a lower-case conventional type prefix, so with `enforce_conventional` also on no title is ever accepted and the prompt repeats forever | `feat: add login` with `auto_capitalize_title` and `enforce_conventional` both on becomes `Feat: add login` and is rejected | Skip capitalising a title that must start with a lower-case type, so a conventional title is accepted unchanged | not executed | Ui.CapitalizedNeverAccepted | Ui.TitleInputAccepts |

In the placeholder, the dependency branch (src/ui/mod.rs:311-312) is
reachable only by names such as `cargo.toml.bak`. `Cargo.toml` and
`package.json` themselves are classed as configuration first
(`Ui.ManifestIsConfiguration`). The source's intent there is unclear, so
the model keeps the branch order as written.
