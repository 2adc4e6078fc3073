/** The change-set reader and the argument vectors of the version-control
    commands. Running the `git` executable is not modelled: the text it
    prints is a parameter, and the commands are modelled as the argument
    lists they are given. */
module Git {
  import opened Errors
  import opened Text

  datatype ChangeKind = Untracked | Added | Modified | Deleted | Renamed | Copied

  /** One path of the working tree with its kind. `path` is the status
      line from its fourth character on. The colour the source stores beside
      the kind is a function of the kind (`Color`). */
  datatype Change = Change(kind: ChangeKind, path: string)

  /** The `change_type` text the source stores for a kind. */
  function KindName(k: ChangeKind): string {
    match k
    case Untracked => "Untracked"
    case Added => "Added"
    case Modified => "Modified"
    case Deleted => "Deleted"
    case Renamed => "Renamed"
    case Copied => "Copied"
  }

  /** The ANSI colour escape the source stores for a kind. */
  function Color(k: ChangeKind): string {
    "\U{1b}[0;3" + [ColorDigit(k)] + "m"
  }

  function ColorDigit(k: ChangeKind): char {
    match k
    case Untracked => '5'
    case Added => '2'
    case Modified => '3'
    case Deleted => '1'
    case Renamed => '4'
    case Copied => '6'
  }

  /** The status letter that names a kind in porcelain output. */
  function Letter(k: ChangeKind): char {
    match k
    case Untracked => '?'
    case Added => 'A'
    case Modified => 'M'
    case Deleted => 'D'
    case Renamed => 'R'
    case Copied => 'C'
  }

  /** The kinds in the order in which their letters are tested. */
  const Precedence: seq<ChangeKind> := [Added, Modified, Deleted, Renamed, Copied]

  /** The letter `c` stands in the index column `x` or the working-tree column `y`. */
  predicate Has(x: char, y: char, c: char) {
    x == c || y == c
  }

  /** Kind of a status line from its two status columns: two question
      marks make an untracked path and nothing else does, and any other
      kind but the fallback Modified is named by a letter in one of the
      columns. */
  function KindOf(x: char, y: char): (k: ChangeKind)
    ensures k == Untracked <==> x == '?' && y == '?'
    ensures k != Untracked && k != Modified ==> Has(x, y, Letter(k))
  {
    if x == '?' && y == '?' then Untracked
    else if Has(x, y, 'A') then Added
    else if Has(x, y, 'M') then Modified
    else if Has(x, y, 'D') then Deleted
    else if Has(x, y, 'R') then Renamed
    else if Has(x, y, 'C') then Copied
    else Modified
  }

  /** Outside the untracked case, the first kind of `Precedence` whose
      letter stands in either column decides. */
  lemma KindByPrecedence(x: char, y: char, i: nat)
    requires !(x == '?' && y == '?')
    requires i < |Precedence| && Has(x, y, Letter(Precedence[i]))
    requires forall j :: 0 <= j < i ==> !Has(x, y, Letter(Precedence[j]))
    ensures KindOf(x, y) == Precedence[i]
  {
    if i > 0 { assert !Has(x, y, Letter(Precedence[0])); }
    if i > 1 { assert !Has(x, y, Letter(Precedence[1])); }
    if i > 2 { assert !Has(x, y, Letter(Precedence[2])); }
    if i > 3 { assert !Has(x, y, Letter(Precedence[3])); }
  }

  /** Without any of the letters A, M, D, R, C (for example `UU`) the kind
      defaults to Modified. */
  lemma KindDefault(x: char, y: char)
    requires !(x == '?' && y == '?')
    requires forall j :: 0 <= j < |Precedence| ==> !Has(x, y, Letter(Precedence[j]))
    ensures KindOf(x, y) == Modified
  {
    assert !Has(x, y, Letter(Precedence[0]));
    assert !Has(x, y, Letter(Precedence[1]));
    assert !Has(x, y, Letter(Precedence[2]));
    assert !Has(x, y, Letter(Precedence[3]));
    assert !Has(x, y, Letter(Precedence[4]));
  }

  /** One status line: lines shorter than three characters are skipped. */
  function ParseLine(line: string): (r: Option<Change>)
    ensures r.None? <==> |line| < 3
    ensures r.Some? ==> r.value.path == line[3..] && r.value.kind == KindOf(line[0], line[1])
  {
    if |line| < 3 then None
    else Some(Change(KindOf(line[0], line[1]), line[3..]))
  }

  /** The changes of a list of status lines, one per kept line, in order. */
  function ParseStatusLines(lines: seq<string>): (r: seq<Change>)
    ensures |r| <= |lines|
  {
    if lines == [] then []
    else
      var rest := ParseStatusLines(lines[..|lines| - 1]);
      match ParseLine(lines[|lines| - 1])
      case None => rest
      case Some(c) => rest + [c]
  }

  /** The lines of at least three characters, in order. */
  function KeptLines(lines: seq<string>): (r: seq<string>)
    ensures |r| <= |lines|
    ensures forall k :: 0 <= k < |r| ==> |r[k]| >= 3
  {
    if lines == [] then []
    else
      var rest := KeptLines(lines[..|lines| - 1]);
      if |lines[|lines| - 1]| < 3 then rest else rest + [lines[|lines| - 1]]
  }

  /** A line is kept exactly when it has at least three characters. */
  lemma {:induction false} KeptLinesMembers(lines: seq<string>)
    ensures forall l :: l in KeptLines(lines) <==> l in lines && |l| >= 3
  {
    if lines != [] {
      var init := lines[..|lines| - 1];
      KeptLinesMembers(init);
      assert lines == init + [lines[|lines| - 1]];
    }
  }

  /** Exactly one change per kept line, in input order: the `k`-th change
      has the kind of the `k`-th kept line's two columns and its text from
      the fourth character on. */
  lemma {:induction false} StatusLinesClassified(lines: seq<string>)
    ensures |ParseStatusLines(lines)| == |KeptLines(lines)|
    ensures forall k :: 0 <= k < |KeptLines(lines)| ==>
      var l := KeptLines(lines)[k];
      ParseStatusLines(lines)[k] == Change(KindOf(l[0], l[1]), l[3..])
  {
    if lines != [] {
      StatusLinesClassified(lines[..|lines| - 1]);
    }
  }

  /** The change set of `git status --porcelain` output: the loop of the
      source over the output's lines, pushing one change per kept line. */
  method GetStatus(output: string) returns (changes: seq<Change>)
    ensures changes == ParseStatusLines(Lines(output))
    ensures |changes| <= |Lines(output)|
  {
    var lines := Lines(output);
    changes := [];
    var i := 0;
    while i < |lines|
      invariant 0 <= i <= |lines|
      invariant changes == ParseStatusLines(lines[..i])
      invariant |changes| <= i
    {
      var line := lines[i];
      assert lines[..i + 1][..i] == lines[..i];
      if |line| >= 3 {
        var indexStatus := line[0];
        var workingTreeStatus := line[1];
        var filename := line[3..];
        var change := Change(KindOf(indexStatus, workingTreeStatus), filename);
        changes := changes + [change];
      }
      i := i + 1;
    }
    assert lines[..i] == lines;
  }

  /** The three-line example: kinds Modified, Untracked, Added and the
      paths after the status columns. */
  lemma StatusExample(lines: seq<string>)
    requires lines == ["M  src/a.rs", "?? b.txt", "A  c.rs"]
    ensures ParseStatusLines(lines) ==
      [Change(Modified, "src/a.rs"), Change(Untracked, "b.txt"), Change(Added, "c.rs")]
  {
    assert lines[..1][..0] == [];
    assert ParseLine(lines[0]) == Some(Change(Modified, "src/a.rs"));
    assert ParseStatusLines(lines[..1]) == [Change(Modified, "src/a.rs")];
    assert lines[..2][..1] == lines[..1];
    assert ParseLine(lines[1]) == Some(Change(Untracked, "b.txt"));
    assert ParseStatusLines(lines[..2]) == [Change(Modified, "src/a.rs"), Change(Untracked, "b.txt")];
    assert lines[..3][..2] == lines[..2] && lines[..3] == lines;
    assert ParseLine(lines[2]) == Some(Change(Added, "c.rs"));
  }

  /** Output printed as line-feed-terminated status lines yields exactly
      the changes of those lines, whatever their kinds. */
  lemma StatusOfPrintedLines(lines: seq<string>)
    requires forall k :: 0 <= k < |lines| ==> '\n' !in lines[k]
    requires forall k :: 0 <= k < |lines| ==> lines[k] == [] || lines[k][|lines[k]| - 1] != '\r'
    ensures ParseStatusLines(Lines(Terminated(lines))) == ParseStatusLines(lines)
  {
    LinesOfTerminated(lines);
  }

  // ----- argument vectors -----

  /** The `-m` values of an option list read pairwise. */
  function MessageValues(opts: seq<string>): seq<string>
    decreases |opts|
  {
    if |opts| < 2 then []
    else (if opts[0] == "-m" then [opts[1]] else []) + MessageValues(opts[2..])
  }

  /** Arguments of `git commit`: the title as the first message and the
      body, when there is one, as a second. */
  method CommitArgs(title: string, body: Option<string>) returns (args: seq<string>)
    ensures |args| == if body.Some? then 5 else 3
    ensures args[..3] == ["commit", "-m", title]
    ensures MessageValues(args[1..]) == [title] + (if body.Some? then [body.value] else [])
  {
    args := ["commit", "-m", title];
    if body.Some? {
      args := args + ["-m"];
      args := args + [body.value];
      assert args[1..][2..] == ["-m", body.value];
      assert args[1..][2..][2..] == [];
      assert MessageValues(args[1..][2..]) == [body.value];
    } else {
      assert args[1..][2..] == [];
    }
    assert args[1..][0] == "-m";
  }

  /** Arguments of `git pull`: `--rebase` only when asked for, and always
      the remote and the branch last. */
  method PullArgs(branch: string, useRebase: bool) returns (args: seq<string>)
    ensures |args| == if useRebase then 4 else 3
    ensures args[0] == "pull"
    ensures args[|args| - 2..] == ["origin", branch]
    ensures ("--rebase" in args[1..|args| - 2]) <==> useRebase
  {
    args := ["pull"];
    if useRebase {
      args := args + ["--rebase"];
    }
    args := args + ["origin", branch];
  }

  /** Arguments of `git add`: the given paths, or `.` for all when none are given. */
  method AddArgs(files: seq<string>) returns (args: seq<string>)
    ensures |args| == 1 + (if files == [] then 1 else |files|)
    ensures args[0] == "add"
    ensures files == [] ==> args[1] == "."
    ensures forall k :: 0 <= k < |files| ==> args[k + 1] == files[k]
  {
    args := ["add"];
    if files == [] {
      args := args + ["."];
    } else {
      args := args + files;
    }
  }

  /** The arguments a streamed command is started with: empty ones are dropped. */
  function SpawnedArgs(args: seq<string>): (r: seq<string>)
    ensures |r| <= |args|
    ensures forall k :: 0 <= k < |r| ==> r[k] != []
    ensures forall a :: a in r <==> a in args && a != []
  {
    if args == [] then []
    else
      assert args == [args[0]] + args[1..];
      (if args[0] == [] then [] else [args[0]]) + SpawnedArgs(args[1..])
  }

  /** Dropping empty arguments keeps the order of the others: filtering a
      concatenation is concatenating the filtered parts. */
  lemma {:induction false} SpawnedAppend(a: seq<string>, b: seq<string>)
    ensures SpawnedArgs(a + b) == SpawnedArgs(a) + SpawnedArgs(b)
  {
    if a != [] {
      SpawnedAppend(a[1..], b);
      assert (a + b)[0] == a[0] && (a + b)[1..] == a[1..] + b;
    } else {
      assert a + b == b;
    }
  }

  /** Dropping empty arguments changes nothing when there are none. */
  lemma {:induction false} SpawnedNonEmpty(args: seq<string>)
    requires forall k :: 0 <= k < |args| ==> args[k] != []
    ensures SpawnedArgs(args) == args
  {
    if args != [] {
      SpawnedNonEmpty(args[1..]);
    }
  }

  /** With a non-empty title and body the commit arguments reach `git`
      unchanged; an empty title leaves `-m` without its value. */
  lemma CommitArgsSpawned(title: string, body: Option<string>)
    ensures title != [] && (body.Some? ==> body.value != []) ==>
      SpawnedArgs(["commit", "-m", title] + (if body.Some? then ["-m", body.value] else [])) ==
      ["commit", "-m", title] + (if body.Some? then ["-m", body.value] else [])
    ensures SpawnedArgs(["commit", "-m", ""]) == ["commit", "-m"]
  {
    var args := ["commit", "-m", title] + (if body.Some? then ["-m", body.value] else []);
    if title != [] && (body.Some? ==> body.value != []) {
      SpawnedNonEmpty(args);
    }
    var empty := ["commit", "-m", ""];
    assert empty[1..][1..][1..] == [];
  }
}
