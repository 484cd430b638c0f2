/** The reader of NUL-terminated git status (Porcelain Format Version 2) and its printer. */
module GitStatus {
  import opened Collections
  import opened Text

  const NUL := '\0'
  const AGENTS := "AGENTS.md"
  const CHECK_WORKFLOW := ".github/workflows/workflow-contract.yml"
  const WORKFLOW_DIRECTORY := ".workflow/"
  const AGENT_DOCS := "docs/agents/"

  datatype Problem = MalformedOrdinary | MalformedRename | MalformedUnmerged | MalformedUntracked | UnsupportedEntry

  /** The first managed path, "" when there is none, or why the status is unreadable. */
  type Outcome = Result<string, Problem>

  // ----- Library calls ------------------------------------------------------------

  /** The position of `c`, or the length when it is absent. */
  function Until(s: string, c: char): (n: nat)
    ensures n <= |s| && c !in s[..n] && (n < |s| ==> s[n] == c)
  {
    if s == "" || s[0] == c then 0 else 1 + Until(s[1..], c)
  }

  /** bytes.Split(s, {0}) */
  function Split(s: string): (r: seq<string>)
    ensures r != []
    decreases |s|
  {
    var n := Until(s, NUL);
    if n == |s| then [s] else [s[..n]] + Split(s[n + 1..])
  }

  /** strings.SplitN(s, " ", n) for n > 0 */
  function SplitN(s: string, n: nat): (r: seq<string>)
    requires n > 0
    ensures 1 <= |r| <= n
  {
    var k := Until(s, ' ');
    if n == 1 || k == |s| then [s] else [s[..k]] + SplitN(s[k + 1..], n - 1)
  }

  /** strings.ReplaceAll(path, `\`, "/") */
  function Slashes(path: string): (r: string)
    ensures |r| == |path|
    ensures forall i :: 0 <= i < |r| ==> r[i] == if path[i] == '\\' then '/' else path[i]
  {
    seq(|path|, i requires 0 <= i < |path| => if path[i] == '\\' then '/' else path[i])
  }

  predicate IsManaged(path: string) {
    && path != AGENTS
    && (path == CHECK_WORKFLOW || WORKFLOW_DIRECTORY <= path || AGENT_DOCS <= path)
  }

  /** The first managed path of one record, with forward slashes; "" when there is none. */
  function FirstManaged(paths: seq<string>): string {
    if paths == [] then ""
    else if IsManaged(Slashes(paths[0])) then Slashes(paths[0])
    else FirstManaged(paths[1..])
  }

  // ----- The reader -----------------------------------------------------------------

  /** The paths one record stands for and how many records it takes up. */
  function ReadEntry(records: seq<string>): (r: Result<(seq<string>, nat), Problem>)
    requires records != []
    ensures r.Ok? ==> 1 <= r.value.1 <= |records|
  {
    var record := records[0];
    if record == "" then Ok(([], 1))
    else match record[0]
      case '1' =>
        var fields := SplitN(record, 9);
        if |fields| != 9 then Err(MalformedOrdinary) else Ok(([fields[8]], 1))
      case '2' =>
        var fields := SplitN(record, 10);
        if |fields| != 10 || |records| < 2 || records[1] == "" then Err(MalformedRename)
        else Ok(([fields[9], records[1]], 2))
      case 'u' =>
        var fields := SplitN(record, 11);
        if |fields| != 11 then Err(MalformedUnmerged) else Ok(([fields[10]], 1))
      case '?' =>
        if !("? " <= record) then Err(MalformedUntracked) else Ok(([record[2..]], 1))
      case '!' => Ok(([], 1))
      case '#' => Ok(([], 1))
      case _ => Err(UnsupportedEntry)
  }

  function Scan(records: seq<string>): Outcome
    decreases |records|
  {
    if records == [] then Ok("")
    else match ReadEntry(records)
      case Err(problem) => Err(problem)
      case Ok((paths, used)) =>
        var managed := FirstManaged(paths);
        if managed != "" then Ok(managed) else Scan(records[used..])
  }

  /** The index loop of the source; a rename moves the index inside the loop body. */
  method ManagedConflict(status: string) returns (r: Outcome)
    ensures r == Scan(Split(status))
  {
    var records := Split(status);
    var index := 0;
    while index < |records|
      invariant 0 <= index <= |records|
      invariant Scan(records) == Scan(records[index..])
    {
      var rest := records[index..];
      var record := records[index];
      ghost var start := index;
      if record == "" {
        index := index + 1;
        assert records[index..] == rest[1..];
        continue;
      }
      var paths: seq<string>;
      match record[0] {
        case '1' =>
          var fields := SplitN(record, 9);
          if |fields| != 9 { return Err(MalformedOrdinary); }
          paths := [fields[8]];
        case '2' =>
          var fields := SplitN(record, 10);
          if |fields| != 10 || index + 1 >= |records| || records[index + 1] == "" { return Err(MalformedRename); }
          index := index + 1;
          paths := [fields[9], records[index]];
        case 'u' =>
          var fields := SplitN(record, 11);
          if |fields| != 11 { return Err(MalformedUnmerged); }
          paths := [fields[10]];
        case '?' =>
          if !("? " <= record) { return Err(MalformedUntracked); }
          paths := [record[2..]];
        case '!' => paths := [];
        case '#' => paths := [];
        case _ => return Err(UnsupportedEntry);
      }
      assert ReadEntry(rest) == Ok((paths, index + 1 - start));
      var managed := FirstConflict(paths);
      if managed != "" {
        return Ok(managed);
      }
      index := index + 1;
      assert records[index..] == rest[index - start..];
    }
    return Ok("");
  }

  method FirstConflict(paths: seq<string>) returns (managed: string)
    ensures managed == FirstManaged(paths)
  {
    for i := 0 to |paths|
      invariant FirstManaged(paths) == FirstManaged(paths[i..])
    {
      var path := Slashes(paths[i]);
      assert paths[i..][1..] == paths[i + 1..];
      if path == AGENTS {
        continue;
      }
      if path == CHECK_WORKFLOW || WORKFLOW_DIRECTORY <= path || AGENT_DOCS <= path {
        return path;
      }
    }
    return "";
  }

  // ----- What is refused -------------------------------------------------------------

  function Blanks(s: string): nat {
    if s == "" then 0 else (if s[0] == ' ' then 1 else 0) + Blanks(s[1..])
  }

  lemma {:induction false} BlanksAfter(s: string, k: nat)
    requires k < |s| && s[k] == ' ' && ' ' !in s[..k]
    ensures Blanks(s) == 1 + Blanks(s[k + 1..])
  {
    if k > 0 {
      assert s[0] == s[..k][0];
      assert s[1..][..k - 1] == s[..k][1..] && s[1..][k..] == s[k + 1..];
      BlanksAfter(s[1..], k - 1);
    }
  }

  lemma {:induction false} NoBlanks(s: string)
    requires ' ' !in s
    ensures Blanks(s) == 0
  {
    if s != "" { NoBlanks(s[1..]); }
  }

  lemma {:induction false} SplitLength(s: string, n: nat)
    requires n > 0
    ensures |SplitN(s, n)| == Min(n, Blanks(s) + 1)
  {
    var k := Until(s, ' ');
    if k == |s| {
      assert s[..k] == s;
      NoBlanks(s);
    } else {
      BlanksAfter(s, k);
      if n > 1 { SplitLength(s[k + 1..], n - 1); }
    }
  }

  /** Which records are refused, and as what: told from the first character, the blanks and, for a rename, the next record. */
  lemma RefusedRecords(records: seq<string>)
    requires records != [] && records[0] != ""
    ensures var record, read := records[0], ReadEntry(records);
      match record[0]
      case '1' => if Blanks(record) >= 8 then read.Ok? else read == Err(MalformedOrdinary)
      case '2' =>
        if Blanks(record) >= 9 && |records| > 1 && records[1] != "" then read.Ok? else read == Err(MalformedRename)
      case 'u' => if Blanks(record) >= 10 then read.Ok? else read == Err(MalformedUnmerged)
      case '?' => if |record| > 1 && record[1] == ' ' then read.Ok? else read == Err(MalformedUntracked)
      case '!' => read.Ok?
      case '#' => read.Ok?
      case _ => read == Err(UnsupportedEntry)
  {
    SplitLength(records[0], 9);
    SplitLength(records[0], 10);
    SplitLength(records[0], 11);
  }

  // ----- The printer ------------------------------------------------------------------

  /** One entry; `header` holds the columns between the record type and the path. */
  datatype Entry =
    | Ordinary(header: seq<string>, path: string)
    | Renamed(header: seq<string>, path: string, origin: string)
    | Unmerged(header: seq<string>, path: string)
    | Untracked(path: string)
    | Ignored(path: string)
    | Comment(path: string)
  {
    predicate Printable() {
      && NUL !in path
      && (Ordinary? ==> |header| == 7 && Columns(header))
      && (Renamed? ==> |header| == 8 && Columns(header) && origin != "" && NUL !in origin)
      && (Unmerged? ==> |header| == 9 && Columns(header))
    }

    /** What the conflict check looks at: a rename source counts as much as its target. */
    function Paths(): seq<string> {
      match this
      case Ordinary(_, path) => [path]
      case Renamed(_, path, origin) => [path, origin]
      case Unmerged(_, path) => [path]
      case Untracked(path) => [path]
      case Ignored(_) => []
      case Comment(_) => []
    }

    function Record(): string {
      match this
      case Ordinary(header, path) => Line(["1"] + header, path)
      case Renamed(header, path, _) => Line(["2"] + header, path)
      case Unmerged(header, path) => Line(["u"] + header, path)
      case Untracked(path) => "? " + path
      case Ignored(path) => "! " + path
      case Comment(path) => "# " + path
    }

    function Printed(): string {
      Record() + [NUL] + if Renamed? then origin + [NUL] else ""
    }
  }

  predicate Columns(header: seq<string>) {
    forall h :: h in header ==> ' ' !in h && NUL !in h
  }

  function Line(columns: seq<string>, path: string): string {
    if columns == [] then path else columns[0] + " " + Line(columns[1..], path)
  }

  function PrintAll(entries: seq<Entry>): string {
    if entries == [] then "" else entries[0].Printed() + PrintAll(entries[1..])
  }

  /** Every path the check looks at, in order, rename sources included. */
  function AllPaths(entries: seq<Entry>): seq<string> {
    if entries == [] then [] else entries[0].Paths() + AllPaths(entries[1..])
  }

  // ----- Reading back what was printed ----------------------------------------------------

  lemma UntilAt(head: string, c: char, tail: string)
    requires c !in head
    ensures Until(head + [c] + tail, c) == |head|
  {
    var s := head + [c] + tail;
    var n := Until(s, c);
    assert s[|head|] == c && forall i :: 0 <= i < |head| ==> s[i] == head[i];
    forall i | 0 <= i < n ensures s[i] != c { assert s[..n][i] == s[i]; }
  }

  lemma SplitOne(head: string, tail: string)
    requires NUL !in head
    ensures Split(head + [NUL] + tail) == [head] + Split(tail)
  {
    UntilAt(head, NUL, tail);
    var s := head + [NUL] + tail;
    assert s[..|head|] == head && s[|head| + 1..] == tail;
  }

  lemma SplitColumn(head: string, rest: string, n: nat)
    requires ' ' !in head && n >= 2
    ensures SplitN(head + " " + rest, n) == [head] + SplitN(rest, n - 1)
  {
    var s := head + " " + rest;
    UntilAt(head, ' ', rest);
    assert s == head + [' '] + rest;
    assert s[..|head|] == head && s[|head| + 1..] == rest;
  }

  lemma {:induction false} SplitLine(columns: seq<string>, path: string)
    requires forall h :: h in columns ==> ' ' !in h
    ensures SplitN(Line(columns, path), |columns| + 1) == columns + [path]
  {
    if columns == [] {
      assert SplitN(path, 1) == [path];
    } else {
      var head, rest := columns[0], columns[1..];
      assert head in columns;
      SplitLine(rest, path);
      SplitColumn(head, Line(rest, path), |columns| + 1);
      assert columns + [path] == [head] + (rest + [path]);
    }
  }

  lemma {:induction false} LineHasNoNul(columns: seq<string>, path: string)
    requires NUL !in path && forall h :: h in columns ==> NUL !in h
    ensures NUL !in Line(columns, path)
  {
    if columns != [] {
      assert columns[0] in columns;
      LineHasNoNul(columns[1..], path);
    }
  }

  lemma LineStarts(kind: string, header: seq<string>, path: string)
    requires |kind| == 1
    ensures Line([kind] + header, path) != "" && Line([kind] + header, path)[0] == kind[0]
  {
    assert ([kind] + header)[0] == kind;
  }

  lemma TypedColumns(kind: string, header: seq<string>)
    requires Columns(header) && ' ' !in kind && NUL !in kind
    ensures Columns([kind] + header)
  {}

  lemma RecordHasNoNul(e: Entry)
    requires e.Printable()
    ensures NUL !in e.Record()
  {
    match e
    case Ordinary(header, path) => TypedColumns("1", header); LineHasNoNul(["1"] + header, path);
    case Renamed(header, path, _) => TypedColumns("2", header); LineHasNoNul(["2"] + header, path);
    case Unmerged(header, path) => TypedColumns("u", header); LineHasNoNul(["u"] + header, path);
    case Untracked(path) =>
    case Ignored(path) =>
    case Comment(path) =>
  }

  lemma SplitTwo(first: string, second: string, tail: string)
    requires NUL !in first && NUL !in second
    ensures Split(first + [NUL] + (second + [NUL]) + tail) == [first, second] + Split(tail)
  {
    var rest := second + [NUL] + tail;
    Regroup(first + [NUL], second + [NUL], tail);
    SplitOne(first, rest);
    SplitOne(second, tail);
    Regroup([first], [second], Split(tail));
  }

  lemma Regroup<T>(a: seq<T>, b: seq<T>, c: seq<T>)
    ensures a + b + c == a + (b + c)
  {}

  function Records(e: Entry): seq<string> {
    if e.Renamed? then [e.Record(), e.origin] else [e.Record()]
  }

  lemma PrintedSplits(e: Entry, tail: string)
    requires e.Printable()
    ensures Split(e.Printed() + tail) == Records(e) + Split(tail)
  {
    RecordHasNoNul(e);
    var record := e.Record();
    if e.Renamed? {
      SplitTwo(record, e.origin, tail);
    } else {
      assert record + [NUL] + "" + tail == record + [NUL] + tail;
      SplitOne(record, tail);
    }
  }

  lemma ReadPrinted(e: Entry, tail: seq<string>)
    requires e.Printable()
    ensures ReadEntry(Records(e) + tail) == Ok((e.Paths(), |Records(e)|))
  {
    match e
    case Ordinary(header, path) =>
      TypedColumns("1", header); SplitLine(["1"] + header, path); LineStarts("1", header, path);
    case Renamed(header, path, origin) =>
      TypedColumns("2", header); SplitLine(["2"] + header, path); LineStarts("2", header, path);
    case Unmerged(header, path) =>
      TypedColumns("u", header); SplitLine(["u"] + header, path); LineStarts("u", header, path);
    case Untracked(path) =>
      assert ("? " + path)[2..] == path;
    case Ignored(path) =>
    case Comment(path) =>
  }

  lemma {:induction false} FirstOfBoth(a: seq<string>, b: seq<string>)
    ensures FirstManaged(a + b) == if FirstManaged(a) != "" then FirstManaged(a) else FirstManaged(b)
  {
    if a == [] {
      assert a + b == b;
    } else {
      assert (a + b)[1..] == a[1..] + b;
      FirstOfBoth(a[1..], b);
    }
  }

  /** For every printable status the reader answers with its first managed path. */
  lemma {:induction false} ParserInvertsPrinter(entries: seq<Entry>)
    requires forall e :: e in entries ==> e.Printable()
    ensures Scan(Split(PrintAll(entries))) == Ok(FirstManaged(AllPaths(entries)))
  {
    if entries == [] {
      assert Split("") == [""];
      assert [""][1..] == [];
    } else {
      var e, tail := entries[0], PrintAll(entries[1..]);
      assert e in entries;
      PrintedSplits(e, tail);
      ReadPrinted(e, Split(tail));
      ParserInvertsPrinter(entries[1..]);
      FirstOfBoth(e.Paths(), AllPaths(entries[1..]));
      var records := Split(PrintAll(entries));
      assert records[|Records(e)|..] == Split(tail);
    }
  }

  /** The contract's check, whatever the launcher keeps for itself, and the agents' documents; never AGENTS.md. */
  predicate Covered(path: string) {
    || path == ".github/workflows/workflow-contract.yml"
    || (|path| >= 10 && path[..10] == ".workflow/")
    || (|path| >= 12 && path[..12] == "docs/agents/")
  }

  lemma CoveredMeans(path: string)
    ensures IsManaged(path) <==> Covered(path)
    ensures !Covered("AGENTS.md")
  {}

  /** The answer is the path at `k`, and nothing before it is managed. */
  ghost predicate FirstManagedAt(paths: seq<string>, k: int) {
    && 0 <= k < |paths|
    && FirstManaged(paths) == Slashes(paths[k]) && Covered(Slashes(paths[k]))
    && forall j :: 0 <= j < k ==> !Covered(Slashes(paths[j]))
  }

  /** What that answer means: the first managed one, and none exactly when none is managed. */
  lemma {:induction false} FirstManagedMeans(paths: seq<string>)
    ensures FirstManaged(paths) == "" <==> forall k :: 0 <= k < |paths| ==> !Covered(Slashes(paths[k]))
    ensures FirstManaged(paths) != "" ==> exists k :: FirstManagedAt(paths, k)
  {
    if paths != [] {
      var rest := paths[1..];
      FirstManagedMeans(rest);
      CoveredMeans(Slashes(paths[0]));
      if IsManaged(Slashes(paths[0])) {
        assert FirstManagedAt(paths, 0);
      } else if FirstManaged(rest) != "" {
        var k :| FirstManagedAt(rest, k);
        assert forall j :: 0 < j <= k + 1 ==> paths[j] == rest[j - 1];
        assert FirstManagedAt(paths, k + 1);
      } else {
        assert forall j :: 0 < j < |paths| ==> paths[j] == rest[j - 1];
      }
    }
  }
}
