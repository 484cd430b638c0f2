/** Staging a generation from the bundle, verifying it, and cleaning up after a fresh failure. */
module LauncherStaging {
  import opened Collections
  import opened LauncherHome

  const MANIFEST := "platform-release.json"
  const DATABASE := "workflow.db"

  /** What the bundle holds, in the order in which it is copied, by its name in the generation. */
  datatype File = File(name: string, content: Content)

  // ----- Staging ------------------------------------------------------------------------

  /** The first `n` copies; they stop at the first failure. */
  function CopiedFiles(h: Home, g: string, bundle: seq<File>, fates: nat -> CopyFate, n: nat): (Home, bool)
    requires n <= |bundle|
  {
    if n == 0 then (h, true)
    else
      var (before, ok) := CopiedFiles(h, g, bundle, fates, n - 1);
      if !ok then (before, false)
      else (CopiedTo(before, GenerationFile(g, bundle[n - 1].name), bundle[n - 1].content, fates(n - 1)), fates(n - 1).Copied?)
  }

  /** stageGeneration: an existing directory is taken as staged. */
  function Stage(h: Home, g: string, bundle: seq<File>, fates: nat -> CopyFate): (Home, bool) {
    if Generation(g) in h then (h, true) else CopiedFiles(h, g, bundle, fates, |bundle|)
  }

  /** The loop ends where the copies stopped. */
  lemma {:induction false} StopsForGood(h: Home, g: string, bundle: seq<File>, fates: nat -> CopyFate, n: nat)
    requires n <= |bundle| && !CopiedFiles(h, g, bundle, fates, n).1
    ensures CopiedFiles(h, g, bundle, fates, |bundle|) == CopiedFiles(h, g, bundle, fates, n)
    decreases |bundle| - n
  {
    if n < |bundle| {
      StopsForGood(h, g, bundle, fates, n + 1);
    }
  }

  lemma {:induction false} CopiesSucceed(h: Home, g: string, bundle: seq<File>, fates: nat -> CopyFate, n: nat)
    requires n <= |bundle| && forall i :: fates(i).Copied?
    ensures CopiedFiles(h, g, bundle, fates, n).1
  {
    if n > 0 { CopiesSucceed(h, g, bundle, fates, n - 1); }
  }

  ghost predicate StagedInFull(h: Home, g: string, bundle: seq<File>) {
    forall i :: 0 <= i < |bundle| ==> GenerationFile(g, bundle[i].name) in h && h[GenerationFile(g, bundle[i].name)] == Regular(bundle[i].content)
  }

  ghost predicate DistinctNames(bundle: seq<File>) {
    forall i, j :: 0 <= i < j < |bundle| ==> bundle[i].name != bundle[j].name
  }

  lemma {:induction false} CopiesAll(h: Home, g: string, bundle: seq<File>, fates: nat -> CopyFate, n: nat)
    requires n <= |bundle| && DistinctNames(bundle) && CopiedFiles(h, g, bundle, fates, n).1
    ensures StagedInFull(CopiedFiles(h, g, bundle, fates, n).0, g, bundle[..n])
  {
    if n > 0 {
      CopiesAll(h, g, bundle, fates, n - 1);
      CopiesNext(CopiedFiles(h, g, bundle, fates, n - 1).0, g, bundle, n - 1);
    }
  }

  lemma CopiesNext(h: Home, g: string, bundle: seq<File>, n: nat)
    requires n < |bundle| && DistinctNames(bundle) && StagedInFull(h, g, bundle[..n])
    ensures StagedInFull(CopiedTo(h, GenerationFile(g, bundle[n].name), bundle[n].content, Copied), g, bundle[..n + 1])
  {
    var k := CopiedTo(h, GenerationFile(g, bundle[n].name), bundle[n].content, Copied);
    forall i | 0 <= i <= n
      ensures GenerationFile(g, bundle[i].name) in k && k[GenerationFile(g, bundle[i].name)] == Regular(bundle[i].content)
    {
      if i < n { assert bundle[..n][i] == bundle[i]; }
    }
  }

  /**
   * Staging that reports success staged the whole bundle exactly when the directory was not
   * there before, or was complete already: what a failed attempt left behind is not repaired.
   */
  lemma StagingIsComplete(h: Home, g: string, bundle: seq<File>, fates: nat -> CopyFate)
    requires DistinctNames(bundle) && Stage(h, g, bundle, fates).1
    ensures StagedInFull(Stage(h, g, bundle, fates).0, g, bundle) <==> Generation(g) !in h || StagedInFull(h, g, bundle)
  {
    if Generation(g) !in h {
      CopiesAll(h, g, bundle, fates, |bundle|);
      assert bundle[..|bundle|] == bundle;
    }
  }

  /** No file of the generation exists yet, and a truncated copy differs from the whole. */
  ghost predicate CleanStart(h: Home, g: string, bundle: seq<File>, fates: nat -> CopyFate) {
    && (forall p :: p in h && p.GenerationFile? ==> p.name != g)
    && forall i: nat :: i < |bundle| && fates(i).Truncated? ==> Bytes(fates(i).written) != bundle[i].content
  }

  lemma {:induction false} CopiesOnly(h: Home, g: string, bundle: seq<File>, fates: nat -> CopyFate, n: nat, name: string)
    requires n <= |bundle| && CleanStart(h, g, bundle, fates)
    requires GenerationFile(g, name) in CopiedFiles(h, g, bundle, fates, n).0
    ensures exists j :: 0 <= j < n && bundle[j].name == name
  {
    if n > 0 && GenerationFile(g, name) in CopiedFiles(h, g, bundle, fates, n - 1).0 {
      CopiesOnly(h, g, bundle, fates, n - 1, name);
    }
  }

  lemma {:induction false} FailedCopiesMiss(h: Home, g: string, bundle: seq<File>, fates: nat -> CopyFate, n: nat)
    requires n <= |bundle| && DistinctNames(bundle) && CleanStart(h, g, bundle, fates)
    requires !CopiedFiles(h, g, bundle, fates, n).1
    ensures !StagedInFull(CopiedFiles(h, g, bundle, fates, n).0, g, bundle)
  {
    var (before, ok) := CopiedFiles(h, g, bundle, fates, n - 1);
    if ok {
      var file := GenerationFile(g, bundle[n - 1].name);
      if file in before {
        CopiesOnly(h, g, bundle, fates, n - 1, bundle[n - 1].name);
      }
      assert file !in before;
      assert fates(n - 1).Truncated? ==> CopiedFiles(h, g, bundle, fates, n).0[file] == Regular(Bytes(fates(n - 1).written));
    } else {
      FailedCopiesMiss(h, g, bundle, fates, n - 1);
    }
  }

  /** A staging that failed after making the directory: the next attempt takes it for a generation. */
  lemma FailedStagingIsTrusted(h: Home, g: string, bundle: seq<File>, first: nat -> CopyFate, second: nat -> CopyFate)
    requires DistinctNames(bundle) && CleanStart(h, g, bundle, first) && Generation(g) !in h
    requires !Stage(h, g, bundle, first).1 && Generation(g) in Stage(h, g, bundle, first).0
    ensures var left := Stage(h, g, bundle, first).0;
      Stage(left, g, bundle, second) == (left, true) && !StagedInFull(left, g, bundle)
  {
    FailedCopiesMiss(h, g, bundle, first, |bundle|);
  }

  // ----- Verifying ------------------------------------------------------------------------

  /** Two bundle paths are stored under another name. */
  function Renamed(path: string): string {
    if path == "platform/workflow.exe" then "workflow.exe"
    else if path == "setup/workflow-setup.exe" then "workflow-setup.exe"
    else path
  }

  predicate IsFile(h: Home, p: Path) { p in h && h[p].Regular? }

  /** verifyGeneration but for its last line: digests are compared as the contents they stand for. */
  predicate PayloadVerifies(h: Home, g: string, version: string) {
    var manifest := GenerationFile(g, MANIFEST);
    && IsFile(h, manifest) && h[manifest].content.Manifest? && h[manifest].content.valid && h[manifest].content.version == version
    && (forall path :: path in h[manifest].content.files ==>
          IsFile(h, GenerationFile(g, Renamed(path)))
          && h[GenerationFile(g, Renamed(path))].content == Bytes(h[manifest].content.files[path]))
    && IsFile(h, GenerationFile(g, "workflow.exe")) && IsFile(h, GenerationFile(g, "workflow-setup.exe"))
  }

  /** verifyGeneration. */
  predicate GenerationVerifies(h: Home, g: string, version: string) {
    PayloadVerifies(h, g, version) && IsFile(h, GenerationFile(g, DATABASE))
  }

  /** The bundle brings no database, and what it brings is what its manifest lists. */
  ghost predicate GoodBundle(bundle: seq<File>, version: string) {
    && DistinctNames(bundle) && (forall i :: 0 <= i < |bundle| ==> bundle[i].name != DATABASE)
    && (exists m :: HoldsManifest(bundle, version, m))
    && (exists c :: Brings(bundle, "workflow.exe", c)) && (exists c :: Brings(bundle, "workflow-setup.exe", c))
  }

  ghost predicate HoldsManifest(bundle: seq<File>, version: string, m: int) {
    && 0 <= m < |bundle| && bundle[m].name == MANIFEST && bundle[m].content.Manifest? && bundle[m].content.valid && bundle[m].content.version == version
    && forall path :: path in bundle[m].content.files ==> Brings(bundle, Renamed(path), Bytes(bundle[m].content.files[path]))
  }

  ghost predicate Brings(bundle: seq<File>, name: string, content: Content) { File(name, content) in bundle }

  lemma StagedBrings(h: Home, g: string, bundle: seq<File>, name: string, content: Content)
    requires StagedInFull(h, g, bundle) && Brings(bundle, name, content)
    ensures GenerationFile(g, name) in h && h[GenerationFile(g, name)] == Regular(content)
  {
    var i :| 0 <= i < |bundle| && bundle[i] == File(name, content);
    assert bundle[i].name == name;
  }

  /** A bundle that was staged whole verifies as soon as there is a database. */
  lemma GoodBundleVerifies(h: Home, g: string, bundle: seq<File>, version: string)
    requires GoodBundle(bundle, version) && StagedInFull(h, g, bundle)
    ensures PayloadVerifies(h, g, version)
    ensures GenerationVerifies(h, g, version) <==> IsFile(h, GenerationFile(g, DATABASE))
  {
    var m :| HoldsManifest(bundle, version, m);
    assert File(bundle[m].name, bundle[m].content) == bundle[m];
    StagedBrings(h, g, bundle, MANIFEST, bundle[m].content);
    forall path | path in bundle[m].content.files
      ensures IsFile(h, GenerationFile(g, Renamed(path)))
              && h[GenerationFile(g, Renamed(path))].content == Bytes(bundle[m].content.files[path])
    {
      StagedBrings(h, g, bundle, Renamed(path), Bytes(bundle[m].content.files[path]));
    }
    var c :| Brings(bundle, "workflow.exe", c);
    StagedBrings(h, g, bundle, "workflow.exe", c);
    var d :| Brings(bundle, "workflow-setup.exe", d);
    StagedBrings(h, g, bundle, "workflow-setup.exe", d);
  }

  // ----- The files of a generation from staging to the end -----------------------------------

  /** Nothing under the generations changed. */
  ghost predicate PayloadKept(h: Home, k: Home) {
    forall p: Path :: p.Generation? || p.GenerationFile? ==> Same(h, k, p)
  }

  /** Nothing changed under other generations than this one. */
  ghost predicate PayloadKeptBut(h: Home, k: Home, g: string) {
    forall p: Path :: (p.Generation? || p.GenerationFile?) && p.name != g ==> Same(h, k, p)
  }

  lemma PayloadThen(h: Home, k: Home, l: Home)
    requires PayloadKept(h, k) && PayloadKept(k, l)
    ensures PayloadKept(h, l)
  {
    forall p: Path | p.Generation? || p.GenerationFile? ensures Same(h, l, p) { assert Same(h, k, p) && Same(k, l, p); }
  }

  lemma PayloadWritten(h: Home, p: Path, content: Content, fate: Fate)
    requires !p.Generation? && !p.GenerationFile?
    ensures PayloadKept(h, Written(h, p, content, fate))
  {
    forall q: Path | q.Generation? || q.GenerationFile? ensures q != p && q !in Above(p) {}
  }

  // ----- What a generation that is there keeps ------------------------------------------------

  /** Only the database may differ, and a database that was a file is one. */
  ghost predicate GenerationKept(h: Home, k: Home, g: string) {
    && OnlyDatabase(h, k, g) && (Generation(g) in h ==> Generation(g) in k)
    && (IsFile(h, GenerationFile(g, DATABASE)) ==> IsFile(k, GenerationFile(g, DATABASE)))
  }

  /** A generation whose directory is there is not staged again. */
  ghost predicate KeepsGeneration(h: Home, k: Home, g: string) { Generation(g) in h ==> GenerationKept(h, k, g) }

  lemma KeptThen(h: Home, k: Home, l: Home, g: string)
    requires GenerationKept(h, k, g) && GenerationKept(k, l, g)
    ensures GenerationKept(h, l, g)
  {
    forall file | file != DATABASE ensures Same(h, l, GenerationFile(g, file)) {
      assert Same(h, k, GenerationFile(g, file)) && Same(k, l, GenerationFile(g, file));
    }
  }

  lemma PayloadKeeps(h: Home, k: Home, g: string)
    requires PayloadKept(h, k)
    ensures GenerationKept(h, k, g) && (Generation(g) in h <==> Generation(g) in k)
  {
    assert Same(h, k, Generation(g)) && Same(h, k, GenerationFile(g, DATABASE));
    forall file ensures Same(h, k, GenerationFile(g, file)) {}
  }

  lemma KeptThenPayload(h: Home, k: Home, l: Home, g: string)
    requires GenerationKept(h, k, g) && PayloadKept(k, l)
    ensures GenerationKept(h, l, g)
  {
    PayloadKeeps(k, l, g);
    KeptThen(h, k, l, g);
  }

  lemma KeepsAround(h: Home, k: Home, l: Home, m: Home, g: string)
    requires PayloadKept(h, k) && KeepsGeneration(k, l, g) && PayloadKept(l, m)
    ensures KeepsGeneration(h, m, g)
  {
    PayloadKeeps(h, k, g);
    PayloadKeeps(l, m, g);
    if Generation(g) in h {
      KeptThen(h, k, l, g);
      KeptThen(h, l, m, g);
    }
  }

  /** But for the database a generation that is kept verifies as before, unless its manifest lists the database. */
  lemma KeptPayload(h: Home, k: Home, g: string, version: string)
    requires OnlyDatabase(h, k, g) && DatabaseUnlisted(h, g)
    ensures DatabaseUnlisted(k, g)
    ensures PayloadVerifies(k, g, version) <==> PayloadVerifies(h, g, version)
  {
    assert MANIFEST != DATABASE && "workflow.exe" != DATABASE && "workflow-setup.exe" != DATABASE;
    assert Same(h, k, GenerationFile(g, MANIFEST)) && Same(h, k, GenerationFile(g, "workflow.exe"))
        && Same(h, k, GenerationFile(g, "workflow-setup.exe"));
    forall file | file != DATABASE ensures Same(h, k, GenerationFile(g, file)) {}
  }

  lemma KeptVerifies(h: Home, k: Home, g: string, version: string)
    requires GenerationKept(h, k, g) && GenerationVerifies(h, g, version) && DatabaseUnlisted(h, g)
    ensures GenerationVerifies(k, g, version) && DatabaseUnlisted(k, g)
  {
    KeptPayload(h, k, g, version);
  }

  predicate DatabaseUnlisted(h: Home, g: string) {
    var manifest := GenerationFile(g, MANIFEST);
    IsFile(h, manifest) && h[manifest].content.Manifest? ==>
      forall path :: path in h[manifest].content.files ==> Renamed(path) != DATABASE
  }

  // ----- Where a staging stops ------------------------------------------------------------------

  /** The staging fails, or the copy of the old database that follows it. */
  predicate Stops(h: Home, g: string, bundle: seq<File>, fates: nat -> CopyFate, fate: CopyFate) {
    !Stage(h, g, bundle, fates).1 || !fate.Copied?
  }

  function StoppedAt(h: Home, g: string, bundle: seq<File>, fates: nat -> CopyFate, fate: CopyFate): Home {
    var (staged, ok) := Stage(h, g, bundle, fates);
    if ok then CopiedTo(staged, GenerationFile(g, DATABASE), Bytes(""), fate) else staged
  }

  lemma CopyAlike(h: Home, m: Home, g: string, file: string, content: Content, fate: CopyFate)
    requires PayloadKept(h, m)
    ensures PayloadKept(CopiedTo(h, GenerationFile(g, file), content, fate), CopiedTo(m, GenerationFile(g, file), content, fate))
  {
    var p := GenerationFile(g, file);
    WriteAlike(h, m, p, content, Done);
    WriteAlike(h, m, p, content, OnlyDirectories);
    if fate.Truncated? { WriteAlike(h, m, p, Bytes(fate.written), Done); }
  }

  lemma WriteAlike(h: Home, m: Home, p: Path, content: Content, fate: Fate)
    requires PayloadKept(h, m)
    ensures PayloadKept(Written(h, p, content, fate), Written(m, p, content, fate))
  {
    forall q: Path | q.Generation? || q.GenerationFile? ensures Same(Written(h, p, content, fate), Written(m, p, content, fate), q) {
      WrittenAt(h, p, content, fate, q);
      WrittenAt(m, p, content, fate, q);
      assert Same(h, m, q);
    }
  }

  /** What a write leaves at a path. */
  lemma WrittenAt(h: Home, p: Path, content: Content, fate: Fate, q: Path)
    ensures var k := Written(h, p, content, fate);
      if q == p && fate.Done? then q in k && k[q] == Regular(content)
      else if q in h || fate.Nothing? || q !in Above(p) then Same(h, k, q)
      else q in k && k[q] == Dir
  {}

  lemma {:induction false} CopiesAlike(h: Home, m: Home, g: string, bundle: seq<File>, fates: nat -> CopyFate, n: nat)
    requires n <= |bundle| && PayloadKept(h, m)
    ensures PayloadKept(CopiedFiles(h, g, bundle, fates, n).0, CopiedFiles(m, g, bundle, fates, n).0)
    ensures CopiedFiles(h, g, bundle, fates, n).1 == CopiedFiles(m, g, bundle, fates, n).1
  {
    if n > 0 {
      CopiesAlike(h, m, g, bundle, fates, n - 1);
      CopyAlike(CopiedFiles(h, g, bundle, fates, n - 1).0, CopiedFiles(m, g, bundle, fates, n - 1).0, g,
                bundle[n - 1].name, bundle[n - 1].content, fates(n - 1));
    }
  }

  /** Staging sees no more of a Home than its generations. */
  lemma StageAlike(h: Home, m: Home, g: string, bundle: seq<File>, fates: nat -> CopyFate)
    requires PayloadKept(h, m)
    ensures PayloadKept(Stage(h, g, bundle, fates).0, Stage(m, g, bundle, fates).0)
    ensures Stage(h, g, bundle, fates).1 == Stage(m, g, bundle, fates).1
  {
    assert Same(h, m, Generation(g));
    CopiesAlike(h, m, g, bundle, fates, |bundle|);
  }

  lemma StoppedAlike(h: Home, m: Home, g: string, bundle: seq<File>, fates: nat -> CopyFate, fate: CopyFate)
    requires PayloadKept(h, m)
    ensures PayloadKept(StoppedAt(h, g, bundle, fates, fate), StoppedAt(m, g, bundle, fates, fate))
    ensures Stops(h, g, bundle, fates, fate) == Stops(m, g, bundle, fates, fate)
  {
    StageAlike(h, m, g, bundle, fates);
    CopyAlike(Stage(h, g, bundle, fates).0, Stage(m, g, bundle, fates).0, g, DATABASE, Bytes(""), fate);
  }

  /** There is no generation yet to be mistaken for a staged one. */
  ghost predicate Unstaged(h: Home, g: string, bundle: seq<File>) {
    Generation(g) !in h && DistinctNames(bundle) && forall i :: 0 <= i < |bundle| ==> bundle[i].name != DATABASE
  }

  /** The database, if it is there, is a file. */
  predicate DatabaseFits(h: Home, g: string) {
    GenerationFile(g, DATABASE) in h ==> IsFile(h, GenerationFile(g, DATABASE))
  }

  ghost predicate Installed(h: Home, g: string, bundle: seq<File>) {
    StagedInFull(h, g, bundle) && IsFile(h, GenerationFile(g, DATABASE))
  }

  /** The whole bundle where this generation was not there, and a database in any case; `over` an installation by a copy. */
  ghost predicate InstallsWhole(h: Home, k: Home, g: string, bundle: seq<File>, over: bool) {
    && (Unstaged(h, g, bundle) ==> StagedInFull(k, g, bundle))
    && (over || DatabaseFits(h, g) ==> IsFile(k, GenerationFile(g, DATABASE)))
  }

  lemma InstallsAround(h: Home, k: Home, l: Home, m: Home, g: string, bundle: seq<File>, over: bool)
    requires PayloadKept(h, k) && InstallsWhole(k, l, g, bundle, over) && PayloadKept(l, m)
    ensures InstallsWhole(h, m, g, bundle, over)
  {
    assert Same(h, k, Generation(g)) && Same(h, k, GenerationFile(g, DATABASE)) && Same(l, m, GenerationFile(g, DATABASE));
    if Unstaged(h, g, bundle) {
      assert forall i :: 0 <= i < |bundle| ==> Same(l, m, GenerationFile(g, bundle[i].name));
    }
  }

  lemma {:induction false} CopiesFit(h: Home, g: string, bundle: seq<File>, fates: nat -> CopyFate, n: nat)
    requires n <= |bundle| && DatabaseFits(h, g)
    ensures DatabaseFits(CopiedFiles(h, g, bundle, fates, n).0, g)
  {
    if n > 0 { CopiesFit(h, g, bundle, fates, n - 1); }
  }

  /** Only the database of the generation may differ. */
  ghost predicate OnlyDatabase(h: Home, k: Home, g: string) {
    forall file :: file != DATABASE ==> Same(h, k, GenerationFile(g, file))
  }

  lemma DatabaseCopied(h: Home, g: string, content: Content)
    ensures OnlyDatabase(h, CopiedTo(h, GenerationFile(g, DATABASE), content, Copied), g)
    ensures IsFile(CopiedTo(h, GenerationFile(g, DATABASE), content, Copied), GenerationFile(g, DATABASE))
  {}

  lemma StagedAlike(h: Home, k: Home, g: string, bundle: seq<File>)
    requires OnlyDatabase(h, k, g) && StagedInFull(h, g, bundle)
    requires forall i :: 0 <= i < |bundle| ==> bundle[i].name != DATABASE
    ensures StagedInFull(k, g, bundle)
  {
    assert forall i :: 0 <= i < |bundle| ==> Same(h, k, GenerationFile(g, bundle[i].name));
  }

  /** What the bundle does not bring is left as it was. */
  lemma {:induction false} CopiesElsewhere(h: Home, g: string, bundle: seq<File>, fates: nat -> CopyFate, n: nat, name: string)
    requires n <= |bundle| && forall i :: 0 <= i < n ==> bundle[i].name != name
    ensures Same(h, CopiedFiles(h, g, bundle, fates, n).0, GenerationFile(g, name))
  {
    if n > 0 { CopiesElsewhere(h, g, bundle, fates, n - 1, name); }
  }

  /** Staging where nothing was staged brings the whole bundle; a database that was no directory is none afterwards. */
  lemma StagesWhole(h: Home, g: string, bundle: seq<File>, fates: nat -> CopyFate)
    ensures Unstaged(h, g, bundle) && Stage(h, g, bundle, fates).1 ==> StagedInFull(Stage(h, g, bundle, fates).0, g, bundle)
    ensures DatabaseFits(h, g) ==> DatabaseFits(Stage(h, g, bundle, fates).0, g)
  {
    if Unstaged(h, g, bundle) && Stage(h, g, bundle, fates).1 { StagingIsComplete(h, g, bundle, fates); }
    if DatabaseFits(h, g) { CopiesFit(h, g, bundle, fates, |bundle|); }
  }

  /** A generation that is there without its payload; its manifest does not list the database. */
  predicate Broken(h: Home, g: string, version: string) {
    Generation(g) in h && DatabaseUnlisted(h, g) && !PayloadVerifies(h, g, version)
  }

  /** The first copy that fails is that of the manifest, once the generation's directory is there. */
  ghost predicate LosesManifest(bundle: seq<File>, fates: nat -> CopyFate, m: nat) {
    && m < |bundle| && bundle[m].name == MANIFEST && !fates(m).Copied? && (m == 0 ==> !fates(m).NothingCopied?)
    && forall i: nat :: i < m ==> fates(i).Copied?
  }

  lemma {:induction false} CopiesBefore(h: Home, g: string, bundle: seq<File>, fates: nat -> CopyFate, n: nat)
    requires n <= |bundle| && forall i: nat :: i < n ==> fates(i).Copied?
    ensures CopiedFiles(h, g, bundle, fates, n).1
  {
    if n > 0 { CopiesBefore(h, g, bundle, fates, n - 1); }
  }

  /** Staging that stops in the manifest fails, and leaves a directory that is trusted and can never verify. */
  lemma StagingLosesManifest(h: Home, g: string, bundle: seq<File>, fates: nat -> CopyFate, m: nat, version: string)
    requires Rooted(h) && Generation(g) !in h && DistinctNames(bundle) && LosesManifest(bundle, fates, m)
    ensures !Stage(h, g, bundle, fates).1 && Broken(Stage(h, g, bundle, fates).0, g, version)
  {
    var manifest := GenerationFile(g, MANIFEST);
    CopiesBefore(h, g, bundle, fates, m);
    CopiesElsewhere(h, g, bundle, fates, m, MANIFEST);
    if m > 0 { CopiesMakeDirectory(h, g, bundle, fates, m); }
    StopsForGood(h, g, bundle, fates, m + 1);
    assert manifest in h ==> Generation(g) in Above(manifest);
    StoppedInManifest(CopiedFiles(h, g, bundle, fates, m).0, g, bundle[m].content, fates(m), version);
  }

  lemma StoppedInManifest(h: Home, g: string, content: Content, fate: CopyFate, version: string)
    requires GenerationFile(g, MANIFEST) !in h && !fate.Copied? && (Generation(g) in h || !fate.NothingCopied?)
    ensures Broken(CopiedTo(h, GenerationFile(g, MANIFEST), content, fate), g, version)
  {}

  lemma {:induction false} CopiesMakeDirectory(h: Home, g: string, bundle: seq<File>, fates: nat -> CopyFate, n: nat)
    requires 0 < n <= |bundle| && forall i: nat :: i < n ==> fates(i).Copied?
    ensures Generation(g) in CopiedFiles(h, g, bundle, fates, n).0
  {
    CopiesBefore(h, g, bundle, fates, n - 1);
  }

  /** Whatever a good bundle leaves of its manifest does not list the database. */
  lemma {:induction false} CopiedManifest(h: Home, g: string, bundle: seq<File>, fates: nat -> CopyFate, n: nat, version: string)
    requires n <= |bundle| && GoodBundle(bundle, version) && GenerationFile(g, MANIFEST) !in h
    ensures DatabaseUnlisted(CopiedFiles(h, g, bundle, fates, n).0, g)
  {
    if n > 0 {
      CopiedManifest(h, g, bundle, fates, n - 1, version);
      ManifestCopied(CopiedFiles(h, g, bundle, fates, n - 1).0, g, bundle, fates, n - 1, version);
    }
  }

  lemma ManifestCopied(h: Home, g: string, bundle: seq<File>, fates: nat -> CopyFate, i: nat, version: string)
    requires i < |bundle| && GoodBundle(bundle, version) && DatabaseUnlisted(h, g)
    ensures DatabaseUnlisted(CopiedTo(h, GenerationFile(g, bundle[i].name), bundle[i].content, fates(i)), g)
  {
    var k := CopiedTo(h, GenerationFile(g, bundle[i].name), bundle[i].content, fates(i));
    if bundle[i].name != MANIFEST {
      assert Same(h, k, GenerationFile(g, MANIFEST));
    } else {
      var m :| HoldsManifest(bundle, version, m);
      assert m == i;
      forall path | path in bundle[i].content.files ensures Renamed(path) != DATABASE {
        assert Brings(bundle, Renamed(path), Bytes(bundle[i].content.files[path]));
        var j :| 0 <= j < |bundle| && bundle[j] == File(Renamed(path), Bytes(bundle[i].content.files[path]));
        assert bundle[j].name != DATABASE;
      }
    }
  }

  /** Where a good bundle's staging or the copy of the old database after it stops. */
  lemma StoppedUnlisted(h: Home, g: string, bundle: seq<File>, fates: nat -> CopyFate, fate: CopyFate, version: string)
    requires Rooted(h) && Generation(g) !in h && GoodBundle(bundle, version)
    ensures DatabaseUnlisted(StoppedAt(h, g, bundle, fates, fate), g)
    ensures Stage(h, g, bundle, fates).1 ==> PayloadVerifies(StoppedAt(h, g, bundle, fates, fate), g, version)
  {
    assert GenerationFile(g, MANIFEST) in h ==> Generation(g) in Above(GenerationFile(g, MANIFEST));
    CopiedManifest(h, g, bundle, fates, |bundle|, version);
    var staged := Stage(h, g, bundle, fates).0;
    if Stage(h, g, bundle, fates).1 {
      StagesWhole(h, g, bundle, fates);
      GoodBundleVerifies(staged, g, bundle, version);
      DatabaseCopyKeeps(staged, g, Bytes(""), fate);
      KeptPayload(staged, StoppedAt(h, g, bundle, fates, fate), g, version);
    }
  }

  lemma DatabaseCopyKeeps(h: Home, g: string, content: Content, fate: CopyFate)
    ensures GenerationKept(h, CopiedTo(h, GenerationFile(g, DATABASE), content, fate), g)
    ensures fate.Copied? ==> IsFile(CopiedTo(h, GenerationFile(g, DATABASE), content, fate), GenerationFile(g, DATABASE))
  {
    DatabaseCopied(h, g, content);
    if fate.Truncated? { DatabaseCopied(h, g, Bytes(fate.written)); }
  }

  // ----- Frames ---------------------------------------------------------------------------

  /** What an attempt may write before it activates, the credential apart. */
  predicate Touchable(p: Path, consentID: string, attemptID: string, g: string) {
    || p.Platform? || p.Consents? || p.Attempts? || p.Generations? || p.Lock? || p.Bin? || p.Dispatcher?
    || p.State? || p.Credentials? || p.Backups? || p == ConsentFile(consentID) || p == AttemptFile(attemptID)
    || p == Backup(attemptID) || p == Generation(g) || (p.GenerationFile? && p.name == g)
  }

  ghost predicate Same(h: Home, k: Home, p: Path) { (p in h <==> p in k) && (p in h ==> h[p] == k[p]) }

  ghost predicate Frame(h: Home, k: Home, consentID: string, attemptID: string, g: string) {
    forall p :: !Touchable(p, consentID, attemptID, g) && !p.Pat? ==> Same(h, k, p)
  }

  ghost predicate FrameButActive(h: Home, k: Home, consentID: string, attemptID: string, g: string) {
    forall p :: !Touchable(p, consentID, attemptID, g) && !p.Pat? && !p.ActiveFile? ==> Same(h, k, p)
  }

  lemma FrameThenActive(h: Home, k: Home, l: Home, consentID: string, attemptID: string, g: string)
    requires Frame(h, k, consentID, attemptID, g) && FrameButActive(k, l, consentID, attemptID, g)
    ensures FrameButActive(h, l, consentID, attemptID, g)
  {
    forall p | !Touchable(p, consentID, attemptID, g) && !p.Pat? && !p.ActiveFile? ensures Same(h, l, p) {
      assert Same(h, k, p) && Same(k, l, p);
    }
  }

  // ----- A fresh installation under way -------------------------------------------------------

  predicate ForInstall(p: Path, g: string) {
    p.Generations? || p == Generation(g) || (p.GenerationFile? && p.name == g) || p.Bin? || p.Dispatcher?
  }

  ghost predicate FreshShape(h: Home, consentID: string, attemptID: string, g: string) {
    && (forall p :: p in h ==> Fits(h, p, consentID, attemptID) || ForInstall(p, g))
    && {Platform, Consents, Attempts, ConsentFile(consentID), AttemptFile(attemptID)} <= h.Keys
  }

  /** Consent and attempt agree with each other and with the target. */
  ghost predicate Authority(version: string, digest: string, consent: Consent, attempt: Attempt) {
    && consent.schema == PROTOCOL_VERSION && SafeConsentID(consent.id) && consent.version == version
    && consent.digest == digest
    && attempt.schema == PROTOCOL_VERSION && SafeAttemptID(attempt.id) && attempt.version == version
    && attempt.digest == digest && attempt.generation == GenerationName(digest) && attempt.consentID == consent.id
    && attempt.createdAt != 0 && !attempt.phase.ReadyPhase?
  }

  ghost predicate Fresh(h: Home, consent: Consent, attempt: Attempt) {
    && FreshShape(h, consent.id, attempt.id, attempt.generation)
    && ReadConsent(h, consent.id) == Some(consent)
  }

  /** The Home that a fresh failure leaves: the exact authority for a retry and nothing else. */
  ghost predicate LeftForRetry(h: Home, consent: Consent, attempt: Attempt) {
    && FreshRecoveryLayout(h, consent.id, attempt.id)
    && ReadConsent(h, consent.id) == Some(consent) && ReadAttempt(h, attempt.id) == Some(attempt)
  }

  /** Records, copies and the credential of the attempt itself keep the shape. */
  lemma FreshWritten(h: Home, consent: Consent, attempt: Attempt, p: Path, content: Content, fate: Fate)
    requires Fresh(h, consent, attempt)
    requires p == AttemptFile(attempt.id) || p.Pat? || p.Lock? || p.Dispatcher? || (p.GenerationFile? && p.name == attempt.generation)
    ensures Fresh(Written(h, p, content, fate), consent, attempt)
  {}

  lemma FreshCopied(h: Home, consent: Consent, attempt: Attempt, p: Path, content: Content, fate: CopyFate)
    requires Fresh(h, consent, attempt)
    requires p.Dispatcher? || (p.GenerationFile? && p.name == attempt.generation)
    ensures Fresh(CopiedTo(h, p, content, fate), consent, attempt)
  {
    FreshWritten(h, consent, attempt, p, content, Done);
    FreshWritten(h, consent, attempt, p, content, OnlyDirectories);
    if fate.Truncated? { FreshWritten(h, consent, attempt, p, Bytes(fate.written), Done); }
  }

  lemma FrameCopied(h: Home, p: Path, content: Content, fate: CopyFate, consentID: string, attemptID: string, g: string)
    requires Touchable(p, consentID, attemptID, g)
    ensures Frame(h, CopiedTo(h, p, content, fate), consentID, attemptID, g) && Same(h, CopiedTo(h, p, content, fate), Pat)
  {
    FrameWritten(h, p, content, Done, consentID, attemptID, g);
    FrameWritten(h, p, content, OnlyDirectories, consentID, attemptID, g);
    if fate.Truncated? { FrameWritten(h, p, Bytes(fate.written), Done, consentID, attemptID, g); }
  }

  lemma {:induction false} FreshStaged(h: Home, consent: Consent, attempt: Attempt, bundle: seq<File>, fates: nat -> CopyFate, n: nat)
    requires Fresh(h, consent, attempt) && n <= |bundle|
    ensures Fresh(CopiedFiles(h, attempt.generation, bundle, fates, n).0, consent, attempt)
  {
    if n > 0 {
      FreshStaged(h, consent, attempt, bundle, fates, n - 1);
      var before := CopiedFiles(h, attempt.generation, bundle, fates, n - 1).0;
      FreshCopied(before, consent, attempt, GenerationFile(attempt.generation, bundle[n - 1].name), bundle[n - 1].content, fates(n - 1));
    }
  }

  lemma {:induction false} FrameStaged(h: Home, bundle: seq<File>, fates: nat -> CopyFate, n: nat, consentID: string, attemptID: string, g: string)
    requires n <= |bundle|
    ensures Frame(h, CopiedFiles(h, g, bundle, fates, n).0, consentID, attemptID, g)
    ensures Same(h, CopiedFiles(h, g, bundle, fates, n).0, Pat) && Same(h, CopiedFiles(h, g, bundle, fates, n).0, ActiveFile)
  {
    if n > 0 {
      FrameStaged(h, bundle, fates, n - 1, consentID, attemptID, g);
      var before := CopiedFiles(h, g, bundle, fates, n - 1).0;
      FrameCopied(before, GenerationFile(g, bundle[n - 1].name), bundle[n - 1].content, fates(n - 1), consentID, attemptID, g);
      FrameThen(h, before, CopiedFiles(h, g, bundle, fates, n).0, consentID, attemptID, g);
    }
  }

  lemma FrameThen(h: Home, k: Home, l: Home, consentID: string, attemptID: string, g: string)
    requires Frame(h, k, consentID, attemptID, g) && Frame(k, l, consentID, attemptID, g)
    ensures Frame(h, l, consentID, attemptID, g)
  {
    forall p | !Touchable(p, consentID, attemptID, g) && !p.Pat? ensures Same(h, l, p) {
      assert Same(h, k, p) && Same(k, l, p);
    }
  }

  lemma FrameWritten(h: Home, p: Path, content: Content, fate: Fate, consentID: string, attemptID: string, g: string)
    requires Touchable(p, consentID, attemptID, g) || p.Pat?
    ensures Frame(h, Written(h, p, content, fate), consentID, attemptID, g)
  {
    AboveTouchable(p, consentID, attemptID, g);
    var k := Written(h, p, content, fate);
    forall q | !Touchable(q, consentID, attemptID, g) && !q.Pat? ensures Same(h, k, q) {
      assert q != p && q !in Above(p);
    }
  }

  lemma AboveTouchable(p: Path, consentID: string, attemptID: string, g: string)
    requires Touchable(p, consentID, attemptID, g) || p.Pat?
    ensures forall q :: q in Above(p) ==> Touchable(q, consentID, attemptID, g)
  {}

  function Cleaned(h: Home, g: string): Home {
    WithoutTree(h, Generation(g)) - {Generations, Dispatcher, Bin}
  }

  /** The Home after the first steps of cleaning up. */
  function CleanedTo(h: Home, g: string, step: nat): Home {
    if step == 0 then h
    else if step == 1 then WithoutTree(h, Generation(g))
    else if step == 2 then WithoutTree(h, Generation(g)) - {Generations}
    else if step == 3 then WithoutTree(h, Generation(g)) - {Generations} - {Dispatcher}
    else WithoutTree(h, Generation(g)) - {Generations} - {Dispatcher} - {Bin}
  }

  lemma CleaningInSteps(h: Home, g: string, step: nat)
    ensures OnlyInstall(h, CleanedTo(h, g, step), g)
    ensures CleanedTo(h, g, 4) == Cleaned(h, g)
    ensures CleanedTo(h, g, 3) == WithoutTree(h, Generation(g)) - {Generations, Dispatcher}
  {}

  lemma CleaningLeavesLayout(h: Home, consentID: string, attemptID: string, g: string)
    requires FreshShape(h, consentID, attemptID, g)
    ensures FreshRecoveryLayout(Cleaned(h, g), consentID, attemptID)
  {
    var k := Cleaned(h, g);
    forall p | p in k ensures Fits(k, p, consentID, attemptID) {
      assert Fits(h, p, consentID, attemptID) || ForInstall(p, g);
    }
  }

  /** Nothing else keeps the directories of a fresh Home from being removed. */
  lemma CleaningEmpties(h: Home, consentID: string, attemptID: string, g: string)
    requires FreshShape(h, consentID, attemptID, g)
    ensures IsEmpty(WithoutTree(h, Generation(g)), Generations)
    ensures IsEmpty(WithoutTree(h, Generation(g)) - {Generations, Dispatcher}, Bin)
  {
    var tree := WithoutTree(h, Generation(g));
    forall p | p in tree ensures Generations !in Above(p) { UnderGenerations(h, consentID, attemptID, g, p); }
    var bare := tree - {Generations, Dispatcher};
    forall p | p in bare ensures Bin !in Above(p) { UnderBin(p); }
  }

  lemma UnderGenerations(h: Home, consentID: string, attemptID: string, g: string, p: Path)
    requires FreshShape(h, consentID, attemptID, g) && p in h
    ensures Generations in Above(p) ==> p == Generation(g) || Generation(g) in Above(p)
  {
    assert Fits(h, p, consentID, attemptID) || ForInstall(p, g);
  }

  lemma UnderBin(p: Path)
    ensures Bin in Above(p) ==> p.Dispatcher?
  {}

  lemma FailedLeavesRetry(h: Home, consent: Consent, attempt: Attempt)
    requires Fresh(h, consent, attempt)
    ensures var failed := attempt.(phase := Failed);
      LeftForRetry(Written(Cleaned(h, attempt.generation), AttemptFile(attempt.id), AttemptRecord(failed), Done), consent, failed)
  {
    CleaningLeavesLayout(h, consent.id, attempt.id, attempt.generation);
    RecordKeepsLayout(Cleaned(h, attempt.generation), consent.id, attempt.(phase := Failed));
  }

  lemma RecordKeepsLayout(h: Home, consentID: string, attempt: Attempt)
    requires FreshRecoveryLayout(h, consentID, attempt.id)
    ensures var k := Written(h, AttemptFile(attempt.id), AttemptRecord(attempt), Done);
      FreshRecoveryLayout(k, consentID, attempt.id) && ReadConsent(k, consentID) == ReadConsent(h, consentID)
      && ReadAttempt(k, attempt.id) == Some(attempt)
  {
    var k := Written(h, AttemptFile(attempt.id), AttemptRecord(attempt), Done);
    assert Platform in h && Attempts in h;
    forall p | p in k ensures Fits(k, p, consentID, attempt.id) {
      assert p in h && Fits(h, p, consentID, attempt.id);
    }
  }

  ghost predicate OnlyInstall(h: Home, k: Home, g: string) { forall p :: !ForInstall(p, g) ==> Same(h, k, p) }

  lemma HalfRemoved(h: Home, g: string, gone: Path -> bool)
    ensures OnlyInstall(h, WithoutSome(h, Generation(g), gone), g)
  {}

  lemma FrameCleaned(h: Home, k: Home, consentID: string, attempt: Attempt, fate: Fate)
    requires OnlyInstall(h, k, attempt.generation)
    ensures Frame(h, k, consentID, attempt.id, attempt.generation) && Same(h, k, Pat) && Same(h, k, ActiveFile)
    ensures var l := Written(k, AttemptFile(attempt.id), AttemptRecord(attempt.(phase := Failed)), fate);
      Frame(h, l, consentID, attempt.id, attempt.generation) && Same(h, l, Pat) && Same(h, l, ActiveFile)
  {
    var failed := AttemptRecord(attempt.(phase := Failed));
    FrameWritten(k, AttemptFile(attempt.id), failed, fate, consentID, attempt.id, attempt.generation);
    FrameThen(h, k, Written(k, AttemptFile(attempt.id), failed, fate), consentID, attempt.id, attempt.generation);
  }

  /**
   * A retry of what was left is recognised, under any capabilities the consent still covers,
   * exactly when the consent names this Home.
   */
  lemma RetryRecovers(h: Home, root: string, version: string, digest: string, consent: Consent, attempt: Attempt, required: Capabilities)
    requires LeftForRetry(h, consent, attempt) && Authority(version, digest, consent, attempt)
    requires SameRecoveryCapabilities(consent.capabilities, required)
    ensures Recovers(h, Retry(root, consent.id, version, digest, Some(required)), consent, Some(attempt)) <==> consent.home == root
  {
    assert AttemptFile(attempt.id) in h;
    forall id | id in AttemptIDs(h) ensures id == attempt.id {
      var p :| p in h && p.AttemptFile? && p.id == id;
      assert Fits(h, p, consent.id, attempt.id);
    }
    assert AttemptIDs(h) == {attempt.id};
    assert SafeConsentID(consent.id) ==> consent.id != "";
  }
}
