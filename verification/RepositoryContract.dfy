/** Rendering the repository contract and verifying it where it was published. */
module RepositoryContract {
  import opened Collections
  import opened Text
  import opened ManagedBlock

  const MANIFEST_PATH := ".workflow/repository.json"
  const AGENTS_PATH := "AGENTS.md"
  const CHECK_WORKFLOW := ".github/workflows/workflow-contract.yml"
  const DOMAIN_PATH := "docs/agents/domain.md"
  const REQUIRED_CHECK := "workflow-contract"
  const SINGLE_CONTEXT := "single-context"
  const MULTI_CONTEXT := "multi-context"

  type Files = map<string, string>

  datatype ManagedFile = ManagedFile(path: string, sha256: string)

  datatype Manifest = Manifest(
    schemaVersion: int,
    contractVersion: string,
    repository: string,
    defaultBranch: string,
    issueTracker: string,
    domainLayout: string,
    requiredCheck: string,
    managedBlockSha256: string,
    managedFiles: seq<ManagedFile>)

  /** The generated payload the contract is rendered from. */
  datatype Templates = Templates(block: string, whole: Files, multiContextDomain: string)

  ghost predicate GoodTemplates(t: Templates) {
    IsTemplate(t.block) && AGENTS_PATH !in t.whole && MANIFEST_PATH !in t.whole
  }

  /** JSON, SHA-256 and Go string quoting, as the contract uses them. */
  datatype Codec = Codec(
    encode: Manifest -> string,
    decode: string -> Option<Manifest>,
    digest: string -> string,
    quote: string -> string)

  ghost predicate Decodes(c: Codec) {
    forall m :: c.decode(c.encode(m) + "\n") == Some(m)
  }

  datatype Rendered = Rendered(files: Files, manifest: Manifest, digest: string)

  function EffectiveLayout(layout: string): string { if layout == "" then SINGLE_CONTEXT else layout }

  predicate KnownLayout(layout: string) { layout == SINGLE_CONTEXT || layout == MULTI_CONTEXT }

  /** The platform-owned files for one layout, before the branch is filled in. */
  function WholeFiles(t: Templates, layout: string): Files {
    if layout == MULTI_CONTEXT then t.whole[DOMAIN_PATH := t.multiContextDomain] else t.whole
  }

  function Published(c: Codec, path: string, data: string, branch: string): string {
    if path == CHECK_WORKFLOW && branch != "main"
    then ReplaceAll(data, "branches: [main]", "branches: [" + c.quote(branch) + "]")
    else data
  }

  /** What a rendering consists of. */
  ghost predicate IsRendering(t: Templates, c: Codec, layout: string, existing: string, repository: string, branch: string, r: Rendered) {
    var whole := WholeFiles(t, EffectiveLayout(layout));
    && r.files.Keys == whole.Keys + {AGENTS_PATH, MANIFEST_PATH}
    && ReconcileBlock(t.block, existing) == Some(r.files[AGENTS_PATH])
    && (forall p :: p in whole ==> r.files[p] == Published(c, p, whole[p], branch))
    && r.manifest == Manifest(1, "1", repository, branch, "github-issues", EffectiveLayout(layout), REQUIRED_CHECK,
                              c.digest(t.block), r.manifest.managedFiles)
    && (forall m :: m in r.manifest.managedFiles ==> m.path in whole && m.sha256 == c.digest(r.files[m.path]))
    && (forall p :: p in whole ==> ManagedFile(p, c.digest(r.files[p])) in r.manifest.managedFiles)
    && r.files[MANIFEST_PATH] == c.encode(r.manifest) + "\n"
    && r.digest == c.digest(r.files[MANIFEST_PATH])
  }

  method Render(t: Templates, c: Codec, domainLayout: string, existingAgents: string, repository: string, defaultBranch: string)
    returns (r: Option<Rendered>)
    requires GoodTemplates(t)
    ensures r.Some? <==>
      && repository != "" && defaultBranch != ""
      && KnownLayout(EffectiveLayout(domainLayout))
      && ReconcileBlock(t.block, existingAgents).Some?
    ensures r.Some? ==> IsRendering(t, c, domainLayout, existingAgents, repository, defaultBranch, r.value)
  {
    if repository == "" || defaultBranch == "" {
      return None;
    }
    var layout := if domainLayout == "" then SINGLE_CONTEXT else domainLayout;
    if layout != SINGLE_CONTEXT && layout != MULTI_CONTEXT {
      return None;
    }
    var agents := ReconcileBlock(t.block, existingAgents);
    if agents.None? {
      return None;
    }
    var whole := WholeFiles(t, layout);
    var files: Files, paths := PublishWhole(whole, (p, d) => Published(c, p, d, defaultBranch));
    var managed := ListManaged(whole, files, paths, c.digest);
    var manifest := Manifest(1, "1", repository, defaultBranch, "github-issues", layout, REQUIRED_CHECK, c.digest(t.block), managed);
    var encoded := c.encode(manifest) + "\n";
    var all := files[AGENTS_PATH := agents.value][MANIFEST_PATH := encoded];
    return Some(Rendered(all, manifest, c.digest(encoded)));
  }

  /** Copies the platform-owned files, in any order. */
  method PublishWhole(whole: Files, publish: (string, string) -> string) returns (files: Files, paths: seq<string>)
    ensures files.Keys == whole.Keys
    ensures forall p :: p in whole ==> files[p] == publish(p, whole[p])
    ensures forall p :: p in paths <==> p in whole
  {
    files, paths := map[], [];
    var pending := whole.Keys;
    while pending != {}
      invariant pending <= whole.Keys
      invariant files.Keys == whole.Keys - pending
      invariant forall p :: p in files ==> files[p] == publish(p, whole[p])
      invariant forall p :: p in paths <==> p in files
      decreases |pending|
    {
      var path := Take(pending);
      files := files[path := publish(path, whole[path])];
      paths := paths + [path];
      pending := pending - {path};
    }
  }

  /** The managed files of the manifest, sorted by path. */
  method ListManaged(whole: Files, files: Files, paths: seq<string>, digest: string -> string) returns (managed: seq<ManagedFile>)
    requires files.Keys == whole.Keys
    requires forall p :: p in paths <==> p in whole
    ensures forall m :: m in managed ==> m.path in whole && m.sha256 == digest(files[m.path])
    ensures forall p :: p in whole ==> ManagedFile(p, digest(files[p])) in managed
    ensures forall i, j :: 0 <= i < j < |managed| ==> !Less(managed[j].path, managed[i].path)
  {
    LessIsOrder();
    var sorted := SortSlice(paths, Less);
    forall p ensures p in sorted <==> p in whole { PermutesMembers(sorted, paths, p); }
    managed := [];
    for i := 0 to |sorted|
      invariant |managed| == i
      invariant forall k :: 0 <= k < i ==> sorted[k] in whole && managed[k] == ManagedFile(sorted[k], digest(files[sorted[k]]))
    {
      var path := sorted[i];
      assert path in whole;
      managed := managed + [ManagedFile(path, digest(files[path]))];
    }
    forall p | p in whole ensures ManagedFile(p, digest(files[p])) in managed {
      var k :| 0 <= k < |sorted| && sorted[k] == p;
      assert managed[k] == ManagedFile(p, digest(files[p]));
    }
  }

  ghost predicate IdentityOk(m: Manifest, repository: string, branch: string) {
    && m.schemaVersion == 1 && m.contractVersion == "1"
    && m.repository == repository && m.defaultBranch == branch
    && m.requiredCheck == REQUIRED_CHECK && KnownLayout(m.domainLayout)
  }

  /** What VerifyRemote accepts: only platform-owned files and the managed block count. */
  ghost predicate RemoteOk(c: Codec, published: Files, repository: string, branch: string, expected: string) {
    && MANIFEST_PATH in published
    && c.digest(published[MANIFEST_PATH]) == expected
    && var manifest := c.decode(published[MANIFEST_PATH]);
    && manifest.Some? && IdentityOk(manifest.value, repository, branch)
    && (forall m :: m in manifest.value.managedFiles ==> m.path in published && c.digest(published[m.path]) == m.sha256)
    && AGENTS_PATH in published
    && var block := ExtractBlock(published[AGENTS_PATH]);
    && block.Some? && c.digest(block.value) == manifest.value.managedBlockSha256
  }

  method VerifyRemote(c: Codec, published: Files, repository: string, branch: string, expected: string) returns (ok: bool)
    ensures ok <==> RemoteOk(c, published, repository, branch, expected)
  {
    if MANIFEST_PATH !in published {
      return false;
    }
    var data := published[MANIFEST_PATH];
    if c.digest(data) != expected {
      return false;
    }
    var decoded := c.decode(data);
    if decoded.None? {
      return false;
    }
    var manifest := decoded.value;
    if manifest.schemaVersion != 1 || manifest.contractVersion != "1" || manifest.repository != repository
       || manifest.defaultBranch != branch || manifest.requiredCheck != REQUIRED_CHECK
       || (manifest.domainLayout != SINGLE_CONTEXT && manifest.domainLayout != MULTI_CONTEXT) {
      return false;
    }
    for i := 0 to |manifest.managedFiles|
      invariant forall k :: 0 <= k < i ==>
        && manifest.managedFiles[k].path in published
        && c.digest(published[manifest.managedFiles[k].path]) == manifest.managedFiles[k].sha256
    {
      var managed := manifest.managedFiles[i];
      assert managed in manifest.managedFiles;
      if managed.path !in published || c.digest(published[managed.path]) != managed.sha256 {
        return false;
      }
    }
    if AGENTS_PATH !in published {
      return false;
    }
    var block := ExtractBlock(published[AGENTS_PATH]);
    return block.Some? && c.digest(block.value) == manifest.managedBlockSha256;
  }

  // ----- What is rendered and accepted, by name -----------------------------------------

  /** A layout that is left out is the single-context one, and there is one other. */
  lemma LayoutsMean(layout: string)
    ensures KnownLayout(EffectiveLayout(layout)) <==> layout in {"", "single-context", "multi-context"}
  {}

  /** The platform-owned text of a file before the branch is filled in. */
  function Source(t: Templates, layout: string, path: string): Option<string> {
    if layout == "multi-context" && path == "docs/agents/domain.md" then Some(t.multiContextDomain)
    else if path in t.whole then Some(t.whole[path]) else None
  }

  /** The files: those the platform owns, with the branch in the check's trigger, and besides them AGENTS.md and the manifest. */
  lemma FilesMean(t: Templates, c: Codec, layout: string, existing: string, repository: string, branch: string, r: Rendered, path: string)
    requires GoodTemplates(t) && IsRendering(t, c, layout, existing, repository, branch, r)
    ensures "AGENTS.md" in r.files && ".workflow/repository.json" in r.files
    ensures ReconcileBlock(t.block, existing) == Some(r.files["AGENTS.md"])
    ensures path !in {"AGENTS.md", ".workflow/repository.json"} ==>
      var source := Source(t, layout, path);
      && (path in r.files <==> source.Some?)
      && (source.Some? ==>
            r.files[path] == if path == ".github/workflows/workflow-contract.yml" && branch != "main"
                             then ReplaceAll(source.value, "branches: [main]", "branches: [" + c.quote(branch) + "]")
                             else source.value)
  {
    var whole := WholeFiles(t, EffectiveLayout(layout));
    assert path in whole <==> Source(t, layout, path).Some?;
    assert path in whole ==> Source(t, layout, path) == Some(whole[path]);
  }

  /** The manifest: what identifies the contract, and a digest for every platform-owned file and for the block. */
  lemma ManifestMeans(t: Templates, c: Codec, layout: string, existing: string, repository: string, branch: string, r: Rendered)
    requires GoodTemplates(t) && IsRendering(t, c, layout, existing, repository, branch, r)
    ensures var m := r.manifest;
      && m.schemaVersion == 1 && m.contractVersion == "1" && m.repository == repository && m.defaultBranch == branch
      && m.issueTracker == "github-issues" && m.requiredCheck == "workflow-contract"
      && m.domainLayout == (if layout == "" then "single-context" else layout)
      && m.managedBlockSha256 == c.digest(t.block)
      && r.files[".workflow/repository.json"] == c.encode(m) + "\n" && r.digest == c.digest(c.encode(m) + "\n")
    ensures forall f :: f in r.manifest.managedFiles <==>
      && f.path in r.files && f.path !in {"AGENTS.md", ".workflow/repository.json"} && f.sha256 == c.digest(r.files[f.path])
  {
    ManagedMeans(t, c, layout, existing, repository, branch, r);
  }

  lemma ManagedMeans(t: Templates, c: Codec, layout: string, existing: string, repository: string, branch: string, r: Rendered)
    requires GoodTemplates(t) && IsRendering(t, c, layout, existing, repository, branch, r)
    ensures forall f :: f in r.manifest.managedFiles <==>
      && f.path in r.files && f.path !in {"AGENTS.md", ".workflow/repository.json"} && f.sha256 == c.digest(r.files[f.path])
  {
    var whole := WholeFiles(t, EffectiveLayout(layout));
    assert "AGENTS.md" !in whole && ".workflow/repository.json" !in whole;
    forall f: ManagedFile | f.path in r.files && f.path !in {"AGENTS.md", ".workflow/repository.json"} && f.sha256 == c.digest(r.files[f.path])
      ensures f in r.manifest.managedFiles
    {
      assert f.path in whole && f == ManagedFile(f.path, c.digest(r.files[f.path]));
    }
  }

  /** What is accepted: the expected manifest, for this repository and branch, and every digest in it. */
  lemma AcceptedMeans(c: Codec, published: Files, repository: string, branch: string, expected: string)
    ensures RemoteOk(c, published, repository, branch, expected) <==>
      && ".workflow/repository.json" in published && c.digest(published[".workflow/repository.json"]) == expected
      && c.decode(published[".workflow/repository.json"]).Some?
      && var m := c.decode(published[".workflow/repository.json"]).value;
      && m.schemaVersion == 1 && m.contractVersion == "1" && m.repository == repository && m.defaultBranch == branch
      && m.requiredCheck == "workflow-contract" && m.domainLayout in {"single-context", "multi-context"}
      && (forall f :: f in m.managedFiles ==> f.path in published && c.digest(published[f.path]) == f.sha256)
      && "AGENTS.md" in published && exists block ::
           ExtractBlock(published["AGENTS.md"]) == Some(block) && c.digest(block) == m.managedBlockSha256
  {}

  /** A rendering verifies against its own digest exactly when no second block was left behind. */
  lemma RenderedVerifies(t: Templates, c: Codec, layout: string, existing: string, repository: string, branch: string, r: Rendered)
    requires GoodTemplates(t) && Decodes(c) && KnownLayout(EffectiveLayout(layout))
    requires IsRendering(t, c, layout, existing, repository, branch, r)
    ensures RemoteOk(c, r.files, repository, branch, r.digest) <==> NothingMarkedAfter(existing)
  {
    ExtractAfterReconcile(t.block, existing);
    assert c.decode(r.files[MANIFEST_PATH]) == Some(r.manifest);
  }

  ghost predicate Injective(digest: string -> string) {
    forall a, b :: digest(a) == digest(b) ==> a == b
  }

  /**
   * Admission authority: against one rendering, a published tree is accepted exactly when
   * manifest, platform-owned files and managed block are byte for byte the rendered ones.
   * Bytes of AGENTS.md outside the block, and all other files, never matter.
   */
  lemma AcceptsExactlyTheContract(
      t: Templates, c: Codec, layout: string, existing: string, repository: string, branch: string, r: Rendered, published: Files)
    requires GoodTemplates(t) && Decodes(c) && KnownLayout(EffectiveLayout(layout)) && Injective(c.digest)
    requires IsRendering(t, c, layout, existing, repository, branch, r)
    ensures RemoteOk(c, published, repository, branch, r.digest) <==>
      && MANIFEST_PATH in published && published[MANIFEST_PATH] == r.files[MANIFEST_PATH]
      && (forall p :: p in WholeFiles(t, EffectiveLayout(layout)) ==> p in published && published[p] == r.files[p])
      && AGENTS_PATH in published && ExtractBlock(published[AGENTS_PATH]) == Some(t.block)
  {
    var whole := WholeFiles(t, EffectiveLayout(layout));
    if MANIFEST_PATH in published && published[MANIFEST_PATH] == r.files[MANIFEST_PATH] {
      assert c.decode(published[MANIFEST_PATH]) == Some(r.manifest);
      if RemoteOk(c, published, repository, branch, r.digest) {
        forall p | p in whole ensures p in published && published[p] == r.files[p] {
          assert ManagedFile(p, c.digest(r.files[p])) in r.manifest.managedFiles;
        }
      }
    }
  }
}
