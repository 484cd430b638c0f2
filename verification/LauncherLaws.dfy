/** What the launcher keeps over whole sequences of calls, and where it does not. */
module LauncherLaws {
  import opened Collections
  import opened LauncherHome
  import opened LauncherStaging
  import opened LauncherEngine

  // ----- Runs ---------------------------------------------------------------------------

  datatype Invocation = Invocation(request: Request, result: Outcome, rollback: Rollback, world: World, recorded: map<string, string>)

  /** Any calls, with any failures, from a missing Home on. */
  ghost predicate Run(root: string, homes: seq<Home>, calls: seq<Invocation>) {
    homes != [] && homes[0] == map[] && Continues(root, homes, calls)
  }

  /** Any calls, with any failures, from any Home on. */
  ghost predicate Continues(root: string, homes: seq<Home>, calls: seq<Invocation>) {
    && |homes| == |calls| + 1
    && forall i :: 0 <= i < |calls| ==> CalledAt(root, homes, calls, i)
  }

  ghost predicate CalledAt(root: string, homes: seq<Home>, calls: seq<Invocation>, i: nat) {
    i < |calls| && i + 1 < |homes| && Called(root, homes[i], calls[i], homes[i + 1])
  }

  ghost predicate Called(root: string, h: Home, c: Invocation, k: Home) {
    Plausible(c.world, h) && Applied(root, h, k, c.recorded, c.request, c.result, c.rollback, c.world)
  }

  /** active.json always names an attempt of its own generation that was recorded verified. */
  lemma {:induction false} RunsStaySound(root: string, homes: seq<Home>, calls: seq<Invocation>, i: nat)
    requires Run(root, homes, calls) && i < |homes|
    ensures Sound(homes[i])
  {
    if i > 0 {
      RunsStaySound(root, homes, calls, i - 1);
      assert CalledAt(root, homes, calls, i - 1);
    }
  }

  /** Call `i` wrote this active record, for its own target. */
  ghost predicate WrittenBy(homes: seq<Home>, calls: seq<Invocation>, i: nat, active: Active) {
    && i < |calls| && i + 1 < |homes|
    && ReadActive(homes[i + 1]) == Some(active) && ReadActive(homes[i]) != Some(active)
    && active.version == calls[i].request.version && active.digest == calls[i].request.digest
  }

  /** The generation was verified, started and live when the record said ready. */
  ghost predicate Earned(h: Home, active: Active, w: World) {
    GenerationVerifies(h, active.generation, active.version) && Live(w)
  }

  lemma ActiveStep(root: string, homes: seq<Home>, calls: seq<Invocation>, j: nat)
    requires Continues(root, homes, calls) && j < |calls| && ReadActive(homes[j + 1]) != ReadActive(homes[j])
    ensures ReadActive(homes[j + 1]).Some?
    ensures var active := ReadActive(homes[j + 1]).value;
      WrittenBy(homes, calls, j, active) && (active.ready ==> Earned(homes[j + 1], active, calls[j].world))
  {
    assert CalledAt(root, homes, calls, j);
  }

  /**
   * Forward only: the record in force was written by a call for its own target, every call
   * since left it alone, and if it says ready then readiness was earned in that call.
   */
  lemma {:induction false} ActiveIsForward(root: string, homes: seq<Home>, calls: seq<Invocation>, j: nat) returns (i: nat)
    requires Run(root, homes, calls) && j < |homes| && ReadActive(homes[j]).Some?
    ensures i < j && WrittenBy(homes, calls, i, ReadActive(homes[j]).value)
    ensures forall n :: i < n <= j ==> ReadActive(homes[n]) == ReadActive(homes[j])
    ensures ReadActive(homes[j]).value.ready ==> Earned(homes[i + 1], ReadActive(homes[j]).value, calls[i].world)
  {
    if ReadActive(homes[j - 1]) == ReadActive(homes[j]) {
      i := ActiveIsForward(root, homes, calls, j - 1);
    } else {
      ActiveStep(root, homes, calls, j - 1);
      i := j - 1;
    }
  }

  /** A call for another target leaves the old generation as startable as it was. */
  lemma OtherGenerationsUntouched(root: string, h: Home, c: Invocation, k: Home, g: string, version: string)
    requires Called(root, h, c, k) && g != GenerationName(c.request.digest)
    ensures GenerationVerifies(h, g, version) <==> GenerationVerifies(k, g, version)
    ensures forall file :: Same(h, k, GenerationFile(g, file))
  {
    forall file ensures Same(h, k, GenerationFile(g, file)) {}
    assert Same(h, k, GenerationFile(g, MANIFEST)) && Same(h, k, Generation(g));
  }

  // ----- The database of the generation in force --------------------------------------------

  /** The generation that active.json names verifies, and its manifest leaves the database out. */
  ghost predicate InForce(h: Home, active: Active) {
    && Rooted(h) && ReadActive(h) == Some(active)
    && GenerationVerifies(h, active.generation, active.version) && DatabaseUnlisted(h, active.generation)
  }

  function Database(active: Active): Path { GenerationFile(active.generation, DATABASE) }

  /** Whatever a call does and however it fails, the generation in force verifies as before. */
  lemma InForceSurvives(root: string, h: Home, c: Invocation, k: Home, active: Active)
    requires Called(root, h, c, k) && InForce(h, active)
    ensures GenerationVerifies(k, active.generation, active.version) && DatabaseUnlisted(k, active.generation)
  {
    var g := active.generation;
    assert GenerationFile(g, MANIFEST) in h && Generation(g) in Above(GenerationFile(g, MANIFEST));
    if g != GenerationName(c.request.digest) {
      assert GenerationKept(h, k, g) by {
        assert Same(h, k, GenerationFile(g, DATABASE)) && Same(h, k, Generation(g));
        forall file ensures Same(h, k, GenerationFile(g, file)) {}
      }
    }
    KeptVerifies(h, k, g, active.version);
  }

  /** A call for the bundle in force that nothing disturbs until the copy of the backup stops half way. */
  ghost predicate ReappliesHalfWay(root: string, h: Home, active: Active, request: Request, w: World) {
    && InForce(h, active) && active.generation == GenerationName(request.digest)
    && Admissible(h, root, request, w) && MayInstall(h, request, w)
    && UpToStaging(w) && w.databaseCopy.Truncated?
  }

  /**
   * Reapplying the bundle in force copies its backup over the live database. A copy that stops
   * half way is blocked; the record stays, the database is the half, and verification is content.
   */
  lemma TruncatedDatabaseVerifies(root: string, h: Home, c: Invocation, k: Home, active: Active)
    requires Called(root, h, c, k) && ReappliesHalfWay(root, h, active, c.request, c.world)
    ensures c.result.Blocked? && !c.rollback.committed && ReadActive(k) == Some(active)
    ensures Database(active) in k && k[Database(active)] == Regular(Bytes(c.world.databaseCopy.written))
    ensures GenerationVerifies(k, active.generation, active.version)
  {
    var w, g := c.world, active.generation;
    InForceSurvives(root, h, c, k, active);
    assert GenerationFile(g, MANIFEST) in h && Generation(g) in Above(GenerationFile(g, MANIFEST));
    var stopped := StoppedAt(h, g, w.bundle, w.copies, w.databaseCopy);
    assert stopped == CopiedTo(h, Database(active), Bytes(""), w.databaseCopy);
    assert Same(stopped, k, Database(active));
  }

  /** An uncommitted call for this request that changes the database of the generation in force. */
  ghost predicate Damages(root: string, h: Home, active: Active, request: Request, c: Invocation, k: Home) {
    c.request == request && Called(root, h, c, k) && !c.rollback.committed && !Same(h, k, Database(active))
  }

  /** In this world every such call does. */
  ghost predicate Doomed(root: string, h: Home, active: Active, request: Request, w: World) {
    Plausible(w, h) && forall c, k :: Harms(root, h, active, request, w, c, k)
  }

  ghost predicate Harms(root: string, h: Home, active: Active, request: Request, w: World, c: Invocation, k: Home) {
    c.request == request && c.world == w && Called(root, h, c, k) ==> Damages(root, h, active, request, c, k)
  }

  function Disturbed(w: World, written: string): World {
    w.(valid := true, prospectiveLock := true, lock := true, consentWrite := Done, attemptWrite := Done, stop := true,
       ownerBound := true, patIdentity := true, patReadable := true, patWrite := Done, prepare := true,
       dispatcher := Copied, path := true, backup := true, databaseCopy := Truncated(written))
  }

  /** The Home that such a call leaves is one that its contract allows. */
  lemma DamagePossible(root: string, h: Home, active: Active, request: Request, w: World)
    requires ReappliesHalfWay(root, h, active, request, w) && Plausible(w, h)
    ensures var c := Invocation(request, Blocked, Rollback(false, None, false), w, map[]);
      Called(root, h, c, CopiedTo(h, Database(active), Bytes(""), w.databaseCopy))
  {
    var g := active.generation;
    var k := CopiedTo(h, Database(active), Bytes(""), w.databaseCopy);
    assert GenerationFile(g, MANIFEST) in h && Generation(g) in Above(GenerationFile(g, MANIFEST));
    assert GenerationFile(g, DATABASE) in h && Above(Database(active)) <= h.Keys;
    assert k == h[Database(active) := Regular(Bytes(w.databaseCopy.written))];
    assert k == StoppedAt(h, g, w.bundle, w.copies, w.databaseCopy);
    DatabaseCopyKeeps(h, g, Bytes(""), w.databaseCopy);
    OnlyDatabaseDiffers(root, h, active, Bytes(w.databaseCopy.written), request, w);
  }

  /** A blocked call may replace the database of the generation that it is for. */
  lemma OnlyDatabaseDiffers(root: string, h: Home, active: Active, content: Content, request: Request, w: World)
    requires ReadActive(h) == Some(active) && active.generation == GenerationName(request.digest) && Database(active) in h
    ensures var k := h[Database(active) := Regular(content)];
      Overall(root, h, k, request, Blocked, Rollback(false, None, false), w) && Same(h, k, Pat)
  {
    var k := h[Database(active) := Regular(content)];
    assert Same(h, k, ActiveFile) && Same(h, k, Pat) && Same(h, k, AttemptFile(active.attemptID));
  }

  lemma DisturbedReapplies(root: string, h: Home, active: Active, request: Request, w: World, written: string)
    requires InForce(h, active) && Plausible(w, h) && Admissible(h, root, request, w) && MayInstall(h, request, w)
    requires GenerationName(request.digest) == active.generation
    ensures ReappliesHalfWay(root, h, active, request, Disturbed(w, written)) && Plausible(Disturbed(w, written), h)
  {
    assert RetryOf(root, request, Disturbed(w, written)) == RetryOf(root, request, w);
    assert ConsentFits(h, request, Disturbed(w, written));
  }

  lemma HalfHarms(root: string, h: Home, active: Active, request: Request, w: World, c: Invocation, k: Home)
    requires ReappliesHalfWay(root, h, active, request, w)
    requires h[Database(active)].content != Bytes(w.databaseCopy.written)
    ensures Harms(root, h, active, request, w, c, k)
  {
    if c.request == request && c.world == w && Called(root, h, c, k) {
      TruncatedDatabaseVerifies(root, h, c, k, active);
    }
  }

  lemma HalfDooms(root: string, h: Home, active: Active, request: Request, w: World)
    requires ReappliesHalfWay(root, h, active, request, w) && Plausible(w, h)
    requires h[Database(active)].content != Bytes(w.databaseCopy.written)
    ensures Doomed(root, h, active, request, w)
  {
    forall c, k ensures Harms(root, h, active, request, w, c, k) { HalfHarms(root, h, active, request, w, c, k); }
  }

  function Another(content: Content): (written: string)
    ensures content != Bytes(written)
  {
    if content.Bytes? then
      var longer := content.bytes + ['0'];
      assert |longer| != |content.bytes|;
      longer
    else ""
  }

  lemma NamedAtRisk(root: string, h: Home, active: Active, request: Request, w: World, v: World)
    requires InForce(h, active) && Plausible(w, h) && Admissible(h, root, request, w) && MayInstall(h, request, w)
    requires GenerationName(request.digest) == active.generation && v == Disturbed(w, Another(h[Database(active)].content))
    ensures Doomed(root, h, active, request, v)
    ensures exists c, k :: Damages(root, h, active, request, c, k)
  {
    DisturbedReapplies(root, h, active, request, w, Another(h[Database(active)].content));
    HalfDooms(root, h, active, request, v);
    var c := Invocation(request, Blocked, Rollback(false, None, false), v, map[]);
    DamagePossible(root, h, active, request, v);
    var k := CopiedTo(h, Database(active), Bytes(""), v.databaseCopy);
    HalfHarms(root, h, active, request, v, c, k);
    assert Damages(root, h, active, request, c, k);
  }

  /**
   * A request that could be applied over the installation puts the database of the generation in
   * force at risk exactly when its digest names that generation.
   */
  lemma DatabaseAtRisk(root: string, h: Home, active: Active, request: Request, w: World)
    requires InForce(h, active) && Plausible(w, h) && Admissible(h, root, request, w) && MayInstall(h, request, w)
    ensures (exists c, k :: Damages(root, h, active, request, c, k)) <==> GenerationName(request.digest) == active.generation
    ensures GenerationName(request.digest) == active.generation ==> exists v :: Doomed(root, h, active, request, v)
  {
    if GenerationName(request.digest) == active.generation {
      NamedAtRisk(root, h, active, request, w, Disturbed(w, Another(h[Database(active)].content)));
    } else {
      forall c, k ensures !Damages(root, h, active, request, c, k) {
        if c.request == request && Called(root, h, c, k) { assert Same(h, k, Database(active)); }
      }
    }
  }

  // ----- The database over an upgrade ---------------------------------------------------------------

  /** active.json names a generation that is there, and its database is this node. */
  ghost predicate Serves(h: Home, node: Node) {
    && ReadActive(h).Some? && node.Regular?
    && var g := ReadActive(h).value.generation;
    && Generation(g) in h && GenerationFile(g, "workflow.db") in h && h[GenerationFile(g, "workflow.db")] == node
  }

  /** The call is for the bundle in force, and the copy of the backup over the live database stops half way. */
  ghost predicate HalfOverLive(h: Home, c: Invocation) {
    && c.world.databaseCopy.Truncated? && ReadActive(h).Some?
    && GenerationName(c.request.digest) == ReadActive(h).value.generation
  }

  /**
   * An upgrade carries the tickets forward: once active.json names a new generation, that
   * generation's database and the new attempt's backup are the database that was in force.
   */
  lemma UpgradeCarriesDatabase(root: string, h: Home, c: Invocation, k: Home, node: Node)
    requires Called(root, h, c, k) && Sound(h) && Serves(h, node)
    requires ReadActive(k) != ReadActive(h) && !Resumes(ReadActive(h), c.request)
    ensures Serves(k, node) && ReadActive(k).value.generation == GenerationName(c.request.digest)
    ensures Backup(ReadActive(k).value.attemptID) in k && k[Backup(ReadActive(k).value.attemptID)] == node
  {
    CommittedExactly(root, h, c, k);
    assert InUse(h, ReadActive(h).value, GenerationName(c.request.digest));
  }

  lemma ServesOn(root: string, h: Home, c: Invocation, k: Home, node: Node)
    requires Called(root, h, c, k) && Serves(h, node) && !HalfOverLive(h, c)
    ensures Serves(k, node)
  {
    var active, g := ReadActive(h).value, GenerationName(c.request.digest);
    assert InUse(h, active, g);
    if !c.rollback.committed {
      assert ReadActive(k).Some? && ReadActive(k).value.generation == active.generation;
      assert active.generation != g ==>
        Same(h, k, Generation(active.generation)) && Same(h, k, GenerationFile(active.generation, DATABASE));
      assert active.generation == g ==> Generation(g) in k && Same(h, k, GenerationFile(g, DATABASE));
    }
  }

  /**
   * Over any calls with any failures the installation serves one and the same database, as long
   * as no copy of a backup over the live database itself stops half way.
   */
  lemma {:induction false} DatabaseEndures(root: string, homes: seq<Home>, calls: seq<Invocation>, node: Node, i: nat)
    requires Continues(root, homes, calls) && i < |homes| && Serves(homes[0], node)
    requires forall j :: 0 <= j < i ==> !HalfOverLive(homes[j], calls[j])
    ensures Serves(homes[i], node)
  {
    if i > 0 {
      DatabaseEndures(root, homes, calls, node, i - 1);
      assert CalledAt(root, homes, calls, i - 1);
      ServesOn(root, homes[i - 1], calls[i - 1], homes[i], node);
    }
  }

  // ----- A generation that was staged in part -----------------------------------------------------

  /** A committed call staged the whole bundle exactly when nothing of it was there, or all of it. */
  lemma CommittedIsWhole(root: string, h: Home, c: Invocation, k: Home)
    requires Called(root, h, c, k) && c.rollback.committed && DistinctNames(c.world.bundle)
    requires forall i :: 0 <= i < |c.world.bundle| ==> c.world.bundle[i].name != DATABASE
    requires var g := GenerationName(c.request.digest); Generation(g) in h ==> ActiveFile in h
    ensures var g := GenerationName(c.request.digest);
      StagedInFull(k, g, c.world.bundle) <==> Generation(g) !in h || StagedInFull(h, g, c.world.bundle)
  {
    var g, bundle := GenerationName(c.request.digest), c.world.bundle;
    if Generation(g) in h {
      if StagedInFull(h, g, bundle) { StagedAlike(h, k, g, bundle); }
      if StagedInFull(k, g, bundle) {
        forall file | file != DATABASE ensures Same(k, h, GenerationFile(g, file)) { assert Same(h, k, GenerationFile(g, file)); }
        StagedAlike(k, h, g, bundle);
      }
    }
  }

  lemma BrokenAlike(h: Home, k: Home, g: string, version: string)
    requires PayloadKept(h, k)
    ensures DatabaseUnlisted(h, g) <==> DatabaseUnlisted(k, g)
    ensures PayloadVerifies(h, g, version) <==> PayloadVerifies(k, g, version)
    ensures Generation(g) in h <==> Generation(g) in k
  {
    assert Same(h, k, Generation(g)) && Same(h, k, GenerationFile(g, MANIFEST));
    forall file ensures Same(h, k, GenerationFile(g, file)) {}
  }

  /** An upgrade whose copy of the manifest is the first to fail is blocked and leaves a broken generation behind. */
  lemma UpgradeLosesManifest(root: string, h: Home, c: Invocation, k: Home, m: nat, version: string)
    requires Called(root, h, c, k) && ReadActive(h).Some? && Rooted(h) && Generation(GenerationName(c.request.digest)) !in h
    requires Admissible(h, root, c.request, c.world) && MayInstall(h, c.request, c.world) && UpToStaging(c.world)
    requires DistinctNames(c.world.bundle) && LosesManifest(c.world.bundle, c.world.copies, m)
    ensures c.result.Blocked? && ReadActive(k) == ReadActive(h) && Broken(k, GenerationName(c.request.digest), version)
  {
    var w, g := c.world, GenerationName(c.request.digest);
    StagingLosesManifest(h, g, w.bundle, w.copies, m, version);
    BrokenAlike(StoppedAt(h, g, w.bundle, w.copies, w.databaseCopy), k, g, version);
  }

  lemma BrokenStays(root: string, h: Home, c: Invocation, k: Home, g: string, version: string)
    requires Called(root, h, c, k) && ReadActive(h).Some? && Broken(h, g, version)
    ensures ReadActive(k).Some? && Broken(k, g, version)
  {
    if g != GenerationName(c.request.digest) {
      assert Same(h, k, Generation(g));
      forall file ensures Same(h, k, GenerationFile(g, file)) {}
    }
    KeptPayload(h, k, g, version);
  }

  /** No later call, retry or other, ever brings a broken generation into service. */
  lemma {:induction false} LossIsPermanent(root: string, homes: seq<Home>, calls: seq<Invocation>, g: string, version: string, i: nat)
    requires Continues(root, homes, calls) && ReadActive(homes[0]).Some? && Broken(homes[0], g, version) && i < |homes|
    ensures ReadActive(homes[i]).Some? && Broken(homes[i], g, version) && !GenerationVerifies(homes[i], g, version)
    ensures i > 0 && calls[i - 1].result.Ready? ==>
      var active := calls[i - 1].result.active; active.generation != g || active.version != version
  {
    if i > 0 {
      LossIsPermanent(root, homes, calls, g, version, i - 1);
      assert CalledAt(root, homes, calls, i - 1);
      BrokenStays(root, homes[i - 1], calls[i - 1], homes[i], g, version);
    }
  }

  // ----- The credential --------------------------------------------------------------------

  /**
   * After a ready call with a new credential, the stored one is the one whose fingerprint was
   * recorded, unless the call resumed a repair: there the rollback runs all the same, and they
   * agree only when the new credential was the old one.
   */
  lemma CredentialMatchesRecord(root: string, h: Home, c: Invocation, k: Home)
    requires Called(root, h, c, k) && c.result.Ready? && c.request.pat.Some? && c.world.restore
    ensures Credential(k) == Some(Secret(c.recorded[c.result.active.generation]))
       <==> !Resumes(ReadActive(h), c.request) || Credential(h) == Some(Secret(c.request.pat.value))
  {}

  /** A call that ends before active.json was written leaves the credential as it found it, errors and repairs included. */
  lemma UncommittedKeepsCredential(root: string, h: Home, c: Invocation, k: Home)
    requires Called(root, h, c, k) && c.world.restore && !c.rollback.committed
    ensures Credential(k) == Credential(h)
  {}

  /** Which calls those are, told from active.json alone and from the outcome. */
  lemma CommittedExactly(root: string, h: Home, c: Invocation, k: Home)
    requires Called(root, h, c, k) && Sound(h)
    ensures c.rollback.committed <==> ReadActive(k) != ReadActive(h) && !Resumes(ReadActive(h), c.request)
    ensures c.result.Error? ==> (c.rollback.committed <==> ReadActive(k) != ReadActive(h))
    ensures c.result.Ready? || c.result.RepairActive? ==> (c.rollback.committed <==> !Resumes(ReadActive(h), c.request))
    ensures NotActivated(c.result) && !c.result.Error? ==> !c.rollback.committed
  {
    assert ReadActive(h).Some? && Sound(h) ==> AttemptFile(ReadActive(h).value.attemptID) in h;
  }

  // ----- Retrying a fresh installation --------------------------------------------------------

  /** Every fresh failure is recognised by a retry of the same target and consent. */
  lemma FreshFailureRecovers(root: string, h: Home, c: Invocation, k: Home, required: Capabilities)
    requires Called(root, h, c, k) && c.result.RepairFresh?
    requires SameRecoveryCapabilities(c.result.consent.capabilities, required)
    ensures var retry := Retry(root, c.result.consent.id, c.request.version, c.request.digest, Some(required));
      Recovers(k, retry, c.result.consent, Some(c.result.attempt)) <==> c.result.consent.home == root
    ensures c.result.consent.home != root ==> ReadConsent(h, c.result.consent.id) == Some(c.result.consent)
  {
    RetryRecovers(k, root, c.request.version, c.request.digest, c.result.consent, c.result.attempt, required);
  }

  /** A Home in which no request finds anything to install over, to retry or to start. */
  ghost predicate Stranded(h: Home) {
    forall r :: Unrecoverable(h, r)
  }

  /** Every later call is blocked and changes nothing. */
  lemma StrandedStays(root: string, h: Home, c: Invocation, k: Home)
    requires Stranded(h) && Called(root, h, c, k)
    ensures c.result.Blocked? && k == h
  {
    assert Unrecoverable(h, RetryOf(root, c.request, c.world));
  }

  /** A consent write that made its directory and then failed strands the Home. */
  lemma ConsentWriteStrands(id: string, consent: Consent)
    ensures Stranded(Written(map[], ConsentFile(id), ConsentRecord(consent), OnlyDirectories))
  {
    var h := Written(map[], ConsentFile(id), ConsentRecord(consent), OnlyDirectories);
    assert Platform in h;
  }

  /**
   * With the consent recorded and the attempt not, a retry is recognised exactly when the failed
   * write did not get as far as making its directory.
   */
  lemma AttemptWriteStrands(h: Home, r: Retry, consent: Consent, attempt: Attempt, fate: Fate)
    requires Recovers(h, r, consent, None) && !fate.Done?
    ensures Recovers(Written(h, AttemptFile(attempt.id), AttemptRecord(attempt), fate), r, consent, None) <==> fate.Nothing?
  {
    var k := Written(h, AttemptFile(attempt.id), AttemptRecord(attempt), fate);
    assert Attempts in h ==> FitsConsentOnly(h, Attempts, consent.id);
    assert Attempts in k && ConsentOnlyLayout(k, consent.id) ==> FitsConsentOnly(k, Attempts, consent.id);
    assert AttemptIDs(k) == {} by {
      forall p | p in k && p.AttemptFile? ensures p in h {}
      forall p | p in h && p.AttemptFile? ensures p.id in AttemptIDs(h) {}
    }
  }

  // ----- When everything else goes well ---------------------------------------------------------

  /** Nothing fails up to the activation, and then the control plane starts. */
  ghost predicate GoesWell(w: World, version: string) {
    Smooth(w) && Live(w) && w.readyWrite.Done? && GoodBundle(w.bundle, version)
  }

  /** Only over an installation can the generation be there before the call. */
  lemma ThereBefore(h: Home, root: string, request: Request, w: World, g: string)
    requires Admissible(h, root, request, w) && Generation(g) in h
    ensures ActiveFile in h
  {
    if Recoverable(h, RetryOf(root, request, w)) {
      var consent, attempt :| Recovers(h, RetryOf(root, request, w), consent, attempt);
      LayoutHasNone(h, RetryOf(root, request, w), consent, attempt, g);
    }
  }

  lemma LayoutHasNone(h: Home, r: Retry, consent: Consent, attempt: Option<Attempt>, g: string)
    requires Recovers(h, r, consent, attempt)
    ensures Generation(g) !in h
  {
    assert Generation(g) in h && attempt.Some? ==> Fits(h, Generation(g), consent.id, attempt.value.id);
    assert Generation(g) in h && attempt.None? ==> FitsConsentOnly(h, Generation(g), consent.id);
  }

  lemma SmoothCommits(root: string, h: Home, c: Invocation, k: Home)
    requires Called(root, h, c, k) && Smooth(c.world)
    requires Admissible(h, root, c.request, c.world) && MayInstall(h, c.request, c.world)
    ensures c.rollback.committed
  {
    CopiesSucceed(h, GenerationName(c.request.digest), c.world.bundle, c.world.copies, |c.world.bundle|);
  }

  /**
   * First installation, retry or upgrade: a call that nothing disturbs commits, and it ends ready
   * exactly when the generation was not there before or what is there verifies but for its
   * database. Otherwise the record in force now names a generation that cannot start.
   */
  lemma UndisturbedCallIsReady(root: string, h: Home, c: Invocation, k: Home)
    requires Called(root, h, c, k) && GoesWell(c.world, c.request.version)
    requires Admissible(h, root, c.request, c.world) && MayInstall(h, c.request, c.world)
    requires var g := GenerationName(c.request.digest);
      (Generation(g) in h ==> DatabaseUnlisted(h, g)) && (ReadActive(h).Some? || DatabaseFits(h, g))
    ensures c.rollback.committed && ReadActive(k).Some? && ReadActive(k).value.generation == GenerationName(c.request.digest)
    ensures var g := GenerationName(c.request.digest);
      c.result.Ready? <==> Generation(g) !in h || PayloadVerifies(h, g, c.request.version)
    ensures c.result == if c.result.Ready? then Ready(ReadActive(k).value) else RepairActive(ReadActive(k).value)
    ensures c.result.Ready? <==> GenerationVerifies(k, GenerationName(c.request.digest), c.request.version)
    ensures Generation(GenerationName(c.request.digest)) !in h ==> Installed(k, GenerationName(c.request.digest), c.world.bundle)
    ensures Credential(k) == if c.request.pat.Some? then Some(Secret(c.request.pat.value)) else Credential(h)
  {
    var g := GenerationName(c.request.digest);
    SmoothCommits(root, h, c, k);
    if Generation(g) in h {
      ThereBefore(h, root, c.request, c.world, g);
      KeptPayload(h, k, g, c.request.version);
    } else {
      GoodBundleVerifies(k, g, c.world.bundle, c.request.version);
    }
  }

  /**
   * The retry of an upgrade that was stopped while staging: it commits, and it ends ready exactly
   * when the first call had not made the generation's directory or left all but the database.
   */
  lemma RetryOfStoppedUpgrade(root: string, h: Home, c: Invocation, k: Home, d: Invocation, l: Home)
    requires Called(root, h, c, k) && ReadActive(h).Some? && Rooted(h) && Generation(GenerationName(c.request.digest)) !in h
    requires Admissible(h, root, c.request, c.world) && MayInstall(h, c.request, c.world) && UpToStaging(c.world)
    requires GoodBundle(c.world.bundle, c.request.version)
    requires var w := c.world; Stops(h, GenerationName(c.request.digest), w.bundle, w.copies, w.databaseCopy)
    requires Called(root, k, d, l) && d.request.version == c.request.version && d.request.digest == c.request.digest
    requires Admissible(k, root, d.request, d.world) && MayInstall(k, d.request, d.world) && GoesWell(d.world, d.request.version)
    ensures c.result.Blocked? && d.rollback.committed
    ensures var w, g := c.world, GenerationName(c.request.digest);
      var left := StoppedAt(h, g, w.bundle, w.copies, w.databaseCopy);
      d.result.Ready? <==> Generation(g) !in left || PayloadVerifies(left, g, c.request.version)
    ensures Stage(h, GenerationName(c.request.digest), c.world.bundle, c.world.copies).1 ==> d.result.Ready?
  {
    var w, g := c.world, GenerationName(c.request.digest);
    var left := StoppedAt(h, g, w.bundle, w.copies, w.databaseCopy);
    StoppedUnlisted(h, g, w.bundle, w.copies, w.databaseCopy, c.request.version);
    BrokenAlike(left, k, g, c.request.version);
    UndisturbedCallIsReady(root, k, d, l);
  }

  lemma FirstInstallIsReady(root: string, c: Invocation, k: Home)
    requires Called(root, map[], c, k) && GoesWell(c.world, c.request.version)
    requires GenerationName(c.request.digest) != "" && c.request.consentID == ""
    requires c.world.required == Some(c.request.accepted)
    ensures c.result.Ready? && Installed(k, GenerationName(c.request.digest), c.world.bundle)
  {
    UndisturbedCallIsReady(root, map[], c, k);
  }

  /** A call like `c` that names the consent which `c` left, and that nothing disturbs. */
  ghost predicate Retries(root: string, c: Invocation, d: Invocation) {
    && c.result.RepairFresh? && GenerationName(d.request.digest) != ""
    && d.request.version == c.request.version && d.request.digest == c.request.digest
    && d.request.consentID == c.result.consent.id && c.result.consent.home == root
    && d.world.required.Some? && SameRecoveryCapabilities(c.result.consent.capabilities, d.world.required.value)
    && GoesWell(d.world, d.request.version)
  }

  /** The Home between the two calls admits the second one. */
  lemma RetryIsAdmissible(root: string, h: Home, c: Invocation, k: Home, d: Invocation)
    requires Called(root, h, c, k) && c.world.unlock && Retries(root, c, d)
    ensures Admissible(k, root, d.request, d.world) && MayInstall(k, d.request, d.world)
    ensures Generation(GenerationName(d.request.digest)) !in k && DatabaseFits(k, GenerationName(d.request.digest))
  {
    var consent, attempt := c.result.consent, c.result.attempt;
    FreshFailureRecovers(root, h, c, k, d.world.required.value);
    FailureLeaves(root, h, c, k);
    RetryStarts(root, c, k, d);
  }

  lemma FailureLeaves(root: string, h: Home, c: Invocation, k: Home)
    requires Called(root, h, c, k) && c.result.RepairFresh? && c.world.unlock
    ensures LeftForRetry(k, c.result.consent, c.result.attempt) && Lock !in k
    ensures Authority(c.request.version, c.request.digest, c.result.consent, c.result.attempt)
  {}

  lemma RetryStarts(root: string, c: Invocation, k: Home, d: Invocation)
    requires Retries(root, c, d) && LeftForRetry(k, c.result.consent, c.result.attempt) && Lock !in k
    requires Authority(c.request.version, c.request.digest, c.result.consent, c.result.attempt)
    requires Recovers(k, Retry(root, c.result.consent.id, c.request.version, c.request.digest, d.world.required),
                      c.result.consent, Some(c.result.attempt))
    ensures Admissible(k, root, d.request, d.world) && MayInstall(k, d.request, d.world)
    ensures Generation(GenerationName(d.request.digest)) !in k && DatabaseFits(k, GenerationName(d.request.digest))
  {
    var consent, attempt := c.result.consent, c.result.attempt;
    assert Recovers(k, RetryOf(root, d.request, d.world), consent, Some(attempt));
    LayoutsAreInactive(k, RetryOf(root, d.request, d.world), consent, Some(attempt));
    var g := GenerationName(d.request.digest);
    assert Pat in k ==> Fits(k, Pat, consent.id, attempt.id);
    assert Generation(g) in k ==> Fits(k, Generation(g), consent.id, attempt.id);
    assert GenerationFile(g, DATABASE) in k ==> Fits(k, GenerationFile(g, DATABASE), consent.id, attempt.id);
  }

  /** Whatever failed in a first installation, retrying it undisturbed ends ready and whole. */
  lemma RetryEndsReady(root: string, h: Home, c: Invocation, k: Home, d: Invocation, l: Home)
    requires Called(root, h, c, k) && c.world.unlock
    requires Called(root, k, d, l) && Retries(root, c, d)
    ensures d.result.Ready? && Installed(l, GenerationName(d.request.digest), d.world.bundle)
  {
    RetryIsAdmissible(root, h, c, k, d);
    UndisturbedCallIsReady(root, k, d, l);
  }
}
