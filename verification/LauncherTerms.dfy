/** When a call of the launcher goes ahead, told from the Home and from the answers it is given. */
module LauncherTerms {
  import opened Collections
  import opened LauncherHome
  import opened LauncherStaging
  import opened LauncherEngine
  import opened LauncherLaws

  // ----- Words -----------------------------------------------------------------------------

  /** The Docker step was accepted as an installation or an upgrade, and by now the accepted version is there to be used. */
  predicate DockerArrived(accepted: Capabilities, required: Capabilities) {
    var before, now := accepted.docker, required.docker;
    && required == accepted.(docker := now) && before.decodes && now.decodes && before.fitsBundle
    && before.action in {DockerAction.Install, Upgrade} && now.action == Reuse
    && now.observed == now.required == before.required
  }

  /** The request accepts what is required now, or names a consent of the same target that does. */
  predicate Accepts(h: Home, request: Request, w: World) {
    && w.required.Some?
    && (request.consentID == "" ==> w.ownerBound && request.accepted == w.required.value)
    && (request.consentID != "" ==>
          && ConsentFile(request.consentID) in h && h[ConsentFile(request.consentID)].Regular?
          && h[ConsentFile(request.consentID)].content.ConsentRecord?
          && var consent := h[ConsentFile(request.consentID)].content.consent;
          && consent.version == request.version && consent.digest == request.digest
          && (consent.capabilities == w.required.value || DockerArrived(consent.capabilities, w.required.value)))
  }

  /** The Home is missing, installed, or as a failure left it. */
  ghost predicate HomeFits(root: string, h: Home, request: Request, w: World) {
    || h == map[] || ActiveFile in h
    || exists consent, attempt ::
         Recovers(h, Retry(root, request.consentID, request.version, request.digest, w.required), consent, attempt)
  }

  /** The installation in force is of this very target and waits for repair. */
  predicate AwaitsRepair(h: Home, request: Request) {
    && ReadActive(h).Some? && !ReadActive(h).value.ready
    && ReadActive(h).value.version == request.version && ReadActive(h).value.digest == request.digest
  }

  /** What every call passes before it writes anything but its lock and its consent. */
  ghost predicate Starts(root: string, h: Home, request: Request, w: World) {
    && w.valid && GenerationName(request.digest) != "" && HomeFits(root, h, request, w) && Accepts(h, request, w)
    && w.lock && Lock !in h && (h == map[] ==> w.prospectiveLock)
    && (request.consentID == "" ==> w.consentWrite.Done?)
  }

  /** The credential is authenticated, replaces a file or nothing, and is recorded in the database. */
  predicate CredentialGoesIn(h: Home, w: World) {
    && w.ownerBound && w.patIdentity && (Pat in h ==> w.patReadable && h[Pat].Regular?)
    && w.patWrite.Done? && w.patVerified && w.patRecorded
  }

  /** Dependencies, dispatcher, PATH, database and worker release are fine. */
  predicate Equipped(w: World) {
    (w.lifecycle ==> w.prepare) && w.dispatcher == Copied && w.path && w.database && w.worker
  }

  ghost predicate AllCopied(w: World) { forall i: nat :: i < |w.bundle| ==> w.copies(i).Copied? }

  // ----- Going ahead ---------------------------------------------------------------------------

  lemma {:induction false} CopiesSucceeded(h: Home, g: string, bundle: seq<File>, fates: nat -> CopyFate, n: nat)
    requires n <= |bundle|
    ensures CopiedFiles(h, g, bundle, fates, n).1 <==> forall i: nat :: i < n ==> fates(i).Copied?
  {
    if n > 0 { CopiesSucceeded(h, g, bundle, fates, n - 1); }
  }

  lemma AcceptsMeans(h: Home, request: Request, w: World)
    ensures ConsentFits(h, request, w) <==> Accepts(h, request, w)
  {
    if request.consentID != "" && ReadConsent(h, request.consentID).Some? && w.required.Some? {
      RecoveryCapabilities(ReadConsent(h, request.consentID).value.capabilities, w.required.value);
    }
  }

  /** A consent still covers what is required after its own Docker step was taken, and nothing else. */
  lemma RecoveryCapabilities(accepted: Capabilities, required: Capabilities)
    ensures SameRecoveryCapabilities(accepted, required) <==> accepted == required || DockerArrived(accepted, required)
  {
    assert accepted.others == required.others <==> required == accepted.(docker := required.docker);
  }

  lemma StartsMeans(root: string, h: Home, request: Request, w: World)
    ensures Starts(root, h, request, w) <==>
      && Admits(root, h, request, w) && ConsentFits(h, request, w) && w.lock && (request.consentID == "" ==> w.consentWrite.Done?)
  {
    AcceptsMeans(h, request, w);
    assert RetryOf(root, request, w) == Retry(root, request.consentID, request.version, request.digest, w.required);
    assert h == map[] ==> Lock !in h;
  }

  /** An attempt that an earlier call left is used again; any other is recorded. */
  ghost predicate AttemptNoted(h: Home, w: World) {
    w.attemptWrite.Done? || (ActiveFile !in h && exists id :: AttemptFile(id) in h)
  }

  lemma NotedMeans(h: Home, w: World)
    ensures AttemptNoted(h, w) <==> w.attemptWrite.Done? || (ActiveFile !in h && AttemptIDs(h) != {})
  {
    forall id | AttemptFile(id) in h ensures id in AttemptIDs(h) {}
    forall id | id in AttemptIDs(h) ensures AttemptFile(id) in h {}
  }

  /** Nothing is replaced while work runs or without a backup, and no step on the way fails. */
  ghost predicate GoesAhead(root: string, h: Home, request: Request, w: World) {
    var over := ReadActive(h).Some?;
    && Starts(root, h, request, w) && AttemptNoted(h, w) && !AwaitsRepair(h, request)
    && (over ==> w.fence.Held? && (w.lifecycle ==> w.stop) && w.backup && w.databaseCopy.Copied?)
    && (request.pat.Some? ==> CredentialGoesIn(h, w)) && Equipped(w)
    && (Generation(GenerationName(request.digest)) in h || AllCopied(w))
    && w.verifiedWrite.Done? && w.activeWrite.Done?
  }

  lemma CommitsUnderMeans(h: Home, request: Request, w: World)
    ensures var over := ReadActive(h).Some?;
      CommitsUnder(h, request, ActiveFile !in h, w) <==>
        && !AwaitsRepair(h, request) && (ActiveFile !in h || w.attemptWrite.Done?)
        && (over ==> (w.lifecycle ==> w.stop) && w.backup && w.databaseCopy.Copied?)
        && (request.pat.Some? ==> CredentialGoesIn(h, w)) && Equipped(w)
        && Stage(h, GenerationName(request.digest), w.bundle, w.copies).1
        && w.verifiedWrite.Done? && w.activeWrite.Done?
  {}

  lemma GoesAheadMeans(root: string, h: Home, request: Request, w: World)
    ensures GoesAhead(root, h, request, w) <==>
      && Admits(root, h, request, w) && ConsentAndFence(h, request, w)
      && BeginFits(ActiveFile !in h, AttemptIDs(h) != {}, h == map[], w) && CommitsUnder(h, request, ActiveFile !in h, w)
  {
    var g := GenerationName(request.digest);
    StartsMeans(root, h, request, w);
    NotedMeans(h, w);
    CopiesSucceeded(h, g, w.bundle, w.copies, |w.bundle|);
    assert Stage(h, g, w.bundle, w.copies).1 <==> Generation(g) in h || AllCopied(w);
    assert ActiveFile !in h ==> ReadActive(h).None?;
    CommitsUnderMeans(h, request, w);
  }

  /** Exactly which calls write active.json. */
  lemma CommitsExactly(root: string, h: Home, c: Invocation, k: Home)
    requires Called(root, h, c, k)
    ensures c.rollback.committed <==> GoesAhead(root, h, c.request, c.world)
  {
    GoesAheadMeans(root, h, c.request, c.world);
    assert Exact(root, h, c.request, c.result, c.rollback.committed, c.world);
  }

  /** And what they answer once it is written: only verifying, starting and saying so is left. */
  lemma CommittedAnswers(root: string, h: Home, c: Invocation, k: Home)
    requires Called(root, h, c, k) && c.rollback.committed
    ensures ReadActive(k).Some?
    ensures var active, w := ReadActive(k).value, c.world;
      && active.generation == GenerationName(c.request.digest)
      && active.version == c.request.version && active.digest == c.request.digest
      && (c.result == RepairActive(active) <==>
            !GenerationVerifies(k, active.generation, c.request.version) || (w.lifecycle && !(w.start && w.ready)))
      && (c.result == Ready(active) && active.ready <==> !c.result.RepairActive? && w.readyWrite.Done?)
      && (c.result == Error <==> !c.result.RepairActive? && !w.readyWrite.Done?)
  {
    CommittedTold(root, h, c, k);
  }

  lemma CommittedTold(root: string, h: Home, c: Invocation, k: Home)
    requires Called(root, h, c, k) && c.rollback.committed
    ensures CommittedOutcome(k, c.request, c.result, c.world) && (c.result.Ready? ==> c.result.active.ready)
  {}

  // ----- Resuming a repair ------------------------------------------------------------------------

  /** The attempt in force was made under this consent, for the generation that waits for repair. */
  predicate MadeUnder(h: Home, active: Active, consentID: string) {
    && AttemptFile(active.attemptID) in h && h[AttemptFile(active.attemptID)].Regular?
    && h[AttemptFile(active.attemptID)].content.AttemptRecord?
    && var attempt := h[AttemptFile(active.attemptID)].content.attempt;
    && attempt.generation == active.generation && attempt.version == active.version && attempt.digest == active.digest
    && attempt.consentID == consentID
  }

  /** The call starts, and its consent is the one that the attempt in force was made under. */
  ghost predicate StartsOwn(root: string, h: Home, request: Request, w: World) {
    && Starts(root, h, request, w) && ReadActive(h).Some?
    && MadeUnder(h, ReadActive(h).value,
                 if request.consentID == "" then w.consentID else h[ConsentFile(request.consentID)].content.consent.id)
  }

  ghost predicate RepairGoesWell(root: string, h: Home, request: Request, w: World) {
    && StartsOwn(root, h, request, w) && Equipped(w) && (request.pat.Some? ==> CredentialGoesIn(h, w))
    && GenerationVerifies(h, ReadActive(h).value.generation, request.version)
    && (w.lifecycle ==> w.start && w.ready) && w.readyWrite.Done?
  }

  lemma RepairsUnderMeans(h: Home, request: Request, consentID: string, w: World)
    requires AwaitsRepair(h, request)
    ensures RepairsUnder(h, request, consentID, w) <==>
      && MadeUnder(h, ReadActive(h).value, consentID) && Equipped(w) && (request.pat.Some? ==> CredentialGoesIn(h, w))
      && GenerationVerifies(h, ReadActive(h).value.generation, request.version)
      && (w.lifecycle ==> w.start && w.ready) && w.readyWrite.Done?
  {}

  lemma RepairMeans(root: string, h: Home, request: Request, w: World)
    requires AwaitsRepair(h, request)
    ensures RepairGoesWell(root, h, request, w) <==>
      && Admits(root, h, request, w) && ConsentAndFence(h, request, w)
      && RepairsUnder(h, request, ConsentInHand(h, request, w), w)
  {
    StartsMeans(root, h, request, w);
    AcceptsMeans(h, request, w);
    RepairsUnderMeans(h, request, ConsentInHand(h, request, w), w);
  }

  /** Exactly which calls end a repair; the record stays that of the same generation. */
  lemma RepairsExactly(root: string, h: Home, c: Invocation, k: Home)
    requires Called(root, h, c, k) && AwaitsRepair(h, c.request)
    ensures c.result.Ready? <==> RepairGoesWell(root, h, c.request, c.world)
    ensures ReadActive(k) == Some(if c.result.Ready? then ReadActive(h).value.(ready := true) else ReadActive(h).value)
  {
    RepairMeans(root, h, c.request, c.world);
    assert Exact(root, h, c.request, c.result, c.rollback.committed, c.world);
    RepairStays(root, h, c, k);
  }

  lemma RepairStays(root: string, h: Home, c: Invocation, k: Home)
    requires Called(root, h, c, k) && AwaitsRepair(h, c.request)
    ensures ReadActive(k) == Some(if c.result.Ready? then ReadActive(h).value.(ready := true) else ReadActive(h).value)
  {}

  // ----- Refusing ------------------------------------------------------------------------------------

  /** What is refused at once: nothing is written for a request or a Home that does not fit, nor without consent. */
  lemma RefusedUntouched(root: string, h: Home, c: Invocation, k: Home)
    requires Called(root, h, c, k)
    ensures var sensible := c.world.valid && GenerationName(c.request.digest) != "" && HomeFits(root, h, c.request, c.world);
      && (!sensible ==> c.result == Blocked && k == h)
      && (sensible && !Accepts(h, c.request, c.world) ==> c.result == ConsentRequired && k == h)
  {
    AcceptsMeans(h, c.request, c.world);
    RefusalTold(root, h, c, k);
    assert RetryOf(root, c.request, c.world)
        == Retry(root, c.request.consentID, c.request.version, c.request.digest, c.world.required);
  }

  lemma RefusalTold(root: string, h: Home, c: Invocation, k: Home)
    requires Called(root, h, c, k)
    ensures Refused(root, h, k, c.request, c.result, c.world)
  {}

  /** Running work is exactly what stops a call that is let in over another installation, and it finds all but the lock untouched. */
  lemma ActiveWorkUntouched(root: string, h: Home, c: Invocation, k: Home)
    requires Called(root, h, c, k)
    ensures c.result == ActiveWork <==>
      && c.world.valid && GenerationName(c.request.digest) != "" && HomeFits(root, h, c.request, c.world)
      && Accepts(h, c.request, c.world) && c.world.lock && Lock !in h
      && ReadActive(h).Some? && !AwaitsRepair(h, c.request) && c.world.fence == Busy
    ensures c.result == ActiveWork ==>
      forall p :: p in h.Keys + k.Keys && p !in {Platform, Lock, State, Credentials} ==> p in h && p in k && k[p] == h[p]
  {
    AcceptsMeans(h, c.request, c.world);
    RefusalTold(root, h, c, k);
    assert ReadActive(h).Some? ==> h != map[];
    assert RetryOf(root, c.request, c.world)
        == Retry(root, c.request.consentID, c.request.version, c.request.digest, c.world.required);
    if c.result == ActiveWork {
      forall p | p in h.Keys + k.Keys && p !in {Platform, Lock, State, Credentials} ensures p in h && p in k && k[p] == h[p] {
        assert Same(h, k, p);
      }
    }
  }

  // ----- What is written ------------------------------------------------------------------------------

  /** The credential file of a committed call is the given token on a line, or what it was. */
  lemma CredentialWritten(root: string, h: Home, c: Invocation, k: Home)
    requires Called(root, h, c, k) && c.rollback.committed
    ensures c.request.pat.Some? ==> Pat in k && k[Pat] == Regular(Bytes(c.request.pat.value + "\n"))
    ensures c.request.pat.None? ==> (Pat in k <==> Pat in h) && (Pat in h ==> k[Pat] == h[Pat])
  {}

  function LowerCase(c: char): char { if 'A' <= c <= 'Z' then c - 'A' + 'a' else c }

  /** The digest says how it was computed. */
  predicate SaysSha(digest: string) {
    && |digest| >= 7 && digest[0] in {'s', 'S'} && digest[1] in {'h', 'H'} && digest[2] in {'a', 'A'}
    && digest[3] == '2' && digest[4] == '5' && digest[5] == '6' && digest[6] == ':'
  }

  /** A generation is named by its digest in lower case, without the prefix that says how it was computed. */
  lemma GenerationNamed(digest: string)
    ensures var name, skipped := GenerationName(digest), if SaysSha(digest) then 7 else 0;
      |name| == |digest| - skipped && forall i :: 0 <= i < |name| ==> name[i] == LowerCase(digest[i + skipped])
  {
    LoweredAll(digest);
    PrefixChars(Lower(digest), "sha256:");
  }

  lemma PrefixChars(s: string, prefix: string)
    requires |prefix| == 7
    ensures prefix <= s <==>
      && |s| >= 7 && s[0] == prefix[0] && s[1] == prefix[1] && s[2] == prefix[2] && s[3] == prefix[3]
      && s[4] == prefix[4] && s[5] == prefix[5] && s[6] == prefix[6]
  {
    if |s| >= 7 { assert s[..7] == prefix <==> forall i :: 0 <= i < 7 ==> s[i] == prefix[i]; }
  }

  lemma {:induction false} LoweredAll(s: string)
    ensures |Lower(s)| == |s| && forall i :: 0 <= i < |s| ==> Lower(s)[i] == LowerCase(s[i])
  {
    if s != "" { LoweredAll(s[1..]); }
  }

  /** After a fresh failure a Home holds one consent, one attempt and their directories, and at most locks and a credential. */
  lemma RecoveryLayoutHolds(h: Home, consentID: string, attemptID: string)
    ensures FreshRecoveryLayout(h, consentID, attemptID) <==>
      && {Platform, Consents, Attempts, ConsentFile(consentID), AttemptFile(attemptID)} <= h.Keys
      && h.Keys <= {Platform, Consents, Attempts, State, Credentials,
                    ConsentFile(consentID), AttemptFile(attemptID), Lock, SetupLock, Pat}
      && forall p :: p in h ==> (h[p].Dir? <==> p in {Platform, Consents, Attempts, State, Credentials})
  {
    if FreshRecoveryLayout(h, consentID, attemptID) {
      forall p | p in h ensures h[p].Dir? <==> p in {Platform, Consents, Attempts, State, Credentials} {
        assert Fits(h, p, consentID, attemptID);
      }
    }
  }

  /** What a generation must hold before it is started. */
  lemma VerifiesWhen(h: Home, g: string, version: string)
    ensures GenerationVerifies(h, g, version) <==>
      && (forall file :: file in {"platform-release.json", "workflow.exe", "workflow-setup.exe", "workflow.db"} ==>
            GenerationFile(g, file) in h && h[GenerationFile(g, file)].Regular?)
      && var manifest := h[GenerationFile(g, "platform-release.json")].content;
      && manifest.Manifest? && manifest.valid && manifest.version == version
      && forall path :: path in manifest.files ==>
           var stored := GenerationFile(g, if path == "platform/workflow.exe" then "workflow.exe"
                                           else if path == "setup/workflow-setup.exe" then "workflow-setup.exe" else path);
           stored in h && h[stored] == Regular(Bytes(manifest.files[path]))
  {
    var names := {"platform-release.json", "workflow.exe", "workflow-setup.exe", "workflow.db"};
    assert "platform-release.json" in names && "workflow.exe" in names && "workflow-setup.exe" in names && "workflow.db" in names;
  }
}
