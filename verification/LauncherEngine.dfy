/** One Apply of the launcher: every exit, the deferred rollback, and the forward-only activation. */
module LauncherEngine {
  import opened Collections
  import opened LauncherHome
  import opened LauncherStaging

  /** `consentID` is empty when capabilities are accepted in the request itself. */
  datatype Request = Request(version: string, digest: string, consentID: string, accepted: Capabilities, pat: Option<string>)

  datatype Fence = NoDatabase | FenceFails | Busy | Held

  /** What everything outside the Home answers to one Apply. */
  datatype World = World(
    valid: bool,
    required: Option<Capabilities>,
    prospectiveLock: bool,
    lock: bool,
    unlock: bool,
    now: int,
    fence: Fence,
    consentID: string,
    attemptID: string,
    consentWrite: Fate,
    attemptWrite: Fate,
    stop: bool,
    ownerBound: bool,
    patIdentity: bool,
    patReadable: bool,
    patWrite: Fate,
    lifecycle: bool,
    prepare: bool,
    dispatcher: CopyFate,
    path: bool,
    bundle: seq<File>,
    copies: nat -> CopyFate,
    backup: bool,
    databaseCopy: CopyFate,
    database: bool,
    worker: bool,
    patVerified: bool,
    patRecorded: bool,
    verifiedWrite: Fate,
    activeWrite: Fate,
    start: bool,
    ready: bool,
    readyWrite: Fate,
    finalWrite: Fate,
    failWrite: Fate,
    removals: nat -> bool,
    halfRemoved: Path -> bool,
    restore: bool)

  datatype Outcome =
    | Blocked | ConsentRequired | ActiveWork | Error
    | RepairFresh(consent: Consent, attempt: Attempt)
    | RepairActive(active: Active)
    | Ready(active: Active)

  /** What the deferred rollback looks at. */
  datatype Rollback = Rollback(replaced: bool, prior: Option<Node>, committed: bool)

  /** Random identifiers have the right form, and the clock does not read zero. */
  predicate WellFormed(w: World) { SafeConsentID(w.consentID) && SafeAttemptID(w.attemptID) && w.now != 0 }

  /** They are also new. */
  predicate Plausible(w: World, h: Home) {
    WellFormed(w) && ConsentFile(w.consentID) !in h && AttemptFile(w.attemptID) !in h
  }

  /** Nothing outside the Home fails before the staging, nor the backup of the old database. */
  predicate UpToStaging(w: World) {
    && w.valid && w.required.Some? && w.prospectiveLock && w.lock
    && w.consentWrite.Done? && w.attemptWrite.Done? && w.stop
    && w.ownerBound && w.patIdentity && w.patReadable && w.patWrite.Done? && w.prepare
    && w.dispatcher.Copied? && w.path && w.backup
  }

  /** Nothing outside the Home fails up to the activation. */
  ghost predicate Smooth(w: World) {
    && UpToStaging(w) && (forall i :: w.copies(i).Copied?)
    && w.databaseCopy.Copied? && w.database && w.worker && w.patVerified && w.patRecorded
    && w.verifiedWrite.Done? && w.activeWrite.Done?
  }

  ghost predicate AttemptsKept(h: Home, k: Home) { forall id :: Same(h, k, AttemptFile(id)) }

  lemma AttemptsElsewhere(h: Home, p: Path, content: Content, fate: CopyFate)
    requires p.Pat? || p.Dispatcher?
    ensures AttemptsKept(h, CopiedTo(h, p, content, fate))
  {
    forall id, done: Fate, text ensures Same(h, Written(h, p, text, done), AttemptFile(id)) {}
  }

  // ----- What a commit takes ------------------------------------------------------------------------

  /** The new credential can replace what there is. */
  predicate CredentialFits(h: Home, w: World) {
    w.ownerBound && w.patIdentity && (Pat in h ==> w.patReadable && h[Pat].Regular?) && w.patWrite.Done?
  }

  /** Dependencies, dispatcher and PATH can be had. */
  predicate Equips(w: World) { (w.lifecycle ==> w.prepare) && w.dispatcher.Copied? && w.path }

  /** All that precedes the staging. */
  predicate Prepares(h: Home, request: Request, upgrade: bool, w: World) {
    (upgrade && w.lifecycle ==> w.stop) && (request.pat.Some? ==> CredentialFits(h, w)) && Equips(w)
  }

  /** The database opens, and takes the release and the credential's verification. */
  predicate Records(pat: Option<string>, w: World) {
    w.database && w.worker && (pat.Some? ==> w.ownerBound && w.patVerified && w.patRecorded)
  }

  predicate StagesCandidate(h: Home, g: string, upgrade: bool, w: World) {
    Stage(h, g, w.bundle, w.copies).1 && (upgrade ==> w.backup && w.databaseCopy.Copied?)
  }

  predicate CandidateFits(h: Home, g: string, pat: Option<string>, first: bool, upgrade: bool, w: World) {
    && (first || w.attemptWrite.Done?) && StagesCandidate(h, g, upgrade, w) && Records(pat, w)
    && w.verifiedWrite.Done? && w.activeWrite.Done?
  }

  lemma CandidateAlike(h: Home, m: Home, g: string, pat: Option<string>, first: bool, upgrade: bool, w: World)
    requires PayloadKept(h, m)
    ensures StagesCandidate(h, g, upgrade, w) <==> StagesCandidate(m, g, upgrade, w)
    ensures CandidateFits(h, g, pat, first, upgrade, w) <==> CandidateFits(m, g, pat, first, upgrade, w)
  {
    StageAlike(h, m, g, w.bundle, w.copies);
  }

  lemma RepairAlike(h: Home, m: Home, active: Active, consentID: string, pat: Option<string>, w: World)
    requires PayloadKept(h, m) && Same(h, m, AttemptFile(active.attemptID))
    ensures RepairFits(h, active, consentID, pat, w) <==> RepairFits(m, active, consentID, pat, w)
  {
    assert Same(h, m, GenerationFile(active.generation, MANIFEST));
    forall file ensures Same(h, m, GenerationFile(active.generation, file)) {}
  }

  /** The resumed repair ends ready. */
  predicate RepairFits(h: Home, active: Active, consentID: string, pat: Option<string>, w: World) {
    && OwnAttempt(h, active, consentID) && GenerationVerifies(h, active.generation, active.version)
    && Records(pat, w) && Live(w) && w.readyWrite.Done?
  }

  /** A call that is stopped while it stages is blocked, and leaves the generations as far as it came. */
  ghost predicate BlockedAtStop(h: Home, k: Home, g: string, r: Outcome, w: World) {
    UpToStaging(w) && Stops(h, g, w.bundle, w.copies, w.databaseCopy) ==>
      r.Blocked? && PayloadKept(StoppedAt(h, g, w.bundle, w.copies, w.databaseCopy), k)
  }

  lemma BlockedAround(h: Home, m: Home, k: Home, l: Home, g: string, r: Outcome, w: World)
    requires PayloadKept(h, m) && BlockedAtStop(m, k, g, r, w) && PayloadKept(k, l)
    ensures BlockedAtStop(h, l, g, r, w)
  {
    StoppedAlike(h, m, g, w.bundle, w.copies, w.databaseCopy);
    if UpToStaging(w) && Stops(h, g, w.bundle, w.copies, w.databaseCopy) {
      var stopped := StoppedAt(m, g, w.bundle, w.copies, w.databaseCopy);
      PayloadThen(StoppedAt(h, g, w.bundle, w.copies, w.databaseCopy), stopped, k);
      PayloadThen(StoppedAt(h, g, w.bundle, w.copies, w.databaseCopy), k, l);
    }
  }

  /** The control plane starts and is seen live. */
  predicate Live(w: World) { w.lifecycle ==> w.start && w.ready }

  /** An existing credential is a file. */
  predicate PatIsFile(h: Home) { Pat in h ==> h[Pat].Regular? }

  /** The consent in the request, or the one it names, covers what is required now. */
  predicate ConsentFits(h: Home, request: Request, w: World) {
    && w.required.Some?
    && if request.consentID == "" then w.ownerBound && request.accepted == w.required.value
       else
         var consent := ReadConsent(h, request.consentID);
         && consent.Some? && consent.value.version == request.version && consent.value.digest == request.digest
         && SameRecoveryCapabilities(consent.value.capabilities, w.required.value)
  }

  predicate NotActivated(r: Outcome) { r.Blocked? || r.ConsentRequired? || r.ActiveWork? || r.Error? || r.RepairFresh? }

  function Secret(pat: string): Node { Regular(Bytes(pat + "\n")) }

  /** active.json names an attempt of the same generation that was recorded verified. */
  ghost predicate Sound(h: Home) {
    ReadActive(h).Some? ==>
      var active := ReadActive(h).value;
      var attempt := ReadAttempt(h, active.attemptID);
      && attempt.Some? && attempt.value.generation == active.generation && attempt.value.version == active.version
      && attempt.value.digest == active.digest && (attempt.value.phase.Verified? || attempt.value.phase.ReadyPhase?)
  }

  /** What holds once the new active record was written. */
  ghost predicate Activated(h: Home, request: Request, attempt: Attempt, r: Outcome, w: World) {
    && ReadActive(h).Some?
    && var active := ReadActive(h).value;
    && active.generation == attempt.generation && active.version == request.version && active.digest == request.digest
    && active.attemptID == attempt.id && (active.ready <==> r.Ready?) && Sound(h)
    && r == if !GenerationVerifies(h, active.generation, active.version) || !Live(w) then RepairActive(active)
            else if w.readyWrite.Done? then Ready(active) else Error
  }

  function Candidate(request: Request, consent: Consent, attempt: Attempt): Active {
    Active(attempt.generation, request.version, request.digest, attempt.id, consent.id, false)
  }

  function Committed(h: Home, active: Active, attempt: Attempt): Home {
    Written(Written(h, AttemptFile(attempt.id), AttemptRecord(attempt), Done), ActiveFile, ActiveRecord(active), Done)
  }

  function AfterCommit(h: Home, attempt: Attempt, record: Content, fate: Fate, active: Content, activeFate: Fate): Home {
    var k := Written(h, AttemptFile(attempt.id), record, fate);
    if fate.Done? then Written(k, ActiveFile, active, activeFate) else k
  }

  /** Two writes of which one failed: the active record is as before, and so is the shape. */
  lemma UncommittedFrame(h: Home, consent: Consent, attempt: Attempt, first: bool, record: Content, fate: Fate, active: Content, activeFate: Fate)
    requires first ==> Fresh(h, consent, attempt)
    ensures var l := AfterCommit(h, attempt, record, fate, active, activeFate);
      (fate.Done? && activeFate.Done?)
      || (Frame(h, l, consent.id, attempt.id, attempt.generation) && Same(h, l, ActiveFile) && (first ==> Fresh(l, consent, attempt)))
    ensures Same(h, AfterCommit(h, attempt, record, fate, active, activeFate), Pat)
  {
    var k := Written(h, AttemptFile(attempt.id), record, fate);
    if first { FreshWritten(h, consent, attempt, AttemptFile(attempt.id), record, fate); }
    FrameWritten(h, AttemptFile(attempt.id), record, fate, consent.id, attempt.id, attempt.generation);
    if fate.Done? && !activeFate.Done? {
      assert Written(k, ActiveFile, active, activeFate) == k;
    }
  }

  lemma UncommittedPayload(h: Home, attempt: Attempt, record: Content, fate: Fate, active: Content, activeFate: Fate)
    ensures PayloadKept(h, AfterCommit(h, attempt, record, fate, active, activeFate))
  {
    var k := Written(h, AttemptFile(attempt.id), record, fate);
    PayloadWritten(h, AttemptFile(attempt.id), record, fate);
    PayloadWritten(k, ActiveFile, active, activeFate);
    PayloadThen(h, k, Written(k, ActiveFile, active, activeFate));
  }

  lemma CommittedMeans(h: Home, active: Active, attempt: Attempt, consentID: string)
    requires active.attemptID == attempt.id && active.generation == attempt.generation != "" && attempt.phase.Verified?
    requires active.version == attempt.version && active.digest == attempt.digest
    ensures ReadActive(Committed(h, active, attempt)) == Some(active) && Sound(Committed(h, active, attempt))
    ensures FrameButActive(h, Committed(h, active, attempt), consentID, attempt.id, attempt.generation)
  {}

  lemma CommitPayload(h: Home, active: Active, attempt: Attempt)
    ensures PayloadKept(h, Committed(h, active, attempt)) && Same(h, Committed(h, active, attempt), Backup(attempt.id))
  {
    var k := Written(h, AttemptFile(attempt.id), AttemptRecord(attempt), Done);
    PayloadWritten(h, AttemptFile(attempt.id), AttemptRecord(attempt), Done);
    PayloadWritten(k, ActiveFile, ActiveRecord(active), Done);
    PayloadThen(h, k, Committed(h, active, attempt));
  }

  function WentLive(h: Home, active: Active, attempt: Attempt, fate: Fate): Home {
    Written(Written(h, ActiveFile, ActiveRecord(active), Done), AttemptFile(attempt.id), AttemptRecord(attempt), fate)
  }

  ghost predicate OnlyRecords(h: Home, k: Home, attemptID: string) {
    forall p: Path :: !p.ActiveFile? && !p.Platform? && !p.Attempts? && p != AttemptFile(attemptID) ==> Same(h, k, p)
  }

  lemma RecordsPayload(h: Home, k: Home, l: Home, attemptID: string)
    requires PayloadKept(h, k) && Same(h, k, Backup(attemptID)) && OnlyRecords(k, l, attemptID)
    ensures PayloadKept(h, l) && Same(h, l, Backup(attemptID))
  {
    assert Same(k, l, Backup(attemptID));
    forall p: Path | p.Generation? || p.GenerationFile? ensures Same(h, l, p) { assert Same(h, k, p) && Same(k, l, p); }
  }

  /** Saying ready keeps the active record's attempt sound and the generation's files as they were. */
  lemma LiveMeans(h: Home, active: Active, attempt: Attempt, fate: Fate)
    requires ReadActive(h) == Some(active)
    requires attempt.generation == active.generation && attempt.version == active.version && attempt.digest == active.digest
    ensures var k := WentLive(h, active.(ready := true), attempt.(phase := ReadyPhase), fate);
      ReadActive(k) == Some(active.(ready := true)) && (Sound(h) ==> Sound(k)) && OnlyRecords(h, k, attempt.id) && Same(h, k, Pat)
      && (GenerationVerifies(h, active.generation, active.version) ==> GenerationVerifies(k, active.generation, active.version))
  {
    var k := WentLive(h, active.(ready := true), attempt.(phase := ReadyPhase), fate);
    if GenerationVerifies(h, active.generation, active.version) {
      VerifiesAlike(h, k, attempt.id, active.generation, active.version);
    }
  }

  lemma VerifiesAlike(h: Home, k: Home, attemptID: string, g: string, version: string)
    requires OnlyRecords(h, k, attemptID) && GenerationVerifies(h, g, version)
    ensures GenerationVerifies(k, g, version)
  {
    forall name ensures Same(h, k, GenerationFile(g, name)) {}
  }

  lemma NotLiveMeans(h: Home, active: Active, fate: Fate)
    requires ReadActive(h) == Some(active) && !fate.Done?
    ensures var k := Written(h, ActiveFile, ActiveRecord(active.(ready := true)), fate);
      ReadActive(k) == Some(active) && (Sound(h) ==> Sound(k)) && OnlyRecords(h, k, active.attemptID) && Same(h, k, Pat)
      && (GenerationVerifies(h, active.generation, active.version) ==> GenerationVerifies(k, active.generation, active.version))
  {
    var k := Written(h, ActiveFile, ActiveRecord(active.(ready := true)), fate);
    if GenerationVerifies(h, active.generation, active.version) {
      VerifiesAlike(h, k, active.attemptID, active.generation, active.version);
    }
  }

  /** The content of the database that is backed up online: the one of the generation in force. */
  function OldDatabase(h: Home): Content {
    var active := ReadActive(h);
    if active.None? then Bytes("") else
      var database := GenerationFile(active.value.generation, DATABASE);
      if IsFile(h, database) then h[database].content else Bytes("")
  }

  // ----- The database in force ----------------------------------------------------------------

  /** The record names a generation whose database is a file; where that is generation `g`, its directory is there too. */
  ghost predicate InUse(h: Home, active: Active, g: string) {
    && ReadActive(h) == Some(active) && IsFile(h, GenerationFile(active.generation, DATABASE))
    && (active.generation == g ==> Generation(g) in h)
  }

  /** Generation `g` and the attempt's backup both hold the database that was in use. */
  ghost predicate Carries(h: Home, k: Home, g: string, attemptID: string) {
    forall active :: InUse(h, active, g) ==>
      var live := h[GenerationFile(active.generation, DATABASE)];
      && Generation(g) in k && GenerationFile(g, DATABASE) in k && k[GenerationFile(g, DATABASE)] == live
      && Backup(attemptID) in k && k[Backup(attemptID)] == live
  }

  /** The database in use is where it was, as it was. */
  ghost predicate LiveStays(h: Home, k: Home, g: string) {
    forall active :: InUse(h, active, g) ==> Same(h, k, GenerationFile(active.generation, DATABASE))
  }

  /** It is carried over to an installed candidate, and never lost unless its own copy stops half way. */
  ghost predicate KeepsData(h: Home, k: Home, g: string, attemptID: string, installed: bool, fate: CopyFate) {
    (installed ==> Carries(h, k, g, attemptID)) && (!fate.Truncated? ==> LiveStays(h, k, g))
  }

  /** What is in use stays in use. */
  ghost predicate UseKept(h: Home, k: Home, g: string) {
    forall active :: InUse(h, active, g) ==> InUse(k, active, g) && Same(h, k, GenerationFile(active.generation, DATABASE))
  }

  ghost predicate DatabasesKept(h: Home, k: Home) {
    forall g :: IsFile(h, GenerationFile(g, DATABASE)) ==> Same(h, k, GenerationFile(g, DATABASE))
  }

  lemma PayloadDatabases(h: Home, k: Home, g: string)
    requires PayloadKept(h, k)
    ensures DatabasesKept(h, k) && (Generation(g) in h <==> Generation(g) in k)
    ensures ReadActive(k) == ReadActive(h) ==> UseKept(h, k, g)
  {
    assert Same(h, k, Generation(g));
    forall name ensures Same(h, k, GenerationFile(name, DATABASE)) {}
  }

  lemma UseKeeps(h: Home, k: Home, g: string, attemptID: string, fate: CopyFate)
    requires UseKept(h, k, g)
    ensures KeepsData(h, k, g, attemptID, false, fate)
  {}

  lemma KeepsDataAround(h: Home, m: Home, l: Home, k: Home, g: string, attemptID: string, installed: bool, fate: CopyFate)
    requires UseKept(h, m, g) && KeepsData(m, l, g, attemptID, installed, fate)
    requires DatabasesKept(l, k) && (installed ==> Same(l, k, Backup(attemptID)) && (Generation(g) in l ==> Generation(g) in k))
    ensures KeepsData(h, k, g, attemptID, installed, fate)
  {
    forall active | InUse(h, active, g) ensures InUse(m, active, g) && Same(h, m, GenerationFile(active.generation, DATABASE)) {}
    if installed {
      forall active | InUse(h, active, g)
        ensures var live := h[GenerationFile(active.generation, DATABASE)];
          && Generation(g) in k && GenerationFile(g, DATABASE) in k && k[GenerationFile(g, DATABASE)] == live
          && Backup(attemptID) in k && k[Backup(attemptID)] == live
      {
        assert InUse(m, active, g);
        assert IsFile(l, GenerationFile(g, DATABASE));
      }
    }
    if !fate.Truncated? {
      forall active | InUse(h, active, g) ensures Same(h, k, GenerationFile(active.generation, DATABASE)) {
        assert InUse(m, active, g) && Same(m, l, GenerationFile(active.generation, DATABASE));
        assert IsFile(l, GenerationFile(active.generation, DATABASE));
      }
    }
  }

  /** Staging leaves alone what is in use: another generation, or one that is there already. */
  lemma StagingKeepsUse(h: Home, k: Home, consentID: string, attemptID: string, g: string)
    requires Frame(h, k, consentID, attemptID, g) && (Generation(g) in h ==> PayloadKept(h, k))
    ensures UseKept(h, k, g)
  {
    assert Same(h, k, ActiveFile);
    if Generation(g) in h {
      PayloadDatabases(h, k, g);
    }
    forall active | InUse(h, active, g) && active.generation != g
      ensures InUse(k, active, g) && Same(h, k, GenerationFile(active.generation, DATABASE))
    {
      assert Same(h, k, GenerationFile(active.generation, DATABASE));
    }
  }

  lemma StagingKeepsData(h: Home, staged: Home, consentID: string, attempt: Attempt, fate: CopyFate)
    requires Frame(h, staged, consentID, attempt.id, attempt.generation)
    requires Generation(attempt.generation) in h ==> PayloadKept(h, staged)
    ensures KeepsData(h, staged, attempt.generation, attempt.id, false, fate)
  {
    StagingKeepsUse(h, staged, consentID, attempt.id, attempt.generation);
    UseKeeps(h, staged, attempt.generation, attempt.id, fate);
  }

  lemma CopyKeepsData(h: Home, staged: Home, k: Home, consentID: string, attempt: Attempt, installed: bool, fate: CopyFate)
    requires Frame(h, staged, consentID, attempt.id, attempt.generation)
    requires Generation(attempt.generation) in h ==> PayloadKept(h, staged)
    requires KeepsData(staged, k, attempt.generation, attempt.id, installed, fate)
    ensures KeepsData(h, k, attempt.generation, attempt.id, installed, fate)
  {
    StagingKeepsUse(h, staged, consentID, attempt.id, attempt.generation);
    KeepsDataAround(h, staged, k, k, attempt.generation, attempt.id, installed, fate);
  }

  /** What was staged is still there once it is recorded and activated, or was given up. */
  lemma StagedKeepsData(h: Home, staged: Home, k: Home, attempt: Attempt, installed: bool, fate: CopyFate)
    requires KeepsData(h, staged, attempt.generation, attempt.id, true, fate) && DatabasesKept(staged, k)
    requires installed ==>
      Same(staged, k, Backup(attempt.id)) && (Generation(attempt.generation) in staged ==> Generation(attempt.generation) in k)
    ensures KeepsData(h, k, attempt.generation, attempt.id, installed, fate)
  {
    PayloadDatabases(h, h, attempt.generation);
    KeepsDataAround(h, h, staged, k, attempt.generation, attempt.id, installed, fate);
  }

  lemma ActivationKeepsData(h: Home, staged: Home, k: Home, attempt: Attempt, committed: bool, fate: CopyFate)
    requires KeepsData(h, staged, attempt.generation, attempt.id, true, fate) && PayloadKept(staged, k)
    requires committed ==> Same(staged, k, Backup(attempt.id))
    ensures KeepsData(h, k, attempt.generation, attempt.id, committed, fate)
  {
    PayloadDatabases(staged, k, attempt.generation);
    StagedKeepsData(h, staged, k, attempt, committed, fate);
  }

  /** What was prepared before, and an installation or a resumed repair after it. */
  lemma PreparedKeepsData(h: Home, m: Home, k: Home, attempt: Attempt, installed: bool, fate: CopyFate)
    requires PayloadKept(h, m) && ReadActive(m) == ReadActive(h)
    requires ReadActive(h).None? || KeepsData(m, k, attempt.generation, attempt.id, installed, fate)
    ensures KeepsData(h, k, attempt.generation, attempt.id, installed, fate)
  {
    if ReadActive(h).Some? {
      PayloadDatabases(h, m, attempt.generation);
      KeepsDataAround(h, m, k, k, attempt.generation, attempt.id, installed, fate);
    }
  }

  lemma LeftKeepsData(h: Home, k: Home, attempt: Attempt, fate: CopyFate)
    requires ReadActive(h).None? || PayloadKept(h, k)
    ensures KeepsData(h, k, attempt.generation, attempt.id, false, fate)
  {
    if ReadActive(h).Some? {
      forall active | InUse(h, active, attempt.generation)
        ensures Same(h, k, GenerationFile(active.generation, DATABASE)) {}
    }
  }

  lemma NewDatabaseKeeps(h: Home, attempt: Attempt)
    requires GenerationFile(attempt.generation, DATABASE) !in h
    ensures var k := CopiedTo(h, GenerationFile(attempt.generation, DATABASE), NEW_DATABASE, Copied);
      DatabasesKept(h, k) && Same(h, k, Backup(attempt.id))
  {}

  /** The online backup and the copy of it. */
  lemma BackupCarries(h: Home, attempt: Attempt, fate: CopyFate)
    ensures var k := CopiedTo(Written(h, Backup(attempt.id), OldDatabase(h), Done),
                              GenerationFile(attempt.generation, DATABASE), OldDatabase(h), fate);
      KeepsData(h, k, attempt.generation, attempt.id, fate.Copied?, fate)
  {
    var content := OldDatabase(h);
    var backed := Written(h, Backup(attempt.id), content, Done);
    var candidate := GenerationFile(attempt.generation, DATABASE);
    var k := CopiedTo(backed, candidate, content, fate);
    forall active | InUse(h, active, attempt.generation)
      ensures fate.Copied? ==>
        var live := h[GenerationFile(active.generation, DATABASE)];
        && Generation(attempt.generation) in k && candidate in k && k[candidate] == live && Backup(attempt.id) in k && k[Backup(attempt.id)] == live
      ensures !fate.Truncated? ==> Same(h, k, GenerationFile(active.generation, DATABASE))
    {
      var live := GenerationFile(active.generation, DATABASE);
      assert content == h[live].content && h[live] == Regular(content);
      WrittenAt(h, Backup(attempt.id), content, Done, live);
      WrittenAt(h, Backup(attempt.id), content, Done, Backup(attempt.id));
      WrittenAt(backed, candidate, content, Done, live);
      WrittenAt(backed, candidate, content, Done, candidate);
      WrittenAt(backed, candidate, content, Done, Backup(attempt.id));
      WrittenAt(backed, candidate, content, Done, Generation(attempt.generation));
      WrittenAt(backed, candidate, content, OnlyDirectories, live);
    }
  }

  lemma FrameDatabase(h: Home, consentID: string, attempt: Attempt, content: Content, fate: CopyFate)
    ensures var k := CopiedTo(Written(h, Backup(attempt.id), content, Done), GenerationFile(attempt.generation, DATABASE), content, fate);
      Frame(h, k, consentID, attempt.id, attempt.generation) && Same(h, k, Pat) && Same(h, k, ActiveFile)
  {
    var backed := Written(h, Backup(attempt.id), content, Done);
    var database := GenerationFile(attempt.generation, DATABASE);
    FrameWritten(h, Backup(attempt.id), content, Done, consentID, attempt.id, attempt.generation);
    FrameCopied(backed, database, content, fate, consentID, attempt.id, attempt.generation);
    FrameThen(h, backed, CopiedTo(backed, database, content, fate), consentID, attempt.id, attempt.generation);
  }

  /** What the copy of the backup does to the generations. */
  lemma DatabaseCopyPayload(h: Home, attempt: Attempt, content: Content, fate: CopyFate)
    ensures var k := CopiedTo(Written(h, Backup(attempt.id), content, Done), GenerationFile(attempt.generation, DATABASE), content, fate);
      && GenerationKept(h, k, attempt.generation)
      && (fate.Copied? ==> IsFile(k, GenerationFile(attempt.generation, DATABASE)))
      && (!fate.Copied? ==> PayloadKept(CopiedTo(h, GenerationFile(attempt.generation, DATABASE), Bytes(""), fate), k))
  {
    var backed := Written(h, Backup(attempt.id), content, Done);
    PayloadWritten(h, Backup(attempt.id), content, Done);
    PayloadKeeps(h, backed, attempt.generation);
    DatabaseCopyKeeps(backed, attempt.generation, content, fate);
    KeptThen(h, backed, CopiedTo(backed, GenerationFile(attempt.generation, DATABASE), content, fate), attempt.generation);
    CopyAlike(h, backed, attempt.generation, DATABASE, Bytes(""), fate);
  }

  function NewConsent(root: string, request: Request, w: World): Consent {
    Consent(PROTOCOL_VERSION, w.consentID, request.version, request.digest, root, request.accepted)
  }

  function NewAttempt(request: Request, consent: Consent, w: World, phase: Phase): Attempt {
    Attempt(PROTOCOL_VERSION, w.attemptID, request.version, request.digest, GenerationName(request.digest), consent.id, phase, w.now)
  }

  function RetryOf(root: string, request: Request, w: World): Retry {
    Retry(root, request.consentID, request.version, request.digest, w.required)
  }

  ghost predicate FrameConsent(h: Home, k: Home, w: World) {
    forall p: Path :: !p.Platform? && !p.Consents? && p != ConsentFile(w.consentID) ==> Same(h, k, p)
  }

  lemma AttemptMakesFresh(h: Home, consent: Consent, attempt: Attempt)
    requires ConsentOnlyLayout(h, consent.id) && ReadConsent(h, consent.id) == Some(consent)
    ensures Fresh(Written(h, AttemptFile(attempt.id), AttemptRecord(attempt), Done), consent, attempt)
    ensures forall fate :: Same(h, Written(h, AttemptFile(attempt.id), AttemptRecord(attempt), fate), ActiveFile)
  {}

  lemma FirstConsent(consent: Consent)
    ensures var h := Written(map[], ConsentFile(consent.id), ConsentRecord(consent), Done);
      ConsentOnlyLayout(h, consent.id) && ReadConsent(h, consent.id) == Some(consent)
  {}

  /** What recovery finds is the shape and the authority that a fresh attempt works under. */
  lemma RecoveredIsFresh(h: Home, r: Retry, consent: Consent, attempt: Attempt)
    requires Recovers(h, r, consent, Some(attempt))
    ensures Fresh(h, consent, attempt) && Authority(r.version, r.digest, consent, attempt) && consent.home == r.root
  {}

  lemma LayoutsAreInactive(h: Home, r: Retry, consent: Consent, attempt: Option<Attempt>)
    requires Recovers(h, r, consent, attempt)
    ensures ActiveFile !in h
  {
    assert ActiveFile in h && attempt.Some? ==> Fits(h, ActiveFile, consent.id, attempt.value.id);
    assert ActiveFile in h && attempt.None? ==> FitsConsentOnly(h, ActiveFile, consent.id);
  }

  /** Another target may be installed over what there is: no work runs, and the credential is a file. */
  predicate MayInstall(h: Home, request: Request, w: World) {
    && !Resumes(ReadActive(h), request) && PatIsFile(h)
    && (ReadActive(h).Some? ==> w.fence.Held?)
  }

  /** A request that fits a Home that is missing, installed or recoverable, and not locked. */
  ghost predicate Admissible(h: Home, root: string, request: Request, w: World) {
    && GenerationName(request.digest) != "" && ConsentFits(h, request, w) && Lock !in h
    && (h == map[] || ActiveFile in h || Recoverable(h, RetryOf(root, request, w)))
  }

  /** The part of the Home that this attempt may not touch, and the shape of a fresh one. */
  ghost predicate Contained(h: Home, k: Home, consent: Consent, attempt: Attempt, first: bool) {
    && Frame(h, k, consent.id, attempt.id, attempt.generation)
    && (first ==> Fresh(k, consent, attempt))
  }

  /** An exit before activation: a fresh failure leaves what a retry needs, and nothing was activated. */
  ghost predicate Exits(h: Home, k: Home, r: Outcome, consent: Consent, attempt: Attempt, first: bool) {
    && NotActivated(r) && !r.ActiveWork?
    && Same(h, k, ActiveFile) && Frame(h, k, consent.id, attempt.id, attempt.generation)
    && (r.RepairFresh? ==> first && r == RepairFresh(consent, attempt.(phase := Failed)) && LeftForRetry(k, consent, r.attempt))
  }

  lemma ExitsAfter(h: Home, m: Home, k: Home, r: Outcome, consent: Consent, attempt: Attempt, first: bool)
    requires Frame(h, m, consent.id, attempt.id, attempt.generation) && Same(h, m, ActiveFile)
    requires Exits(m, k, r, consent, attempt, first)
    ensures Exits(h, k, r, consent, attempt, first)
  {
    FrameThen(h, m, k, consent.id, attempt.id, attempt.generation);
  }

  /** Removals and the failure record succeed. */
  predicate Cooperates(w: World) { w.removals(0) && w.removals(1) && w.removals(2) && w.removals(3) && w.failWrite.Done? }

  predicate Removable(h: Home, g: string, w: World) {
    && w.removals(0) && w.removals(1) && w.removals(2) && w.removals(3)
    && IsEmpty(WithoutTree(h, Generation(g)), Generations)
    && IsEmpty(WithoutTree(h, Generation(g)) - {Generations, Dispatcher}, Bin)
  }

  // ----- How a call may end -------------------------------------------------------------------

  /** A repair of the same target is resumed in place. */
  predicate Resumes(active: Option<Active>, request: Request) {
    active.Some? && !active.value.ready && active.value.version == request.version && active.value.digest == request.digest
  }

  /** The credential is as before, or replaced with the old one at hand. */
  ghost predicate PatKept(h: Home, k: Home, request: Request, rollback: Rollback) {
    && (rollback.prior.Some? ==> rollback.prior.value.Regular?)
    && (!rollback.replaced ==> Same(h, k, Pat))
    && (rollback.replaced ==> request.pat.Some? && Credential(k) == Some(Secret(request.pat.value)) && rollback.prior == Credential(h))
    && (rollback.committed ==> rollback.replaced == request.pat.Some?)
  }

  ghost predicate FrameButRecords(h: Home, k: Home, consentID: string, attemptID: string, g: string) {
    forall p :: !Touchable(p, consentID, attemptID, g) && !p.Pat? && !p.ActiveFile? && !p.AttemptFile? ==> Same(h, k, p)
  }

  /** The record in force and the consent in hand belong to the attempt it names. */
  predicate OwnAttempt(h: Home, active: Active, consentID: string) {
    var attempt := ReadAttempt(h, active.attemptID);
    && attempt.Some? && attempt.value.generation == active.generation && attempt.value.version == active.version
    && attempt.value.digest == active.digest && attempt.value.consentID == consentID
  }

  ghost predicate Repaired(h: Home, k: Home, active: Active, r: Outcome, w: World) {
    && (r == RepairActive(active) || r.ConsentRequired? || r.Error? || r == Ready(active.(ready := true)))
    && ReadActive(k) == Some(if r.Ready? then active.(ready := true) else active)
    && (r.Ready? ==> GenerationVerifies(k, active.generation, active.version) && Live(w))
    && (Sound(h) ==> Sound(k))
  }

  ghost predicate Ends(h: Home, k: Home, request: Request, consent: Consent, attempt: Attempt, first: bool,
                       active: Option<Active>, r: Outcome, rollback: Rollback, w: World) {
    if rollback.committed then
      && !Resumes(active, request) && (r.RepairActive? || r.Error? || r.Ready?) && Activated(k, request, attempt, r, w)
      && FrameButActive(h, k, consent.id, attempt.id, attempt.generation)
    else
      || Exits(h, k, r, consent, attempt, first)
      || (Resumes(active, request) && Repaired(h, k, active.value, r, w)
          && FrameButRecords(h, k, consent.id, attempt.id, attempt.generation))
  }

  lemma ReadsAlike(h: Home, k: Home, consentID: string, attempt: Attempt)
    requires Frame(h, k, consentID, attempt.id, attempt.generation)
    ensures ReadActive(k) == ReadActive(h) && Same(h, k, ActiveFile)
    ensures AttemptFile(attempt.id) !in h && Sound(h) ==> Sound(k)
  {
    assert Same(h, k, ActiveFile);
    if ReadActive(h).Some? {
      var id := ReadActive(h).value.attemptID;
      assert id != attempt.id ==> Same(h, k, AttemptFile(id));
    }
  }

  lemma RepairEnds(h: Home, k: Home, l: Home, consentID: string, attempt: Attempt)
    requires Frame(h, k, consentID, attempt.id, attempt.generation)
    requires forall p: Path :: !p.ActiveFile? && !p.Platform? && !p.Attempts? && !p.AttemptFile? ==> Same(k, l, p)
    ensures FrameButRecords(h, l, consentID, attempt.id, attempt.generation)
  {
    forall p | !Touchable(p, consentID, attempt.id, attempt.generation) && !p.Pat? && !p.ActiveFile? && !p.AttemptFile?
      ensures Same(h, l, p)
    {
      assert Same(h, k, p) && Same(k, l, p);
    }
  }

  lemma RepairPayload(h: Home, k: Home, l: Home, g: string)
    requires PayloadKept(h, k)
    requires forall p: Path :: !p.ActiveFile? && !p.Platform? && !p.Attempts? && !p.AttemptFile? ==> Same(k, l, p)
    ensures KeepsGeneration(h, l, g) && PayloadKept(h, l)
  {
    assert PayloadKept(k, l);
    PayloadThen(h, k, l);
    PayloadKeeps(h, l, g);
  }

  /** The new active record, if there is one, is for the target of this call. */
  ghost predicate Forward(h: Home, k: Home, request: Request, w: World) {
    var before, after := ReadActive(h), ReadActive(k);
    after != before ==>
      && after.Some? && after.value.version == request.version && after.value.digest == request.digest
      && (after.value.generation == GenerationName(request.digest)
          || (Resumes(before, request) && after.value == before.value.(ready := true)))
      && (after.value.ready ==>
            GenerationVerifies(k, after.value.generation, after.value.version) && Live(w))
  }

  /** What one call, whatever failed in it, has done to the installation. */
  ghost predicate Overall(root: string, h: Home, k: Home, request: Request, r: Outcome, rollback: Rollback, w: World) {
    && Forward(h, k, request, w) && (Sound(h) ==> Sound(k))
    && (NotActivated(r) && !r.Error? ==> ReadActive(k) == ReadActive(h))
    && (!rollback.committed && !r.Ready? ==> ReadActive(k) == ReadActive(h))
    && (r.Ready? ==>
          && ReadActive(k) == Some(r.active) && r.active.ready
          && GenerationVerifies(k, r.active.generation, r.active.version) && Live(w))
    && (r.RepairFresh? ==>
          && LeftForRetry(k, r.consent, r.attempt) && Authority(request.version, request.digest, r.consent, r.attempt)
          && (r.consent.home != root ==> ReadConsent(h, r.consent.id) == Some(r.consent)))
    && (rollback.committed ==> CommittedOutcome(k, request, r, w))
    && (rollback.committed ==> !Resumes(ReadActive(h), request))
    && (rollback.committed && ReadActive(h).Some? ==> AttemptFile(ReadActive(k).value.attemptID) !in h)
    && (r.RepairActive? ==> (rollback.committed <==> !Resumes(ReadActive(h), request)))
    && (r.Ready? ==> (rollback.committed <==> !Resumes(ReadActive(h), request)))
    && (!rollback.committed && ReadActive(k) != ReadActive(h) ==>
          Resumes(ReadActive(h), request) && ReadActive(k) == Some(ReadActive(h).value.(ready := true)))
    && PayloadKeptBut(h, k, GenerationName(request.digest))
  }

  /** Once committed, readiness is a matter of verifying, starting and saying so. */
  ghost predicate CommittedOutcome(k: Home, request: Request, r: Outcome, w: World) {
    var active := ReadActive(k);
    && active.Some? && active.value.generation == GenerationName(request.digest)
    && active.value.version == request.version && active.value.digest == request.digest
    && r == if !GenerationVerifies(k, active.value.generation, request.version) || !Live(w) then RepairActive(active.value)
            else if w.readyWrite.Done? then Ready(active.value) else Error
  }

  /** What the outcome looks at is as before. */
  ghost predicate ReadsSame(h: Home, k: Home) {
    && ReadActive(k) == ReadActive(h) && (Sound(h) ==> Sound(k)) && PayloadKept(h, k)
  }

  lemma UntouchedEnds(root: string, h: Home, k: Home, request: Request, r: Outcome, w: World)
    requires ReadsSame(h, k) && NotActivated(r) && !r.RepairFresh?
    ensures Overall(root, h, k, request, r, Rollback(false, None, false), w)
  {}

  lemma ConsentEnds(root: string, h: Home, k: Home, request: Request, r: Outcome, w: World)
    requires FrameConsent(h, k, w) && NotActivated(r) && !r.RepairFresh?
    ensures Overall(root, h, k, request, r, Rollback(false, None, false), w) && Same(h, k, Pat)
  {
    assert Same(h, k, ActiveFile);
    if ReadActive(h).Some? { assert Same(h, k, AttemptFile(ReadActive(h).value.attemptID)); }
    ConsentPayload(h, k, w);
    UntouchedEnds(root, h, k, request, r, w);
  }

  /** The consent is in hand, and nothing else has changed. */
  ghost predicate Begins(root: string, h: Home, k: Home, request: Request, consent: Consent, recovered: Option<Attempt>, first: bool, w: World) {
    && (forall id, g :: Frame(h, k, consent.id, id, g)) && Same(h, k, Pat) && PayloadKept(h, k)
    && (first ==>
          && ActiveFile !in h && consent.schema == PROTOCOL_VERSION && SafeConsentID(consent.id)
          && consent.version == request.version && consent.digest == request.digest
          && (consent.home != root ==> ReadConsent(h, consent.id) == Some(consent)))
    && (first && recovered.None? ==> ConsentOnlyLayout(k, consent.id) && ReadConsent(k, consent.id) == Some(consent))
    && (first && recovered.Some? ==> Fresh(k, consent, recovered.value) && Authority(request.version, request.digest, consent, recovered.value))
    && (!first ==> recovered.None? && AttemptFile(w.attemptID) !in h && AttemptFile(w.attemptID) !in k)
  }

  /** The attempt is in hand too. */
  ghost predicate Begun(root: string, h: Home, k: Home, request: Request, consent: Consent, attempt: Attempt, first: bool, w: World) {
    && Frame(h, k, consent.id, attempt.id, attempt.generation) && PayloadKept(h, k) && Same(h, k, Pat)
    && ReadActive(k) == ReadActive(h) && (ActiveFile in h ==> !first)
    && attempt.generation == GenerationName(request.digest) != ""
    && attempt.version == request.version && attempt.digest == request.digest
    && (first ==>
          && ReadActive(h).None? && Authority(request.version, request.digest, consent, attempt)
          && (consent.home != root ==> ReadConsent(h, consent.id) == Some(consent)))
    && (!first ==>
          && attempt.id == w.attemptID && AttemptFile(attempt.id) !in h && AttemptFile(attempt.id) !in k
          && AttemptsKept(h, k))
  }

  lemma BeginsAttempts(root: string, h: Home, k: Home, request: Request, consent: Consent, recovered: Option<Attempt>, first: bool, w: World)
    requires Begins(root, h, k, request, consent, recovered, first, w)
    ensures AttemptsKept(h, k)
  {
    forall id ensures Same(h, k, AttemptFile(id)) {
      assert Frame(h, k, consent.id, id + "-", "");
      assert id != id + "-" && !Touchable(AttemptFile(id), consent.id, id + "-", "");
    }
  }

  /** What a fresh installation starts from once its consent is in hand. */
  lemma StartsFresh(root: string, h: Home, k: Home, request: Request, freshHome: bool,
                    recovery: Option<(Consent, Option<Attempt>)>, consent: Consent, w: World)
    requires WellFormed(w) && AttemptFile(w.attemptID) !in h && ConsentFile(w.consentID) !in h
    requires freshHome ==> h == map[] && recovery.None? && request.consentID == ""
    requires recovery.Some? ==> Recovers(h, RetryOf(root, request, w), recovery.value.0, recovery.value.1)
    requires request.consentID != "" ==> k == h && ReadConsent(h, request.consentID) == Some(consent)
    requires request.consentID == "" ==>
      consent == NewConsent(root, request, w) && k == Written(h, ConsentFile(consent.id), ConsentRecord(consent), Done)
    ensures var first := ReadActive(h).None? && (freshHome || recovery.Some?);
      Begins(root, h, k, request, consent, if first && recovery.Some? then recovery.value.1 else None, first, w)
    ensures freshHome ==> ReadActive(h).None?
  {
    if recovery.Some? {
      LayoutsAreInactive(h, RetryOf(root, request, w), recovery.value.0, recovery.value.1);
      if recovery.value.1.Some? {
        RecoveredIsFresh(h, RetryOf(root, request, w), consent, recovery.value.1.value);
      }
    }
    if freshHome { FirstConsent(consent); }
    if request.consentID == "" {
      forall id, g ensures Frame(h, k, consent.id, id, g) {
        FrameWritten(h, ConsentFile(consent.id), ConsentRecord(consent), Done, consent.id, id, g);
      }
    }
  }

  /** From the last step's ending to the ending of the call. */
  lemma Concludes(root: string, h: Home, m: Home, k: Home, request: Request, consent: Consent, attempt: Attempt, first: bool,
                  r: Outcome, rollback: Rollback, w: World)
    requires Frame(h, m, consent.id, attempt.id, attempt.generation) && attempt.generation == GenerationName(request.digest)
    requires Ends(m, k, request, consent, attempt, first, ReadActive(h), r, rollback, w)
    requires first ==> ReadActive(h).None? && Authority(request.version, request.digest, consent, attempt)
    requires first && consent.home != root ==> ReadConsent(h, consent.id) == Some(consent)
    requires !first ==> AttemptFile(attempt.id) !in h && AttemptFile(attempt.id) !in m
    ensures Overall(root, h, k, request, r, rollback, w)
  {
    ReadsAlike(h, m, consent.id, attempt);
    if !rollback.committed && Exits(m, k, r, consent, attempt, first) {
      ReadsAlike(m, k, consent.id, attempt);
    }
    forall p: Path | (p.Generation? || p.GenerationFile?) && p.name != GenerationName(request.digest) ensures Same(h, k, p) {
      assert Same(h, m, p) && Same(m, k, p);
    }
  }

  /** A Home that is neither missing nor installed, and in which the retry finds nothing. */
  ghost predicate Unrecoverable(h: Home, r: Retry) {
    && h != map[] && ActiveFile !in h
    && forall consent, attempt :: !Recovers(h, r, consent, attempt)
  }

  ghost predicate Recoverable(h: Home, r: Retry) { exists consent, attempt :: Recovers(h, r, consent, attempt) }

  /** What was recoverable before the lock was taken is so under it. */
  lemma LockedRecovers(h: Home, r: Retry)
    requires Recoverable(h, r)
    ensures Recoverable(Written(h, Lock, Bytes(""), Done), r)
  {
    var consent, attempt :| Recovers(h, r, consent, attempt);
    var k := Written(h, Lock, Bytes(""), Done);
    assert AttemptIDs(k) == AttemptIDs(h);
    assert Recovers(k, r, consent, attempt);
  }

  // ----- Locks and rollback around an installation ------------------------------------------------

  function Restored(h: Home, prior: Option<Node>): Home {
    if prior.Some? then MakeDirs(h, Pat)[Pat := prior.value] else h - {Pat}
  }

  /** Only the lock, the credential and their directories differ. */
  ghost predicate Aside(h: Home, k: Home) {
    forall p: Path :: !p.Platform? && !p.Lock? && !p.State? && !p.Credentials? && !p.Pat? ==> Same(h, k, p)
  }

  lemma LockAside(h: Home)
    ensures AttemptIDs(Written(h, Lock, Bytes(""), Done)) == AttemptIDs(h)
    ensures Aside(h, Written(h, Lock, Bytes(""), Done)) && Same(h, Written(h, Lock, Bytes(""), Done), Pat)
  {}

  lemma AsideEnds(root: string, h: Home, k: Home, request: Request, w: World)
    requires Aside(h, k)
    ensures forall r :: NotActivated(r) && !r.RepairFresh? ==> Overall(root, h, k, request, r, Rollback(false, None, false), w)
  {
    AsideReads(h, k);
    forall r | NotActivated(r) && !r.RepairFresh? ensures Overall(root, h, k, request, r, Rollback(false, None, false), w) {
      UntouchedEnds(root, h, k, request, r, w);
    }
  }

  function Afterwards(h: Home, rollback: Rollback, w: World): Home {
    var k := if rollback.replaced && !rollback.committed && w.restore then Restored(h, rollback.prior) else h;
    if w.unlock then k - {Lock} else k
  }

  lemma AfterwardsAside(h: Home, rollback: Rollback, w: World)
    ensures Aside(h, Afterwards(h, rollback, w))
  {}

  /** Restoring and unlocking leave a Home that is recoverable still recoverable. */
  lemma AfterwardsForRetry(h: Home, rollback: Rollback, w: World, consent: Consent, attempt: Attempt)
    requires LeftForRetry(h, consent, attempt) && (rollback.prior.Some? ==> rollback.prior.value.Regular?)
    ensures LeftForRetry(Afterwards(h, rollback, w), consent, attempt)
  {}

  lemma AsideReads(h: Home, k: Home)
    requires Aside(h, k)
    ensures ReadActive(k) == ReadActive(h) && (Sound(h) <==> Sound(k))
    ensures forall id :: ReadConsent(k, id) == ReadConsent(h, id)
    ensures PayloadKept(h, k)
  {
    assert Same(h, k, ActiveFile);
    forall id ensures ReadConsent(k, id) == ReadConsent(h, id) { assert Same(h, k, ConsentFile(id)); }
    if ReadActive(h).Some? { assert Same(h, k, AttemptFile(ReadActive(h).value.attemptID)); }
  }

  lemma AsideVerifies(h: Home, k: Home, g: string, version: string)
    requires Aside(h, k)
    ensures GenerationVerifies(k, g, version) <==> GenerationVerifies(h, g, version)
  {
    forall name ensures Same(h, k, GenerationFile(g, name)) {}
  }

  /** The outcome between the locks is the outcome of the call. */
  lemma Around(root: string, h: Home, locked: Home, installed: Home, request: Request, r: Outcome, rollback: Rollback, w: World)
    requires Aside(h, locked) && Same(h, locked, Pat)
    requires Overall(root, locked, installed, request, r, rollback, w) && PatKept(locked, installed, request, rollback)
    ensures Overall(root, h, Afterwards(installed, rollback, w), request, r, rollback, w)
    ensures w.restore && !rollback.committed ==> Credential(Afterwards(installed, rollback, w)) == Credential(h)
    ensures rollback.committed ==> Credential(Afterwards(installed, rollback, w))
                                   == if request.pat.Some? then Some(Secret(request.pat.value)) else Credential(h)
  {
    var k := Afterwards(installed, rollback, w);
    AfterwardsAside(installed, rollback, w);
    AsideReads(h, locked);
    AsideReads(installed, k);
    var active := ReadActive(k);
    if active.Some? {
      AsideVerifies(installed, k, active.value.generation, active.value.version);
      assert Same(h, locked, AttemptFile(active.value.attemptID));
    }
    if rollback.committed { AsideVerifies(installed, k, GenerationName(request.digest), request.version); }
    if r.RepairFresh? { AfterwardsForRetry(installed, rollback, w, r.consent, r.attempt); }
    forall p: Path | (p.Generation? || p.GenerationFile?) && p.name != GenerationName(request.digest) ensures Same(h, k, p) {
      assert Same(h, locked, p) && Same(locked, installed, p) && Same(installed, k, p);
    }
  }

  /** A commit over an installation names this call's attempt, and the database in force goes with it. */
  ghost predicate Upgrades(h: Home, k: Home, g: string, attemptID: string, committed: bool, fate: CopyFate) {
    && (committed && ReadActive(h).Some? ==> ReadActive(k).Some? && ReadActive(k).value.attemptID == attemptID)
    && KeepsData(h, k, g, attemptID, committed, fate)
  }

  lemma UpgradesAround(h: Home, m: Home, l: Home, k: Home, g: string, attemptID: string, committed: bool, fate: CopyFate)
    requires PayloadKept(h, m) && ReadActive(m) == ReadActive(h)
    requires ReadActive(h).Some? ==> Upgrades(m, l, g, attemptID, committed, fate)
    requires PayloadKept(l, k) && ReadActive(k) == ReadActive(l) && Same(l, k, Backup(attemptID))
    ensures Upgrades(h, k, g, attemptID, committed, fate)
  {
    if ReadActive(h).Some? {
      PayloadDatabases(h, m, g);
      PayloadDatabases(l, k, g);
      KeepsDataAround(h, m, l, k, g, attemptID, committed, fate);
    }
  }

  lemma UntouchedUpgrades(h: Home, k: Home, g: string, attemptID: string, fate: CopyFate)
    requires PayloadKept(h, k)
    ensures Upgrades(h, k, g, attemptID, false, fate)
  {
    forall active | InUse(h, active, g) ensures Same(h, k, GenerationFile(active.generation, DATABASE)) {}
  }

  // ----- Exactly which calls commit ------------------------------------------------------------------

  predicate CommitsUnder(h: Home, request: Request, first: bool, w: World) {
    var upgrade := ReadActive(h).Some?;
    && !Resumes(ReadActive(h), request) && Prepares(h, request, upgrade, w)
    && CandidateFits(h, GenerationName(request.digest), request.pat, first, upgrade, w)
  }

  predicate RepairsUnder(h: Home, request: Request, consentID: string, w: World) {
    && Resumes(ReadActive(h), request) && Prepares(h, request, false, w)
    && RepairFits(h, ReadActive(h).value, consentID, request.pat, w)
  }

  /** From the consent in hand on. */
  ghost predicate ExactUnder(h: Home, request: Request, first: bool, consentID: string, r: Outcome, committed: bool, w: World) {
    && (committed <==> CommitsUnder(h, request, first, w))
    && (Resumes(ReadActive(h), request) ==> (r.Ready? <==> RepairsUnder(h, request, consentID, w)))
  }

  lemma CommitsAlike(h: Home, m: Home, request: Request, first: bool, w: World)
    requires PayloadKept(h, m) && ReadActive(m) == ReadActive(h) && Same(h, m, Pat)
    ensures CommitsUnder(h, request, first, w) <==> CommitsUnder(m, request, first, w)
  {
    CandidateAlike(h, m, GenerationName(request.digest), request.pat, first, ReadActive(h).Some?, w);
    assert Prepares(h, request, ReadActive(h).Some?, w) == Prepares(m, request, ReadActive(h).Some?, w);
  }

  lemma RepairsAlike(h: Home, m: Home, request: Request, consentID: string, w: World)
    requires PayloadKept(h, m) && ReadActive(m) == ReadActive(h) && Same(h, m, Pat)
    requires ReadActive(h).Some? ==> Same(h, m, AttemptFile(ReadActive(h).value.attemptID))
    ensures RepairsUnder(h, request, consentID, w) <==> RepairsUnder(m, request, consentID, w)
  {
    if ReadActive(h).Some? {
      RepairAlike(h, m, ReadActive(h).value, consentID, request.pat, w);
      assert Prepares(h, request, false, w) == Prepares(m, request, false, w);
    }
  }

  lemma ExactFrom(h: Home, m: Home, request: Request, first: bool, consentID: string, r: Outcome, committed: bool, w: World)
    requires PayloadKept(h, m) && ReadActive(m) == ReadActive(h) && Same(h, m, Pat)
    requires ReadActive(h).Some? ==> Same(h, m, AttemptFile(ReadActive(h).value.attemptID))
    requires ExactUnder(m, request, first, consentID, r, committed, w)
    ensures ExactUnder(h, request, first, consentID, r, committed, w)
  {
    CommitsAlike(h, m, request, first, w);
    RepairsAlike(h, m, request, consentID, w);
  }

  /** The attempt of a fresh installation is recorded or recovered, and its Home locked. */
  predicate BeginFits(first: bool, recovered: bool, freshHome: bool, w: World) {
    (first && !recovered ==> w.attemptWrite.Done?) && (freshHome ==> w.lock)
  }

  /** From the consent in hand on, the attempt included. */
  ghost predicate ExactBegun(h: Home, request: Request, first: bool, recovered: bool, freshHome: bool, consentID: string,
                             r: Outcome, committed: bool, w: World) {
    && (committed <==> BeginFits(first, recovered, freshHome, w) && CommitsUnder(h, request, first, w))
    && (Resumes(ReadActive(h), request) ==> (r.Ready? <==> RepairsUnder(h, request, consentID, w)))
  }

  /** No work runs in the old installation, and the consent is or can be recorded. */
  predicate ConsentAndFence(h: Home, request: Request, w: World) {
    && ConsentFits(h, request, w) && (request.consentID == "" ==> w.consentWrite.Done?)
    && (ReadActive(h).Some? && !Resumes(ReadActive(h), request) ==> w.fence.Held?)
  }

  lemma ExactConsented(h: Home, request: Request, first: bool, recovered: bool, freshHome: bool, consentID: string,
                       r: Outcome, committed: bool, w: World)
    requires ConsentAndFence(h, request, w) && consentID == ConsentInHand(h, request, w)
    requires ExactBegun(h, request, first, recovered, freshHome, consentID, r, committed, w)
    ensures ExactInside(h, request, first, recovered, freshHome, r, committed, w)
  {}

  function ConsentInHand(h: Home, request: Request, w: World): string {
    if request.consentID != "" && ReadConsent(h, request.consentID).Some? then ReadConsent(h, request.consentID).value.id
    else w.consentID
  }

  /** Between the locks. */
  ghost predicate ExactInside(h: Home, request: Request, first: bool, recovered: bool, freshHome: bool, r: Outcome, committed: bool, w: World) {
    && (committed <==> ConsentAndFence(h, request, w) && BeginFits(first, recovered, freshHome, w) && CommitsUnder(h, request, first, w))
    && (Resumes(ReadActive(h), request) ==>
          (r.Ready? <==> ConsentAndFence(h, request, w) && RepairsUnder(h, request, ConsentInHand(h, request, w), w)))
  }

  /** Admitted, and locked. */
  ghost predicate Admits(root: string, h: Home, request: Request, w: World) {
    w.valid && Admissible(h, root, request, w) && (if h == map[] then w.prospectiveLock else w.lock)
  }

  /** When a call commits, and when a repair that it resumes ends ready. */
  ghost predicate Exact(root: string, h: Home, request: Request, r: Outcome, committed: bool, w: World) {
    && (committed <==>
          && Admits(root, h, request, w) && ConsentAndFence(h, request, w)
          && BeginFits(ActiveFile !in h, AttemptIDs(h) != {}, h == map[], w) && CommitsUnder(h, request, ActiveFile !in h, w))
    && (Resumes(ReadActive(h), request) ==>
          (r.Ready? <==>
             && Admits(root, h, request, w) && ConsentAndFence(h, request, w)
             && RepairsUnder(h, request, ConsentInHand(h, request, w), w)))
  }

  /** The same, told by what was found before the locks. */
  ghost predicate ExactWithin(h: Home, request: Request, recovery: Option<(Consent, Option<Attempt>)>, freshHome: bool,
                              r: Outcome, committed: bool, w: World) {
    var first := ReadActive(h).None? && (freshHome || recovery.Some?);
    ExactInside(h, request, first, first && recovery.Some? && recovery.value.1.Some?, freshHome, r, committed, w)
  }

  lemma ExactAround(root: string, h: Home, locked: Home, request: Request, recovery: Option<(Consent, Option<Attempt>)>,
                    r: Outcome, rollback: Rollback, w: World)
    requires Aside(h, locked) && Same(h, locked, Pat) && Admits(root, h, request, w)
    requires recovery.Some? <==> h != map[] && ActiveFile !in h
    requires recovery.Some? ==> (recovery.value.1.Some? <==> AttemptIDs(h) != {})
    requires ExactWithin(locked, request, recovery, h == map[], r, rollback.committed, w)
    ensures Exact(root, h, request, r, rollback.committed, w)
  {
    AsideReads(h, locked);
    AsidePayload(h, locked);
    if ReadActive(h).Some? { assert Same(h, locked, AttemptFile(ReadActive(h).value.attemptID)); }
    CommitsAlike(h, locked, request, ActiveFile !in h, w);
    RepairsAlike(h, locked, request, ConsentInHand(h, request, w), w);
    assert ReadActive(locked).None? && (h == map[] || recovery.Some?) <==> ActiveFile !in h;
  }

  /** What was done from the recorded attempt on, seen from before it. */
  lemma FromAttempt(root: string, h: Home, m: Home, k: Home, recorded: map<string, string>, request: Request, consent: Consent,
                    attempt: Attempt, first: bool, r: Outcome, rollback: Rollback, w: World)
    requires Begun(root, h, m, request, consent, attempt, first, w)
    requires Ends(m, k, request, consent, attempt, first, ReadActive(m), r, rollback, w) && PatKept(m, k, request, rollback)
    requires r.Ready? && request.pat.Some? ==> r.active.generation in recorded && recorded[r.active.generation] == request.pat.value
    requires ExactUnder(m, request, first, consent.id, r, rollback.committed, w)
    requires rollback.committed ==> InstallsWhole(m, k, attempt.generation, w.bundle, ReadActive(m).Some?)
    requires !first ==> KeepsGeneration(m, k, attempt.generation)
    requires ReadActive(m).Some? && !Resumes(ReadActive(m), request) && PatIsFile(m) ==> BlockedAtStop(m, k, attempt.generation, r, w)
    requires Upgrades(m, k, attempt.generation, attempt.id, rollback.committed, w.databaseCopy)
    ensures Overall(root, h, k, request, r, rollback, w) && PatKept(h, k, request, rollback)
    ensures Stages(h, k, recorded, request, r, rollback, w)
    ensures ExactUnder(h, request, first, consent.id, r, rollback.committed, w) && !r.ActiveWork?
  {
    assert ReadActive(h).Some? ==> ActiveFile in h && Same(h, m, AttemptFile(ReadActive(h).value.attemptID));
    ExactFrom(h, m, request, first, consent.id, r, rollback.committed, w);
    StagesFrom(h, m, k, recorded, request, first, r, rollback, w);
    Concludes(root, h, m, k, request, consent, attempt, first, r, rollback, w);
  }

  /** Active work is found in an installation that is to be replaced. */
  predicate Works(h: Home, request: Request, w: World) {
    ReadActive(h).Some? && !Resumes(ReadActive(h), request) && w.fence.Busy?
  }

  /** A Home that is missing, installed or recoverable. */
  ghost predicate Known(root: string, h: Home, request: Request, w: World) {
    h == map[] || ActiveFile in h || Recoverable(h, RetryOf(root, request, w))
  }

  /** The refusals: nothing is written before the request, the Home and the consent are seen to fit, nor while work is running. */
  ghost predicate Refused(root: string, h: Home, k: Home, request: Request, r: Outcome, w: World) {
    var sensible := w.valid && GenerationName(request.digest) != "" && Known(root, h, request, w);
    && (!sensible ==> r.Blocked? && k == h)
    && (sensible && !ConsentFits(h, request, w) ==> r.ConsentRequired? && k == h)
    && (r.ActiveWork? <==> Admits(root, h, request, w) && Works(h, request, w))
    && (r.ActiveWork? ==> Aside(h, k) && Same(h, k, Pat))
  }

  lemma WorksAround(root: string, h: Home, locked: Home, k: Home, request: Request, r: Outcome, rollback: Rollback, w: World)
    requires Aside(h, locked) && Same(h, locked, Pat) && Admits(root, h, request, w)
    requires r.ActiveWork? <==> Works(locked, request, w)
    requires r.ActiveWork? ==> !rollback.replaced && k == Afterwards(locked, rollback, w)
    ensures Refused(root, h, k, request, r, w)
  {
    AsideReads(h, locked);
    assert r.ActiveWork? ==> Aside(locked, k) && Same(locked, k, Pat);
  }

  /** The outcome of a call with its rollback: the credential, and the fingerprint recorded for it. */
  ghost predicate Applied(root: string, h: Home, k: Home, recorded: map<string, string>, request: Request,
                          r: Outcome, rollback: Rollback, w: World) {
    && Overall(root, h, k, request, r, rollback, w)
    && (w.restore && !rollback.committed ==> Credential(k) == Credential(h))
    && (rollback.committed ==> Credential(k) == if request.pat.Some? then Some(Secret(request.pat.value)) else Credential(h))
    && (r.Ready? && request.pat.Some? ==> r.active.generation in recorded && recorded[r.active.generation] == request.pat.value)
    && (rollback.committed ==> InstallsWhole(h, k, GenerationName(request.digest), w.bundle, ReadActive(h).Some?))
    && Exact(root, h, request, r, rollback.committed, w) && Refused(root, h, k, request, r, w)
    && (ActiveFile in h ==> KeepsGeneration(h, k, GenerationName(request.digest)))
    && (ReadActive(h).Some? && Admissible(h, root, request, w) && MayInstall(h, request, w) ==>
          BlockedAtStop(h, k, GenerationName(request.digest), r, w))
    && Upgrades(h, k, GenerationName(request.digest), w.attemptID, rollback.committed, w.databaseCopy)
    && (r.RepairFresh? && w.unlock ==> Lock !in k)
  }

  /** The same between the locks, where a request that fits needs no more. */
  ghost predicate Stages(h: Home, k: Home, recorded: map<string, string>, request: Request, r: Outcome, rollback: Rollback, w: World) {
    var g := GenerationName(request.digest);
    && (r.Ready? && request.pat.Some? ==> r.active.generation in recorded && recorded[r.active.generation] == request.pat.value)
    && (rollback.committed ==> InstallsWhole(h, k, g, w.bundle, ReadActive(h).Some?))
    && (ActiveFile in h ==> KeepsGeneration(h, k, g))
    && (ReadActive(h).Some? && ConsentFits(h, request, w) && MayInstall(h, request, w) ==> BlockedAtStop(h, k, g, r, w))
    && Upgrades(h, k, g, w.attemptID, rollback.committed, w.databaseCopy)
  }

  /** What was done before the staging does not show in it. */
  lemma StagesFrom(h: Home, m: Home, k: Home, recorded: map<string, string>, request: Request, first: bool,
                   r: Outcome, rollback: Rollback, w: World)
    requires PayloadKept(h, m) && ReadActive(m) == ReadActive(h) && Same(h, m, Pat) && (ActiveFile in h ==> !first)
    requires r.Ready? && request.pat.Some? ==> r.active.generation in recorded && recorded[r.active.generation] == request.pat.value
    requires rollback.committed ==> InstallsWhole(m, k, GenerationName(request.digest), w.bundle, ReadActive(m).Some?)
    requires !first ==> KeepsGeneration(m, k, GenerationName(request.digest))
    requires ReadActive(m).Some? && !Resumes(ReadActive(m), request) && PatIsFile(m) ==>
      BlockedAtStop(m, k, GenerationName(request.digest), r, w)
    requires ReadActive(m).Some? ==> Upgrades(m, k, GenerationName(request.digest), w.attemptID, rollback.committed, w.databaseCopy)
    ensures Stages(h, k, recorded, request, r, rollback, w)
  {
    var g := GenerationName(request.digest);
    UpgradesAround(h, m, k, k, g, w.attemptID, rollback.committed, w.databaseCopy);
    if rollback.committed { InstallsAround(h, m, k, k, g, w.bundle, ReadActive(h).Some?); }
    if !first { KeepsAround(h, m, k, k, g); }
    if ReadActive(h).Some? && !Resumes(ReadActive(h), request) && PatIsFile(h) { BlockedAround(h, m, k, k, g, r, w); }
  }

  /** A call that does not get as far as its consent leaves the generations alone. */
  lemma StopsEarly(h: Home, k: Home, recorded: map<string, string>, request: Request, r: Outcome, w: World)
    requires PayloadKept(h, k) && !r.Ready? && !(UpToStaging(w) && ConsentFits(h, request, w) && MayInstall(h, request, w))
    ensures Stages(h, k, recorded, request, r, Rollback(false, None, false), w)
  {
    PayloadKeeps(h, k, GenerationName(request.digest));
    UntouchedUpgrades(h, k, GenerationName(request.digest), w.attemptID, w.databaseCopy);
  }

  lemma ConsentPayload(h: Home, k: Home, w: World)
    requires FrameConsent(h, k, w)
    ensures PayloadKept(h, k)
  {}

  lemma ConsentStops(root: string, h: Home, k: Home, recorded: map<string, string>, request: Request, r: Outcome, w: World)
    requires FrameConsent(h, k, w) && NotActivated(r) && !r.RepairFresh?
    requires !(UpToStaging(w) && ConsentFits(h, request, w) && MayInstall(h, request, w))
    ensures Overall(root, h, k, request, r, Rollback(false, None, false), w)
    ensures PatKept(h, k, request, Rollback(false, None, false))
    ensures Stages(h, k, recorded, request, r, Rollback(false, None, false), w)
  {
    ConsentEnds(root, h, k, request, r, w);
    ConsentPayload(h, k, w);
    StopsEarly(h, k, recorded, request, r, w);
  }

  /** Locking before, and restoring and unlocking afterwards, do not show. */
  lemma StagesAround(root: string, h: Home, locked: Home, installed: Home, recorded: map<string, string>, request: Request,
                     r: Outcome, rollback: Rollback, w: World)
    requires Aside(h, locked) && Same(h, locked, Pat) && Stages(locked, installed, recorded, request, r, rollback, w)
    ensures Stages(h, Afterwards(installed, rollback, w), recorded, request, r, rollback, w)
  {
    var k, g := Afterwards(installed, rollback, w), GenerationName(request.digest);
    AsideReads(h, locked);
    AsidePayload(h, locked);
    AfterwardsAside(installed, rollback, w);
    AsidePayload(installed, k);
    AsideReads(installed, k);
    assert Same(installed, k, Backup(w.attemptID));
    UpgradesAround(h, locked, installed, k, g, w.attemptID, rollback.committed, w.databaseCopy);
    if rollback.committed { InstallsAround(h, locked, installed, k, g, w.bundle, ReadActive(h).Some?); }
    assert Same(h, locked, ActiveFile);
    if ActiveFile in h { KeepsAround(h, locked, installed, k, g); }
    if ReadActive(h).Some? && ConsentFits(h, request, w) && MayInstall(h, request, w) {
      BlockedAround(h, locked, installed, k, g, r, w);
    }
  }

  lemma AsidePayload(h: Home, k: Home)
    requires Aside(h, k)
    ensures PayloadKept(h, k)
  {}

  lemma AppliedAround(root: string, h: Home, locked: Home, installed: Home, recorded: map<string, string>, request: Request,
                      r: Outcome, rollback: Rollback, w: World)
    requires Aside(h, locked) && Same(h, locked, Pat)
    requires Overall(root, locked, installed, request, r, rollback, w) && PatKept(locked, installed, request, rollback)
    requires Stages(locked, installed, recorded, request, r, rollback, w) && Exact(root, h, request, r, rollback.committed, w)
    requires Refused(root, h, Afterwards(installed, rollback, w), request, r, w)
    ensures Applied(root, h, Afterwards(installed, rollback, w), recorded, request, r, rollback, w)
  {
    Around(root, h, locked, installed, request, r, rollback, w);
    StagesAround(root, h, locked, installed, recorded, request, r, rollback, w);
  }

  lemma StillPlausible(h: Home, k: Home, w: World)
    requires Aside(h, k) && Plausible(w, h)
    ensures Plausible(w, k)
  {
    assert Same(h, k, ConsentFile(w.consentID)) && Same(h, k, AttemptFile(w.attemptID));
  }

  /** A call that is not admitted. */
  lemma LeftAtOnce(root: string, h: Home, k: Home, recorded: map<string, string>, request: Request, r: Outcome, w: World)
    requires Aside(h, k) && Same(h, k, Pat) && NotActivated(r) && !r.RepairFresh?
    requires !Admits(root, h, request, w) && Refused(root, h, k, request, r, w)
    ensures Applied(root, h, k, recorded, request, r, Rollback(false, None, false), w)
  {
    AsideEnds(root, h, k, request, w);
    AsidePayload(h, k);
    PayloadKeeps(h, k, GenerationName(request.digest));
    UntouchedUpgrades(h, k, GenerationName(request.digest), w.attemptID, w.databaseCopy);
  }

  class Installation {
    const root: string
    var home: Home
    /** The fingerprint recorded in each generation's database, standing for the credential. */
    var recorded: map<string, string>

    // ----- Failing a fresh attempt ------------------------------------------------------

    /** os.Remove: a directory only when it is empty; a missing path is fine. */
    method Remove(p: Path, removable: bool) returns (ok: bool)
      modifies `home
      ensures home == if ok then old(home) - {p} else old(home)
      ensures ok <==> p !in old(home) || (removable && IsEmpty(old(home), p))
    {
      if p in home && (!removable || !IsEmpty(home, p)) {
        return false;
      }
      home := home - {p};
      return true;
    }

    /** Removes the generation, then the directories and the dispatcher. */
    method CleanUp(g: string, w: World) returns (ok: bool)
      modifies `home
      ensures ok ==> home == Cleaned(old(home), g)
      ensures OnlyInstall(old(home), home, g)
      ensures Removable(old(home), g, w) ==> ok
    {
      if !w.removals(0) {
        HalfRemoved(home, g, w.halfRemoved);
        home := WithoutSome(home, Generation(g), w.halfRemoved);
        return false;
      }
      home := WithoutTree(home, Generation(g));
      ok := Remove(Generations, w.removals(1));
      ghost var step := if ok then 2 else 1;
      if ok {
        ok := Remove(Dispatcher, w.removals(2));
        step := if ok then 3 else 2;
      }
      if ok {
        ok := Remove(Bin, w.removals(3));
        step := if ok then 4 else 3;
      }
      assert home == CleanedTo(old(home), g, step);
      CleaningInSteps(old(home), g, step);
    }

    /** Keeps consent and attempt as the exact authority for a retry. */
    method FailFreshAttempt(consent: Consent, attempt: Attempt, w: World) returns (r: Outcome)
      requires Fresh(home, consent, attempt)
      modifies `home
      ensures r.Blocked? || r.Error? || r == RepairFresh(consent, attempt.(phase := Failed))
      ensures r.RepairFresh? ==> LeftForRetry(home, consent, r.attempt)
      ensures Cooperates(w) ==> r.RepairFresh?
      ensures Same(old(home), home, Pat) && Same(old(home), home, ActiveFile)
      ensures Frame(old(home), home, consent.id, attempt.id, attempt.generation)
    {
      FailedLeavesRetry(home, consent, attempt);
      CleaningEmpties(home, consent.id, attempt.id, attempt.generation);
      var failed := attempt.(phase := Failed);
      var cleaned := CleanUp(attempt.generation, w);
      FrameCleaned(old(home), home, consent.id, attempt, w.failWrite);
      if !cleaned {
        return Blocked;
      }
      home := Written(home, AttemptFile(attempt.id), AttemptRecord(failed), w.failWrite);
      return if w.failWrite.Done? then RepairFresh(consent, failed) else Error;
    }

    // ----- Before activation --------------------------------------------------------------

    method FailPreactivation(consent: Consent, attempt: Attempt, first: bool, w: World) returns (r: Outcome)
      requires first ==> Fresh(home, consent, attempt)
      modifies `home
      ensures Exits(old(home), home, r, consent, attempt, first) && Same(old(home), home, Pat)
      ensures !first ==> home == old(home)
    {
      if !first {
        return Blocked;
      }
      r := FailFreshAttempt(consent, attempt, w);
    }

    /** The new credential is written only after it was authenticated and the old one was read. */
    method InstallCredential(pat: string, consent: Consent, attempt: Attempt, first: bool, w: World)
      returns (exit: Option<Outcome>, rollback: Rollback)
      requires first ==> Fresh(home, consent, attempt)
      modifies `home
      ensures exit.Some? ==> Exits(old(home), home, exit.value, consent, attempt, first) && !rollback.replaced && Same(old(home), home, Pat)
      ensures exit.None? ==> Contained(old(home), home, consent, attempt, first) && rollback.replaced && Credential(home) == Some(Secret(pat))
      ensures rollback.replaced ==> rollback.prior == Credential(old(home))
      ensures rollback.prior.Some? ==> rollback.prior.value.Regular?
      ensures !rollback.committed
      ensures exit.None? <==> CredentialFits(old(home), w)
      ensures exit.None? ==> AttemptsKept(old(home), home)
      ensures exit.None? || !first ==> PayloadKept(old(home), home)
    {
      rollback := Rollback(false, None, false);
      if !w.ownerBound {
        return Some(ConsentRequired), rollback;
      }
      if !w.patIdentity {
        var r := FailPreactivation(consent, attempt, first, w);
        return Some(r), rollback;
      }
      if Pat in home && (!w.patReadable || !home[Pat].Regular?) {
        return Some(Error), rollback;
      }
      var prior := Credential(home);
      StorePat(pat, consent, attempt, first, w);
      if !w.patWrite.Done? {
        var r := FailPreactivation(consent, attempt, first, w);
        return Some(r), rollback;
      }
      return None, Rollback(true, prior, false);
    }

    method StorePat(pat: string, consent: Consent, attempt: Attempt, first: bool, w: World)
      requires first ==> Fresh(home, consent, attempt)
      modifies `home
      ensures Contained(old(home), home, consent, attempt, first) && PayloadKept(old(home), home)
      ensures w.patWrite.Done? ==> Credential(home) == Some(Secret(pat))
      ensures !w.patWrite.Done? ==> Same(old(home), home, Pat)
      ensures Same(old(home), home, ActiveFile) && AttemptsKept(old(home), home)
    {
      if first { FreshWritten(home, consent, attempt, Pat, Bytes(pat + "\n"), w.patWrite); }
      FrameWritten(home, Pat, Bytes(pat + "\n"), w.patWrite, consent.id, attempt.id, attempt.generation);
      PayloadWritten(home, Pat, Bytes(pat + "\n"), w.patWrite);
      home := Written(home, Pat, Bytes(pat + "\n"), w.patWrite);
    }

    /** Dependencies, dispatcher and PATH. */
    method Prepare(consent: Consent, attempt: Attempt, first: bool, w: World) returns (exit: Option<Outcome>)
      requires first ==> Fresh(home, consent, attempt)
      modifies `home
      ensures exit.Some? ==> Exits(old(home), home, exit.value, consent, attempt, first)
      ensures exit.None? ==> Contained(old(home), home, consent, attempt, first)
      ensures Same(old(home), home, Pat)
      ensures exit.None? <==> Equips(w)
      ensures exit.None? ==> AttemptsKept(old(home), home)
      ensures exit.None? || !first ==> PayloadKept(old(home), home)
    {
      if w.lifecycle && !w.prepare {
        var r := FailPreactivation(consent, attempt, first, w);
        return Some(r);
      }
      CopyLauncher(consent, attempt, first, w);
      if !w.dispatcher.Copied? || !w.path {
        var r := FailPreactivation(consent, attempt, first, w);
        return Some(r);
      }
      return None;
    }

    method CopyLauncher(consent: Consent, attempt: Attempt, first: bool, w: World)
      requires first ==> Fresh(home, consent, attempt)
      modifies `home
      ensures home == CopiedTo(old(home), Dispatcher, LAUNCHER, w.dispatcher)
      ensures Contained(old(home), home, consent, attempt, first) && PayloadKept(old(home), home)
      ensures Same(old(home), home, Pat) && Same(old(home), home, ActiveFile)
      ensures AttemptsKept(old(home), home)
    {
      if first { FreshCopied(home, consent, attempt, Dispatcher, LAUNCHER, w.dispatcher); }
      FrameCopied(home, Dispatcher, LAUNCHER, w.dispatcher, consent.id, attempt.id, attempt.generation);
      PayloadWritten(home, Dispatcher, LAUNCHER, Done);
      AttemptsElsewhere(home, Dispatcher, LAUNCHER, w.dispatcher);
      home := CopiedTo(home, Dispatcher, LAUNCHER, w.dispatcher);
    }

    // ----- Staging ---------------------------------------------------------------------------

    /** Copies the bundle unless the directory is there already. */
    method StageGeneration(g: string, w: World) returns (ok: bool)
      modifies `home
      ensures (home, ok) == Stage(old(home), g, w.bundle, w.copies)
    {
      if Generation(g) in home {
        return true;
      }
      ok := true;
      var n := 0;
      while ok && n < |w.bundle|
        invariant n <= |w.bundle| && (home, ok) == CopiedFiles(old(home), g, w.bundle, w.copies, n)
      {
        home := CopiedTo(home, GenerationFile(g, w.bundle[n].name), w.bundle[n].content, w.copies(n));
        ok := w.copies(n).Copied?;
        n := n + 1;
      }
      if !ok { StopsForGood(old(home), g, w.bundle, w.copies, n); }
    }

    /** A failure after the attempt was recorded: a fresh Home is cleaned, another only told. */
    method FailStaged(consent: Consent, attempt: Attempt, first: bool, w: World) returns (r: Outcome)
      requires first ==> Fresh(home, consent, attempt)
      modifies `home
      ensures Exits(old(home), home, r, consent, attempt, first) && Same(old(home), home, Pat)
      ensures !first ==> r.Blocked? && PayloadKept(old(home), home)
    {
      if first {
        r := FailFreshAttempt(consent, attempt, w);
        return;
      }
      var failed := AttemptRecord(attempt.(phase := Failed));
      FrameWritten(home, AttemptFile(attempt.id), failed, w.failWrite, consent.id, attempt.id, attempt.generation);
      PayloadWritten(home, AttemptFile(attempt.id), failed, w.failWrite);
      home := Written(home, AttemptFile(attempt.id), failed, w.failWrite);
      return Blocked;
    }

    /** The attempt's record, unless a fresh one has it already. */
    method RecordAttempt(consent: Consent, attempt: Attempt, first: bool, w: World) returns (exit: Option<Outcome>)
      requires first ==> Fresh(home, consent, attempt)
      modifies `home
      ensures exit.Some? ==> Exits(old(home), home, exit.value, consent, attempt, first)
      ensures Contained(old(home), home, consent, attempt, first) && Same(old(home), home, Pat)
      ensures exit.None? <==> first || w.attemptWrite.Done?
      ensures PayloadKept(old(home), home)
    {
      if first {
        return None;
      }
      FrameWritten(home, AttemptFile(attempt.id), AttemptRecord(attempt), w.attemptWrite, consent.id, attempt.id, attempt.generation);
      PayloadWritten(home, AttemptFile(attempt.id), AttemptRecord(attempt), w.attemptWrite);
      home := Written(home, AttemptFile(attempt.id), AttemptRecord(attempt), w.attemptWrite);
      return if w.attemptWrite.Done? then None else Some(Error);
    }

    method StageFiles(consent: Consent, attempt: Attempt, first: bool, w: World) returns (exit: Option<Outcome>)
      requires first ==> Fresh(home, consent, attempt)
      modifies `home
      ensures exit.Some? ==> Exits(old(home), home, exit.value, consent, attempt, first)
      ensures exit.None? ==> Contained(old(home), home, consent, attempt, first)
      ensures Same(old(home), home, Pat)
      ensures exit.None? ==> home == Stage(old(home), attempt.generation, w.bundle, w.copies).0
      ensures exit.None? <==> Stage(old(home), attempt.generation, w.bundle, w.copies).1
      ensures !first ==>
        var (staged, ok) := Stage(old(home), attempt.generation, w.bundle, w.copies);
        PayloadKept(staged, home) && exit == if ok then None else Some(Blocked)
    {
      FrameStaged(home, w.bundle, w.copies, |w.bundle|, consent.id, attempt.id, attempt.generation);
      if first { FreshStaged(home, consent, attempt, w.bundle, w.copies, |w.bundle|); }
      var staged := StageGeneration(attempt.generation, w);
      if !staged {
        var r := FailStaged(consent, attempt, first, w);
        return Some(r);
      }
      return None;
    }

    /** Only over an old generation: its online backup becomes the candidate's database. */
    method CopyDatabase(consent: Consent, attempt: Attempt, w: World) returns (exit: Option<Outcome>)
      modifies `home
      ensures exit.Some? ==> Exits(old(home), home, exit.value, consent, attempt, false)
      ensures Contained(old(home), home, consent, attempt, false)
      ensures Same(old(home), home, Pat)
      ensures exit == if w.backup && w.databaseCopy.Copied? then None else Some(Blocked)
      ensures GenerationKept(old(home), home, attempt.generation)
      ensures exit.None? ==> IsFile(home, GenerationFile(attempt.generation, DATABASE))
      ensures w.backup && exit.Some? ==>
        PayloadKept(CopiedTo(old(home), GenerationFile(attempt.generation, DATABASE), Bytes(""), w.databaseCopy), home)
      ensures KeepsData(old(home), home, attempt.generation, attempt.id, exit.None?, w.databaseCopy)
    {
      if !w.backup {
        var r := FailStaged(consent, attempt, false, w);
        PayloadKeeps(old(home), home, attempt.generation);
        StagingKeepsUse(old(home), home, consent.id, attempt.id, attempt.generation);
        UseKeeps(old(home), home, attempt.generation, attempt.id, w.databaseCopy);
        return Some(r);
      }
      var content := OldDatabase(home);
      FrameDatabase(home, consent.id, attempt, content, w.databaseCopy);
      DatabaseCopyPayload(home, attempt, content, w.databaseCopy);
      BackupCarries(home, attempt, w.databaseCopy);
      home := Written(home, Backup(attempt.id), content, Done);
      home := CopiedTo(home, GenerationFile(attempt.generation, DATABASE), content, w.databaseCopy);
      if w.databaseCopy.Copied? {
        return None;
      }
      exit := FailCopied(old(home), consent, attempt, w);
    }

    /** The copy stopped half way, or before it began. */
    method FailCopied(ghost h: Home, consent: Consent, attempt: Attempt, w: World) returns (exit: Option<Outcome>)
      requires Contained(h, home, consent, attempt, false) && Same(h, home, Pat) && Same(h, home, ActiveFile)
      modifies `home
      ensures exit == Some(Blocked) && Exits(h, home, Blocked, consent, attempt, false)
      ensures Contained(h, home, consent, attempt, false) && Same(h, home, Pat)
      ensures PayloadKept(old(home), home)
      ensures GenerationKept(h, old(home), attempt.generation) ==> GenerationKept(h, home, attempt.generation)
      ensures forall l :: PayloadKept(l, old(home)) ==> PayloadKept(l, home)
      ensures KeepsData(h, old(home), attempt.generation, attempt.id, false, w.databaseCopy) ==>
        KeepsData(h, home, attempt.generation, attempt.id, false, w.databaseCopy)
    {
      ghost var copied := home;
      var r := FailStaged(consent, attempt, false, w);
      FrameThen(h, copied, home, consent.id, attempt.id, attempt.generation);
      PayloadKeeps(copied, home, attempt.generation);
      if GenerationKept(h, copied, attempt.generation) { KeptThen(h, copied, home, attempt.generation); }
      forall l | PayloadKept(l, copied) ensures PayloadKept(l, home) { PayloadThen(l, copied, home); }
      PayloadDatabases(copied, home, attempt.generation);
      if KeepsData(h, copied, attempt.generation, attempt.id, false, w.databaseCopy) {
        PayloadDatabases(h, h, attempt.generation);
        KeepsDataAround(h, h, copied, home, attempt.generation, attempt.id, false, w.databaseCopy);
      }
      return Some(r);
    }

    /** Opening creates a missing database; then the worker release and the credential are recorded in it. */
    method RecordCandidate(pat: Option<string>, consent: Consent, attempt: Attempt, first: bool, w: World) returns (exit: Option<Outcome>)
      requires first ==> Fresh(home, consent, attempt)
      modifies `home, `recorded
      ensures exit.Some? ==> Exits(old(home), home, exit.value, consent, attempt, first) && recorded == old(recorded)
      ensures exit.None? ==> Contained(old(home), home, consent, attempt, first)
      ensures exit.None? ==> recorded == if pat.Some? then old(recorded)[attempt.generation := pat.value] else old(recorded)
      ensures Same(old(home), home, Pat)
      ensures exit.None? <==> Records(pat, w)
      ensures exit.None? ==> OnlyDatabase(old(home), home, attempt.generation)
      ensures var database := GenerationFile(attempt.generation, DATABASE);
        exit.None? && (database in old(home) ==> IsFile(old(home), database)) ==> IsFile(home, database)
      ensures !first ==> GenerationKept(old(home), home, attempt.generation) && DatabasesKept(old(home), home)
      ensures exit.None? ==> Same(old(home), home, Backup(attempt.id))
    {
      if !w.database {
        var r := FailStaged(consent, attempt, first, w);
        if !first {
          PayloadKeeps(old(home), home, attempt.generation);
          PayloadDatabases(old(home), home, attempt.generation);
        }
        return Some(r);
      }
      OpenDatabase(consent, attempt, first);
      ghost var prior := home;
      if !w.worker || (pat.Some? && (!w.ownerBound || !w.patVerified || !w.patRecorded)) {
        var r := FailStaged(consent, attempt, first, w);
        if !first {
          KeptThenPayload(old(home), prior, home, attempt.generation);
          PayloadDatabases(prior, home, attempt.generation);
        }
        return Some(r);
      }
      if pat.Some? {
        recorded := recorded[attempt.generation := pat.value];
      }
      return None;
    }

    method OpenDatabase(consent: Consent, attempt: Attempt, first: bool)
      requires first ==> Fresh(home, consent, attempt)
      modifies `home
      ensures var database := GenerationFile(attempt.generation, DATABASE);
        home == if database in old(home) then old(home) else CopiedTo(old(home), database, NEW_DATABASE, Copied)
      ensures Contained(old(home), home, consent, attempt, first) && Same(old(home), home, Pat)
      ensures GenerationKept(old(home), home, attempt.generation) && DatabasesKept(old(home), home)
      ensures Same(old(home), home, Backup(attempt.id))
    {
      var database := GenerationFile(attempt.generation, DATABASE);
      if database !in home {
        if first { FreshCopied(home, consent, attempt, database, NEW_DATABASE, Copied); }
        FrameCopied(home, database, NEW_DATABASE, Copied, consent.id, attempt.id, attempt.generation);
        DatabaseCopied(home, attempt.generation, NEW_DATABASE);
        NewDatabaseKeeps(home, attempt);
        home := CopiedTo(home, database, NEW_DATABASE, Copied);
      }
    }

    // ----- Activation ---------------------------------------------------------------------------

    /** The attempt is recorded verified, and then active.json names its generation. */
    method Commit(request: Request, consent: Consent, attempt: Attempt, first: bool, w: World) returns (exit: Option<Outcome>)
      requires first ==> Fresh(home, consent, attempt)
      requires attempt.version == request.version && attempt.digest == request.digest && attempt.generation != ""
      modifies `home
      ensures exit.Some? ==> Exits(old(home), home, exit.value, consent, attempt, first)
      ensures exit.None? ==> home == Committed(old(home), Candidate(request, consent, attempt), attempt.(phase := Verified))
      ensures exit.None? <==> w.verifiedWrite.Done? && w.activeWrite.Done?
      ensures exit.Some? && !first ==> PayloadKept(old(home), home)
      ensures Same(old(home), home, Pat)
    {
      var verified := attempt.(phase := Verified);
      UncommittedFrame(home, consent, attempt, first, AttemptRecord(verified), w.verifiedWrite,
                       ActiveRecord(Candidate(request, consent, attempt)), w.activeWrite);
      ghost var uncommitted := AfterCommit(home, attempt, AttemptRecord(verified), w.verifiedWrite,
                                           ActiveRecord(Candidate(request, consent, attempt)), w.activeWrite);
      home := Written(home, AttemptFile(attempt.id), AttemptRecord(verified), w.verifiedWrite);
      if w.verifiedWrite.Done? {
        home := Written(home, ActiveFile, ActiveRecord(Candidate(request, consent, attempt)), w.activeWrite);
      }
      if w.verifiedWrite.Done? && w.activeWrite.Done? {
        return None;
      }
      if first {
        var r := FailFreshAttempt(consent, verified, w);
        FrameThen(old(home), uncommitted, home, consent.id, attempt.id, attempt.generation);
        return Some(r);
      }
      UncommittedPayload(old(home), attempt, AttemptRecord(verified), w.verifiedWrite,
                         ActiveRecord(Candidate(request, consent, attempt)), w.activeWrite);
      return Some(Error);
    }

    /** The point of no return; from there on only forward. */
    method Activate(request: Request, consent: Consent, attempt: Attempt, first: bool, w: World) returns (r: Outcome, committed: bool)
      requires first ==> Fresh(home, consent, attempt)
      requires attempt.version == request.version && attempt.digest == request.digest && attempt.generation != ""
      modifies `home
      ensures !committed ==> Exits(old(home), home, r, consent, attempt, first)
      ensures committed ==> (r.RepairActive? || r.Error? || r.Ready?) && Activated(home, request, attempt, r, w)
      ensures committed ==> FrameButActive(old(home), home, consent.id, attempt.id, attempt.generation)
      ensures committed <==> w.verifiedWrite.Done? && w.activeWrite.Done?
      ensures committed || !first ==> PayloadKept(old(home), home)
      ensures committed ==> Same(old(home), home, Backup(attempt.id))
      ensures Same(old(home), home, Pat)
    {
      var exit := Commit(request, consent, attempt, first, w);
      if exit.Some? {
        return exit.value, false;
      }
      var active := Candidate(request, consent, attempt);
      CommittedMeans(old(home), active, attempt.(phase := Verified), consent.id);
      CommitPayload(old(home), active, attempt.(phase := Verified));
      if !GenerationVerifies(home, active.generation, active.version) {
        return RepairActive(active), true;
      }
      ghost var named := home;
      r := GoLive(active, attempt.(phase := Verified), w);
      RecordsPayload(old(home), named, home, attempt.id);
      return r, true;
    }

    /** The generation was verified: start it, see it live, say ready. */
    method GoLive(active: Active, attempt: Attempt, w: World) returns (r: Outcome)
      requires ReadActive(home) == Some(active) && !active.ready && GenerationVerifies(home, active.generation, active.version)
      requires attempt.generation == active.generation && attempt.version == active.version && attempt.digest == active.digest
      modifies `home
      ensures r == if !Live(w) then RepairActive(active) else if w.readyWrite.Done? then Ready(active.(ready := true)) else Error
      ensures ReadActive(home) == Some(if r.Ready? then active.(ready := true) else active)
      ensures GenerationVerifies(home, active.generation, active.version)
      ensures Sound(old(home)) ==> Sound(home)
      ensures OnlyRecords(old(home), home, attempt.id)
      ensures Same(old(home), home, Pat)
    {
      if w.lifecycle && (!w.start || !w.ready) {
        return RepairActive(active);
      }
      if w.readyWrite.Done? { LiveMeans(home, active, attempt, w.finalWrite); } else { NotLiveMeans(home, active, w.readyWrite); }
      home := Written(home, ActiveFile, ActiveRecord(active.(ready := true)), w.readyWrite);
      if !w.readyWrite.Done? {
        return Error;
      }
      home := Written(home, AttemptFile(attempt.id), AttemptRecord(attempt.(phase := ReadyPhase)), w.finalWrite);
      return Ready(active.(ready := true));
    }

    /** The generation that active.json names is repaired in place, never staged again. */
    method Repair(request: Request, active: Active, consent: Consent, w: World) returns (r: Outcome)
      requires ReadActive(home) == Some(active) && !active.ready
      modifies `home, `recorded
      ensures r == RepairActive(active) || r.ConsentRequired? || r.Error? || r == Ready(active.(ready := true))
      ensures ReadActive(home) == Some(if r.Ready? then active.(ready := true) else active)
      ensures r.Ready? ==> GenerationVerifies(home, active.generation, active.version) && Live(w)
      ensures r.Ready? && request.pat.Some? ==> active.generation in recorded && recorded[active.generation] == request.pat.value
      ensures r.ConsentRequired? <==> ReadAttempt(old(home), active.attemptID).Some? && !OwnAttempt(old(home), active, consent.id)
      ensures r.Ready? || r.Error? <==>
        && OwnAttempt(old(home), active, consent.id) && GenerationVerifies(old(home), active.generation, active.version)
        && w.database && w.worker && (request.pat.Some? ==> w.ownerBound && w.patVerified && w.patRecorded) && Live(w)
      ensures r.Error? ==> !w.readyWrite.Done?
      ensures r.Ready? ==> w.readyWrite.Done?
      ensures Sound(old(home)) ==> Sound(home)
      ensures forall p: Path :: !p.ActiveFile? && !p.Platform? && !p.Attempts? && !p.AttemptFile? ==> Same(old(home), home, p)
      ensures Same(old(home), home, Pat)
    {
      var attempt := ReadAttempt(home, active.attemptID);
      if attempt.None? {
        return RepairActive(active);
      }
      if attempt.value.generation != active.generation || attempt.value.version != active.version
         || attempt.value.digest != active.digest || attempt.value.consentID != consent.id {
        return ConsentRequired;
      }
      if !GenerationVerifies(home, active.generation, active.version) || !w.database || !w.worker {
        return RepairActive(active);
      }
      if request.pat.Some? {
        if !w.ownerBound || !w.patVerified || !w.patRecorded {
          return RepairActive(active);
        }
        recorded := recorded[active.generation := request.pat.value];
      }
      r := GoLive(active, attempt.value, w);
    }

    // ----- One attempt from consent to activation ----------------------------------------------

    /** The old control plane is stopped, the credential replaced, the dependencies prepared. */
    method Preactivate(request: Request, consent: Consent, attempt: Attempt, first: bool, upgrade: bool, w: World)
      returns (exit: Option<Outcome>, rollback: Rollback)
      requires first ==> Fresh(home, consent, attempt)
      modifies `home
      ensures exit.Some? ==> Exits(old(home), home, exit.value, consent, attempt, first)
      ensures exit.None? ==> Contained(old(home), home, consent, attempt, first) && rollback.replaced == request.pat.Some?
      ensures PatKept(old(home), home, request, rollback) && !rollback.committed
      ensures exit.None? <==> Prepares(old(home), request, upgrade, w)
      ensures exit.None? ==> AttemptsKept(old(home), home)
      ensures exit.None? || !first ==> PayloadKept(old(home), home)
    {
      rollback := Rollback(false, None, false);
      if upgrade && w.lifecycle && !w.stop {
        return Some(Blocked), rollback;
      }
      ghost var start := home;
      if request.pat.Some? {
        exit, rollback := InstallCredential(request.pat.value, consent, attempt, first, w);
        if exit.Some? {
          return;
        }
      }
      ghost var middle := home;
      exit := Prepare(consent, attempt, first, w);
      FrameThen(start, middle, home, consent.id, attempt.id, attempt.generation);
      if exit.None? { PayloadThen(start, middle, home); }
    }

    /** Stages, records and activates the candidate generation. */
    method InstallCandidate(request: Request, consent: Consent, attempt: Attempt, first: bool, upgrade: bool, w: World)
      returns (r: Outcome, committed: bool)
      requires first ==> Fresh(home, consent, attempt) && !upgrade
      requires attempt.version == request.version && attempt.digest == request.digest && attempt.generation != ""
      modifies `home, `recorded
      ensures !committed ==> Exits(old(home), home, r, consent, attempt, first)
      ensures committed ==> (r.RepairActive? || r.Error? || r.Ready?) && Activated(home, request, attempt, r, w)
      ensures committed ==> FrameButActive(old(home), home, consent.id, attempt.id, attempt.generation)
      ensures committed && request.pat.Some? ==> attempt.generation in recorded && recorded[attempt.generation] == request.pat.value
      ensures Same(old(home), home, Pat)
      ensures committed <==> CandidateFits(old(home), attempt.generation, request.pat, first, upgrade, w)
      ensures committed ==> InstallsWhole(old(home), home, attempt.generation, w.bundle, upgrade)
      ensures !first ==> KeepsGeneration(old(home), home, attempt.generation)
      ensures upgrade ==> BlockedAtStop(old(home), home, attempt.generation, r, w)
      ensures upgrade ==> KeepsData(old(home), home, attempt.generation, attempt.id, committed, w.databaseCopy)
    {
      ghost var start := home;
      var exit := StageCandidate(request, consent, attempt, first, upgrade, w);
      if exit.Some? {
        return exit.value, false;
      }
      ghost var staged := home;
      r, committed := Activate(request, consent, attempt, first, w);
      if !first { KeepsAround(start, start, staged, home, attempt.generation); }
      if upgrade { ActivationKeepsData(start, staged, home, attempt, committed, w.databaseCopy); }
      if committed {
        FrameThenActive(start, staged, home, consent.id, attempt.id, attempt.generation);
        InstallsAround(start, start, staged, home, attempt.generation, w.bundle, upgrade);
      } else {
        ExitsAfter(start, staged, home, r, consent, attempt, first);
      }
    }

    method StageCandidate(request: Request, consent: Consent, attempt: Attempt, first: bool, upgrade: bool, w: World)
      returns (exit: Option<Outcome>)
      requires first ==> Fresh(home, consent, attempt) && !upgrade
      modifies `home, `recorded
      ensures exit.Some? ==> Exits(old(home), home, exit.value, consent, attempt, first)
      ensures exit.None? ==> Contained(old(home), home, consent, attempt, first) && Same(old(home), home, ActiveFile)
      ensures exit.None? && request.pat.Some? ==> attempt.generation in recorded && recorded[attempt.generation] == request.pat.value
      ensures Same(old(home), home, Pat)
      ensures exit.None? <==>
        (first || w.attemptWrite.Done?) && StagesCandidate(old(home), attempt.generation, upgrade, w) && Records(request.pat, w)
      ensures exit.None? ==> InstallsWhole(old(home), home, attempt.generation, w.bundle, upgrade)
      ensures !first ==> KeepsGeneration(old(home), home, attempt.generation)
      ensures upgrade && exit.Some? ==> BlockedAtStop(old(home), home, attempt.generation, exit.value, w)
      ensures upgrade ==> KeepsData(old(home), home, attempt.generation, attempt.id, exit.None?, w.databaseCopy)
    {
      ghost var start := home;
      exit := RecordAttempt(consent, attempt, first, w);
      PayloadKeeps(start, home, attempt.generation);
      StagingKeepsData(start, home, consent.id, attempt, w.databaseCopy);
      if exit.Some? {
        return;
      }
      ghost var noted := home;
      exit := StageAndRecord(request, consent, attempt, first, upgrade, w);
      FrameThen(start, noted, home, consent.id, attempt.id, attempt.generation);
      if !first { KeepsAround(start, noted, home, home, attempt.generation); }
      if upgrade {
        if exit.Some? { BlockedAround(start, noted, home, home, attempt.generation, exit.value, w); }
        CopyKeepsData(start, noted, home, consent.id, attempt, exit.None?, w.databaseCopy);
      }
      CandidateAlike(start, noted, attempt.generation, request.pat, first, upgrade, w);
      if exit.None? { InstallsAround(start, noted, home, home, attempt.generation, w.bundle, upgrade); }
    }

    /** The candidate's files and its database, and what is recorded in that. */
    method StageAndRecord(request: Request, consent: Consent, attempt: Attempt, first: bool, upgrade: bool, w: World)
      returns (exit: Option<Outcome>)
      requires first ==> Fresh(home, consent, attempt) && !upgrade
      modifies `home, `recorded
      ensures exit.Some? ==> Exits(old(home), home, exit.value, consent, attempt, first)
      ensures exit.None? ==> Contained(old(home), home, consent, attempt, first) && Same(old(home), home, ActiveFile)
      ensures exit.None? && request.pat.Some? ==> attempt.generation in recorded && recorded[attempt.generation] == request.pat.value
      ensures Same(old(home), home, Pat)
      ensures exit.None? <==> StagesCandidate(old(home), attempt.generation, upgrade, w) && Records(request.pat, w)
      ensures exit.None? ==> InstallsWhole(old(home), home, attempt.generation, w.bundle, upgrade)
      ensures !first ==> KeepsGeneration(old(home), home, attempt.generation)
      ensures upgrade && exit.Some? ==> BlockedAtStop(old(home), home, attempt.generation, exit.value, w)
      ensures upgrade ==> KeepsData(old(home), home, attempt.generation, attempt.id, exit.None?, w.databaseCopy)
    {
      ghost var start := home;
      exit := StageAndCopy(consent, attempt, first, upgrade, w);
      if exit.Some? {
        return;
      }
      ghost var copied := home;
      exit := RecordCandidate(request.pat, consent, attempt, first, w);
      FrameThen(start, copied, home, consent.id, attempt.id, attempt.generation);
      if upgrade { StagedKeepsData(start, copied, home, attempt, exit.None?, w.databaseCopy); }
      if Generation(attempt.generation) in start && !first { KeptThen(start, copied, home, attempt.generation); }
      if exit.None? && Unstaged(start, attempt.generation, w.bundle) { StagedAlike(copied, home, attempt.generation, w.bundle); }
    }

    /** The bundle's files, and over an old generation its database. */
    method StageAndCopy(consent: Consent, attempt: Attempt, first: bool, upgrade: bool, w: World) returns (exit: Option<Outcome>)
      requires first ==> Fresh(home, consent, attempt) && !upgrade
      modifies `home
      ensures exit.Some? ==> Exits(old(home), home, exit.value, consent, attempt, first)
      ensures exit.None? ==> Contained(old(home), home, consent, attempt, first)
      ensures Same(old(home), home, Pat)
      ensures exit.None? <==> StagesCandidate(old(home), attempt.generation, upgrade, w)
      ensures exit.None? && Unstaged(old(home), attempt.generation, w.bundle) ==> StagedInFull(home, attempt.generation, w.bundle)
      ensures exit.None? && (upgrade || DatabaseFits(old(home), attempt.generation)) ==> DatabaseFits(home, attempt.generation)
      ensures !first ==> KeepsGeneration(old(home), home, attempt.generation)
      ensures upgrade && exit.Some? ==> BlockedAtStop(old(home), home, attempt.generation, exit.value, w)
      ensures upgrade ==> KeepsData(old(home), home, attempt.generation, attempt.id, exit.None?, w.databaseCopy)
    {
      ghost var start := home;
      StagesWhole(home, attempt.generation, w.bundle, w.copies);
      exit := StageFiles(consent, attempt, first, w);
      ghost var staged := home;
      if !first && Generation(attempt.generation) in start { PayloadKeeps(start, staged, attempt.generation); }
      if upgrade { StagingKeepsData(start, staged, consent.id, attempt, w.databaseCopy); }
      if exit.Some? || !upgrade {
        return;
      }
      exit := CopyOver(start, consent, attempt, w);
    }

    /** The staged generation gets the database of the old one. */
    method CopyOver(ghost h: Home, consent: Consent, attempt: Attempt, w: World) returns (exit: Option<Outcome>)
      requires (home, true) == Stage(h, attempt.generation, w.bundle, w.copies)
      requires Frame(h, home, consent.id, attempt.id, attempt.generation) && Same(h, home, Pat)
      requires Unstaged(h, attempt.generation, w.bundle) ==> StagedInFull(home, attempt.generation, w.bundle)
      modifies `home
      ensures exit == if w.backup && w.databaseCopy.Copied? then None else Some(Blocked)
      ensures exit.Some? ==> Exits(h, home, exit.value, consent, attempt, false)
      ensures Contained(h, home, consent, attempt, false) && Same(h, home, Pat)
      ensures exit.None? && Unstaged(h, attempt.generation, w.bundle) ==> StagedInFull(home, attempt.generation, w.bundle)
      ensures exit.None? ==> IsFile(home, GenerationFile(attempt.generation, DATABASE))
      ensures KeepsGeneration(h, home, attempt.generation)
      ensures exit.Some? ==> BlockedAtStop(h, home, attempt.generation, exit.value, w)
      ensures KeepsData(h, home, attempt.generation, attempt.id, exit.None?, w.databaseCopy)
    {
      ghost var staged := home;
      if Generation(attempt.generation) in h { PayloadKeeps(h, staged, attempt.generation); }
      exit := CopyDatabase(consent, attempt, w);
      CopyKeepsData(h, staged, home, consent.id, attempt, exit.None?, w.databaseCopy);
      FrameThen(h, staged, home, consent.id, attempt.id, attempt.generation);
      if Generation(attempt.generation) in h { KeptThen(h, staged, home, attempt.generation); }
      if exit.None? && Unstaged(h, attempt.generation, w.bundle) { StagedAlike(staged, home, attempt.generation, w.bundle); }
    }

    // ----- Consent and the fresh attempt ----------------------------------------------------------

    /** preflightConsent: no writes; None when the request may go on. */
    method PreflightConsent(request: Request, w: World) returns (invalid: bool)
      ensures !invalid <==> ConsentFits(home, request, w)
    {
      if request.consentID != "" {
        var consent := ReadConsent(home, request.consentID);
        return consent.None? || w.required.None? || consent.value.version != request.version
            || consent.value.digest != request.digest
            || !SameRecoveryCapabilities(consent.value.capabilities, w.required.value);
      }
      return w.required.None? || !w.ownerBound || request.accepted != w.required.value;
    }

    /** The consent in hand, or a new one recorded: the first durable record of a fresh Home. */
    method ObtainConsent(request: Request, w: World) returns (exit: Option<Outcome>, consent: Consent)
      modifies `home
      ensures exit.Some? ==> exit.value.ConsentRequired? || exit.value.Error?
      ensures exit.None? && request.consentID != "" ==> home == old(home) && ReadConsent(home, request.consentID) == Some(consent)
      ensures exit.None? && request.consentID == "" ==>
        consent == NewConsent(root, request, w) && home == Written(old(home), ConsentFile(consent.id), ConsentRecord(consent), Done)
      ensures exit.None? <==> ConsentFits(old(home), request, w) && (request.consentID == "" ==> w.consentWrite.Done?)
      ensures FrameConsent(old(home), home, w)
    {
      consent := NewConsent(root, request, w);
      if request.consentID != "" {
        var invalid := PreflightConsent(request, w);
        var found := ReadConsent(home, request.consentID);
        if invalid || found.None? {
          return Some(ConsentRequired), consent;
        }
        return None, found.value;
      }
      if w.required.None? || !w.ownerBound || request.accepted != w.required.value {
        return Some(ConsentRequired), consent;
      }
      home := Written(home, ConsentFile(consent.id), ConsentRecord(consent), w.consentWrite);
      return if w.consentWrite.Done? then None else Some(Error), consent;
    }

    /** A consent without an attempt: the attempt is recorded right after it, before all that can fail. */
    method RecordFreshAttempt(request: Request, consent: Consent, w: World) returns (exit: Option<Outcome>, attempt: Attempt)
      requires WellFormed(w) && ConsentOnlyLayout(home, consent.id) && ReadConsent(home, consent.id) == Some(consent)
      modifies `home
      ensures attempt == NewAttempt(request, consent, w, Consented)
      ensures home == Written(old(home), AttemptFile(attempt.id), AttemptRecord(attempt), w.attemptWrite)
      ensures exit == if w.attemptWrite.Done? then None else Some(Error)
      ensures exit.None? ==> Fresh(home, consent, attempt)
      ensures Same(old(home), home, Pat) && Same(old(home), home, ActiveFile)
    {
      attempt := NewAttempt(request, consent, w, Consented);
      AttemptMakesFresh(home, consent, attempt);
      home := Written(home, AttemptFile(attempt.id), AttemptRecord(attempt), w.attemptWrite);
      return if w.attemptWrite.Done? then None else Some(Error), attempt;
    }

    /** Everything after the consent and the fresh attempt, with the rollback still to come. */
    method Proceed(request: Request, consent: Consent, attempt: Attempt, first: bool, active: Option<Active>, w: World)
      returns (r: Outcome, rollback: Rollback)
      requires ReadActive(home) == active
      requires first ==> Fresh(home, consent, attempt) && active.None?
      requires !first ==> AttemptFile(attempt.id) !in home
      requires attempt.version == request.version && attempt.digest == request.digest
      requires attempt.generation == GenerationName(request.digest) != ""
      modifies `home, `recorded
      ensures Ends(old(home), home, request, consent, attempt, first, active, r, rollback, w)
      ensures PatKept(old(home), home, request, rollback)
      ensures r.Ready? && request.pat.Some? ==>
        r.active.generation in recorded && recorded[r.active.generation] == request.pat.value
      ensures ExactUnder(old(home), request, first, consent.id, r, rollback.committed, w)
      ensures rollback.committed ==> InstallsWhole(old(home), home, attempt.generation, w.bundle, active.Some?)
      ensures !first ==> KeepsGeneration(old(home), home, attempt.generation)
      ensures active.Some? && !Resumes(active, request) && PatIsFile(old(home)) ==>
        BlockedAtStop(old(home), home, attempt.generation, r, w)
      ensures Upgrades(old(home), home, attempt.generation, attempt.id, rollback.committed, w.databaseCopy)
    {
      var resume := Resumes(active, request);
      var exit;
      exit, rollback := Preactivate(request, consent, attempt, first, active.Some? && !resume, w);
      ghost var prepared := home;
      if exit.Some? {
        if !first { PayloadKeeps(old(home), prepared, attempt.generation); }
        LeftKeepsData(old(home), prepared, attempt, w.databaseCopy);
        return exit.value, rollback;
      }
      ReadsAlike(old(home), prepared, consent.id, attempt);
      if resume {
        RepairAlike(old(home), prepared, active.value, consent.id, request.pat, w);
        r := Repair(request, active.value, consent, w);
        RepairEnds(old(home), prepared, home, consent.id, attempt);
        RepairPayload(old(home), prepared, home, attempt.generation);
        LeftKeepsData(old(home), home, attempt, w.databaseCopy);
      } else {
        var committed;
        r, committed := InstallCandidate(request, consent, attempt, first, active.Some?, w);
        rollback := rollback.(committed := committed);
        if !first { KeepsAround(old(home), prepared, home, home, attempt.generation); }
        CandidateAlike(old(home), prepared, attempt.generation, request.pat, first, active.Some?, w);
        PreparedKeepsData(old(home), prepared, home, attempt, committed, w.databaseCopy);
        if active.Some? { BlockedAround(old(home), prepared, home, home, attempt.generation, r, w); }
        if committed {
          FrameThenActive(old(home), prepared, home, consent.id, attempt.id, attempt.generation);
          InstallsAround(old(home), prepared, home, home, attempt.generation, w.bundle, active.Some?);
        } else {
          FrameThen(old(home), prepared, home, consent.id, attempt.id, attempt.generation);
        }
      }
    }

    // ----- Apply -------------------------------------------------------------------------------------

    /** A fresh Home gets its attempt at once; another one only later, when it is staged. */
    method ObtainAttempt(request: Request, consent: Consent, recovered: Option<Attempt>, first: bool, w: World)
      returns (exit: Option<Outcome>, attempt: Attempt)
      requires WellFormed(w)
      requires first && recovered.None? ==> ConsentOnlyLayout(home, consent.id) && ReadConsent(home, consent.id) == Some(consent)
      requires first && recovered.Some? ==> Fresh(home, consent, recovered.value)
      modifies `home
      ensures attempt == if first && recovered.Some? then recovered.value
                         else NewAttempt(request, consent, w, if first then Consented else Staged)
      ensures exit.Some? ==> exit.value.Error?
      ensures exit.None? <==> (first && recovered.None? ==> w.attemptWrite.Done?)
      ensures exit.None? && first ==> Fresh(home, consent, attempt)
      ensures !first ==> home == old(home)
      ensures PayloadKept(old(home), home)
      ensures Same(old(home), home, Pat) && Same(old(home), home, ActiveFile)
      ensures Frame(old(home), home, consent.id, attempt.id, attempt.generation)
    {
      if first && recovered.Some? {
        return None, recovered.value;
      }
      if !first {
        return None, NewAttempt(request, consent, w, Staged);
      }
      FrameWritten(home, AttemptFile(w.attemptID), AttemptRecord(NewAttempt(request, consent, w, Consented)), w.attemptWrite,
                   consent.id, w.attemptID, GenerationName(request.digest));
      PayloadWritten(home, AttemptFile(w.attemptID), AttemptRecord(NewAttempt(request, consent, w, Consented)), w.attemptWrite);
      exit, attempt := RecordFreshAttempt(request, consent, w);
    }

    /** The old installation cannot be fenced: its database is missing or fails, or work is running. */
    function Fenced(w: World): (r: Outcome)
      requires !w.fence.Held?
    {
      if w.fence.NoDatabase? then Blocked else if w.fence.Busy? then ActiveWork else Error
    }

    /** Everything between the locks, with the rollback still to come. */
    method Install(request: Request, freshHome: bool, recovery: Option<(Consent, Option<Attempt>)>, w: World)
      returns (r: Outcome, rollback: Rollback)
      requires Plausible(w, home) && GenerationName(request.digest) != ""
      requires freshHome ==> home == map[] && recovery.None? && request.consentID == ""
      requires recovery.Some? ==> Recovers(home, RetryOf(root, request, w), recovery.value.0, recovery.value.1)
      modifies `home, `recorded
      ensures Overall(root, old(home), home, request, r, rollback, w)
      ensures PatKept(old(home), home, request, rollback)
      ensures Stages(old(home), home, recorded, request, r, rollback, w)
      ensures ExactWithin(old(home), request, recovery, freshHome, r, rollback.committed, w)
      ensures r.ActiveWork? <==> Works(old(home), request, w)
      ensures r.ActiveWork? ==> home == old(home) && !rollback.replaced
    {
      var active := ReadActive(home);
      if active.Some? && !Resumes(active, request) && !w.fence.Held? {
        r, rollback := Fenced(w), Rollback(false, None, false);
        UntouchedEnds(root, home, home, request, r, w);
        StopsEarly(home, home, recorded, request, r, w);
        return;
      }
      r, rollback := Undisturbed(request, freshHome, recovery, w);
    }

    /** No work runs: the consent, and then the rest. */
    method Undisturbed(request: Request, freshHome: bool, recovery: Option<(Consent, Option<Attempt>)>, w: World)
      returns (r: Outcome, rollback: Rollback)
      requires Plausible(w, home) && GenerationName(request.digest) != ""
      requires freshHome ==> home == map[] && recovery.None? && request.consentID == ""
      requires recovery.Some? ==> Recovers(home, RetryOf(root, request, w), recovery.value.0, recovery.value.1)
      requires ReadActive(home).Some? && !Resumes(ReadActive(home), request) ==> w.fence.Held?
      modifies `home, `recorded
      ensures Overall(root, old(home), home, request, r, rollback, w)
      ensures PatKept(old(home), home, request, rollback)
      ensures Stages(old(home), home, recorded, request, r, rollback, w)
      ensures ExactWithin(old(home), request, recovery, freshHome, r, rollback.committed, w)
      ensures !r.ActiveWork?
    {
      rollback := Rollback(false, None, false);
      var exit, consent := ObtainConsent(request, w);
      if exit.Some? {
        ConsentStops(root, old(home), home, recorded, request, exit.value, w);
        return exit.value, rollback;
      }
      StartsFresh(root, old(home), home, request, freshHome, recovery, consent, w);
      var first := ReadActive(home).None? && (freshHome || recovery.Some?);
      r, rollback := WithConsent(old(home), request, consent, if first && recovery.Some? then recovery.value.1 else None, first, freshHome, w);
    }

    /** The consent is in hand, and no work runs. */
    method WithConsent(ghost h0: Home, request: Request, consent: Consent, recovered: Option<Attempt>, first: bool, freshHome: bool, w: World)
      returns (r: Outcome, rollback: Rollback)
      requires WellFormed(w) && GenerationName(request.digest) != ""
      requires Begins(root, h0, home, request, consent, recovered, first, w) && (freshHome ==> first)
      requires ConsentAndFence(h0, request, w) && consent.id == ConsentInHand(h0, request, w)
      modifies `home, `recorded
      ensures Overall(root, h0, home, request, r, rollback, w)
      ensures PatKept(h0, home, request, rollback)
      ensures Stages(h0, home, recorded, request, r, rollback, w)
      ensures ExactInside(h0, request, first, recovered.Some?, freshHome, r, rollback.committed, w) && !r.ActiveWork?
    {
      r, rollback := UnderConsent(h0, request, consent, recovered, first, freshHome, w);
      ExactConsented(h0, request, first, recovered.Some?, freshHome, consent.id, r, rollback.committed, w);
    }

    /** The attempt, the lock of a fresh Home, and the rest. */
    method UnderConsent(ghost h0: Home, request: Request, consent: Consent, recovered: Option<Attempt>, first: bool, freshHome: bool, w: World)
      returns (r: Outcome, rollback: Rollback)
      requires WellFormed(w) && GenerationName(request.digest) != ""
      requires Begins(root, h0, home, request, consent, recovered, first, w) && (freshHome ==> first)
      modifies `home, `recorded
      ensures Overall(root, h0, home, request, r, rollback, w)
      ensures PatKept(h0, home, request, rollback)
      ensures Stages(h0, home, recorded, request, r, rollback, w)
      ensures ExactBegun(h0, request, first, recovered.Some?, freshHome, consent.id, r, rollback.committed, w) && !r.ActiveWork?
    {
      rollback := Rollback(false, None, false);
      BeginsAttempts(root, h0, home, request, consent, recovered, first, w);
      var exit, attempt := Begin(h0, request, consent, recovered, first, freshHome, w);
      ghost var begun := home;
      ReadsAlike(h0, begun, consent.id, attempt);
      if exit.Some? {
        StopsEarly(h0, home, recorded, request, exit.value, w);
        Concludes(root, h0, begun, home, request, consent, attempt, first, exit.value, rollback, w);
        return exit.value, rollback;
      }
      r, rollback := WithAttempt(h0, request, consent, attempt, first, w);
    }

    /** From a recorded attempt, or one still to be recorded over an installation, to the end. */
    method WithAttempt(ghost h0: Home, request: Request, consent: Consent, attempt: Attempt, first: bool, w: World)
      returns (r: Outcome, rollback: Rollback)
      requires Begun(root, h0, home, request, consent, attempt, first, w) && (first ==> Fresh(home, consent, attempt))
      modifies `home, `recorded
      ensures Overall(root, h0, home, request, r, rollback, w)
      ensures PatKept(h0, home, request, rollback)
      ensures Stages(h0, home, recorded, request, r, rollback, w)
      ensures ExactUnder(h0, request, first, consent.id, r, rollback.committed, w) && !r.ActiveWork?
    {
      ghost var begun := home;
      var active := ReadActive(home);
      r, rollback := Proceed(request, consent, attempt, first, active, w);
      FromAttempt(root, h0, begun, home, recorded, request, consent, attempt, first, r, rollback, w);
    }

    /** The attempt, and the lock of a fresh Home. */
    method Begin(ghost h0: Home, request: Request, consent: Consent, recovered: Option<Attempt>, first: bool, freshHome: bool, w: World)
      returns (exit: Option<Outcome>, attempt: Attempt)
      requires WellFormed(w) && GenerationName(request.digest) != ""
      requires Begins(root, h0, home, request, consent, recovered, first, w) && (freshHome ==> first)
      modifies `home
      ensures attempt == if first && recovered.Some? then recovered.value
                         else NewAttempt(request, consent, w, if first then Consented else Staged)
      ensures exit.Some? ==> NotActivated(exit.value) && !exit.value.ActiveWork? && !exit.value.RepairFresh?
      ensures exit.None? <==> BeginFits(first, recovered.Some?, freshHome, w)
      ensures exit.None? && first ==> Fresh(home, consent, attempt)
      ensures !first ==> home == old(home)
      ensures PayloadKept(h0, home) && Frame(h0, home, consent.id, attempt.id, attempt.generation)
      ensures Same(h0, home, Pat) && Same(old(home), home, ActiveFile)
    {
      ghost var consented := home;
      exit, attempt := ObtainAttempt(request, consent, recovered, first, w);
      ghost var noted := home;
      FrameThen(h0, consented, noted, consent.id, attempt.id, attempt.generation);
      PayloadThen(h0, consented, noted);
      if exit.None? && freshHome {
        exit := LockFresh(consent, attempt, w);
        FrameThen(h0, noted, home, consent.id, attempt.id, attempt.generation);
        PayloadThen(h0, noted, home);
      }
    }

    /** Only now the lock inside a fresh Home. */
    method LockFresh(consent: Consent, attempt: Attempt, w: World) returns (exit: Option<Outcome>)
      requires Fresh(home, consent, attempt)
      modifies `home
      ensures Fresh(home, consent, attempt) && Frame(old(home), home, consent.id, attempt.id, attempt.generation)
      ensures Same(old(home), home, Pat) && Same(old(home), home, ActiveFile)
      ensures exit == if w.lock then None else Some(Blocked)
      ensures PayloadKept(old(home), home)
    {
      if !w.lock {
        return Some(Blocked);
      }
      FreshWritten(home, consent, attempt, Lock, Bytes(""), Done);
      FrameWritten(home, Lock, Bytes(""), Done, consent.id, attempt.id, attempt.generation);
      PayloadWritten(home, Lock, Bytes(""), Done);
      home := Written(home, Lock, Bytes(""), Done);
      return None;
    }

    /** The checks without effect, and the lock of a Home that exists; a recovery is looked up again under it. */
    method Admit(request: Request, w: World)
      returns (exit: Option<Outcome>, freshHome: bool, recovery: Option<(Consent, Option<Attempt>)>)
      modifies `home
      ensures exit.Some? ==> exit.value.Blocked? || exit.value.ConsentRequired?
      ensures exit.Some? ==> Refused(root, old(home), home, request, exit.value, w)
      ensures Aside(old(home), home) && Same(old(home), home, Pat)
      ensures exit.None? ==> GenerationName(request.digest) != ""
      ensures exit.None? && freshHome ==> home == map[] && recovery.None? && request.consentID == ""
      ensures exit.None? && recovery.Some? ==> Recovers(home, RetryOf(root, request, w), recovery.value.0, recovery.value.1)
      ensures exit.None? <==> Admits(root, old(home), request, w)
      ensures freshHome <==> old(home) == map[]
      ensures exit.None? ==> (recovery.Some? <==> old(home) != map[] && ActiveFile !in old(home))
      ensures exit.None? && recovery.Some? ==> (recovery.value.1.Some? <==> AttemptIDs(old(home)) != {})
    {
      freshHome, recovery := home == map[], None;
      if !w.valid || GenerationName(request.digest) == "" {
        return Some(Blocked), freshHome, recovery;
      }
      recovery := FreshRecoveryForApply(home, RetryOf(root, request, w));
      if recovery.None? && home != map[] && ActiveFile !in home {
        return Some(Blocked), freshHome, recovery;
      }
      var invalid := PreflightConsent(request, w);
      if invalid {
        return Some(ConsentRequired), freshHome, recovery;
      }
      if freshHome {
        return if w.prospectiveLock then None else Some(Blocked), freshHome, None;
      }
      exit, recovery := LockExisting(request, recovery.Some?, w);
      return exit, freshHome, recovery;
    }

    /** Under the lock an earlier recovery is found again, or the call gives up. */
    method LockExisting(request: Request, recovering: bool, w: World)
      returns (exit: Option<Outcome>, recovery: Option<(Consent, Option<Attempt>)>)
      modifies `home
      ensures exit.Some? ==> exit.value.Blocked?
      ensures Aside(old(home), home) && Same(old(home), home, Pat)
      ensures exit.None? && recovery.Some? ==> Recovers(home, RetryOf(root, request, w), recovery.value.0, recovery.value.1)
      ensures exit.None? ==> w.lock && Lock !in old(home) && (recovery.Some? <==> recovering)
      ensures w.lock && Lock !in old(home) && (recovering ==> Recoverable(old(home), RetryOf(root, request, w))) ==> exit.None?
      ensures exit.None? ==> AttemptIDs(home) == AttemptIDs(old(home)) && home != map[]
    {
      recovery := None;
      if Lock in home || !w.lock {
        return Some(Blocked), recovery;
      }
      LockAside(home);
      if recovering && Recoverable(home, RetryOf(root, request, w)) { LockedRecovers(home, RetryOf(root, request, w)); }
      home := Written(home, Lock, Bytes(""), Done);
      assert Lock in home;
      if recovering {
        recovery := FreshRecoveryForApply(home, RetryOf(root, request, w));
        if recovery.None? {
          Unlock(w);
          return Some(Blocked), recovery;
        }
      }
      return None, recovery;
    }

    /**
     * One call of the launcher. Whatever fails, active.json only moves forward, a fresh failure
     * can be retried, and before the commit the credential comes back as it was found.
     */
    method Apply(request: Request, w: World) returns (r: Outcome, ghost rollback: Rollback)
      requires Plausible(w, home)
      modifies `home, `recorded
      ensures Applied(root, old(home), home, recorded, request, r, rollback, w)
    {
      rollback := Rollback(false, None, false);
      var exit, freshHome, recovery := Admit(request, w);
      StillPlausible(old(home), home, w);
      if exit.Some? {
        LeftAtOnce(root, old(home), home, recorded, request, exit.value, w);
        return exit.value, rollback;
      }
      r, rollback := ApplyLocked(old(home), request, freshHome, recovery, w);
    }

    /** The installation between its locks, and the deferred calls. */
    method ApplyLocked(ghost h: Home, request: Request, freshHome: bool, recovery: Option<(Consent, Option<Attempt>)>, w: World)
      returns (r: Outcome, ghost rollback: Rollback)
      requires Plausible(w, home) && Aside(h, home) && Same(h, home, Pat) && Admits(root, h, request, w)
      requires freshHome <==> h == map[]
      requires freshHome ==> home == map[] && request.consentID == ""
      requires recovery.Some? <==> h != map[] && ActiveFile !in h
      requires recovery.Some? ==> (recovery.value.1.Some? <==> AttemptIDs(h) != {})
      requires recovery.Some? ==> Recovers(home, RetryOf(root, request, w), recovery.value.0, recovery.value.1)
      modifies `home, `recorded
      ensures Applied(root, h, home, recorded, request, r, rollback, w)
    {
      ghost var locked := home;
      var done;
      r, done := Install(request, freshHome, recovery, w);
      rollback := done;
      ghost var installed := home;
      Finish(done, w);
      ExactAround(root, h, locked, request, recovery, r, done, w);
      WorksAround(root, h, locked, home, request, r, done, w);
      AppliedAround(root, h, locked, installed, recorded, request, r, done, w);
    }

    /** The deferred calls. */
    method Finish(rollback: Rollback, w: World)
      requires rollback.prior.Some? ==> rollback.prior.value.Regular?
      modifies `home
      ensures home == Afterwards(old(home), rollback, w)
    {
      RollBack(rollback, w);
      Unlock(w);
    }

    /** The deferred restore; its own failure is ignored. */
    method RollBack(rollback: Rollback, w: World)
      requires rollback.prior.Some? ==> rollback.prior.value.Regular?
      modifies `home
      ensures home == if rollback.replaced && !rollback.committed && w.restore then Restored(old(home), rollback.prior) else old(home)
    {
      if rollback.replaced && !rollback.committed && w.restore {
        home := Restored(home, rollback.prior);
      }
    }

    method Unlock(w: World)
      modifies `home
      ensures home == if w.unlock then old(home) - {Lock} else old(home)
    {
      if w.unlock {
        home := home - {Lock};
      }
    }
  }

  const NEW_DATABASE := Bytes("new")
  const LAUNCHER := Bytes("workflow-setup.exe")
}
