/** The Workflow Home as a map from paths to nodes, its records, and what makes it recoverable. */
module LauncherHome {
  import opened Collections

  // ----- Records ------------------------------------------------------------------------

  datatype DockerAction = Install | Upgrade | Reuse

  /** `decodes` and `fitsBundle`: the capability decodes, and validates against the bundle. */
  datatype Docker = Docker(action: DockerAction, required: string, observed: string, decodes: bool, fitsBundle: bool)

  /** The accepted capabilities: one value by name, the Docker target apart. */
  datatype Capabilities = Capabilities(others: map<string, string>, docker: Docker)

  datatype Consent = Consent(schema: int, id: string, version: string, digest: string, home: string, capabilities: Capabilities)

  datatype Phase = Consented | Staged | Verified | Failed | ReadyPhase

  datatype Attempt = Attempt(
    schema: int,
    id: string,
    version: string,
    digest: string,
    generation: string,
    consentID: string,
    phase: Phase,
    createdAt: int)

  datatype Active = Active(generation: string, version: string, digest: string, attemptID: string, consentID: string, ready: bool)

  const PROTOCOL_VERSION := 1

  datatype Content =
    | ConsentRecord(consent: Consent)
    | AttemptRecord(attempt: Attempt)
    | ActiveRecord(active: Active)
    | Manifest(version: string, valid: bool, files: map<string, string>)
    | Bytes(bytes: string)

  // ----- Paths --------------------------------------------------------------------------

  datatype Path =
    | Platform | Consents | Attempts | Generations | Lock | ActiveFile
    | ConsentFile(id: string) | AttemptFile(id: string)
    | Generation(name: string) | GenerationFile(name: string, file: string)
    | Bin | Dispatcher
    | State | Credentials | Pat | SetupLock
    | Backups | Backup(id: string)
    | Elsewhere(other: string)

  datatype Node = Dir | Regular(content: Content)

  type Home = map<Path, Node>

  /** The directories on the way to a path. */
  function Above(p: Path): set<Path> {
    match p
    case Consents | Attempts | Generations | Lock | ActiveFile => {Platform}
    case ConsentFile(_) => {Platform, Consents}
    case AttemptFile(_) => {Platform, Attempts}
    case Generation(_) => {Platform, Generations}
    case GenerationFile(name, _) => {Platform, Generations, Generation(name)}
    case Dispatcher => {Bin}
    case Credentials | SetupLock => {State}
    case Pat => {State, Credentials}
    case Backup(_) => {Backups}
    case _ => {}
  }

  /** MkdirAll of the directory that holds `p`. */
  function MakeDirs(h: Home, p: Path): Home {
    h + map q | q in Above(p) && q !in h :: Dir
  }

  /** An atomic write: the directories first, then the whole file or nothing. */
  datatype Fate = Done | Nothing | OnlyDirectories

  function Written(h: Home, p: Path, content: Content, fate: Fate): Home {
    match fate
    case Done => MakeDirs(h, p)[p := Regular(content)]
    case Nothing => h
    case OnlyDirectories => MakeDirs(h, p)
  }

  /** A plain copy may also stop half way. */
  datatype CopyFate = Copied | NothingCopied | DirectoriesMade | Truncated(written: string)

  function CopiedTo(h: Home, p: Path, content: Content, fate: CopyFate): Home {
    match fate
    case Copied => Written(h, p, content, Done)
    case NothingCopied => h
    case DirectoriesMade => Written(h, p, content, OnlyDirectories)
    case Truncated(written) => Written(h, p, Bytes(written), Done)
  }

  /** RemoveAll. */
  function WithoutTree(h: Home, p: Path): Home {
    h - set q | q in h && (q == p || p in Above(q))
  }

  /** RemoveAll that fails half way. */
  function WithoutSome(h: Home, p: Path, gone: Path -> bool): Home {
    h - set q | q in h && (q == p || p in Above(q)) && gone(q)
  }

  predicate IsEmpty(h: Home, p: Path) { forall q :: q in h ==> p !in Above(q) }

  /** What every file system keeps: a path stands in its directories. */
  predicate Rooted(h: Home) { forall p :: p in h ==> Above(p) <= h.Keys }

  // ----- Reading --------------------------------------------------------------------------

  function ReadConsent(h: Home, id: string): Option<Consent> {
    var p := ConsentFile(id);
    if p in h && h[p].Regular? && h[p].content.ConsentRecord? then Some(h[p].content.consent) else None
  }

  function ReadAttempt(h: Home, id: string): Option<Attempt> {
    var p := AttemptFile(id);
    if p in h && h[p].Regular? && h[p].content.AttemptRecord? then Some(h[p].content.attempt) else None
  }

  function ReadActive(h: Home): Option<Active> {
    var p := ActiveFile;
    if p in h && h[p].Regular? && h[p].content.ActiveRecord? && h[p].content.active.generation != ""
    then Some(h[p].content.active) else None
  }

  function Credential(h: Home): Option<Node> { if Pat in h then Some(h[Pat]) else None }

  // ----- Names ------------------------------------------------------------------------------

  function Lower(s: string): string {
    if s == "" then "" else [if 'A' <= s[0] <= 'Z' then s[0] - 'A' + 'a' else s[0]] + Lower(s[1..])
  }

  function GenerationName(digest: string): string {
    var name := Lower(digest);
    if "sha256:" <= name then name[7..] else name
  }

  predicate SafeID(id: string, prefix: string) {
    && prefix <= id && |id| == |prefix| + 24
    && forall i :: |prefix| <= i < |id| ==> 'a' <= id[i] <= 'f' || '0' <= id[i] <= '9'
  }

  predicate SafeConsentID(id: string) { SafeID(id, "consent-") }

  predicate SafeAttemptID(id: string) { SafeID(id, "attempt-") }

  // ----- Recovering a fresh installation --------------------------------------------------------

  /** Only the Docker step may move, from install or upgrade to reuse of the accepted version. */
  predicate SameRecoveryCapabilities(accepted: Capabilities, required: Capabilities) {
    || accepted == required
    || (accepted.others == required.others
        && accepted.docker.decodes && required.docker.decodes && accepted.docker.fitsBundle
        && !accepted.docker.action.Reuse? && required.docker.action.Reuse?
        && accepted.docker.required == required.docker.required
        && required.docker.observed == required.docker.required)
  }

  predicate LayoutDir(p: Path) { p.Platform? || p.Consents? || p.Attempts? || p.State? || p.Credentials? }

  predicate LayoutFile(p: Path, consentID: string, attemptID: string) {
    p == ConsentFile(consentID) || p == AttemptFile(attemptID) || p.Lock? || p.Pat? || p.SetupLock?
  }

  predicate Fits(h: Home, p: Path, consentID: string, attemptID: string)
    requires p in h
  {
    (LayoutDir(p) && h[p].Dir?) || (LayoutFile(p, consentID, attemptID) && h[p].Regular?)
  }

  /** Exactly one consent and one attempt; besides them only locks and the credential. */
  predicate FreshRecoveryLayout(h: Home, consentID: string, attemptID: string) {
    && (forall p :: p in h ==> Fits(h, p, consentID, attemptID))
    && {Platform, Consents, Attempts, ConsentFile(consentID), AttemptFile(attemptID)} <= h.Keys
  }

  predicate FitsConsentOnly(h: Home, p: Path, consentID: string)
    requires p in h
  {
    || ((p.Platform? || p.Consents? || p.State? || p.Credentials?) && h[p].Dir?)
    || ((p == ConsentFile(consentID) || p.Lock? || p.SetupLock?) && h[p].Regular?)
  }

  predicate ConsentOnlyLayout(h: Home, consentID: string) {
    && (forall p :: p in h ==> FitsConsentOnly(h, p, consentID))
    && {Platform, Consents, ConsentFile(consentID)} <= h.Keys
  }

  predicate ValidFreshRecovery(h: Home, root: string, fileID: string, attempt: Attempt, consent: Consent,
                               version: string, digest: string, required: Capabilities) {
    && fileID != "" && attempt.schema == PROTOCOL_VERSION && attempt.id == fileID
    && attempt.version == version && attempt.digest == digest && attempt.generation == GenerationName(digest)
    && attempt.consentID != "" && attempt.createdAt != 0
    && !attempt.phase.ReadyPhase?
    && consent.schema == PROTOCOL_VERSION && consent.id == attempt.consentID && SafeConsentID(consent.id)
    && consent.version == version && consent.digest == digest && consent.home == root
    && SameRecoveryCapabilities(consent.capabilities, required)
    && FreshRecoveryLayout(h, consent.id, attempt.id)
  }

  /** What a retry asks for; `required` is None when the required capabilities cannot be computed. */
  datatype Retry = Retry(root: string, consentID: string, version: string, digest: string, required: Option<Capabilities>)

  function AttemptIDs(h: Home): set<string> { set p | p in h && p.AttemptFile? :: p.id }

  /** freshRecoveryForApply finds this consent, and this attempt or none yet. */
  ghost predicate Recovers(h: Home, r: Retry, consent: Consent, attempt: Option<Attempt>) {
    && r.consentID != "" && SafeConsentID(r.consentID)
    && ConsentFile(r.consentID) in h && h[ConsentFile(r.consentID)].Regular?
    && ReadConsent(h, r.consentID) == Some(consent) && r.required.Some?
    && if AttemptIDs(h) == {}
       then
         && attempt.None? && consent.schema == PROTOCOL_VERSION && consent.id == r.consentID
         && consent.version == r.version && consent.digest == r.digest
         && SameRecoveryCapabilities(consent.capabilities, r.required.value) && ConsentOnlyLayout(h, consent.id)
       else
         && attempt.Some? && AttemptIDs(h) == {attempt.value.id} && SafeAttemptID(attempt.value.id)
         && ReadAttempt(h, attempt.value.id) == attempt
         && ValidFreshRecovery(h, r.root, attempt.value.id, attempt.value, consent, r.version, r.digest, r.required.value)
  }

  /** The directory scan of freshRecoveryForApply; None when there is nothing to recover. */
  method FreshRecoveryForApply(h: Home, r: Retry) returns (found: Option<(Consent, Option<Attempt>)>)
    ensures found.Some? ==> Recovers(h, r, found.value.0, found.value.1)
    ensures found.None? ==> forall c, a :: !Recovers(h, r, c, a)
  {
    if r.consentID == "" || !SafeConsentID(r.consentID) || ConsentFile(r.consentID) !in h || !h[ConsentFile(r.consentID)].Regular? {
      return None;
    }
    var consent := ReadConsent(h, r.consentID);
    if consent.None? {
      return None;
    }
    var ids := AttemptIDs(h);
    if ids == {} {
      if r.required.Some? && consent.value.schema == PROTOCOL_VERSION && consent.value.id == r.consentID
         && consent.value.version == r.version && consent.value.digest == r.digest
         && SameRecoveryCapabilities(consent.value.capabilities, r.required.value) && ConsentOnlyLayout(h, consent.value.id) {
        return Some((consent.value, None));
      }
      return None;
    }
    var id := Take(ids);
    assert forall other :: ids == {other} ==> other == id;
    if ids != {id} || !SafeAttemptID(id) {
      return None;
    }
    var attempt := ReadAttempt(h, id);
    if attempt.None? || r.required.None?
       || !ValidFreshRecovery(h, r.root, id, attempt.value, consent.value, r.version, r.digest, r.required.value) {
      return None;
    }
    return Some((consent.value, attempt));
  }
}
