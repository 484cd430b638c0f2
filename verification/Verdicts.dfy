/** What a dispatch owes for everything that it can be answered. */
module Verdicts {
  import opened Collections
  import opened Failures
  import opened Isolation
  import opened Outbox
  import opened DeliveryProtocol

  datatype Loaded = Loaded(superseded: bool, recoveryAuthorized: bool)

  /** Everything that the store, the remote, the clock and the context answer to one dispatch. */
  datatype World = World(
    dispatcher: Option<Failure>,
    claim: Script<Reply>,
    loadable: bool,
    renewed: Option<Failure>,
    stopped: Option<Failure>,
    credentialAware: bool,
    credential: Option<Failure>,
    load: Result<Loaded, Failure>,
    leaseLeft: bool,
    projection: Option<Failure>,
    first: Result<Observation, Failure>,
    apply: Result<Observation, Failure>,
    applyNow: int,
    second: Result<Observation, Failure>,
    contextDone: bool,
    pause: Option<Failure>,
    queueInbox: Option<Failure>,
    complete: Result<Reply, Failure>,
    settle: Script<Reply>,
    settleNow: int,
    requeue: Script<Reply>)

  // ----- What an execution comes to -----------------------------------------------------

  predicate Later(f: Failure, now: int) { f.retryAt.Some? && f.retryAt.value > now }

  /** The write, and the second look when it failed. */
  function Written(w: World): Result<string, Failure> {
    if w.apply.Ok? then Ok(w.apply.value.remoteHead)
    else if Later(w.apply.error, w.applyNow) then Err(w.apply.error)
    else if w.second.Ok? && w.second.value.applied then Ok(w.second.value.remoteHead)
    else Err(w.apply.error.(unconfirmedWrite := true))
  }

  function Outcome(request: Request, superseded: bool, w: World): Result<string, Failure> {
    if request.planProjection && w.projection.Some? then Err(w.projection.value)
    else if w.first.Err? then Err(w.first.error)
    else if w.first.value.applied then Ok(w.first.value.remoteHead)
    else if superseded then Err(SUPERSEDED)
    else if !Permits(request, w.first.value) then Err(REJECTED)
    else Written(w)
  }

  /** The outcome inside its lease; `reconcileInbox` for an inbox projection that may be there already. */
  function Delivered(request: Request, reconcileInbox: bool, w: World): Result<string, Failure> {
    if w.load.Err? then Err(w.load.error)
    else if !w.leaseLeft then Err(REJECTED)
    else
      var r := Outcome(request, reconcileInbox && w.load.value.superseded, w);
      if r.Err? then
        if reconcileInbox && w.load.value.recoveryAuthorized && r.error.superseded then Ok("") else r
      else if w.contextDone then Err(UNCERTAIN)
      else r
  }

  // ----- What is owed for it ----------------------------------------------------------------

  function GivenBack(claim: Claim, uncertain: bool): Act {
    Finish(claim.token, false, uncertain || claim.uncertain, true, None)
  }

  function Deferred(claim: Claim, cause: Failure, uncertain: bool, w: World): Act {
    Finish(claim.token, false, uncertain, false, if Later(cause, w.settleNow) then cause.retryAt else None)
  }

  function Declined(claim: Claim): Act { Finish(claim.token, true, claim.uncertain, false, None) }

  /** Writes are paused and the recovery is asked for before the claim waits for a credential. */
  function Paused(claim: Claim, w: World): Act {
    if w.pause.Some? || w.queueInbox.Some? then GivenBack(claim, false)
    else Finish(claim.token, false, claim.uncertain, false, None)
  }

  function Verdict(request: Request, claim: Claim, outcome: Result<string, Failure>, w: World): Act {
    match outcome
    case Ok(result) => Complete(claim.token, result)
    case Err(f) =>
      if f.credential then Paused(claim, w)
      else if claim.reconcileOnly then InboxVerdict(claim, f, w)
      else WriteVerdict(claim, f, w)
  }

  function InboxVerdict(claim: Claim, f: Failure, w: World): Act {
    if f.noPlan then Complete(claim.token, "")
    else if IsRejection(f) && !f.superseded then Declined(claim)
    else Deferred(claim, f, true, w)
  }

  function WriteVerdict(claim: Claim, f: Failure, w: World): Act {
    if f.superseded then Complete(claim.token, "")
    else if IsRejection(f) then Declined(claim)
    else Deferred(claim, f, claim.uncertain || f.uncertain || f.unconfirmedWrite, w)
  }

  /** An uncertain write is looked for, and not repeated. */
  function LookOnly(claim: Claim, w: World): Act {
    match w.first
    case Err(f) => if f.credential then Paused(claim, w) else Deferred(claim, f, true, w)
    case Ok(o) => if o.applied then Complete(claim.token, o.remoteHead) else Declined(claim)
  }

  predicate LeaseLost(request: Request, w: World) { !request.ownRun && w.stopped.Some? }

  predicate LooksOnly(request: Request, claim: Claim) { claim.reconcileOnly && !request.inbox }

  /** The transition with which a dispatch that won `claim` begins to give it back. */
  function Settlement(request: Request, claim: Claim, w: World): Act {
    if !request.ownRun && w.renewed.Some? then GivenBack(claim, false)
    else if w.credentialAware && w.credential.Some? then
      if LeaseLost(request, w) then GivenBack(claim, false)
      else if w.credential.value.credential then Paused(claim, w)
      else Deferred(claim, w.credential.value, claim.uncertain, w)
    else if LooksOnly(request, claim) then LookOnly(claim, w)
    else if LeaseLost(request, w) then GivenBack(claim, true)
    else Verdict(request, claim, Delivered(request, claim.reconcileOnly, w), w)
  }

  /** What a dispatch answers that wins no claim. */
  function Unclaimed(request: Request, isolator: bool, w: World): Option<Failure> {
    if w.dispatcher.Some? then w.dispatcher
    else
      var r := RetryOutcome(isolator, w.claim, 0);
      if r.Err? then if !r.error.paused && r.error.inProgress && w.loadable && request.inbox then None else Some(r.error)
      else if r.value.AlreadySucceeded? then None
      else if r.value.AlreadyRejected? then Some(REJECTED)
      else Some(OTHER)
  }

  // ----- Laws ---------------------------------------------------------------------------------

  /** The remote was seen with the effect of the request, or it was written as it asks, with this head. */
  predicate Confirmed(request: Request, superseded: bool, w: World, head: string) {
    && (request.planProjection ==> w.projection.None?) && w.first.Ok?
    && if w.first.value.applied then w.first.value.remoteHead == head
       else
         && !superseded && Permits(request, w.first.value)
         && if w.apply.Ok? then w.apply.value.remoteHead == head
            else !Later(w.apply.error, w.applyNow) && w.second.Ok? && w.second.value.applied && w.second.value.remoteHead == head
  }

  /** The answer of the store or the remote that ended the delivery, before a write or by it. */
  predicate EndedBy(request: Request, claim: Claim, w: World, f: Failure) {
    || w.load == Err(f)
    || (w.load.Ok? && w.leaseLeft && Answered(request, claim.reconcileOnly && w.load.value.superseded, w, f))
  }

  predicate Answered(request: Request, superseded: bool, w: World, f: Failure) {
    var projected := !(request.planProjection && w.projection.Some?);
    || (request.planProjection && w.projection == Some(f))
    || (projected && w.first == Err(f))
    || (projected && w.first.Ok? && !w.first.value.applied && superseded && f == SUPERSEDED)
    || (projected && w.first.Ok? && !superseded && Permits(request, w.first.value) && w.apply == Err(f)
        && (Later(f, w.applyNow) || w.second.Err? || !w.second.value.applied))
  }

  /** It says that nothing is to be written any more: the request is superseded, or no plan is active. */
  predicate Dismisses(claim: Claim, w: World, f: Failure) {
    if claim.reconcileOnly then
      (f.superseded && w.load.Ok? && w.load.value.recoveryAuthorized) || (f.noPlan && !f.credential)
    else f.superseded && !f.credential
  }

  /** The claim may be completed without a write. */
  ghost predicate Moot(request: Request, claim: Claim, w: World) {
    exists f :: EndedBy(request, claim, w, f) && Dismisses(claim, w, f)
  }

  /** Nothing stood in the way of the delivery. */
  predicate Unhindered(request: Request, claim: Claim, w: World) {
    && (request.ownRun || w.renewed.None?)
    && (w.credentialAware ==> w.credential.None?)
    && (LooksOnly(request, claim) || !LeaseLost(request, w))
  }

  /** Exactly when a claim is completed, and with what. */
  lemma CompletesExactly(request: Request, claim: Claim, w: World, head: string)
    ensures Settlement(request, claim, w) == Complete(claim.token, head) <==>
              && Unhindered(request, claim, w)
              && if LooksOnly(request, claim) then w.first.Ok? && w.first.value.applied && w.first.value.remoteHead == head
                 else
                   || (w.load.Ok? && w.leaseLeft && !w.contextDone
                       && Confirmed(request, claim.reconcileOnly && w.load.value.superseded, w, head))
                   || (Moot(request, claim, w) && head == "")
  {
    if w.load.Ok? { OutcomeConfirmed(request, claim.reconcileOnly && w.load.value.superseded, w, head); }
    if Moot(request, claim, w) {
      var f :| EndedBy(request, claim, w, f) && Dismisses(claim, w, f);
      EndingDecides(request, claim, w, f);
    }
    var ended := EndingOf(request, claim, w);
    if ended.Some? { EndingDecides(request, claim, w, ended.value); }
  }

  /** Two failures that a settlement does not tell apart. */
  predicate Alike(e: Failure, f: Failure) {
    e.credential == f.credential && e.superseded == f.superseded && e.noPlan == f.noPlan
  }

  /** The answer that ended the delivery is what it reports, unless a recovery was authorized. */
  lemma EndingDecides(request: Request, claim: Claim, w: World, f: Failure)
    requires EndedBy(request, claim, w, f)
    ensures var delivered := Delivered(request, claim.reconcileOnly, w);
      if claim.reconcileOnly && w.load.Ok? && w.load.value.recoveryAuthorized && f.superseded then delivered == Ok("")
      else delivered.Err? && Alike(delivered.error, f)
  {
    if w.load.Ok? && w.leaseLeft { AnswerDecides(request, claim.reconcileOnly && w.load.value.superseded, w, f); }
  }

  lemma AnswerDecides(request: Request, superseded: bool, w: World, f: Failure)
    requires Answered(request, superseded, w, f)
    ensures Outcome(request, superseded, w).Err? && Alike(Outcome(request, superseded, w).error, f)
  {}

  /** Whatever is reported as superseded or planless, some answer ended it. */
  lemma EndingOf(request: Request, claim: Claim, w: World) returns (f: Option<Failure>)
    ensures f.Some? ==> EndedBy(request, claim, w, f.value)
    ensures f.None? ==>
      var delivered := Delivered(request, claim.reconcileOnly, w);
      || (w.load.Ok? && w.leaseLeft && Outcome(request, claim.reconcileOnly && w.load.value.superseded, w).Ok?)
      || (delivered.Err? && Alike(delivered.error, REJECTED))
  {
    f := if w.load.Err? then Some(w.load.error)
         else if !w.leaseLeft then None
         else if request.planProjection && w.projection.Some? then w.projection
         else if w.first.Err? then Some(w.first.error)
         else if w.first.value.applied then None
         else if claim.reconcileOnly && w.load.value.superseded then Some(SUPERSEDED)
         else if Permits(request, w.first.value) && w.apply.Err? && Written(w).Err? then Some(w.apply.error)
         else None;
  }

  lemma OutcomeConfirmed(request: Request, superseded: bool, w: World, head: string)
    ensures Outcome(request, superseded, w) == Ok(head) <==> Confirmed(request, superseded, w, head)
  {}

  /** The write was attempted and did not succeed, or was rate limited. */
  predicate WriteFailed(request: Request, claim: Claim, w: World) {
    && w.load.Ok? && w.leaseLeft && w.first.Ok? && Permits(request, w.first.value)
    && !(claim.reconcileOnly && w.load.value.superseded) && w.apply.Err?
  }

  /** The flag is not raised over a fresh claim unless something may really have been written. */
  lemma FlagRaisedForReason(request: Request, claim: Claim, w: World)
    requires !claim.uncertain && !claim.reconcileOnly
    requires w.load.Err? ==> !w.load.error.uncertain && !w.load.error.unconfirmedWrite
    requires w.first.Err? ==> !w.first.error.uncertain && !w.first.error.unconfirmedWrite
    requires w.projection.Some? ==> !w.projection.value.uncertain && !w.projection.value.unconfirmedWrite
    ensures var act := Settlement(request, claim, w);
      act.Finish? && act.uncertain ==> LeaseLost(request, w) || w.contextDone || WriteFailed(request, claim, w)
  {}
}
