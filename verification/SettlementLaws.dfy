/** When a claim is rejected, deferred, paused or given back, told from the answers of the world alone. */
module SettlementLaws {
  import opened Collections
  import opened Failures
  import opened Isolation
  import opened Outbox
  import opened DeliveryProtocol
  import opened Verdicts

  // ----- What stands before a delivery ----------------------------------------------------

  /** The dispatcher's lease could be renewed when the dispatch began. */
  predicate Begun(request: Request, w: World) { request.ownRun || w.renewed.None? }

  predicate HasCredential(w: World) { !w.credentialAware || w.credential.None? }

  /** The lease was still held when the delivery was over. */
  predicate Held(request: Request, w: World) { request.ownRun || w.stopped.None? }

  /** The claim is a recovery, and its request may be looked for but not repeated. */
  predicate Recovery(request: Request, claim: Claim) { claim.reconcileOnly && !request.inbox }

  // ----- How a delivery ends ----------------------------------------------------------------

  /** The remote was looked at inside the lease. */
  predicate Looked(request: Request, w: World) {
    w.load.Ok? && w.leaseLeft && (request.planProjection ==> w.projection.None?) && w.first.Ok?
  }

  /** A recovered inbox projection that a later one has replaced. */
  predicate Replaced(claim: Claim, w: World) { claim.reconcileOnly && w.load.Ok? && w.load.value.superseded }

  /** The remote is not as the request expects it. */
  predicate Unexpected(request: Request, o: Observation) {
    || (request.expectAbsent && o.remoteExists)
    || (request.expectedHead != "" && !o.remoteExists)
    || (request.expectedHead != "" && o.remoteHead != request.expectedHead)
  }

  /** The lease had run out, or what was seen forbids the write. */
  predicate Denied(request: Request, claim: Claim, w: World) {
    || (w.load.Ok? && !w.leaseLeft)
    || (Looked(request, w) && !w.first.value.applied && !Replaced(claim, w) && Unexpected(request, w.first.value))
  }

  /** The write was tried, failed with this error, and was not seen afterwards. */
  predicate WriteFailedWith(request: Request, claim: Claim, w: World, f: Failure) {
    && Looked(request, w) && !w.first.value.applied && !Replaced(claim, w) && !Unexpected(request, w.first.value)
    && w.apply == Err(f)
    && ((f.retryAt.Some? && f.retryAt.value > w.applyNow) || w.second.Err? || !w.second.value.applied)
  }

  /** This answer of the store or the remote ended the delivery. */
  predicate FailedWith(request: Request, claim: Claim, w: World, f: Failure) {
    || w.load == Err(f)
    || (w.load.Ok? && w.leaseLeft && request.planProjection && w.projection == Some(f))
    || (w.load.Ok? && w.leaseLeft && (request.planProjection ==> w.projection.None?) && w.first == Err(f))
    || (Looked(request, w) && !w.first.value.applied && Replaced(claim, w) && f == SUPERSEDED)
    || WriteFailedWith(request, claim, w, f)
  }

  /** The effect was seen or written, but the context ended before that could be trusted. */
  predicate Interrupted(request: Request, claim: Claim, w: World) {
    && Looked(request, w) && w.contextDone
    && (w.first.value.applied
        || (!Replaced(claim, w) && !Unexpected(request, w.first.value)
            && (w.apply.Ok? || (!(w.apply.error.retryAt.Some? && w.apply.error.retryAt.value > w.applyNow)
                                && w.second.Ok? && w.second.value.applied))))
  }

  /** Nothing is to be written any more: the request is superseded, or no plan is active. */
  predicate Dismissed(claim: Claim, w: World, f: Failure) {
    if claim.reconcileOnly then (f.superseded && w.load.Ok? && w.load.value.recoveryAuthorized) || (f.noPlan && !f.credential)
    else f.superseded && !f.credential
  }

  /** The error says that the request itself is refused. */
  predicate Refuses(claim: Claim, f: Failure) {
    !f.credential && !f.superseded && (f.rejected || f.noPlan) && (claim.reconcileOnly ==> !f.noPlan)
  }

  // ----- What is owed ---------------------------------------------------------------------------

  /** This failure came back where a settlement looks at it: from the credential, a recovery's look, or the delivery. */
  predicate SettlesOn(request: Request, claim: Claim, w: World, f: Failure) {
    Begun(request, w) &&
    if !HasCredential(w) then Held(request, w) && w.credential == Some(f)
    else if Recovery(request, claim) then w.first == Err(f)
    else Held(request, w) && FailedWith(request, claim, w, f) && !Dismissed(claim, w, f)
  }

  ghost predicate Rejects(request: Request, claim: Claim, w: World) {
    && Begun(request, w) && HasCredential(w)
    && if Recovery(request, claim) then w.first.Ok? && !w.first.value.applied
       else
         Held(request, w)
         && (Denied(request, claim, w) || exists f :: FailedWith(request, claim, w, f) && !Dismissed(claim, w, f) && Refuses(claim, f))
  }

  ghost predicate Pauses(request: Request, claim: Claim, w: World) {
    exists f :: SettlesOn(request, claim, w, f) && f.credential
  }

  /** The failure is none of those, so the claim waits: until the time asked for if that is still to come. */
  predicate Waits(request: Request, claim: Claim, w: World, f: Failure) {
    && SettlesOn(request, claim, w, f) && !f.credential
    && (HasCredential(w) && !Recovery(request, claim) ==> !Refuses(claim, f))
  }

  /** The flag of a claim that waits. */
  predicate Doubtful(request: Request, claim: Claim, w: World, f: Failure) {
    || claim.uncertain
    || (HasCredential(w)
        && (claim.reconcileOnly || f.uncertain || f.unconfirmedWrite
            || (WriteFailedWith(request, claim, w, f) && !(f.retryAt.Some? && f.retryAt.value > w.applyNow))))
  }

  /** The lease was lost, and whatever was done is given back without being settled. */
  predicate LosesLease(request: Request, claim: Claim, w: World) {
    || !Begun(request, w)
    || (!Held(request, w) && (!HasCredential(w) || !Recovery(request, claim)))
  }

  /** A recovery looked and found nothing, or the delivery was denied. */
  predicate Forbidden(request: Request, claim: Claim, w: World) {
    && Begun(request, w) && HasCredential(w)
    && if Recovery(request, claim) then w.first.Ok? && !w.first.value.applied
       else Held(request, w) && Denied(request, claim, w)
  }

  predicate Broken(request: Request, claim: Claim, w: World) {
    Begun(request, w) && HasCredential(w) && !Recovery(request, claim) && Held(request, w) && Interrupted(request, claim, w)
  }

  // ----- The delivery itself ------------------------------------------------------------------

  lemma LooksAlike(request: Request, claim: Claim, w: World)
    ensures w.first.Ok? && !w.first.value.applied ==> (Permits(request, w.first.value) <==> !Unexpected(request, w.first.value))
  {}

  /** What a failed write reports; only the mark of an unconfirmed write is new. */
  lemma WriteReports(request: Request, claim: Claim, w: World, f: Failure)
    requires WriteFailedWith(request, claim, w, f)
    ensures var d := Written(w);
      d == Err(if f.retryAt.Some? && f.retryAt.value > w.applyNow then f else f.(unconfirmedWrite := true))
  {}

  lemma FailureIsOutcome(request: Request, claim: Claim, w: World, f: Failure)
    requires FailedWith(request, claim, w, f) && w.load.Ok?
    ensures w.leaseLeft
    ensures var o := Outcome(request, claim.reconcileOnly && w.load.value.superseded, w);
      o == if WriteFailedWith(request, claim, w, f) then Written(w) else Err(f)
  {
    LooksAlike(request, claim, w);
  }

  /** What the delivery reports for the answer that ended it. */
  function Reported(request: Request, claim: Claim, w: World, f: Failure): Failure {
    if WriteFailedWith(request, claim, w, f) && !(f.retryAt.Some? && f.retryAt.value > w.applyNow)
    then f.(unconfirmedWrite := true) else f
  }

  lemma FailureDelivered(request: Request, claim: Claim, w: World, f: Failure)
    requires FailedWith(request, claim, w, f)
    ensures var d := Delivered(request, claim.reconcileOnly, w);
      d == if claim.reconcileOnly && f.superseded && w.load.Ok? && w.load.value.recoveryAuthorized then Ok("")
           else Err(Reported(request, claim, w, f))
  {
    if w.load.Ok? {
      FailureIsOutcome(request, claim, w, f);
      if WriteFailedWith(request, claim, w, f) { WriteReports(request, claim, w, f); }
    }
  }

  lemma DeniedDelivered(request: Request, claim: Claim, w: World)
    requires Denied(request, claim, w)
    ensures Delivered(request, claim.reconcileOnly, w) == Err(REJECTED)
  {
    LooksAlike(request, claim, w);
  }

  lemma InterruptedDelivered(request: Request, claim: Claim, w: World)
    requires Interrupted(request, claim, w)
    ensures Delivered(request, claim.reconcileOnly, w) == Err(UNCERTAIN)
  {
    LooksAlike(request, claim, w);
  }

  /** Whatever the world answers, the delivery succeeded, was denied, was interrupted, or some answer ended it. */
  lemma DeliveryEnds(request: Request, claim: Claim, w: World) returns (f: Option<Failure>)
    ensures f.Some? ==> FailedWith(request, claim, w, f.value)
    ensures f.None? ==> Denied(request, claim, w) || Interrupted(request, claim, w) || Delivered(request, claim.reconcileOnly, w).Ok?
  {
    LooksAlike(request, claim, w);
    f := if w.load.Err? then Some(w.load.error)
         else if !w.leaseLeft then None
         else if request.planProjection && w.projection.Some? then w.projection
         else if w.first.Err? then Some(w.first.error)
         else if w.first.value.applied then None
         else if Replaced(claim, w) then Some(SUPERSEDED)
         else if !Unexpected(request, w.first.value) && w.apply.Err? && Written(w).Err? then Some(w.apply.error)
         else None;
  }

  // ----- One failure, one settlement ------------------------------------------------------------

  /** The later of now and the time asked for. */
  function AskedFor(f: Failure, now: int): Option<int> {
    if f.retryAt.Some? && f.retryAt.value > now then f.retryAt else None
  }

  lemma VerdictOf(request: Request, claim: Claim, w: World, f: Failure)
    requires Begun(request, w) && HasCredential(w) && !Recovery(request, claim) && Held(request, w)
    requires FailedWith(request, claim, w, f) && !Dismissed(claim, w, f)
    ensures var act := Settlement(request, claim, w);
      act == if f.credential then Finish(claim.token, false, claim.uncertain, w.pause.Some? || w.queueInbox.Some?, None)
             else if Refuses(claim, f) then Finish(claim.token, true, claim.uncertain, false, None)
             else Finish(claim.token, false, Doubtful(request, claim, w, f), false, AskedFor(f, w.settleNow))
  {
    FailureDelivered(request, claim, w, f);
  }

  lemma FailureSettles(request: Request, claim: Claim, w: World, f: Failure)
    requires SettlesOn(request, claim, w, f)
    ensures var act := Settlement(request, claim, w);
      act == if f.credential then Finish(claim.token, false, claim.uncertain, w.pause.Some? || w.queueInbox.Some?, None)
             else if Waits(request, claim, w, f)
             then Finish(claim.token, false, Doubtful(request, claim, w, f), false, AskedFor(f, w.settleNow))
             else Finish(claim.token, true, claim.uncertain, false, None)
  {
    if HasCredential(w) && !Recovery(request, claim) { VerdictOf(request, claim, w, f); }
  }

  lemma ForbiddenSettles(request: Request, claim: Claim, w: World)
    requires Forbidden(request, claim, w)
    ensures Settlement(request, claim, w) == Finish(claim.token, true, claim.uncertain, false, None)
  {
    if !Recovery(request, claim) { DeniedDelivered(request, claim, w); }
  }

  lemma BrokenSettles(request: Request, claim: Claim, w: World)
    requires Broken(request, claim, w)
    ensures Settlement(request, claim, w) == Finish(claim.token, false, true, false, None)
  {
    InterruptedDelivered(request, claim, w);
  }

  lemma LosesLeaseSettles(request: Request, claim: Claim, w: World)
    requires LosesLease(request, claim, w)
    ensures Settlement(request, claim, w) ==
      Finish(claim.token, false, claim.uncertain || (Begun(request, w) && HasCredential(w)), true, None)
  {}

  /** There is no other case. */
  lemma SettlementCases(request: Request, claim: Claim, w: World) returns (f: Option<Failure>)
    ensures f.Some? ==> SettlesOn(request, claim, w, f.value)
    ensures f.None? ==>
      LosesLease(request, claim, w) || Forbidden(request, claim, w) || Broken(request, claim, w)
      || Settlement(request, claim, w).Complete?
  {
    f := None;
    if !LosesLease(request, claim, w) {
      if !HasCredential(w) {
        f := w.credential;
      } else if Recovery(request, claim) {
        f := if w.first.Err? then Some(w.first.error) else None;
      } else {
        f := DeliveryEnds(request, claim, w);
        if f.Some? && Dismissed(claim, w, f.value) {
          FailureDelivered(request, claim, w, f.value);
          f := None;
        }
      }
    }
  }

  // ----- The laws -----------------------------------------------------------------------------------

  /** Exactly when a claim is rejected, and how. */
  lemma RejectsExactly(request: Request, claim: Claim, w: World)
    ensures var act := Settlement(request, claim, w);
      act.Finish? && act.reject <==> Rejects(request, claim, w)
    ensures Rejects(request, claim, w) ==>
      Settlement(request, claim, w) == Finish(claim.token, true, claim.uncertain, false, None)
  {
    var f := SettlementCases(request, claim, w);
    Settles(request, claim, w, f);
    if Rejects(request, claim, w) {
      if Forbidden(request, claim, w) {
        ForbiddenSettles(request, claim, w);
      } else {
        var g :| FailedWith(request, claim, w, g) && !Dismissed(claim, w, g) && Refuses(claim, g);
        FailureSettles(request, claim, w, g);
      }
    }
  }

  /** The settlement of each case. */
  lemma Settles(request: Request, claim: Claim, w: World, f: Option<Failure>)
    requires f.Some? ==> SettlesOn(request, claim, w, f.value)
    ensures f.Some? && Settlement(request, claim, w).Finish? && Settlement(request, claim, w).reject ==>
      !f.value.credential && HasCredential(w) && !Recovery(request, claim) && Refuses(claim, f.value)
    ensures Forbidden(request, claim, w) ==> Settlement(request, claim, w) == Finish(claim.token, true, claim.uncertain, false, None)
    ensures Broken(request, claim, w) ==> Settlement(request, claim, w) == Finish(claim.token, false, true, false, None)
    ensures LosesLease(request, claim, w) ==>
      Settlement(request, claim, w) == Finish(claim.token, false, claim.uncertain || (Begun(request, w) && HasCredential(w)), true, None)
  {
    if f.Some? { FailureSettles(request, claim, w, f.value); }
    if Forbidden(request, claim, w) { ForbiddenSettles(request, claim, w); }
    if Broken(request, claim, w) { BrokenSettles(request, claim, w); }
    if LosesLease(request, claim, w) { LosesLeaseSettles(request, claim, w); }
  }

  /** Exactly when a claim is put back to wait, with which flag and until when. */
  lemma WaitsExactly(request: Request, claim: Claim, w: World, uncertain: bool, retryAt: Option<int>)
    ensures Settlement(request, claim, w) == Finish(claim.token, false, uncertain, false, retryAt) <==>
      || (Broken(request, claim, w) && uncertain && retryAt.None?)
      || (Pauses(request, claim, w) && w.pause.None? && w.queueInbox.None? && uncertain == claim.uncertain && retryAt.None?)
      || exists f :: Waits(request, claim, w, f) && uncertain == Doubtful(request, claim, w, f)
                     && retryAt == AskedFor(f, w.settleNow)
  {
    var f := SettlementCases(request, claim, w);
    Settles(request, claim, w, f);
    if f.Some? { FailureSettles(request, claim, w, f.value); }
    if Pauses(request, claim, w) {
      var g :| SettlesOn(request, claim, w, g) && g.credential;
      FailureSettles(request, claim, w, g);
    }
    if g :| Waits(request, claim, w, g) && uncertain == Doubtful(request, claim, w, g) && retryAt == AskedFor(g, w.settleNow) {
      FailureSettles(request, claim, w, g);
    }
  }

  /** Exactly when a claim is asked back without being settled, and with which flag. */
  lemma GivesBackExactly(request: Request, claim: Claim, w: World)
    ensures var act := Settlement(request, claim, w);
      act.Finish? && act.requeue <==>
        LosesLease(request, claim, w) || (Pauses(request, claim, w) && (w.pause.Some? || w.queueInbox.Some?))
    ensures LosesLease(request, claim, w) ==>
      Settlement(request, claim, w) ==
        Finish(claim.token, false, claim.uncertain || (Begun(request, w) && HasCredential(w)), true, None)
    ensures Pauses(request, claim, w) && (w.pause.Some? || w.queueInbox.Some?) ==>
      Settlement(request, claim, w) == Finish(claim.token, false, claim.uncertain, true, None)
  {
    var f := SettlementCases(request, claim, w);
    Settles(request, claim, w, f);
    if f.Some? { FailureSettles(request, claim, w, f.value); }
    if Pauses(request, claim, w) {
      var g :| SettlesOn(request, claim, w, g) && g.credential;
      FailureSettles(request, claim, w, g);
    }
  }

  // ----- Without a claim ------------------------------------------------------------------------

  /**
   * What a dispatch answers that wins no claim: nothing when the request was fulfilled already, or is
   * an inbox projection that is in progress elsewhere; otherwise why.
   */
  lemma UnclaimedAnswers(request: Request, isolator: bool, w: World)
    ensures w.dispatcher != None ==> Unclaimed(request, isolator, w) == w.dispatcher
    ensures w.dispatcher == None ==>
      match RetryOutcome(isolator, w.claim, 0)
      case Err(f) =>
        Unclaimed(request, isolator, w) == if request.inbox && w.loadable && f.inProgress && !f.paused then None else Some(f)
      case Ok(reply) =>
        && (reply == AlreadySucceeded ==> Unclaimed(request, isolator, w) == None)
        && (reply == AlreadyRejected ==> Unclaimed(request, isolator, w) == Some(REJECTED))
  {}
}
