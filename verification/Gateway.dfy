/** Dispatching one outbox item: claim, observe, apply, settle. */
module GatewayDispatch {
  import opened Collections
  import opened Failures
  import opened Isolation
  import opened Outbox
  import opened DeliveryProtocol
  import opened Verdicts

  class Gateway {
    const store: Effects<Act, Reply>
    const request: Request
    const isolator: bool

    constructor (store: Effects<Act, Reply>, request: Request, isolator: bool)
      ensures this.store == store && this.request == request && this.isolator == isolator
    {
      this.store, this.request, this.isolator := store, request, isolator;
    }

    ghost function Here(): Local
      reads store
    {
      After(request, store.log)
    }

    ghost predicate Obeys()
      reads store
    {
      Follows(request, store.log)
    }

    // ----- Single actions -----------------------------------------------------------

    method Do(act: Act)
      requires Obeys() && Allowed(request, Here(), Did(act))
      modifies store
      ensures Obeys() && Here() == Advance(request, old(Here()), Did(act))
    {
      Extend(request, store.log, Did(act));
      store.Record(Did(act));
    }

    method Transition(t: Act, script: Script<Reply>) returns (r: Result<Reply, Failure>)
      requires Obeys() && (t.ClaimItem? || t.Finish?)
      requires forall r: Result<Reply, Failure> :: Allowed(request, Here(), Call(t, [], r))
      modifies store
      ensures Obeys() && r == RetryOutcome(isolator, script, 0)
      ensures Here() == if r.Err? && t.ClaimItem? then old(Here()) else Advance(request, old(Here()), Call(t, [], r))
    {
      ghost var log := store.log;
      ghost var ext;
      r, ext := RetryWorkerTransition(store, isolator, Some(t), script);
      ExtendRetried(request, log, t, ext, r);
    }

    // ----- Settling -------------------------------------------------------------------

    /** The claim is held, and nothing was given back yet. */
    ghost predicate Pending(claim: Claim)
      reads store
    {
      && Obeys() && Here().claim == Some(claim) && Here().settling.None?
      && !Here().settled && !Here().requeued && !Here().completed
    }

    /** The claim was given back, first of all with this transition; it was completed if that was stored. */
    ghost predicate Settled(claim: Claim, act: Act, w: World)
      reads store
    {
      && Obeys() && Here().claim == Some(claim) && Discharged(Here()) && Here().settling == Some(act)
      && (Here().completed <==> act.Complete? && w.complete.Ok?)
    }

    /** A claim is given back without asking whether this dispatcher still holds its lease. */
    method RequeueClaim(claim: Claim, uncertain: bool, w: World) returns (failure: Option<Failure>)
      requires Obeys() && Here().claim == Some(claim)
      requires Here().evidence.touched ==> uncertain || claim.uncertain
      modifies store
      ensures Obeys() && Here().claim == Some(claim) && Here().requeued && Here().completed == old(Here().completed)
      ensures Here().settling == if old(Here()).settling.Some? then old(Here()).settling else Some(GivenBack(claim, uncertain))
    {
      var r := Transition(Finish(claim.token, false, uncertain || claim.uncertain, true, None), w.requeue);
      return if r.Ok? || r.error.fencing then None else Some(r.error);
    }

    method Succeed(claim: Claim, result: string, w: World) returns (failure: Option<Failure>)
      requires Obeys() && Pending(claim) && result in Here().evidence.results
      modifies store
      ensures Settled(claim, Complete(claim.token, result), w) && (failure.None? <==> w.complete.Ok?)
    {
      Extend(request, store.log, Call(Complete(claim.token, result), [], w.complete));
      store.Record(Call(Complete(claim.token, result), [], w.complete));
      if w.complete.Err? {
        var requeued := RequeueClaim(claim, true, w);
        return JoinAny(Some(w.complete.error), requeued);
      }
      return None;
    }

    /** One Finish, and a requeue when it fails. */
    method FinishOrRequeue(claim: Claim, act: Act, again: bool, w: World) returns (failure: Option<Failure>)
      requires Pending(claim) && act.Finish? && act.token == claim.token && !act.requeue
      requires claim.uncertain || Here().evidence.touched ==> act.uncertain
      requires act.reject ==> Here().evidence.refusal && !Here().evidence.touched
      requires Here().evidence.touched ==> again || claim.uncertain
      modifies store
      ensures Settled(claim, act, w) && (failure.None? <==> RetryOutcome(isolator, w.settle, 0).Ok?)
    {
      var r := Transition(act, w.settle);
      if r.Err? {
        var requeued := RequeueClaim(claim, again, w);
        return JoinAny(Some(r.error), requeued);
      }
      return None;
    }

    method MarkUncertain(claim: Claim, cause: Failure, w: World) returns (failure: Option<Failure>)
      requires Pending(claim)
      modifies store
      ensures Settled(claim, Deferred(claim, cause, true, w), w)
    {
      if cause.retryAt.Some? && cause.retryAt.value > w.settleNow {
        failure := FinishOrRequeue(claim, Finish(claim.token, false, true, false, cause.retryAt), true, w);
      } else {
        failure := FinishOrRequeue(claim, Finish(claim.token, false, true, false, None), true, w);
      }
    }

    method Reject(claim: Claim, cause: Failure, w: World) returns (failure: Option<Failure>)
      requires Pending(claim) && Here().evidence.refusal && !Here().evidence.touched
      modifies store
      ensures Settled(claim, Declined(claim), w) && failure.Some?
    {
      var r := FinishOrRequeue(claim, Finish(claim.token, true, claim.uncertain, false, None), false, w);
      return JoinAny(Some(cause), r);
    }

    method Retry(claim: Claim, cause: Failure, w: World) returns (failure: Option<Failure>)
      requires Pending(claim)
      requires Here().evidence.touched ==> claim.uncertain
      modifies store
      ensures Settled(claim, Deferred(claim, cause, claim.uncertain, w), w) && failure.Some?
    {
      var retryAt := if cause.retryAt.Some? && cause.retryAt.value > w.settleNow then cause.retryAt else None;
      var r := FinishOrRequeue(claim, Finish(claim.token, false, claim.uncertain, false, retryAt), false, w);
      return JoinAny(Some(cause), r);
    }

    method PauseForCredential(claim: Claim, cause: Failure, w: World) returns (failure: Option<Failure>)
      requires Pending(claim)
      requires Here().evidence.touched ==> claim.uncertain
      modifies store
      ensures Settled(claim, Paused(claim, w), w) && failure.Some?
    {
      if w.pause.Some? {
        var requeued := RequeueClaim(claim, false, w);
        return JoinAny(w.pause, requeued);
      }
      if w.queueInbox.Some? {
        var requeued := RequeueClaim(claim, false, w);
        return JoinAny(w.queueInbox, requeued);
      }
      var r := FinishOrRequeue(claim, Finish(claim.token, false, claim.uncertain, false, None), false, w);
      return JoinAny(Some(PAUSED), r);
    }

    // ----- Executing --------------------------------------------------------------------

    /** What an execution reports covers what it may have done to the remote. */
    ghost predicate Reports(r: Result<string, Failure>)
      reads store
    {
      var e := Here().evidence;
      && (r.Ok? ==> r.value in e.results)
      && (r.Err? && Obsolete(request, r.error) ==> "" in e.results)
      && (r.Err? && IsRejection(r.error) ==> e.refusal)
      && (e.touched && r.Err? ==>
            !r.error.credential && !IsRejection(r.error) && (r.error.uncertain || r.error.unconfirmedWrite || r.error.superseded))
    }

    /** Neither the claim nor what became of it changed. */
    ghost predicate SameHold(a: Local, b: Local) {
      b == a.(evidence := b.evidence)
    }

    /** Nothing was written under this claim yet. */
    ghost predicate Unwritten(claim: Claim)
      reads store
    {
      && Pending(claim) && !Here().evidence.applied && !Here().evidence.touched
      && (claim.reconcileOnly ==> request.inbox)
    }

    /** Observe first; apply only what is not there yet and still wanted; observe again after an error. */
    method Execute(claim: Claim, superseded: bool, w: World) returns (r: Result<string, Failure>)
      requires Unwritten(claim)
      requires Here().evidence.barred == superseded
      requires superseded ==> "" in Here().evidence.results
      modifies store
      ensures Obeys() && SameHold(old(Here()), Here())
      ensures Reports(r) && r == Outcome(request, superseded, w)
    {
      if request.planProjection && w.projection.Some? {
        Do(Refused(w.projection.value));
        return Err(w.projection.value);
      }
      if w.first.Err? {
        Do(Refused(w.first.error));
        return Err(w.first.error);
      }
      var observation := w.first.value;
      Do(Observed(observation));
      if observation.applied {
        return Ok(observation.remoteHead);
      }
      if superseded {
        return Err(SUPERSEDED);
      }
      if request.expectAbsent && observation.remoteExists {
        return Err(REJECTED);
      }
      if request.expectedHead != "" && (!observation.remoteExists || observation.remoteHead != request.expectedHead) {
        return Err(REJECTED);
      }
      r := ApplyOnce(claim, w);
    }

    /** The write itself, and a second look when it failed. */
    method ApplyOnce(claim: Claim, w: World) returns (r: Result<string, Failure>)
      requires Unwritten(claim) && Here().evidence.clear && !Here().evidence.barred
      modifies store
      ensures Obeys() && SameHold(old(Here()), Here())
      ensures Reports(r) && r == Written(w)
    {
      if w.apply.Ok? {
        Do(Applied(w.apply.value));
        return Ok(w.apply.value.remoteHead);
      }
      var failure := w.apply.error;
      Do(ApplyFailed(failure, w.applyNow));
      if failure.retryAt.Some? && failure.retryAt.value > w.applyNow {
        return Err(failure);
      }
      r := LookAgain(failure, w);
    }

    method LookAgain(failure: Failure, w: World) returns (r: Result<string, Failure>)
      requires Obeys() && Working(Here())
      requires Here().evidence.touched ==> !failure.credential && !IsRejection(failure)
      requires Obsolete(request, failure) ==> "" in Here().evidence.results
      requires IsRejection(failure) ==> Here().evidence.refusal
      modifies store
      ensures Obeys() && SameHold(old(Here()), Here()) && Reports(r)
      ensures r == if w.second.Ok? && w.second.value.applied then Ok(w.second.value.remoteHead)
                   else Err(failure.(unconfirmedWrite := true))
    {
      if w.second.Ok? {
        Do(Observed(w.second.value));
        if w.second.value.applied {
          return Ok(w.second.value.remoteHead);
        }
      }
      return Err(failure.(unconfirmedWrite := true));
    }

    /** The store around the callback: the target first, the lease before and after. */
    method ExecuteDelivery(claim: Claim, reconcileInbox: bool, w: World) returns (r: Result<string, Failure>)
      requires InHand(claim) && (claim.reconcileOnly ==> request.inbox)
      modifies store
      ensures Obeys() && SameHold(old(Here()), Here())
      ensures Reports(r) && r == Delivered(request, reconcileInbox, w)
    {
      if w.load.Err? {
        Do(Refused(w.load.error));
        return Err(w.load.error);
      }
      var superseded := reconcileInbox && w.load.value.superseded;
      if superseded {
        Do(Refused(SUPERSEDED));
      }
      if !w.leaseLeft {
        Do(Refused(REJECTED));
        return Err(REJECTED);
      }
      r := Execute(claim, superseded, w);
      if r.Err? {
        if reconcileInbox && w.load.value.recoveryAuthorized && r.error.superseded {
          return Ok("");
        }
        return;
      }
      if w.contextDone {
        return Err(UNCERTAIN);
      }
    }

    /** An uncertain write is looked for, never repeated. */
    method ReconcileOnly(claim: Claim, w: World) returns (failure: Option<Failure>)
      requires InHand(claim) && LooksOnly(request, claim)
      modifies store
      ensures Settled(claim, LookOnly(claim, w), w)
      ensures failure.None? ==> Here().completed
    {
      if w.first.Err? {
        Do(Refused(w.first.error));
        if w.first.error.credential {
          failure := PauseForCredential(claim, w.first.error, w);
          return;
        }
        var finished := MarkUncertain(claim, w.first.error, w);
        return JoinAny(Some(w.first.error), finished);
      }
      Do(Observed(w.first.value));
      if w.first.value.applied {
        failure := Succeed(claim, w.first.value.remoteHead, w);
      } else {
        failure := Reject(claim, REJECTED, w);
      }
    }

    // ----- Dispatch ---------------------------------------------------------------------

    /** A claim is in hand, and nothing was done with it yet. */
    ghost predicate InHand(claim: Claim)
      reads store
    {
      Obeys() && Here() == START.(claim := Some(claim))
    }

    /** stopDispatcher: a control-plane request keeps renewing its dispatcher, a run's does not. */
    method StopDispatcher(w: World) returns (failure: Option<Failure>)
      ensures failure.Some? <==> LeaseLost(request, w)
      ensures failure.Some? ==> failure == w.stopped
    {
      return if request.ownRun then None else w.stopped;
    }

    /**
     * Claims the item and carries it through. Whatever the world answers, the rules are kept,
     * a claim that was won is settled as it has to be, or asked back when that fails, and nil
     * means that it was completed.
     */
    method Dispatch(w: World) returns (failure: Option<Failure>)
      requires store.log == []
      modifies store
      ensures Obeys() && Discharged(Here())
      ensures Here().claim.Some? <==> w.dispatcher.None? && RetryOutcome(isolator, w.claim, 0).Ok?
                                      && RetryOutcome(isolator, w.claim, 0).value.Won?
      ensures Here().claim.Some? ==> var claim := RetryOutcome(isolator, w.claim, 0).value.claim;
        Settled(claim, Settlement(request, claim, w), w) && (failure.None? ==> Here().completed)
      ensures Here().claim.None? ==> Here() == START && failure == Unclaimed(request, isolator, w)
    {
      if w.dispatcher.Some? {
        return w.dispatcher;
      }
      var claimed := Transition(ClaimItem, w.claim);
      if claimed.Err? {
        if !claimed.error.paused && claimed.error.inProgress && w.loadable && request.inbox {
          return None;
        }
        return Some(claimed.error);
      }
      match claimed.value
      case AlreadySucceeded => return None;
      case AlreadyRejected => return Some(REJECTED);
      case Stored => return Some(OTHER);
      case Won(claim) => failure := CarryThrough(claim, w);
    }

    method CarryThrough(claim: Claim, w: World) returns (failure: Option<Failure>)
      requires InHand(claim)
      modifies store
      ensures Settled(claim, Settlement(request, claim, w), w)
      ensures failure.None? ==> Here().completed
    {
      if !request.ownRun && w.renewed.Some? {
        var requeued := RequeueClaim(claim, claim.uncertain, w);
        return JoinAny(w.renewed, requeued);
      }
      if w.credentialAware && w.credential.Some? {
        failure := WithoutCredential(claim, w.credential.value, w);
        return;
      }
      if claim.reconcileOnly {
        if request.inbox {
          failure := ReconcileInbox(claim, w);
        } else {
          failure := ReconcileWrite(claim, w);
        }
      } else {
        failure := ExecuteClaim(claim, w);
      }
    }

    method WithoutCredential(claim: Claim, cause: Failure, w: World) returns (failure: Option<Failure>)
      requires InHand(claim)
      modifies store
      ensures Settled(claim, if LeaseLost(request, w) then GivenBack(claim, false)
                             else if cause.credential then Paused(claim, w)
                             else Deferred(claim, cause, claim.uncertain, w), w)
      ensures failure.Some?
    {
      var leaseErr := StopDispatcher(w);
      if leaseErr.Some? {
        var requeued := RequeueClaim(claim, claim.uncertain, w);
        return JoinAny(Some(cause), JoinAny(leaseErr, requeued));
      }
      if cause.credential {
        failure := PauseForCredential(claim, cause, w);
      } else {
        failure := Retry(claim, cause, w);
      }
    }

    method ReconcileInbox(claim: Claim, w: World) returns (failure: Option<Failure>)
      requires InHand(claim) && claim.reconcileOnly && request.inbox
      modifies store
      ensures Settled(claim, if LeaseLost(request, w) then GivenBack(claim, true)
                             else Verdict(request, claim, Delivered(request, true, w), w), w)
      ensures failure.None? ==> Here().completed
    {
      var result := ExecuteDelivery(claim, true, w);
      var leaseErr := StopDispatcher(w);
      if leaseErr.Some? {
        failure := GiveUpLease(claim, result, leaseErr.value, w);
      } else if result.Ok? {
        failure := Succeed(claim, result.value, w);
      } else {
        failure := SettleInbox(claim, result.error, w);
      }
    }

    method SettleInbox(claim: Claim, err: Failure, w: World) returns (failure: Option<Failure>)
      requires Pending(claim) && claim.reconcileOnly && request.inbox && Reports(Err(err))
      modifies store
      ensures Settled(claim, Verdict(request, claim, Err(err), w), w) && failure.Some?
    {
      if err.credential {
        failure := PauseForCredential(claim, err, w);
        return;
      }
      var finished;
      if err.noPlan {
        finished := Succeed(claim, "", w);
      } else if err.superseded {
        finished := MarkUncertain(claim, err, w);
      } else if IsRejection(err) {
        finished := Reject(claim, err, w);
      } else {
        finished := MarkUncertain(claim, err, w);
      }
      return JoinAny(Some(err), finished);
    }

    method GiveUpLease(claim: Claim, result: Result<string, Failure>, leaseErr: Failure, w: World)
      returns (failure: Option<Failure>)
      requires Pending(claim)
      modifies store
      ensures Settled(claim, GivenBack(claim, true), w) && failure.Some?
    {
      var requeued := RequeueClaim(claim, true, w);
      return JoinAny(if result.Err? then Some(result.error) else None, JoinAny(Some(leaseErr), requeued));
    }

    /** Everything but an inbox projection: look only. */
    method ReconcileWrite(claim: Claim, w: World) returns (failure: Option<Failure>)
      requires InHand(claim) && LooksOnly(request, claim)
      modifies store
      ensures Settled(claim, LookOnly(claim, w), w)
      ensures failure.None? ==> Here().completed
    {
      var err := ReconcileOnly(claim, w);
      var leaseErr := StopDispatcher(w);
      if leaseErr.Some? {
        var requeued := RequeueClaim(claim, true, w);
        return JoinAny(err, JoinAny(leaseErr, requeued));
      }
      return err;
    }

    method ExecuteClaim(claim: Claim, w: World) returns (failure: Option<Failure>)
      requires InHand(claim) && !claim.reconcileOnly
      modifies store
      ensures Settled(claim, if LeaseLost(request, w) then GivenBack(claim, true)
                             else Verdict(request, claim, Delivered(request, false, w), w), w)
      ensures failure.None? ==> Here().completed
    {
      var result := ExecuteDelivery(claim, false, w);
      var leaseErr := StopDispatcher(w);
      if leaseErr.Some? {
        failure := GiveUpLease(claim, result, leaseErr.value, w);
      } else if result.Ok? {
        failure := Succeed(claim, result.value, w);
      } else {
        failure := SettleWrite(claim, result.error, w);
      }
    }

    method SettleWrite(claim: Claim, err: Failure, w: World) returns (failure: Option<Failure>)
      requires Pending(claim) && !claim.reconcileOnly && Reports(Err(err))
      modifies store
      ensures Settled(claim, Verdict(request, claim, Err(err), w), w)
      ensures failure.None? ==> Here().completed
    {
      if err.credential {
        failure := PauseForCredential(claim, err, w);
      } else if err.superseded {
        failure := Succeed(claim, "", w);
      } else if IsRejection(err) {
        failure := Reject(claim, err, w);
      } else if err.uncertain || err.unconfirmedWrite {
        var finished := MarkUncertain(claim, err, w);
        return JoinAny(Some(err), finished);
      } else {
        failure := Retry(claim, err, w);
      }
    }
  }

  // ----- Dispatching what is due ------------------------------------------------------------

  /** The keys due at one query, at most as many as were asked for, and the fate of each dispatch. */
  datatype Queue = Queue(due: (nat, nat) -> Result<seq<string>, Failure>, outcome: nat -> Option<Failure>)

  ghost predicate Limited(q: Queue) {
    forall round: nat, limit: nat :: limit > 0 && q.due(round, limit).Ok? ==> |q.due(round, limit).value| <= limit
  }

  /** A dispatch that failed for another reason than being in progress elsewhere. */
  predicate Failed(q: Queue, n: nat) { q.outcome(n).Some? && !q.outcome(n).value.inProgress }

  predicate InProgress(q: Queue, n: nat) { q.outcome(n).Some? && q.outcome(n).value.inProgress }

  /** How a call ended. */
  datatype End = LimitReached | StoreFailed | NothingDue | Stalled

  /** The keys of some passes, one after the other. */
  function Flat(passes: seq<seq<string>>): seq<string> {
    if passes == [] then [] else Flat(passes[..|passes| - 1]) + passes[|passes| - 1]
  }

  /** One of these dispatches was not in progress elsewhere. */
  ghost predicate Progressed(q: Queue, start: nat, end: nat) { exists n :: start <= n < end && !InProgress(q, n) }

  /** Pass `i` dispatches what was due for the places still left, and each pass before it made progress. */
  ghost predicate PassAt(q: Queue, limit: int, passes: seq<seq<string>>, i: nat)
    requires i < |passes|
  {
    var start := |Flat(passes[..i])|;
    && passes[i] != [] && start < limit && q.due(i, limit - start) == Ok(passes[i])
    && (i + 1 < |passes| ==> Progressed(q, start, start + |passes[i]|))
  }

  ghost predicate AllPasses(q: Queue, limit: int, passes: seq<seq<string>>) {
    forall i :: 0 <= i < |passes| ==> PassAt(q, limit, passes, i)
  }

  /** There are places left, and the last pass made progress: another query is asked. */
  ghost predicate AsksAgain(q: Queue, limit: int, passes: seq<seq<string>>) {
    && |Flat(passes)| < limit
    && (passes == [] || Progressed(q, |Flat(passes[..|passes| - 1])|, |Flat(passes)|))
  }

  lemma OneMorePass(q: Queue, limit: int, passes: seq<seq<string>>, keys: seq<string>)
    requires AllPasses(q, limit, passes) && AsksAgain(q, limit, passes)
    requires keys != [] && q.due(|passes|, limit - |Flat(passes)|) == Ok(keys)
    ensures AllPasses(q, limit, passes + [keys]) && Flat(passes + [keys]) == Flat(passes) + keys
  {
    var more := passes + [keys];
    assert more[..|passes|] == passes;
    forall i | 0 <= i < |more| ensures PassAt(q, limit, more, i) {
      assert more[..i] == passes[..i];
      if i < |passes| {
        assert PassAt(q, limit, passes, i);
        assert i + 1 == |passes| ==> Flat(passes) == Flat(passes[..i]) + passes[i];
      }
    }
  }

  /**
   * Passes over the due keys until the limit is reached, nothing is due, or a whole pass made
   * no progress. No failure is dropped, and being in progress elsewhere is none.
   */
  method DispatchPending(limit: int, q: Queue)
    returns (failure: Option<Failure>, dispatched: seq<string>, end: End, ghost passes: seq<seq<string>>)
    requires Limited(q)
    ensures limit > 0 ==> |dispatched| <= limit
    ensures dispatched == Flat(passes) && AllPasses(q, limit, passes)
    ensures end.LimitReached? <==> |dispatched| >= limit
    ensures end.NothingDue? <==> AsksAgain(q, limit, passes) && q.due(|passes|, limit - |dispatched|) == Ok([])
    ensures end.StoreFailed? <==> AsksAgain(q, limit, passes) && q.due(|passes|, limit - |dispatched|).Err?
    ensures end.Stalled? <==> |dispatched| < limit && !AsksAgain(q, limit, passes)
    ensures failure.Some? <==> end.StoreFailed? || exists n :: 0 <= n < |dispatched| && Failed(q, n)
  {
    failure, dispatched, end, passes := None, [], LimitReached, [];
    var round := 0;
    while |dispatched| < limit
      invariant limit > 0 ==> |dispatched| <= limit
      invariant round == |passes| && dispatched == Flat(passes) && AllPasses(q, limit, passes)
      invariant |dispatched| < limit ==> AsksAgain(q, limit, passes)
      invariant failure.Some? <==> exists n :: 0 <= n < |dispatched| && Failed(q, n)
      decreases limit - |dispatched|
    {
      var answer := q.due(round, limit - |dispatched|);
      if answer.Err? {
        return JoinAny(failure, Some(answer.error)), dispatched, StoreFailed, passes;
      }
      var keys := answer.value;
      if keys == [] {
        return failure, dispatched, NothingDue, passes;
      }
      OneMorePass(q, limit, passes, keys);
      var progressed := false;
      ghost var start := dispatched;
      for k := 0 to |keys|
        invariant dispatched == start + keys[..k]
        invariant failure.Some? <==> exists n :: 0 <= n < |dispatched| && Failed(q, n)
        invariant progressed <==> Progressed(q, |start|, |dispatched|)
      {
        var outcome := q.outcome(|dispatched|);
        ghost var now := |dispatched|;
        dispatched := dispatched + [keys[k]];
        assert Failed(q, now) <==> outcome.Some? && !outcome.value.inProgress;
        assert InProgress(q, now) <==> outcome.Some? && outcome.value.inProgress;
        if outcome.Some? && outcome.value.inProgress {
          continue;
        }
        progressed := true;
        failure := JoinAny(failure, outcome);
      }
      ghost var before := passes;
      passes := passes + [keys];
      assert passes[..|passes| - 1] == before && dispatched == Flat(passes);
      if !progressed {
        return failure, dispatched, if |dispatched| < limit then Stalled else LimitReached, passes;
      }
      round := round + 1;
    }
  }
}
