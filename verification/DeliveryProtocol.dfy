/** What one dispatch may do, action by action, and what it then owes. */
module DeliveryProtocol {
  import opened Collections
  import opened Failures
  import opened Isolation
  import opened Outbox

  datatype Observation = Observation(applied: bool, remoteExists: bool, remoteHead: string)

  /**
   * What the gateway asks of its store, and what it does and hears elsewhere: an observation,
   * a write that succeeded or failed, a refusal by the store or by the remote.
   */
  datatype Act =
    | ClaimItem
    | Complete(token: nat, result: string)
    | Finish(token: nat, reject: bool, uncertain: bool, requeue: bool, retryAt: Option<int>)
    | Observed(observation: Observation)
    | Applied(observation: Observation)
    | ApplyFailed(failure: Failure, now: int)
    | Refused(failure: Failure)

  type Action = Event<Act, Reply>

  datatype Request = Request(inbox: bool, planProjection: bool, ownRun: bool, expectAbsent: bool, expectedHead: string)

  /** An error after which the write may still have taken effect. */
  predicate Unclassified(f: Failure, now: int) {
    !f.credential && !IsRejection(f) && !(f.retryAt.Some? && f.retryAt.value > now)
  }

  /** An error that settles the request without a write. */
  predicate Obsolete(request: Request, f: Failure) { f.superseded || (request.inbox && f.noPlan) }

  /** The remote as the request expects to find it, and not yet as the request leaves it. */
  predicate Permits(request: Request, o: Observation) {
    && !o.applied
    && !(request.expectAbsent && o.remoteExists)
    && (request.expectedHead != "" ==> o.remoteExists && o.remoteHead == request.expectedHead)
  }

  /** What was looked for is not there, and may not be written any more. */
  predicate Refutes(request: Request, claim: Option<Claim>, o: Observation) {
    !o.applied && (!Permits(request, o) || (claim.Some? && claim.value.reconcileOnly && !request.inbox))
  }

  /**
   * What a dispatch found out. `results` are the results it has evidence for; `clear` says that
   * the latest observation permits the write, `barred` that the request became obsolete,
   * `refusal` that there is a reason to reject it, and `touched` that its effect may be there.
   */
  datatype Evidence = Evidence(
    results: set<string>, clear: bool, barred: bool, refusal: bool, applied: bool, touched: bool)

  /** A dispatch so far; `settling` is the transition with which it began to give its claim back. */
  datatype Local = Local(
    claim: Option<Claim>,
    evidence: Evidence,
    settling: Option<Act>,
    settled: bool,
    completed: bool,
    requeued: bool)

  const NOTHING := Evidence({}, false, false, false, false, false)
  const START := Local(None, NOTHING, None, false, false, false)

  predicate Working(l: Local) { l.claim.Some? && l.settling.None? }

  /** The request may be written: it was looked for, is wanted, and was not written before. */
  predicate MayApply(request: Request, claim: Claim, e: Evidence) {
    !e.applied && e.clear && !e.barred && (claim.reconcileOnly ==> request.inbox)
  }

  predicate Owns(l: Local, token: nat) { l.claim.Some? && l.claim.value.token == token }

  /** The rules. */
  predicate Allowed(request: Request, l: Local, a: Action) {
    match a
    case Call(ClaimItem, _, answer) => l.claim.None?
    case Call(Complete(token, result), _, _) => Owns(l, token) && l.settling.None? && result in l.evidence.results
    case Call(Finish(token, reject, uncertain, requeue, _), _, _) =>
      && Owns(l, token) && (requeue || (!l.settled && !l.requeued))
      && (l.claim.value.uncertain || l.evidence.touched ==> uncertain)
      && (reject ==> l.evidence.refusal && !l.evidence.touched && !requeue)
    case Did(act) =>
      && Working(l) && (act.Observed? || act.Refused? || act.Applied? || act.ApplyFailed?)
      && (act.Applied? || act.ApplyFailed? ==> MayApply(request, l.claim.value, l.evidence))
    case Call(_, _, _) => false
    case _ => true
  }

  function Advance(request: Request, l: Local, a: Action): Local {
    match a
    case Call(ClaimItem, _, Ok(Won(claim))) => l.(claim := Some(claim))
    case Call(Complete(_, _), _, answer) =>
      Settling(l, a.transition).(settled := l.settled || answer.Ok?, completed := l.completed || answer.Ok?)
    case Call(Finish(_, _, _, requeue, _), _, answer) =>
      Settling(l, a.transition).(settled := l.settled || answer.Ok?, requeued := l.requeued || requeue)
    case Did(act) => l.(evidence := Learn(request, l.claim, l.evidence, act))
    case _ => l
  }

  function Settling(l: Local, t: Act): Local { if l.settling.None? then l.(settling := Some(t)) else l }

  function Learn(request: Request, claim: Option<Claim>, e: Evidence, act: Act): Evidence {
    match act
    case Observed(o) =>
      e.(clear := Permits(request, o), refusal := e.refusal || Refutes(request, claim, o),
         touched := e.touched || o.applied, results := if o.applied then e.results + {o.remoteHead} else e.results)
    case Applied(o) => e.(clear := false, applied := true, touched := true, results := e.results + {o.remoteHead})
    case ApplyFailed(f, now) =>
      Heard(request, e.(clear := false, applied := true, touched := e.touched || Unclassified(f, now)), f)
    case Refused(f) => Heard(request, e, f)
    case _ => e
  }

  function Heard(request: Request, e: Evidence, f: Failure): Evidence {
    e.(barred := e.barred || Obsolete(request, f), refusal := e.refusal || IsRejection(f),
       results := if Obsolete(request, f) then e.results + {""} else e.results)
  }

  /** The state that a log of actions leads to. */
  function After(request: Request, log: seq<Action>): Local {
    if log == [] then START
    else Advance(request, After(request, log[..|log| - 1]), log[|log| - 1])
  }

  /** Every action of the log was allowed when it happened. */
  predicate Follows(request: Request, log: seq<Action>) {
    log == [] || (Follows(request, log[..|log| - 1]) && Allowed(request, After(request, log[..|log| - 1]), log[|log| - 1]))
  }

  /** A claim was won only to be settled, or at least to be asked back into the queue. */
  predicate Discharged(l: Local) { l.claim.Some? ==> l.settled || l.requeued }

  lemma Extend(request: Request, log: seq<Action>, a: Action)
    ensures After(request, log + [a]) == Advance(request, After(request, log), a)
    ensures Follows(request, log + [a]) <==> Follows(request, log) && Allowed(request, After(request, log), a)
  {
    assert (log + [a])[..|log|] == log;
  }

  /** One event of a retry, after any number of calls that failed. */
  lemma RetriedStep(request: Request, l0: Local, l: Local, t: Act, a: Action)
    requires t.ClaimItem? || t.Finish?
    requires forall r: Result<Reply, Failure> :: Allowed(request, l0, Call(t, [], r))
    requires l == l0 || (t.Finish? && l == Failing(request, l0, t))
    requires !a.Did? && (a.Call? ==> a.transition == t)
    ensures Allowed(request, l, a)
    ensures !a.Call? || (a.answer.Err? && t.ClaimItem?) ==> Advance(request, l, a) == l
    ensures a.Call? && (a.answer.Ok? || t.Finish?) ==> Advance(request, l, a) == Advance(request, l0, Call(t, [], a.answer))
    ensures a.Call? && a.answer.Err? && t.Finish? ==> Advance(request, l, a) == Failing(request, l0, t)
  {
    var failed: Result<Reply, Failure> := Err(OTHER);
    assert Allowed(request, l0, Call(t, [], failed));
  }

  function Failing(request: Request, l: Local, t: Act): Local { Advance(request, l, Call(t, [], Err(OTHER))) }

  lemma RetriedInit(t: Act, ext: seq<Action>, r: Result<Reply, Failure>)
    requires Retried(t, ext, r) && ext != []
    ensures Retried(t, ext[..|ext| - 1], Err(OTHER))
  {
    var init := ext[..|ext| - 1];
    forall i | 0 <= i < |init| ensures init[i] == ext[i] {}
  }

  /** The local state after some events, each allowed where it happens. */
  function Fold(request: Request, l: Local, ext: seq<Action>): Local {
    if ext == [] then l else Advance(request, Fold(request, l, ext[..|ext| - 1]), ext[|ext| - 1])
  }

  predicate AllAllowed(request: Request, l: Local, ext: seq<Action>) {
    ext == []
    || (AllAllowed(request, l, ext[..|ext| - 1]) && Allowed(request, Fold(request, l, ext[..|ext| - 1]), ext[|ext| - 1]))
  }

  lemma {:induction false} AppendFold(request: Request, log: seq<Action>, ext: seq<Action>)
    ensures After(request, log + ext) == Fold(request, After(request, log), ext)
    ensures Follows(request, log + ext) <==> Follows(request, log) && AllAllowed(request, After(request, log), ext)
  {
    if ext == [] {
      assert log + ext == log;
    } else {
      var init, last := ext[..|ext| - 1], ext[|ext| - 1];
      AppendFold(request, log, init);
      Extend(request, log + init, last);
      assert log + ext == log + init + [last];
    }
  }

  /** Failing calls before the last change nothing more than one of them does. */
  lemma {:induction false} RetriedFold(request: Request, l: Local, t: Act, ext: seq<Action>, r: Result<Reply, Failure>)
    requires Retried(t, ext, r) && (t.ClaimItem? || t.Finish?)
    requires forall r: Result<Reply, Failure> :: Allowed(request, l, Call(t, [], r))
    ensures AllAllowed(request, l, ext)
    ensures Calls(ext) > 0 && (r.Ok? || t.Finish?) ==> Fold(request, l, ext) == Advance(request, l, Call(t, [], r))
    ensures Calls(ext) == 0 || (r.Err? && t.ClaimItem?) ==> Fold(request, l, ext) == l
  {
    if ext != [] {
      RetriedInit(t, ext, r);
      var init := ext[..|ext| - 1];
      RetriedFold(request, l, t, init, Err(OTHER));
      RetriedStep(request, l, Fold(request, l, init), t, ext[|ext| - 1]);
    }
  }

  /** A retried transition counts as its last call. */
  lemma ExtendRetried(request: Request, log: seq<Action>, t: Act, ext: seq<Action>, r: Result<Reply, Failure>)
    requires Follows(request, log) && Retried(t, ext, r) && Calls(ext) > 0
    requires t.ClaimItem? || t.Finish?
    requires forall r: Result<Reply, Failure> :: Allowed(request, After(request, log), Call(t, [], r))
    ensures Follows(request, log + ext)
    ensures After(request, log + ext) ==
            if r.Err? && t.ClaimItem? then After(request, log) else Advance(request, After(request, log), Call(t, [], r))
  {
    AppendFold(request, log, ext);
    RetriedFold(request, After(request, log), t, ext, r);
  }

  // ----- What the rules come to, over a whole dispatch ------------------------------------

  predicate IsApply(a: Action) { a.Did? && (a.effect.Applied? || a.effect.ApplyFailed?) }

  /** The write may have taken effect, and nothing classifies its error. */
  predicate Touches(a: Action) {
    && a.Did?
    && match a.effect
       case Applied(_) => true
       case ApplyFailed(f, now) =>
         !f.credential && !f.rejected && !f.noPlan && (f.retryAt.None? || f.retryAt.value <= now)
       case _ => false
  }

  predicate IsFinish(a: Action) { a.Call? && a.transition.Finish? }

  predicate IsComplete(a: Action) { a.Call? && a.transition.Complete? }

  predicate WonBy(a: Action, claim: Claim) { a.Call? && a.transition.ClaimItem? && a.answer == Ok(Won(claim)) }

  /** The action shows the remote in the state that `result` records, or the request settled without a write. */
  predicate Shows(request: Request, a: Action, result: string) {
    && a.Did?
    && match a.effect
       case Observed(o) => o.applied && o.remoteHead == result
       case Applied(o) => o.remoteHead == result
       case ApplyFailed(f, _) => (f.superseded || (request.inbox && f.noPlan)) && result == ""
       case Refused(f) => (f.superseded || (request.inbox && f.noPlan)) && result == ""
       case _ => false
  }

  lemma {:induction false} ResultsShown(request: Request, log: seq<Action>, result: string)
    requires result in After(request, log).evidence.results
    ensures exists j :: 0 <= j < |log| && Shows(request, log[j], result)
  {
    var init, last := log[..|log| - 1], log[|log| - 1];
    if result in After(request, init).evidence.results {
      ResultsShown(request, init, result);
      var j :| 0 <= j < |init| && Shows(request, init[j], result);
      assert Shows(request, log[j], result);
    } else {
      NewResultShown(request, After(request, init), last, result);
    }
  }

  lemma NewResultShown(request: Request, l: Local, a: Action, result: string)
    requires result in Advance(request, l, a).evidence.results && result !in l.evidence.results
    ensures Shows(request, a, result)
  {
    match a
    case Did(_) =>
    case Call(_, _, _) =>
    case _ =>
  }

  lemma {:induction false} FollowsPrefix(request: Request, log: seq<Action>, n: nat)
    requires Follows(request, log) && n < |log|
    ensures Follows(request, log[..n]) && Allowed(request, After(request, log[..n]), log[n])
  {
    if n < |log| - 1 {
      FollowsPrefix(request, log[..|log| - 1], n);
      assert log[..|log| - 1][..n] == log[..n];
    }
  }

  /** Success is recorded only for a result that an earlier action of the dispatch showed. */
  lemma CompleteHasEvidence(request: Request, log: seq<Action>, n: nat)
    requires Follows(request, log) && n < |log| && IsComplete(log[n])
    ensures exists j :: 0 <= j < n && Shows(request, log[j], log[n].transition.result)
  {
    FollowsPrefix(request, log, n);
    ResultsShown(request, log[..n], log[n].transition.result);
    var j :| 0 <= j < |log[..n]| && Shows(request, log[..n][j], log[n].transition.result);
    assert log[..n][j] == log[j];
  }

  /** Nothing that was found out is unlearned, apart from what the latest observation shows. */
  lemma LearnKeeps(request: Request, claim: Option<Claim>, e: Evidence, act: Act)
    ensures var f := Learn(request, claim, e, act);
      && (e.barred ==> f.barred) && (e.refusal ==> f.refusal) && (e.applied ==> f.applied) && (e.touched ==> f.touched)
  {}

  lemma AdvanceKeeps(request: Request, l: Local, a: Action)
    ensures var m := Advance(request, l, a).evidence;
      && (l.evidence.barred ==> m.barred) && (l.evidence.refusal ==> m.refusal)
      && (l.evidence.applied ==> m.applied) && (l.evidence.touched ==> m.touched)
    ensures Allowed(request, l, a) && l.claim.Some? ==> Advance(request, l, a).claim == l.claim
  {
    if a.Did? { LearnKeeps(request, l.claim, l.evidence, a.effect); }
  }

  /** Observed to be there, or written. */
  predicate Sees(a: Action) { a.Did? && a.effect.Observed? && a.effect.observation.applied }

  lemma AdvanceNotes(request: Request, l: Local, a: Action)
    ensures forall claim :: WonBy(a, claim) ==> Advance(request, l, a).claim == Some(claim)
    ensures Touches(a) || Sees(a) ==> Advance(request, l, a).evidence.touched
    ensures IsApply(a) ==> Advance(request, l, a).evidence.applied
    ensures Bars(request, a) ==> Advance(request, l, a).evidence.barred
  {}

  /** A claim, once won, and what was found out stay in the dispatch's memory. */
  lemma {:induction false} Remembers(request: Request, log: seq<Action>, i: nat)
    requires Follows(request, log) && i < |log|
    ensures forall claim :: WonBy(log[i], claim) ==> After(request, log).claim == Some(claim)
    ensures Touches(log[i]) || Sees(log[i]) ==> After(request, log).evidence.touched
    ensures IsApply(log[i]) ==> After(request, log).evidence.applied
    ensures Bars(request, log[i]) ==> After(request, log).evidence.barred
  {
    var init, last := log[..|log| - 1], log[|log| - 1];
    if i < |log| - 1 {
      Remembers(request, init, i);
      AdvanceKeeps(request, After(request, init), last);
    } else {
      AdvanceNotes(request, After(request, init), last);
    }
  }

  /** An uncertain write that is not an inbox projection is never repeated. */
  lemma ReconcileOnlyNeverApplies(request: Request, log: seq<Action>, i: nat, j: nat, claim: Claim)
    requires Follows(request, log) && i < j < |log| && !request.inbox
    requires WonBy(log[i], claim) && claim.reconcileOnly
    ensures !IsApply(log[j])
  {
    FollowsPrefix(request, log, j);
    assert log[..j][i] == log[i];
    Remembers(request, log[..j], i);
  }

  /** One dispatch writes once at most, and what it may have written it gives back flagged. */
  lemma TouchedIsFlagged(request: Request, log: seq<Action>, i: nat, j: nat)
    requires Follows(request, log) && i < j < |log|
    ensures IsApply(log[i]) ==> !IsApply(log[j])
    ensures Touches(log[i]) && IsFinish(log[j]) ==> log[j].transition.uncertain
    ensures forall claim :: WonBy(log[i], claim) && claim.uncertain && IsFinish(log[j]) ==> log[j].transition.uncertain
  {
    FollowsPrefix(request, log, j);
    assert log[..j][i] == log[i];
    Remembers(request, log[..j], i);
  }

  /** Not there yet, and otherwise as the request expects it: absent, or at the expected head. */
  predicate AsExpected(request: Request, o: Observation) {
    && !o.applied
    && (request.expectAbsent ==> !o.remoteExists)
    && (request.expectedHead == "" || (o.remoteExists && o.remoteHead == request.expectedHead))
  }

  /** The observation right before which nothing newer was seen permits the write. */
  ghost predicate ClearedBy(request: Request, log: seq<Action>, j: int) {
    && 0 <= j < |log| && log[j].Did? && log[j].effect.Observed? && AsExpected(request, log[j].effect.observation)
    && forall k :: j < k < |log| ==> !(log[k].Did? && log[k].effect.Observed?)
  }

  lemma {:induction false} ClearShown(request: Request, log: seq<Action>)
    requires After(request, log).evidence.clear
    ensures exists j :: ClearedBy(request, log, j)
  {
    var init, last := log[..|log| - 1], log[|log| - 1];
    if last.Did? && last.effect.Observed? {
      assert ClearedBy(request, log, |init|);
    } else {
      StaysClear(request, After(request, init), last);
      ClearShown(request, init);
      var j :| ClearedBy(request, init, j);
      assert forall k :: 0 <= k < |init| ==> init[k] == log[k];
      assert ClearedBy(request, log, j);
    }
  }

  lemma StaysClear(request: Request, l: Local, a: Action)
    requires Advance(request, l, a).evidence.clear && !(a.Did? && a.effect.Observed?)
    ensures l.evidence.clear
  {}

  /** Whatever settles the request without a write was heard by then. */
  predicate Bars(request: Request, a: Action) {
    && a.Did?
    && match a.effect
       case ApplyFailed(f, _) => f.superseded || (request.inbox && f.noPlan)
       case Refused(f) => f.superseded || (request.inbox && f.noPlan)
       case _ => false
  }

  /**
   * Compare and set: a write follows the latest observation, which found the remote as the
   * request expects it, and it is not made for a request that was heard to be obsolete.
   */
  lemma AppliesOnlyWherePermitted(request: Request, log: seq<Action>, n: nat)
    requires Follows(request, log) && n < |log| && IsApply(log[n])
    ensures exists j :: ClearedBy(request, log[..n], j)
    ensures forall i :: 0 <= i < n ==> !Bars(request, log[i])
  {
    FollowsPrefix(request, log, n);
    ClearShown(request, log[..n]);
    forall i | 0 <= i < n ensures !Bars(request, log[i]) {
      assert log[..n][i] == log[i];
      Remembers(request, log[..n], i);
    }
  }

  /** The action is a reason to reject the request of this claim. */
  predicate Reason(request: Request, claim: Option<Claim>, a: Action) {
    && a.Did?
    && match a.effect
       case Observed(o) =>
         !o.applied && (!AsExpected(request, o) || (claim.Some? && claim.value.reconcileOnly && !request.inbox))
       case ApplyFailed(f, _) => f.rejected || f.noPlan
       case Refused(f) => f.rejected || f.noPlan
       case _ => false
  }

  lemma NewRefusal(request: Request, l: Local, a: Action)
    requires Advance(request, l, a).evidence.refusal && !l.evidence.refusal
    ensures Reason(request, l.claim, a) && Advance(request, l, a).claim == l.claim
  {}

  /** There is a claim when something is refused, and it does not change. */
  lemma {:induction false} RefusalShown(request: Request, log: seq<Action>)
    requires Follows(request, log) && After(request, log).evidence.refusal
    ensures After(request, log).claim.Some?
    ensures exists j :: 0 <= j < |log| && Reason(request, After(request, log).claim, log[j])
  {
    var init, last := log[..|log| - 1], log[|log| - 1];
    if After(request, init).evidence.refusal {
      RefusalShown(request, init);
      var j :| 0 <= j < |init| && Reason(request, After(request, init).claim, init[j]);
      AdvanceKeeps(request, After(request, init), last);
      assert Reason(request, After(request, log).claim, log[j]);
    } else {
      NewRefusal(request, After(request, init), last);
    }
  }

  /** A request is rejected only for a reason that was heard, and never once it was seen to be there. */
  lemma RejectionHasReason(request: Request, log: seq<Action>, n: nat)
    requires Follows(request, log) && n < |log| && IsFinish(log[n]) && log[n].transition.reject
    ensures exists j :: 0 <= j < n && Reason(request, After(request, log[..n]).claim, log[j])
    ensures forall i :: 0 <= i < n ==> !Touches(log[i]) && !Sees(log[i])
  {
    FollowsPrefix(request, log, n);
    RefusalShown(request, log[..n]);
    var j :| 0 <= j < n && Reason(request, After(request, log[..n]).claim, log[..n][j]);
    assert Reason(request, After(request, log[..n]).claim, log[j]);
    forall i | 0 <= i < n ensures !Touches(log[i]) && !Sees(log[i]) {
      assert log[..n][i] == log[i];
      Remembers(request, log[..n], i);
    }
  }
}
