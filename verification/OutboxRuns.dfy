/**
 * One outbox item under every interleaving of dispatches that keep the rules, with expired
 * claims recovered, candidates accepted early and rejected inbox rows reopened in between.
 */
module OutboxRuns {
  import opened Collections
  import opened Failures
  import opened Isolation
  import opened Outbox
  import opened DeliveryProtocol

  /** `touched`: some dispatch's write may have taken effect. `settled`: tokens given back. */
  datatype State = State(
    row: Row,
    dispatches: map<nat, Local>,
    touched: bool,
    abandoned: bool,
    settled: set<nat>,
    reopened: nat)

  datatype Move =
    | Acts(dispatch: nat, action: Action, claimFacts: ClaimFacts, finishFacts: FinishFacts)
    | RecoverExpired(now: int)
    | CandidateAccepted
    | Reopen(now: int)

  function LocalOf(s: State, d: nat): Local { if d in s.dispatches then s.dispatches[d] else START }

  /**
   * A call that reports success did what the store does; one that reports an error changed
   * nothing, or committed and failed afterwards.
   */
  ghost predicate RowStep(row: Row, action: Action, cf: ClaimFacts, ff: FinishFacts, next: Row) {
    match action
    case Call(ClaimItem, _, answer) =>
      var (after, own) := ClaimRow(row, cf);
      if answer.Ok? then answer == own && next == after else next == row || next == after
    case Call(Complete(token, _), _, answer) =>
      var (after, failure) := CompleteRow(row, token, ff);
      if answer.Ok? then failure.None? && next == after else next == row || next == after
    case Call(Finish(token, reject, uncertain, requeue, retryAt), _, answer) =>
      var (after, failure) := FinishRow(row, token, reject, uncertain, !requeue, retryAt, ff);
      if answer.Ok? then failure.None? && next == after else next == row || next == after
    case _ => next == row
  }

  /** A claim in flight is rejected by someone who does not hold it, without the flag. */
  ghost predicate Abandons(row: Row, move: Move, next: Row) {
    && row.state.Processing? && !row.uncertain && next.state.Rejected?
    && (move.CandidateAccepted? || (move.Acts? && move.action.Call? && move.action.transition.ClaimItem?))
  }

  /** The token that a step gives back, if it settles a claim. */
  function Settles(row: Row, move: Move, next: Row): Option<nat> {
    if move.Acts? && (IsFinish(move.action) || IsComplete(move.action)) && next != row then row.token else None
  }

  ghost predicate RowMoves(row: Row, move: Move, next: Row) {
    match move
    case Acts(_, action, cf, ff) => RowStep(row, action, cf, ff, next)
    case RecoverExpired(now) => next == RecoverRow(row, now)
    case CandidateAccepted => next == SupersedeRow(row)
    case Reopen(now) => next == ReopenRow(row, now)
  }

  ghost function Then(request: Request, s: State, move: Move, next: Row): State {
    var token := Settles(s.row, move, next);
    State(
      next,
      if move.Acts? then s.dispatches[move.dispatch := Advance(request, LocalOf(s, move.dispatch), move.action)]
      else s.dispatches,
      s.touched || (move.Acts? && Touches(move.action)),
      s.abandoned || Abandons(s.row, move, next),
      if token.Some? then s.settled + {token.value} else s.settled,
      s.reopened + if move.Reopen? then 1 else 0)
  }

  ghost predicate Step(request: Request, s: State, move: Move, t: State) {
    && RowMoves(s.row, move, t.row)
    && (move.Acts? ==> Allowed(request, LocalOf(s, move.dispatch), move.action))
    && (move.Reopen? ==> request.inbox)
    && t == Then(request, s, move, t.row)
  }

  function Initial(now: int): State { State(Row(Pending, 0, None, false, now, 0), map[], false, false, {}, 0) }

  ghost predicate Run(request: Request, states: seq<State>, moves: seq<Move>) {
    && |states| == |moves| + 1
    && (exists now :: states[0] == Initial(now))
    && forall i :: 0 <= i < |moves| ==> Step(request, states[i], moves[i], states[i + 1])
  }

  /**
   * The store performs an action of a dispatch: whatever it answers, and also when the answer is
   * lost after the commit, the row has made a step that runs allow.
   */
  method Perform(store: Store, act: Act, cf: ClaimFacts, ff: FinishFacts, lost: bool) returns (action: Action)
    requires act.ClaimItem? || act.Complete? || act.Finish?
    modifies store
    ensures action.Call? && action.transition == act && action.proofs == []
    ensures RowStep(old(store.Now()), action, cf, ff, store.Now())
    ensures lost ==> action.answer.Err?
  {
    var answer: Result<Reply, Failure>;
    match act {
      case ClaimItem =>
        answer := store.ClaimDelivery(cf);
      case Complete(token, result) =>
        var failure := store.CompleteDelivery(token, ff);
        answer := if failure.Some? then Err(failure.value) else Ok(Stored);
      case Finish(token, reject, uncertain, requeue, retryAt) =>
        var failure := store.FinishDelivery(token, reject, uncertain, !requeue, retryAt, ff);
        answer := if failure.Some? then Err(failure.value) else Ok(Stored);
    }
    return Call(act, [], if lost then Err(OTHER) else answer);
  }
}
