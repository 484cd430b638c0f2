/** Under every interleaving a write that may have taken effect is not repeated. */
module OutboxWrites {
  import opened Collections
  import opened Failures
  import opened Isolation
  import opened Outbox
  import opened DeliveryProtocol
  import opened OutboxRuns
  import opened OutboxInvariants

  // ----- No write is repeated -----------------------------------------------------------------

  /** A dispatch that may still write: its claim was not a recovery and it has not begun to settle. */
  ghost predicate MayWrite(s: State, d: nat) {
    HasClaim(s, d) && !s.dispatches[d].claim.value.reconcileOnly && s.dispatches[d].settling.None?
  }

  ghost predicate OneWriter(request: Request, s: State) {
    && (forall d, e :: MayWrite(s, d) && MayWrite(s, e) ==> d == e)
    && (!request.inbox && s.touched ==> forall d :: MayWrite(s, d) ==> s.dispatches[d].evidence.applied)
  }

  /** A fresh claim is only won when no other dispatch may write, and nothing was written. */
  lemma FreshClaimAlone(request: Request, s: State, move: Move, t: State, d: nat)
    requires Inv(s) && Step(request, s, move, t) && MayWrite(t, d) && !MayWrite(s, d)
    ensures !s.touched && forall e :: !MayWrite(s, e)
  {
    ClaimKept(request, s, move, t, d);
    assert s.row.state.Pending? && !Decided(s);
  }

  lemma OneWriterKept(request: Request, s: State, move: Move, t: State)
    requires Inv(s) && OneWriter(request, s) && Step(request, s, move, t)
    ensures OneWriter(request, t)
  {
    forall d, e | MayWrite(t, d) && MayWrite(t, e) ensures d == e {
      StillWrites(request, s, move, t, d, e);
      StillWrites(request, s, move, t, e, d);
    }
    if !request.inbox && t.touched {
      forall d | MayWrite(t, d) ensures t.dispatches[d].evidence.applied { WriterApplied(request, s, move, t, d); }
    }
  }

  lemma WriterApplied(request: Request, s: State, move: Move, t: State, d: nat)
    requires Inv(s) && OneWriter(request, s) && Step(request, s, move, t)
    requires !request.inbox && t.touched && MayWrite(t, d)
    ensures t.dispatches[d].evidence.applied
  {
    if !MayWrite(s, d) {
      FreshClaimAlone(request, s, move, t, d);
    } else if !s.touched {
      assert MayWrite(s, move.dispatch);
    }
  }

  lemma StillWrites(request: Request, s: State, move: Move, t: State, d: nat, e: nat)
    requires Inv(s) && Step(request, s, move, t) && MayWrite(t, d) && MayWrite(t, e)
    ensures d == e || MayWrite(s, d)
  {
    if !MayWrite(s, d) {
      FreshClaimAlone(request, s, move, t, d);
      ClaimKept(request, s, move, t, d);
      ClaimKept(request, s, move, t, e);
    }
  }

  lemma {:induction false} RunKeepsOneWriter(request: Request, states: seq<State>, moves: seq<Move>, i: nat)
    requires Run(request, states, moves) && i < |states|
    ensures OneWriter(request, states[i])
  {
    if i > 0 {
      RunKeepsOneWriter(request, states, moves, i - 1);
      RunKeeps(request, states, moves, i - 1);
      OneWriterKept(request, states[i - 1], moves[i - 1], states[i]);
    }
  }

  lemma {:induction false} TouchedStays(request: Request, states: seq<State>, moves: seq<Move>, i: nat, j: nat)
    requires Run(request, states, moves) && i <= j < |states| && states[i].touched
    ensures states[j].touched
  {
    if i < j {
      TouchedStays(request, states, moves, i, j - 1);
      assert Step(request, states[j - 1], moves[j - 1], states[j]);
    }
  }

  /**
   * Once a write may have taken effect no dispatch applies the request again, under any
   * interleaving: only inbox projections, which replace a whole document, may be repeated.
   */
  lemma NoSecondWrite(request: Request, states: seq<State>, moves: seq<Move>, i: nat, j: nat)
    requires Run(request, states, moves) && i < j < |moves| && !request.inbox
    requires moves[i].Acts? && Touches(moves[i].action) && moves[j].Acts?
    ensures !IsApply(moves[j].action)
  {
    assert Step(request, states[i], moves[i], states[i + 1]);
    TouchedStays(request, states, moves, i + 1, j);
    RunKeepsOneWriter(request, states, moves, j);
    assert Step(request, states[j], moves[j], states[j + 1]);
  }
}
