/** What every step of an outbox run keeps. */
module OutboxInvariants {
  import opened Collections
  import opened Failures
  import opened Isolation
  import opened Outbox
  import opened DeliveryProtocol
  import opened OutboxRuns

  // ----- Invariants ---------------------------------------------------------------------

  ghost predicate HeldBy(s: State, d: nat) {
    d in s.dispatches && s.dispatches[d].claim.Some? && Holds(s.row, s.dispatches[d].claim.value.token)
  }

  ghost predicate HasClaim(s: State, d: nat) { d in s.dispatches && s.dispatches[d].claim.Some? }

  /** Nobody can lose the uncertainty any more: it is flagged, resolved, or already lost. */
  ghost predicate Decided(s: State) { s.row.uncertain || s.row.state.Succeeded? || s.abandoned }

  ghost predicate Tokens(s: State) {
    && (s.row.token.Some? ==> s.row.token.value < s.row.issued && s.row.token.value !in s.settled)
    && (s.row.state.Processing? <==> s.row.token.Some?)
    && (forall k :: k in s.settled ==> k < s.row.issued)
    && (forall d :: HasClaim(s, d) ==> s.dispatches[d].claim.value.token < s.row.issued)
    && (forall d, e :: HasClaim(s, d) && HasClaim(s, e) && s.dispatches[d].claim.value.token == s.dispatches[e].claim.value.token ==> d == e)
  }

  ghost predicate Counted(s: State) {
    s.row.attempts <= MAX_ATTEMPTS && s.row.issued <= MAX_ATTEMPTS * s.reopened + s.row.attempts
  }

  ghost predicate Flags(s: State) {
    && (forall d :: HasClaim(s, d) ==> s.dispatches[d].claim.value.reconcileOnly == s.dispatches[d].claim.value.uncertain)
    && (forall d :: HasClaim(s, d) && s.dispatches[d].claim.value.uncertain ==> Decided(s))
    && (forall d :: HasClaim(s, d) && s.dispatches[d].settling.None? && !HeldBy(s, d) ==> Decided(s))
    && (forall d :: HeldBy(s, d) ==> s.row.uncertain == s.dispatches[d].claim.value.uncertain)
    && (s.abandoned ==> s.row.state.Rejected? && !s.row.uncertain)
  }

  /** The holder of a claim that may have written knows it. */
  ghost predicate Covered(s: State) {
    s.touched ==> Decided(s) || (s.row.state.Processing? && forall d :: HeldBy(s, d) ==> s.dispatches[d].evidence.touched)
  }

  ghost predicate Inv(s: State) { Tokens(s) && Counted(s) && Flags(s) && Covered(s) }

  // ----- Every step keeps them ------------------------------------------------------------

  /** A token is kept, given up, or issued afresh; a settling step gives it up. */
  lemma RowTokens(row: Row, move: Move, next: Row)
    requires RowMoves(row, move, next) && (row.state.Processing? <==> row.token.Some?)
    ensures next.state.Processing? <==> next.token.Some?
    ensures next.issued == row.issued || (next.issued == row.issued + 1 && next.token == Some(row.issued))
    ensures next.token == row.token || next.token.None? || (next.token == Some(row.issued) && next.issued == row.issued + 1)
    ensures Settles(row, move, next).Some? ==> next.token.None? && row.token.Some?
  {}

  lemma ClaimKept(request: Request, s: State, move: Move, t: State, d: nat)
    requires Step(request, s, move, t) && HasClaim(t, d)
    ensures (HasClaim(s, d) && t.dispatches[d].claim == s.dispatches[d].claim)
         || (t.dispatches[d].claim.value.token == s.row.issued && t.row.issued == s.row.issued + 1
             && move.Acts? && move.dispatch == d)
  {}

  lemma TokensKept(request: Request, s: State, move: Move, t: State)
    requires Tokens(s) && Step(request, s, move, t)
    ensures Tokens(t)
  {
    RowTokens(s.row, move, t.row);
    forall d | HasClaim(t, d) ensures t.dispatches[d].claim.value.token < t.row.issued {
      ClaimKept(request, s, move, t, d);
    }
    forall d, e | HasClaim(t, d) && HasClaim(t, e) && t.dispatches[d].claim.value.token == t.dispatches[e].claim.value.token
      ensures d == e
    {
      ClaimKept(request, s, move, t, d);
      ClaimKept(request, s, move, t, e);
    }
  }

  lemma CountedKept(request: Request, s: State, move: Move, t: State)
    requires Counted(s) && Step(request, s, move, t)
    ensures Counted(t)
  {}

  /** Decided once is decided for good. */
  lemma DecidedStays(request: Request, s: State, move: Move, t: State)
    requires Inv(s) && Step(request, s, move, t) && Decided(s)
    ensures Decided(t)
  {
    if move.Acts? && IsFinish(move.action) && t.row != s.row {
      assert HeldBy(s, move.dispatch);
    }
  }

  ghost predicate GivesBack(move: Move, token: nat) {
    move.Acts? && (IsFinish(move.action) || IsComplete(move.action)) && move.action.transition.token == token
  }

  lemma RowLoss(row: Row, move: Move, next: Row, token: nat)
    requires RowMoves(row, move, next) && Holds(row, token) && !Holds(next, token)
    ensures next.uncertain || next.state.Succeeded? || Abandons(row, move, next) || GivesBack(move, token)
  {}

  /** Only the dispatch that won a token gives it back. */
  lemma OnlyHolderGives(request: Request, s: State, move: Move, t: State, d: nat)
    requires Tokens(s) && Step(request, s, move, t) && HasClaim(s, d)
    requires GivesBack(move, s.dispatches[d].claim.value.token)
    ensures move.dispatch == d && t.dispatches[d].settling.Some?
  {
    assert HasClaim(s, move.dispatch);
  }

  /** Whoever loses a claim without settling it leaves the uncertainty decided. */
  lemma LostIsDecided(request: Request, s: State, move: Move, t: State, d: nat)
    requires Inv(s) && Step(request, s, move, t)
    requires HeldBy(s, d) && d in t.dispatches && t.dispatches[d].claim == s.dispatches[d].claim
    ensures HeldBy(t, d) || t.dispatches[d].settling.Some? || Decided(t)
  {
    var token := s.dispatches[d].claim.value.token;
    if !Holds(t.row, token) {
      RowLoss(s.row, move, t.row, token);
      if GivesBack(move, token) {
        OnlyHolderGives(request, s, move, t, d);
      }
    }
  }

  lemma ClaimFlags(request: Request, s: State, move: Move, t: State, d: nat)
    requires Inv(s) && Step(request, s, move, t) && HasClaim(t, d)
    ensures t.dispatches[d].claim.value.reconcileOnly == t.dispatches[d].claim.value.uncertain
    ensures t.dispatches[d].claim.value.uncertain ==> Decided(t)
    ensures t.dispatches[d].settling.None? && !HeldBy(t, d) ==> Decided(t)
  {
    ClaimKept(request, s, move, t, d);
    if HasClaim(s, d) && t.dispatches[d].claim == s.dispatches[d].claim {
      if Decided(s) {
        DecidedStays(request, s, move, t);
      } else if t.dispatches[d].settling.None? && !HeldBy(t, d) {
        LostIsDecided(request, s, move, t, d);
      }
    }
  }

  lemma HolderFlags(request: Request, s: State, move: Move, t: State, d: nat)
    requires Inv(s) && Step(request, s, move, t) && HeldBy(t, d)
    ensures t.row.uncertain == t.dispatches[d].claim.value.uncertain
    ensures HeldBy(s, d) ==> t.dispatches[d].claim == s.dispatches[d].claim
    ensures HeldBy(s, d) || !s.touched || Decided(t)
  {
    ClaimKept(request, s, move, t, d);
    RowTokens(s.row, move, t.row);
    if Decided(s) {
      DecidedStays(request, s, move, t);
    }
  }

  /** A write begins only in a dispatch that holds its claim, or when all is decided. */
  lemma TouchCovered(request: Request, s: State, move: Move, t: State)
    requires Inv(s) && Step(request, s, move, t) && move.Acts? && Touches(move.action)
    ensures Covered(t)
  {
    var d := move.dispatch;
    if Decided(s) {
      DecidedStays(request, s, move, t);
    } else {
      assert HasClaim(s, d) && HeldBy(s, d);
      forall e | HeldBy(t, e) ensures t.dispatches[e].evidence.touched {
        ClaimKept(request, s, move, t, e);
      }
    }
  }

  lemma FlaggedRow(row: Row, move: Move, next: Row, token: nat)
    requires RowMoves(row, move, next) && Holds(row, token) && !Holds(next, token) && GivesBack(move, token)
    requires IsFinish(move.action) ==> move.action.transition.uncertain
    ensures next.uncertain || next.state.Succeeded?
  {}

  lemma HeldCovered(request: Request, s: State, move: Move, t: State)
    requires Inv(s) && Step(request, s, move, t) && s.touched && !Decided(s)
    ensures Covered(t)
  {
    var token := s.row.token.value;
    if Holds(t.row, token) {
      forall e | HeldBy(t, e) ensures Decided(t) || t.dispatches[e].evidence.touched {
        HolderFlags(request, s, move, t, e);
      }
    } else {
      RowLoss(s.row, move, t.row, token);
      if GivesBack(move, token) {
        assert HeldBy(s, move.dispatch);
        FlaggedRow(s.row, move, t.row, token);
      }
    }
  }

  lemma CoveredKept(request: Request, s: State, move: Move, t: State)
    requires Inv(s) && Step(request, s, move, t)
    ensures Covered(t)
  {
    if Decided(s) {
      DecidedStays(request, s, move, t);
    } else if s.touched {
      HeldCovered(request, s, move, t);
    } else if t.touched {
      TouchCovered(request, s, move, t);
    }
  }

  lemma AbandonedKept(request: Request, s: State, move: Move, t: State)
    requires Inv(s) && Step(request, s, move, t) && t.abandoned
    ensures t.row.state.Rejected? && !t.row.uncertain
  {}

  lemma StepKeeps(request: Request, s: State, move: Move, t: State)
    requires Inv(s) && Step(request, s, move, t)
    ensures Inv(t)
  {
    TokensKept(request, s, move, t);
    CountedKept(request, s, move, t);
    forall d | HasClaim(t, d)
      ensures t.dispatches[d].claim.value.reconcileOnly == t.dispatches[d].claim.value.uncertain
      ensures t.dispatches[d].claim.value.uncertain ==> Decided(t)
      ensures t.dispatches[d].settling.None? && !HeldBy(t, d) ==> Decided(t)
    {
      ClaimFlags(request, s, move, t, d);
    }
    forall d | HeldBy(t, d) ensures t.row.uncertain == t.dispatches[d].claim.value.uncertain {
      HolderFlags(request, s, move, t, d);
    }
    if t.abandoned { AbandonedKept(request, s, move, t); }
    CoveredKept(request, s, move, t);
  }

  lemma {:induction false} RunKeeps(request: Request, states: seq<State>, moves: seq<Move>, i: nat)
    requires Run(request, states, moves) && i < |states|
    ensures Inv(states[i])
  {
    if i > 0 {
      RunKeeps(request, states, moves, i - 1);
      StepKeeps(request, states[i - 1], moves[i - 1], states[i]);
    }
  }
}
