/** What the store's transitions on an outbox row mean, told from the row and the facts alone. */
module OutboxTerms {
  import opened Collections
  import opened Failures
  import opened Outbox

  // ----- Claiming ---------------------------------------------------------------------

  /** Nobody has the row, and its time has come; or whoever has it is gone. */
  predicate Due(row: Row, facts: ClaimFacts) {
    || (row.state == Pending && row.nextAttempt <= facts.now)
    || (row.state == Processing && facts.recoverable)
  }

  /** A claim wins exactly when the row is due and writes are allowed, for the third time at most. */
  lemma ClaimWins(row: Row, facts: ClaimFacts)
    ensures var (after, reply) := ClaimRow(row, facts);
      (reply.Ok? && reply.value.Won?) <==>
        !facts.paused && Due(row, facts) && row.attempts < 3 && !facts.inboxPending && facts.dispatcherHeld
  {}

  /** The winner has the row alone, and may only look exactly when an earlier write is in doubt. */
  lemma WinnerHolds(row: Row, facts: ClaimFacts)
    requires ClaimRow(row, facts).1.Ok? && ClaimRow(row, facts).1.value.Won?
    ensures var after, claim := ClaimRow(row, facts).0, ClaimRow(row, facts).1.value.claim;
      && after.state == Processing && after.attempts == row.attempts + 1 && after.nextAttempt == row.nextAttempt
      && after.token == Some(claim.token) && claim.token == row.issued < after.issued
      && after.uncertain == claim.uncertain == claim.reconcileOnly
      && (claim.reconcileOnly <==> row.uncertain || row.state == Processing)
  {}

  /** Whoever does not win hears why, and leaves the row as it was unless its attempts are used up. */
  lemma LosersHear(row: Row, facts: ClaimFacts)
    ensures var (after, reply) := ClaimRow(row, facts);
      && (facts.paused ==> reply == Err(PAUSED) && after == row)
      && (!facts.paused && row.state == Succeeded ==> reply == Ok(AlreadySucceeded) && after == row)
      && (!facts.paused && row.state == Rejected ==> reply == Ok(AlreadyRejected) && after == row)
      && (!facts.paused && row.state in {RowState.Pending, Processing} && !Due(row, facts) ==>
            reply == Err(IN_PROGRESS) && after == row)
      && (!facts.paused && Due(row, facts) && row.attempts < 3 && (facts.inboxPending || !facts.dispatcherHeld) ==>
            reply == Err(IN_PROGRESS) && after == row)
      && (!facts.paused && Due(row, facts) && row.attempts >= 3 ==>
            if facts.attention == None || facts.attention.value.superseded
            then reply == Err(REJECTED) && after == row.(state := Rejected, token := None)
            else reply == Err(facts.attention.value) && after == row)
  {}

  // ----- Finishing --------------------------------------------------------------------

  /** The claim in hand is the one that holds the row. */
  predicate Current(row: Row, token: nat) { row.state == Processing && row.token == Some(token) }

  /** A claim is given up for good when that is asked for, or after the third attempt. */
  lemma FinishSettles(row: Row, token: nat, reject: bool, flag: bool, fenced: bool, retryAt: Option<int>, facts: FinishFacts)
    ensures var (after, failure) := FinishRow(row, token, reject, flag, fenced, retryAt, facts);
      && (failure == None && after.state == Rejected <==>
            && Current(row, token) && (fenced ==> facts.dispatcherHeld) && (reject || row.attempts >= 3)
            && (facts.attention.None? || facts.attention.value.superseded))
      && (failure == None && after.state == RowState.Pending <==>
            Current(row, token) && (fenced ==> facts.dispatcherHeld) && !reject && row.attempts < 3)
      && (failure == None ==> after.state in {Rejected, RowState.Pending} && after.token == None && after.uncertain == flag)
      && (failure == None ==> after.attempts == row.attempts && after.issued == row.issued)
      && (failure != None ==> after == row)
      && (!Current(row, token) || (fenced && !facts.dispatcherHeld) ==> failure == Some(FENCING))
  {}

  /** The next attempt is one second away after the first and two after the second, or later if that was asked for. */
  lemma BackoffDoubles(row: Row, token: nat, flag: bool, fenced: bool, retryAt: Option<int>, facts: FinishFacts)
    requires FinishRow(row, token, false, flag, fenced, retryAt, facts).0.state == RowState.Pending && Current(row, token)
    ensures var next := FinishRow(row, token, false, flag, fenced, retryAt, facts).0.nextAttempt;
      next == if retryAt != None && retryAt.value > facts.now then retryAt.value
              else facts.now + if row.attempts == 2 then 2 else 1
  {
    assert Pow2(0) == 1 && Pow2(1) == 2;
  }

  lemma CompletionSettles(row: Row, token: nat, facts: FinishFacts)
    ensures var (after, failure) := CompleteRow(row, token, facts);
      && (failure == None <==> Current(row, token) && facts.dispatcherHeld && facts.attention == None)
      && (failure == None ==> after == row.(state := Succeeded, token := None, uncertain := false))
      && (failure != None ==> after == row)
  {}

  // ----- Others ------------------------------------------------------------------------

  /**
   * What happens to a row behind its dispatcher's back: a claim that expired is in doubt, an
   * overtaken request is closed as it stands, and only a rejected row in doubt is ever reopened.
   */
  lemma OthersTouch(row: Row, now: int)
    ensures RecoverRow(row, now) != row ==> row.state == Processing
    ensures row.state == Processing ==>
      RecoverRow(row, now) == Row(RowState.Pending, row.attempts, None, true, now, row.issued)
    ensures SupersedeRow(row).state in {Succeeded, Rejected} && SupersedeRow(row).uncertain == row.uncertain
    ensures SupersedeRow(row) != row ==> row.state in {RowState.Pending, Processing} && SupersedeRow(row).token == None
    ensures ReopenRow(row, now) != row ==> row.state == Rejected && row.uncertain
    ensures row.state == Rejected && row.uncertain ==>
      ReopenRow(row, now) == Row(RowState.Pending, 0, None, true, now, row.issued)
  {}
}
