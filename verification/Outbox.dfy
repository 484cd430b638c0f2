/** One row of the delivery outbox and the store transitions that change it. */
module Outbox {
  import opened Collections
  import opened Failures

  datatype RowState = Pending | Processing | Succeeded | Rejected

  /** `issued` counts the claim tokens handed out so far; every new token is fresh. */
  datatype Row = Row(
    state: RowState,
    attempts: nat,
    token: Option<nat>,
    uncertain: bool,
    nextAttempt: int,
    issued: nat)

  const MAX_ATTEMPTS := 3

  /** What a winning claim hands to the dispatcher. */
  datatype Claim = Claim(token: nat, uncertain: bool, reconcileOnly: bool)

  datatype Reply = Won(claim: Claim) | AlreadySucceeded | AlreadyRejected | Stored

  /** Everything a claim reads besides the row. `attention` is what marking for attention answers. */
  datatype ClaimFacts = ClaimFacts(
    paused: bool,
    recoverable: bool,
    now: int,
    attention: Option<Failure>,
    inboxPending: bool,
    dispatcherHeld: bool)

  /** Everything a finishing transition reads besides the row. */
  datatype FinishFacts = FinishFacts(dispatcherHeld: bool, attention: Option<Failure>, now: int)

  // ----- Claiming ---------------------------------------------------------------------

  /** claimDeliveryOutbox: the row afterwards and the answer. */
  function ClaimRow(row: Row, facts: ClaimFacts): (Row, Result<Reply, Failure>) {
    if facts.paused then (row, Err(PAUSED))
    else if row.state.Succeeded? then (row, Ok(AlreadySucceeded))
    else if row.state.Rejected? then (row, Ok(AlreadyRejected))
    else if row.state.Processing? && !facts.recoverable then (row, Err(IN_PROGRESS))
    else if row.state.Pending? && row.nextAttempt > facts.now then (row, Err(IN_PROGRESS))
    else if row.attempts >= MAX_ATTEMPTS then Exhaust(row, facts)
    else if facts.inboxPending || !facts.dispatcherHeld then (row, Err(IN_PROGRESS))
    else
      var claimed := Claimed(row);
      (claimed, Ok(Won(Claim(row.issued, claimed.uncertain, claimed.uncertain))))
  }

  /** Out of attempts: rejected with the flag left as it was. */
  function Exhaust(row: Row, facts: ClaimFacts): (Row, Result<Reply, Failure>) {
    if facts.attention.Some? && !facts.attention.value.superseded then (row, Err(facts.attention.value))
    else (row.(state := Rejected, token := None), Err(REJECTED))
  }

  /** A claim taken over from another dispatcher is uncertain from then on. */
  function Claimed(row: Row): Row {
    row.(state := Processing, attempts := row.attempts + 1, token := Some(row.issued),
         uncertain := row.uncertain || row.state.Processing?, issued := row.issued + 1)
  }

  // ----- Finishing --------------------------------------------------------------------

  predicate Holds(row: Row, token: nat) { row.state.Processing? && row.token == Some(token) }

  function Pow2(n: nat): (r: nat)
    ensures r >= 1
  {
    if n == 0 then 1 else 2 * Pow2(n - 1)
  }

  /** One second doubled per attempt, unless a later time was asked for. */
  function NextAttempt(attempts: nat, now: int, retryAt: Option<int>): int {
    if retryAt.Some? && retryAt.value > now then retryAt.value
    else now + Pow2(if attempts == 0 then 0 else attempts - 1)
  }

  /** finishDeliveryOutbox for the two targets that the gateway uses. */
  function FinishRow(row: Row, token: nat, reject: bool, uncertain: bool, requireDispatcher: bool,
                     retryAt: Option<int>, facts: FinishFacts): (Row, Option<Failure>) {
    if !Holds(row, token) then (row, Some(FENCING))
    else if requireDispatcher && !facts.dispatcherHeld then (row, Some(FENCING))
    else if reject || row.attempts >= MAX_ATTEMPTS then
      if facts.attention.Some? && !facts.attention.value.superseded then (row, facts.attention)
      else (row.(state := Rejected, token := None, uncertain := uncertain, nextAttempt := facts.now), None)
    else
      (row.(state := Pending, token := None, uncertain := uncertain,
            nextAttempt := NextAttempt(row.attempts, facts.now, retryAt)), None)
  }

  /** CompleteDeliveryOutbox clears the flag: the write was seen. */
  function CompleteRow(row: Row, token: nat, facts: FinishFacts): (Row, Option<Failure>) {
    if !Holds(row, token) || !facts.dispatcherHeld then (row, Some(FENCING))
    else if facts.attention.Some? then (row, facts.attention)
    else (row.(state := Succeeded, token := None, uncertain := false), None)
  }

  // ----- The other writers of the row -----------------------------------------------------

  /** RecoverExpiredGatewayDeliveryClaims: an expired claim becomes uncertain. */
  function RecoverRow(row: Row, now: int): Row {
    if row.state.Processing? then row.(state := Pending, token := None, uncertain := true, nextAttempt := now) else row
  }

  /** A candidate accepted early rejects whatever is still open, with the flag left as it was. */
  function SupersedeRow(row: Row): Row {
    if row.state.Pending? || row.state.Processing? then row.(state := Rejected, token := None) else row
  }

  /** The owner's answer to a recovery question reopens a rejected uncertain inbox row. */
  function ReopenRow(row: Row, now: int): Row {
    if row.state.Rejected? && row.uncertain then row.(state := Pending, attempts := 0, token := None, nextAttempt := now)
    else row
  }

  // ----- The store ----------------------------------------------------------------------

  class Store {
    var state: RowState
    var attempts: nat
    var token: Option<nat>
    var uncertain: bool
    var nextAttempt: int
    var issued: nat

    function Now(): Row
      reads this
    {
      Row(state, attempts, token, uncertain, nextAttempt, issued)
    }

    constructor (now: int)
      ensures Now() == Row(Pending, 0, None, false, now, 0)
    {
      state, attempts, token, uncertain, nextAttempt, issued := Pending, 0, None, false, now, 0;
    }

    method ClaimDelivery(facts: ClaimFacts) returns (r: Result<Reply, Failure>)
      modifies this
      ensures (Now(), r) == ClaimRow(old(Now()), facts)
    {
      if facts.paused { return Err(PAUSED); }
      if state == Succeeded { return Ok(AlreadySucceeded); }
      if state == Rejected { return Ok(AlreadyRejected); }
      if state == Processing && !facts.recoverable { return Err(IN_PROGRESS); }
      if state == Pending && nextAttempt > facts.now { return Err(IN_PROGRESS); }
      var reconcileOnly := uncertain || state == Processing;
      if attempts >= MAX_ATTEMPTS {
        if facts.attention.Some? && !facts.attention.value.superseded { return Err(facts.attention.value); }
        state, token := Rejected, None;
        return Err(REJECTED);
      }
      var claimToken := issued;
      if facts.inboxPending || !facts.dispatcherHeld { return Err(IN_PROGRESS); }
      uncertain := if state == Processing then true else uncertain;
      state, attempts, token, issued := Processing, attempts + 1, Some(claimToken), issued + 1;
      return Ok(Won(Claim(claimToken, uncertain, reconcileOnly)));
    }

    method FinishDelivery(claimToken: nat, reject: bool, flag: bool, requireDispatcher: bool, retryAt: Option<int>, facts: FinishFacts)
      returns (failure: Option<Failure>)
      modifies this
      ensures (Now(), failure) == FinishRow(old(Now()), claimToken, reject, flag, requireDispatcher, retryAt, facts)
    {
      if !(state == Processing && token == Some(claimToken)) { return Some(FENCING); }
      if requireDispatcher && !facts.dispatcherHeld { return Some(FENCING); }
      var target, next := if reject then Rejected else Pending, facts.now;
      if reject {
        if facts.attention.Some? && !facts.attention.value.superseded { return facts.attention; }
      } else if attempts >= MAX_ATTEMPTS {
        target := Rejected;
        if facts.attention.Some? && !facts.attention.value.superseded { return facts.attention; }
      } else {
        next := facts.now + Pow2(if attempts == 0 then 0 else attempts - 1);
        if retryAt.Some? && retryAt.value > facts.now { next := retryAt.value; }
      }
      state, token, uncertain, nextAttempt := target, None, flag, next;
      return None;
    }

    method CompleteDelivery(claimToken: nat, facts: FinishFacts) returns (failure: Option<Failure>)
      modifies this
      ensures (Now(), failure) == CompleteRow(old(Now()), claimToken, facts)
    {
      if !(state == Processing && token == Some(claimToken)) { return Some(FENCING); }
      if !facts.dispatcherHeld { return Some(FENCING); }
      if facts.attention.Some? { return facts.attention; }
      state, token, uncertain := Succeeded, None, false;
      return None;
    }
  }
}
