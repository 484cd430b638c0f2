/** What whole outbox runs keep, and the run that does not. */
module OutboxLaws {
  import opened Collections
  import opened Failures
  import opened Isolation
  import opened Outbox
  import opened DeliveryProtocol
  import opened OutboxRuns
  import opened OutboxInvariants

  // ----- What every run keeps ---------------------------------------------------------------

  /**
   * A write that may have taken effect is never forgotten, except in a run in which a claim in
   * flight was rejected over its holder's head; and there it always is.
   */
  lemma UncertaintyIsConservative(request: Request, states: seq<State>, moves: seq<Move>, i: nat)
    requires Run(request, states, moves) && i < |states| && states[i].touched
    ensures var row := states[i].row;
      row.state.Succeeded? || row.uncertain || row.state.Processing? <==> !states[i].abandoned
  {
    RunKeeps(request, states, moves, i);
  }

  /** Which steps those are: an exhausted row claimed again, or a candidate accepted early. */
  lemma AbandonedBy(request: Request, states: seq<State>, moves: seq<Move>, i: nat) returns (j: nat)
    requires Run(request, states, moves) && i < |states| && states[i].abandoned
    ensures j < i && Abandons(states[j].row, moves[j], states[j + 1].row)
    ensures moves[j].CandidateAccepted?
         || (moves[j].claimFacts.recoverable && states[j].row.attempts >= MAX_ATTEMPTS)
  {
    if states[i - 1].abandoned {
      j := AbandonedBy(request, states, moves, i - 1);
    } else {
      j := i - 1;
      assert Step(request, states[j], moves[j], states[i]);
    }
  }

  /** Once flagged, a row stays flagged until its write is seen. */
  lemma {:induction false} FlagSticks(request: Request, states: seq<State>, moves: seq<Move>, i: nat, j: nat)
    requires Run(request, states, moves) && i <= j < |states| && states[i].row.uncertain
    ensures states[j].row.uncertain || states[j].row.state.Succeeded?
  {
    if i < j {
      FlagSticks(request, states, moves, i, j - 1);
      RunKeeps(request, states, moves, j - 1);
      FlagStep(request, states[j - 1], moves[j - 1], states[j]);
    }
  }

  lemma FlagStep(request: Request, s: State, move: Move, t: State)
    requires Inv(s) && Step(request, s, move, t) && (s.row.uncertain || s.row.state.Succeeded?)
    ensures t.row.uncertain || t.row.state.Succeeded?
  {
    DecidedStays(request, s, move, t);
    RowTokens(s.row, move, t.row);
  }

  /** A claim is settled at most once, whoever interferes and however calls fail. */
  lemma {:induction false} SettledStays(request: Request, states: seq<State>, moves: seq<Move>, i: nat, j: nat)
    requires Run(request, states, moves) && i <= j < |states|
    ensures states[i].settled <= states[j].settled
  {
    if i < j {
      SettledStays(request, states, moves, i, j - 1);
      assert Step(request, states[j - 1], moves[j - 1], states[j]);
    }
  }

  lemma SettledOnce(request: Request, states: seq<State>, moves: seq<Move>, i: nat, j: nat)
    requires Run(request, states, moves) && i < j < |moves|
    requires Settles(states[i].row, moves[i], states[i + 1].row).Some?
    ensures Settles(states[j].row, moves[j], states[j + 1].row) != Settles(states[i].row, moves[i], states[i + 1].row)
  {
    assert Step(request, states[i], moves[i], states[i + 1]);
    SettledStays(request, states, moves, i + 1, j);
    RunKeeps(request, states, moves, j);
  }

  /** At most three claims are handed out, and three more for every reopening. */
  lemma BoundedClaims(request: Request, states: seq<State>, moves: seq<Move>, i: nat)
    requires Run(request, states, moves) && i < |states|
    ensures states[i].row.issued <= MAX_ATTEMPTS * (states[i].reopened + 1)
  {
    RunKeeps(request, states, moves, i);
  }

  // ----- The run that loses the flag --------------------------------------------------------------

  function FactsAt(now: int): ClaimFacts { ClaimFacts(false, true, now, None, false, true) }

  function ClaimMove(s: State, d: nat, now: int): Move {
    Acts(d, Call(ClaimItem, [], ClaimRow(s.row, FactsAt(now)).1), FactsAt(now), FinishFacts(true, None, now))
  }

  function DidMove(d: nat, act: Act, now: int): Move { Acts(d, Did(act), FactsAt(now), FinishFacts(true, None, now)) }

  /** Some remote lets the request be written. */
  predicate Writable(request: Request) { !(request.expectAbsent && request.expectedHead != "") }

  function Expected(request: Request): (o: Observation)
    ensures Writable(request) ==> Permits(request, o)
  {
    Observation(false, request.expectedHead != "", request.expectedHead)
  }

  /** Claims and defers without having written, as after an observation that failed. */
  lemma DeferredTurn(request: Request, s: State, d: nat, now: int) returns (states: seq<State>, moves: seq<Move>)
    requires s.row.state.Pending? && s.row.nextAttempt <= now && !s.row.uncertain && d !in s.dispatches
    requires s.row.attempts < MAX_ATTEMPTS - 1 && !s.touched
    ensures |moves| == 2 && Steps(request, states, moves) && states[0] == s
    ensures states[2].row.state.Pending? && !states[2].row.uncertain && !states[2].touched
    ensures states[2].row.attempts == s.row.attempts + 1
    ensures states[2].dispatches.Keys == s.dispatches.Keys + {d}
  {
    var claim := ClaimMove(s, d, now);
    var s1 := Then(request, s, claim, ClaimRow(s.row, FactsAt(now)).0);
    var finish: Action := Call(Finish(s.row.issued, false, false, false, None), [], Ok(Stored));
    var defer := Acts(d, finish, FactsAt(now), FinishFacts(true, None, now));
    var s2 := Then(request, s1, defer, FinishRow(s1.row, s.row.issued, false, false, true, None, FinishFacts(true, None, now)).0);
    states, moves := [s, s1, s2], [claim, defer];
  }

  /** The last attempt writes and is never heard of again; the next claim finds the row exhausted. */
  lemma LostTurn(request: Request, s: State, d: nat, now: int) returns (states: seq<State>, moves: seq<Move>)
    requires s.row.state.Pending? && s.row.nextAttempt <= now && !s.row.uncertain && d !in s.dispatches && d + 1 !in s.dispatches
    requires s.row.attempts == MAX_ATTEMPTS - 1 && Writable(request)
    ensures |moves| == 4 && Steps(request, states, moves) && states[0] == s
    ensures states[4].touched && states[4].row.state.Rejected? && !states[4].row.uncertain
  {
    var claim := ClaimMove(s, d, now);
    var s1 := Then(request, s, claim, ClaimRow(s.row, FactsAt(now)).0);
    var look := DidMove(d, Observed(Expected(request)), now);
    var s2 := Then(request, s1, look, s1.row);
    var write := DidMove(d, Applied(Observation(true, true, "head")), now);
    var s3 := Then(request, s2, write, s2.row);
    var again := ClaimMove(s3, d + 1, now);
    var s4 := Then(request, s3, again, ClaimRow(s3.row, FactsAt(now)).0);
    states, moves := [s, s1, s2, s3, s4], [claim, look, write, again];
  }

  /**
   * Two deferred attempts, a third that writes and whose process ends, and one more claim:
   * the write is forgotten, because exhausting a row in flight keeps the flag as it was.
   */
  lemma ExhaustionForgetsWrite(request: Request) returns (states: seq<State>, moves: seq<Move>)
    requires Writable(request)
    ensures Run(request, states, moves) && |moves| == 8
    ensures var last := states[8];
      last.touched && last.row.state.Rejected? && !last.row.uncertain
  {
    var s0 := Initial(0);
    var a, am := DeferredTurn(request, s0, 0, 0);
    var b, bm := DeferredTurn(request, a[2], 1, a[2].row.nextAttempt);
    var c, cm := LostTurn(request, b[2], 2, b[2].row.nextAttempt);
    JoinSteps(request, a, am, b, bm);
    JoinSteps(request, a + b[1..], am + bm, c, cm);
    states, moves := a + b[1..] + c[1..], am + bm + cm;
  }

  ghost predicate Steps(request: Request, states: seq<State>, moves: seq<Move>) {
    && |states| == |moves| + 1
    && forall i :: 0 <= i < |moves| ==> Step(request, states[i], moves[i], states[i + 1])
  }

  lemma JoinSteps(request: Request, a: seq<State>, am: seq<Move>, b: seq<State>, bm: seq<Move>)
    requires Steps(request, a, am) && Steps(request, b, bm) && a[|am|] == b[0]
    ensures Steps(request, a + b[1..], am + bm) && (a + b[1..])[|am| + |bm|] == b[|bm|] && (a + b[1..])[0] == a[0]
  {
    var states, moves := a + b[1..], am + bm;
    forall i | 0 <= i < |moves| ensures Step(request, states[i], moves[i], states[i + 1]) {
      if i >= |am| {
        var k := i - |am|;
        assert states[i] == b[k] && states[i + 1] == b[k + 1] && moves[i] == bm[k];
      }
    }
  }

  // ----- Runs and the logs of single dispatches -------------------------------------------------

  /** What one dispatch did in the first `n` moves. */
  function LogOf(moves: seq<Move>, d: nat): seq<Action> {
    if moves == [] then []
    else
      var before, last := LogOf(moves[..|moves| - 1], d), moves[|moves| - 1];
      if last.Acts? && last.dispatch == d then before + [last.action] else before
  }

  /** In every run each dispatch keeps the rules that Gateway.Dispatch was proved to keep. */
  lemma {:induction false} LogsFollow(request: Request, states: seq<State>, moves: seq<Move>, i: nat, d: nat)
    requires Run(request, states, moves) && i <= |moves|
    ensures Follows(request, LogOf(moves[..i], d))
    ensures After(request, LogOf(moves[..i], d)) == LocalOf(states[i], d)
  {
    if i > 0 {
      LogsFollow(request, states, moves, i - 1, d);
      assert Step(request, states[i - 1], moves[i - 1], states[i]);
      assert moves[..i][..i - 1] == moves[..i - 1];
      if moves[i - 1].Acts? && moves[i - 1].dispatch == d {
        Extend(request, LogOf(moves[..i - 1], d), moves[i - 1].action);
      }
    }
  }

  /** A request no remote lets through is never written, so there is nothing to forget about it. */
  lemma OnlyWritableTouches(request: Request, states: seq<State>, moves: seq<Move>, i: nat)
    requires Run(request, states, moves) && i < |states| && states[i].touched
    ensures Writable(request)
  {
    if states[i - 1].touched {
      OnlyWritableTouches(request, states, moves, i - 1);
    } else {
      assert Step(request, states[i - 1], moves[i - 1], states[i]);
      var d := moves[i - 1].dispatch;
      LogsFollow(request, states, moves, i - 1, d);
      var log := LogOf(moves[..i - 1], d);
      ClearShown(request, log);
      var j :| ClearedBy(request, log, j);
    }
  }
}
