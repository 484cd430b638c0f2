/** Retrying a store transition that first needs workers isolated. */
module Isolation {
  import opened Collections
  import opened Failures

  /** The store's receipt that a fenced run's container was isolated. */
  datatype Proof = Proof(target: Target)

  /** One effect on the store, the containers or, for the callers of this module, the remote. */
  datatype Event<T, R> =
    | Call(transition: T, proofs: seq<Proof>, answer: Result<R, Failure>)
    | Fenced(requested: seq<Target>, fenced: Result<seq<Target>, Failure>)
    | Contained(target: Target, failed: Option<Failure>)
    | Acknowledged(batch: seq<Target>, acknowledged: Result<seq<Proof>, Failure>)
    | Did(effect: T)

  /** The effects in the order in which they happened; the answers come from outside. */
  class Effects<T, R> {
    var log: seq<Event<T, R>>

    constructor ()
      ensures log == []
    {
      log := [];
    }

    method Record(event: Event<T, R>)
      modifies this
      ensures log == old(log) + [event]
    {
      log := log + [event];
    }
  }

  /** What the world answers during one round of IsolateWorkers. */
  datatype Round = Round(
    fence: Result<seq<Target>, Failure>,
    isolate: nat -> Option<Failure>,
    acknowledge: Result<seq<Proof>, Failure>)

  /** What it answers to one RetryWorkerTransition, attempt by attempt. */
  datatype Script<R> = Script(answers: nat -> Result<R, Failure>, rounds: nat -> Round, contextDone: nat -> bool)

  const TRANSITION_ATTEMPTS := 5

  // ----- What the log has to show ---------------------------------------------------

  ghost function Contain<T, R>(fenced: seq<Target>): (r: seq<Event<T, R>>)
    ensures |r| == |fenced| && forall k :: 0 <= k < |r| ==> r[k] == Contained(fenced[k], None)
  {
    seq(|fenced|, k requires 0 <= k < |fenced| => Contained(fenced[k], None))
  }

  /** A batch: its claims fenced, then every container isolated in order, then acknowledged. */
  ghost predicate BatchEnds<T(!new), R(!new)>(log: seq<Event<T, R>>, a: int, fenced: seq<Target>, p: Proof) {
    && |fenced| < a < |log|
    && (exists requested :: log[a - |fenced| - 1] == Fenced(requested, Ok(fenced)))
    && log[a - |fenced|..a] == Contain(fenced)
    && log[a].Acknowledged? && log[a].batch == fenced && log[a].acknowledged.Ok? && p in log[a].acknowledged.value
  }

  /** Before position `n` the proof was acknowledged by a batch that was isolated in full. */
  ghost predicate Earned<T(!new), R(!new)>(log: seq<Event<T, R>>, n: int, p: Proof) {
    exists a, fenced :: a < n && BatchEnds(log, a, fenced, p)
  }

  lemma EarnedStays<T(!new), R(!new)>(log: seq<Event<T, R>>, more: seq<Event<T, R>>, n: int, m: int, p: Proof)
    requires Earned(log, n, p) && n <= m && n <= |log|
    ensures Earned(log + more, m, p)
  {
    var a, fenced :| a < n && BatchEnds(log, a, fenced, p);
    assert (log + more)[a - |fenced|..a] == log[a - |fenced|..a];
    assert BatchEnds(log + more, a, fenced, p);
  }

  function Calls<T, R>(log: seq<Event<T, R>>): nat {
    if log == [] then 0 else Calls(log[..|log| - 1]) + if log[|log| - 1].Call? then 1 else 0
  }

  lemma {:induction false} CallsAppend<T, R>(a: seq<Event<T, R>>, b: seq<Event<T, R>>)
    ensures Calls(a + b) == Calls(a) + Calls(b)
  {
    if b == [] {
      assert a + b == a;
    } else {
      assert (a + b)[..|a + b| - 1] == a + b[..|b| - 1];
      CallsAppend(a, b[..|b| - 1]);
    }
  }

  lemma {:induction false} NoCalls<T, R>(log: seq<Event<T, R>>)
    requires forall i :: 0 <= i < |log| ==> !log[i].Call?
    ensures Calls(log) == 0
  {
    if log != [] {
      NoCalls(log[..|log| - 1]);
    }
  }

  /** Only calls of this transition; the last event is the one call that may succeed. */
  ghost predicate Retried<T, R>(t: T, ext: seq<Event<T, R>>, r: Result<R, Failure>) {
    if r.Err? then AllFailed(t, ext)
    else
      && ext != [] && AllFailed(t, ext[..|ext| - 1])
      && ext[|ext| - 1].Call? && ext[|ext| - 1].transition == t && ext[|ext| - 1].answer == r
  }

  ghost predicate AllFailed<T, R>(t: T, ext: seq<Event<T, R>>) {
    forall i :: 0 <= i < |ext| ==> !ext[i].Did? && (ext[i].Call? ==> ext[i].transition == t && ext[i].answer.Err?)
  }

  ghost predicate ProofsEarned<T(!new), R(!new)>(ext: seq<Event<T, R>>) {
    forall n, p :: 0 <= n < |ext| && ext[n].Call? && p in ext[n].proofs ==> Earned(ext, n, p)
  }

  // ----- What the answers have to come to ---------------------------------------------

  /** The first container from `k` on that could not be isolated. */
  function FirstFailure(w: Round, k: nat, n: nat): (r: Option<Failure>)
    requires k <= n
    ensures r.None? <==> forall j: nat :: k <= j < n ==> w.isolate(j).None?
    ensures r.Some? ==> exists j: nat :: k <= j < n && w.isolate(j) == r && forall i: nat :: k <= i < j ==> w.isolate(i).None?
    decreases n - k
  {
    if k == n then None else if w.isolate(k).Some? then w.isolate(k) else FirstFailure(w, k + 1, n)
  }

  /** One round: the first thing that failed, or else what was acknowledged. */
  function RoundOutcome(ready: bool, w: Round): Result<seq<Proof>, Failure> {
    if !ready then Err(OTHER)
    else if w.fence.Err? then Err(w.fence.error)
    else
      var failed := FirstFailure(w, 0, |w.fence.value|);
      if failed.Some? then Err(failed.value) else w.acknowledge
  }

  /** The round stops the retry: isolation failed for good, or attempts or time ran out. */
  predicate Exhausted<R>(w: Script<R>, n: nat, round: Result<seq<Proof>, Failure>) {
    (round.Err? && !round.error.fencing) || n + 1 >= TRANSITION_ATTEMPTS || w.contextDone(n)
  }

  /** What the retry answers from call `n` on: the first call that asks for no isolation decides. */
  function RetryOutcome<R>(ready: bool, w: Script<R>, n: nat): Result<R, Failure>
    decreases TRANSITION_ATTEMPTS - n
  {
    var answer := w.answers(n);
    if answer.Ok? || answer.error.isolation.None? then answer
    else
      var round := RoundOutcome(ready, w.rounds(n));
      if Exhausted(w, n, round) then Err(if round.Err? then Join(answer.error, round.error) else answer.error)
      else RetryOutcome(ready, w, n + 1)
  }

  /** Every container of the round was isolated, and that was acknowledged. */
  ghost predicate Completed(ready: bool, w: Round) {
    && ready && w.fence.Ok? && w.acknowledge.Ok?
    && forall k: nat :: k < |w.fence.value| ==> w.isolate(k).None?
  }

  /** The first thing in the round that failed. */
  ghost predicate BrokenBy(ready: bool, w: Round, f: Failure) {
    || (!ready && f == OTHER)
    || (ready && w.fence == Err(f))
    || (ready && w.fence.Ok? && exists k :: FirstNotIsolated(w, k, f))
    || (ready && w.fence.Ok? && w.acknowledge == Err(f) && forall k: nat :: k < |w.fence.value| ==> w.isolate(k).None?)
  }

  ghost predicate FirstNotIsolated(w: Round, k: nat, f: Failure) {
    w.fence.Ok? && k < |w.fence.value| && w.isolate(k) == Some(f) && forall j: nat :: j < k ==> w.isolate(j).None?
  }

  lemma RoundMeans(ready: bool, w: Round)
    ensures RoundOutcome(ready, w).Ok? <==> Completed(ready, w)
    ensures forall f :: RoundOutcome(ready, w) == Err(f) <==> BrokenBy(ready, w, f)
  {
    forall f ensures RoundOutcome(ready, w) == Err(f) <==> BrokenBy(ready, w, f) {
      if ready && w.fence.Ok? {
        var n := |w.fence.value|;
        var failed := FirstFailure(w, 0, n);
        if failed.Some? {
          var k: nat :| k < n && w.isolate(k) == failed && forall i: nat :: i < k ==> w.isolate(i).None?;
          assert FirstNotIsolated(w, k, failed.value);
          forall j | FirstNotIsolated(w, j, f) ensures j == k {}
        }
      }
    }
  }

  /** Call `n` asked for isolation. */
  predicate Asks<R>(w: Script<R>, n: nat) { w.answers(n).Err? && w.answers(n).error.isolation.Some? }

  /** After call `n` another one is made: isolated or at least fenced, with a call and time left. */
  ghost predicate GoesOn<R(!new)>(ready: bool, w: Script<R>, n: nat) {
    && Asks(w, n) && n < 4 && !w.contextDone(n)
    && (Completed(ready, w.rounds(n)) || exists f :: BrokenBy(ready, w.rounds(n), f) && f.fencing)
  }

  /** Call `n` is the last one, and this is what comes of it. */
  ghost predicate EndsAt<R(!new)>(ready: bool, w: Script<R>, n: nat, r: Result<R, Failure>) {
    && (forall m: nat :: m < n ==> GoesOn(ready, w, m)) && !GoesOn(ready, w, n)
    && if !Asks(w, n) then r == w.answers(n)
       else if Completed(ready, w.rounds(n)) then r == w.answers(n)
       else exists f :: BrokenBy(ready, w.rounds(n), f) && r == Err(Join(w.answers(n).error, f))
  }

  /** Calls go on while isolation is asked for and can be had, five of them at most; the last one decides. */
  lemma RetryDecides<R(!new)>(ready: bool, w: Script<R>)
    ensures exists n: nat :: n < 5 && EndsAt(ready, w, n, RetryOutcome(ready, w, 0))
  {
    var n := RetryDecidesFrom(ready, w, 0);
  }

  lemma {:induction false} RetryDecidesFrom<R(!new)>(ready: bool, w: Script<R>, m: nat) returns (n: nat)
    requires m < 5 && forall k: nat :: k < m ==> GoesOn(ready, w, k)
    ensures n < 5 && EndsAt(ready, w, n, RetryOutcome(ready, w, m))
    decreases 5 - m
  {
    RoundMeans(ready, w.rounds(m));
    var round := RoundOutcome(ready, w.rounds(m));
    if Asks(w, m) && round.Err? { assert BrokenBy(ready, w.rounds(m), round.error); }
    if GoesOn(ready, w, m) {
      n := RetryDecidesFrom(ready, w, m + 1);
    } else {
      n := m;
    }
  }

  // ----- The coordinator --------------------------------------------------------------

  lemma BatchEarns<T(!new), R(!new)>(targets: seq<Target>, fenced: seq<Target>, acknowledged: Result<seq<Proof>, Failure>,
                                     done: seq<Event<T, R>>)
    requires done == [Fenced(targets, Ok(fenced))] + Contain(fenced)
    ensures acknowledged.Ok? ==>
              forall p :: p in acknowledged.value ==> Earned(done + [Acknowledged(fenced, acknowledged)], |done| + 1, p)
  {
    var ext := done + [Acknowledged(fenced, acknowledged)];
    if acknowledged.Ok? {
      forall p | p in acknowledged.value ensures Earned(ext, |ext|, p) {
        assert ext[1..|ext| - 1] == Contain(fenced);
        assert BatchEnds(ext, |ext| - 1, fenced, p);
      }
    }
  }

  /** Fence all, isolate every container in order, acknowledge; stop at the first failure. */
  method IsolateWorkers<T(!new), R(!new)>(e: Effects<T, R>, ready: bool, targets: seq<Target>, w: Round)
    returns (r: Result<seq<Proof>, Failure>, ghost ext: seq<Event<T, R>>)
    modifies e
    ensures e.log == old(e.log) + ext
    ensures forall i :: 0 <= i < |ext| ==> !ext[i].Call? && !ext[i].Did?
    ensures r.Ok? ==> forall p :: p in r.value ==> Earned(ext, |ext|, p)
    ensures r == RoundOutcome(ready, w)
    ensures !ready ==> ext == []
  {
    ext := [];
    if !ready {
      return Err(OTHER), ext;
    }
    e.Record(Fenced(targets, w.fence));
    ext := [Fenced(targets, w.fence)];
    if w.fence.Err? {
      return Err(w.fence.error), ext;
    }
    var fenced := w.fence.value;
    for k := 0 to |fenced|
      invariant e.log == old(e.log) + ext
      invariant ext == [Fenced(targets, w.fence)] + Contain(fenced[..k])
      invariant FirstFailure(w, 0, |fenced|) == FirstFailure(w, k, |fenced|)
    {
      e.Record(Contained(fenced[k], w.isolate(k)));
      ext := ext + [Contained(fenced[k], w.isolate(k))];
      if w.isolate(k).Some? {
        return Err(w.isolate(k).value), ext;
      }
    }
    assert fenced[..|fenced|] == fenced;
    e.Record(Acknowledged(fenced, w.acknowledge));
    BatchEarns(targets, fenced, w.acknowledge, ext);
    ext := ext + [Acknowledged(fenced, w.acknowledge)];
    return w.acknowledge, ext;
  }

  /** Calls the transition until it needs no more isolation, at most five times. */
  method RetryWorkerTransition<T(!new), R(!new)>(e: Effects<T, R>, ready: bool, transition: Option<T>, w: Script<R>)
    returns (r: Result<R, Failure>, ghost ext: seq<Event<T, R>>)
    modifies e
    ensures e.log == old(e.log) + ext
    ensures transition.None? ==> r.Err? && ext == []
    ensures transition.Some? ==> RetryEnds(transition.value, ext, r) && r == RetryOutcome(ready, w, 0)
    ensures ProofsEarned(ext)
  {
    ext := [];
    if transition.None? {
      return Err(OTHER), ext;
    }
    var isolated: seq<Proof> := [];
    for attempt := 0 to TRANSITION_ATTEMPTS
      invariant e.log == old(e.log) + ext && Going(transition.value, ext, isolated, attempt)
      invariant attempt < TRANSITION_ATTEMPTS && RetryOutcome(ready, w, 0) == RetryOutcome(ready, w, attempt)
    {
      var answer := w.answers(attempt);
      e.Record(Call(transition.value, isolated, answer));
      CallStep(transition.value, ext, isolated, attempt, answer);
      Regroup(old(e.log), ext, [Call(transition.value, isolated, answer)]);
      ext := ext + [Call(transition.value, isolated, answer)];
      if answer.Ok? || answer.error.isolation.None? {
        return answer, ext;
      }
      var acknowledged, round := IsolateWorkers(e, ready, answer.error.isolation.value, w.rounds(attempt));
      RoundStep(transition.value, ext, round, isolated, acknowledged, attempt + 1);
      Regroup(old(e.log), ext, round);
      ext := ext + round;
      var failure := if acknowledged.Err? then Join(answer.error, acknowledged.error) else answer.error;
      if acknowledged.Ok? {
        isolated := isolated + acknowledged.value;
      }
      if (acknowledged.Err? && !acknowledged.error.fencing) || attempt + 1 == TRANSITION_ATTEMPTS || w.contextDone(attempt) {
        return Err(failure), ext;
      }
    }
    return Err(OTHER), ext;
  }

  ghost predicate RetryEnds<T, R>(t: T, ext: seq<Event<T, R>>, r: Result<R, Failure>) {
    Retried(t, ext, r) && 1 <= Calls(ext) <= TRANSITION_ATTEMPTS
  }

  lemma Regroup<T>(a: seq<T>, b: seq<T>, c: seq<T>)
    ensures a + b + c == a + (b + c)
  {}

  /** The retry loop after `n` calls that all failed. */
  ghost predicate Going<T(!new), R(!new)>(t: T, ext: seq<Event<T, R>>, isolated: seq<Proof>, n: nat) {
    && AllFailed(t, ext)
    && Calls(ext) == n && ProofsEarned(ext)
    && forall p :: p in isolated ==> Earned(ext, |ext|, p)
  }

  lemma CallStep<T(!new), R(!new)>(t: T, ext: seq<Event<T, R>>, isolated: seq<Proof>, n: nat, answer: Result<R, Failure>)
    requires Going(t, ext, isolated, n)
    ensures var all := ext + [Call(t, isolated, answer)];
      Retried(t, all, answer) && Calls(all) == n + 1 && ProofsEarned(all)
      && (answer.Err? ==> Going(t, all, isolated, n + 1))
  {
    var call := Call(t, isolated, answer);
    assert (ext + [call])[..|ext|] == ext;
    CallEarned(ext, call);
    CallsAppend(ext, [call]);
    assert Calls([call]) == 1;
  }

  lemma RoundStep<T(!new), R(!new)>(t: T, ext: seq<Event<T, R>>, round: seq<Event<T, R>>, isolated: seq<Proof>,
                                    r: Result<seq<Proof>, Failure>, n: nat)
    requires Going(t, ext, isolated, n)
    requires forall i :: 0 <= i < |round| ==> !round[i].Call? && !round[i].Did?
    requires r.Ok? ==> forall p :: p in r.value ==> Earned(round, |round|, p)
    ensures Going(t, ext + round, if r.Ok? then isolated + r.value else isolated, n)
  {
    RoundEarned(ext, round, isolated, r);
    CallsAppend(ext, round);
    NoCalls(round);
  }

  lemma CallEarned<T(!new), R(!new)>(ext: seq<Event<T, R>>, call: Event<T, R>)
    requires ProofsEarned(ext) && call.Call?
    requires forall p :: p in call.proofs ==> Earned(ext, |ext|, p)
    ensures ProofsEarned(ext + [call])
    ensures forall p :: p in call.proofs ==> Earned(ext + [call], |ext| + 1, p)
  {
    forall n, p | 0 <= n <= |ext| && (ext + [call])[n].Call? && p in (ext + [call])[n].proofs
      ensures Earned(ext + [call], n, p)
    {
      EarnedStays(ext, [call], n, n, p);
    }
    forall p | p in call.proofs ensures Earned(ext + [call], |ext| + 1, p) {
      EarnedStays(ext, [call], |ext|, |ext| + 1, p);
    }
  }

  lemma RoundEarned<T(!new), R(!new)>(ext: seq<Event<T, R>>, round: seq<Event<T, R>>, isolated: seq<Proof>, r: Result<seq<Proof>, Failure>)
    requires ProofsEarned(ext) && forall p :: p in isolated ==> Earned(ext, |ext|, p)
    requires forall i :: 0 <= i < |round| ==> !round[i].Call?
    requires r.Ok? ==> forall p :: p in r.value ==> Earned(round, |round|, p)
    ensures ProofsEarned(ext + round)
    ensures forall p :: p in isolated ==> Earned(ext + round, |ext| + |round|, p)
    ensures r.Ok? ==> forall p :: p in r.value ==> Earned(ext + round, |ext| + |round|, p)
  {
    var all := ext + round;
    forall n, p | 0 <= n < |all| && all[n].Call? && p in all[n].proofs ensures Earned(all, n, p) {
      assert n < |ext|;
      EarnedStays(ext, round, n, n, p);
    }
    forall p | p in isolated ensures Earned(all, |all|, p) {
      EarnedStays(ext, round, |ext|, |all|, p);
    }
    if r.Ok? {
      forall p | p in r.value ensures Earned(all, |all|, p) { EarnedAfter(ext, round, p); }
    }
  }

  lemma EarnedAfter<T(!new), R(!new)>(before: seq<Event<T, R>>, log: seq<Event<T, R>>, p: Proof)
    requires Earned(log, |log|, p)
    ensures Earned(before + log, |before| + |log|, p)
  {
    var a, fenced :| a < |log| && BatchEnds(log, a, fenced, p);
    var all := before + log;
    var b := |before| + a;
    var requested :| log[a - |fenced| - 1] == Fenced(requested, Ok(fenced));
    assert all[b - |fenced| - 1] == Fenced(requested, Ok(fenced));
    assert all[b - |fenced|..b] == log[a - |fenced|..a];
    assert BatchEnds(all, b, fenced, p);
  }
}
