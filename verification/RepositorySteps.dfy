/**
 * The repository supervisor as interleaved steps: reconcile, runner exit, shutdown.
 * A step is what happens between two releases of the mutex, or outside it.
 */
module RepositorySteps {
  import opened Collections

  datatype Config = Config(repository: string, settings: string, ready: bool)

  datatype Admission = Admission(repository: string, eligible: bool)

  /** The entry of the `active` map; `id` stands for the lifetime's done channel. */
  datatype Lifetime = Lifetime(id: nat, config: Config)

  /** A runner goroutine: inside Runner.Run, back from it, deregistered, or with done closed. */
  datatype Stage = Executing | Returned | Deregistered | Closed

  datatype Runner = Runner(repository: string, config: Config, stage: Stage)

  /** Run itself: looping, waiting for the collected lifetimes, or returned. */
  datatype Mode = Serving | Draining(waiting: set<nat>) | Finished | Failed

  datatype State = State(
    active: map<string, Lifetime>,
    runners: map<nat, Runner>,
    cancelled: set<nat>,
    contextDone: bool,
    mode: Mode)

  // ----- What a reconcile wants -----------------------------------------------------

  function Eligible(admissions: seq<Admission>): map<string, bool> {
    if admissions == [] then map[]
    else
      var last := admissions[|admissions| - 1];
      Eligible(admissions[..|admissions| - 1])[last.repository := last.eligible]
  }

  predicate Wanted(eligible: map<string, bool>, config: Config) {
    config.repository in eligible && eligible[config.repository] && config.ready
  }

  function Desired(eligible: map<string, bool>, configs: seq<Config>): map<string, Config> {
    if configs == [] then map[]
    else
      var last := configs[|configs| - 1];
      var before := Desired(eligible, configs[..|configs| - 1]);
      if Wanted(eligible, last) then before[last.repository := last] else before
  }

  predicate Keeps(desired: map<string, Config>, repository: string, lifetime: Lifetime) {
    repository in desired && desired[repository] == lifetime.config
  }

  // ----- Steps ------------------------------------------------------------------------

  /** Cancels what is no longer desired, starts what has no entry; every other entry stays. */
  ghost predicate Reconciled(s: State, desired: map<string, Config>, t: State) {
    && t.mode == s.mode && t.contextDone == s.contextDone
    && t.cancelled == s.cancelled + Unwanted(s, desired)
    && t.active.Keys == s.active.Keys + desired.Keys
    && (forall r :: r in s.active ==> t.active[r] == s.active[r])
    && (forall id :: id in s.runners ==> id in t.runners && t.runners[id] == s.runners[id])
    && (forall r :: r in desired && r !in s.active ==> StartedFor(s, t, r, desired[r]))
    && (forall id :: id in t.runners && id !in s.runners ==>
          t.runners[id].repository in desired && t.runners[id].repository !in s.active
          && t.active[t.runners[id].repository].id == id)
  }

  ghost function Unwanted(s: State, desired: map<string, Config>): set<nat> {
    set r | r in s.active && !Keeps(desired, r, s.active[r]) :: s.active[r].id
  }

  ghost predicate StartedFor(s: State, t: State, r: string, config: Config) {
    && r in t.active && t.active[r].config == config
    && t.active[r].id !in s.runners && t.active[r].id !in s.cancelled
    && t.active[r].id in t.runners && t.runners[t.active[r].id] == Runner(r, config, Executing)
  }

  datatype Event =
    | Reconcile(admissions: seq<Admission>, configs: seq<Config>)
    | ReconcileFails
    | ContextDone
    | RunnerReturns(id: nat)
    | Deregister(id: nat)
    | CloseDone(id: nat)
    | BeginShutdown
    | FinishShutdown

  function WithStage(s: State, id: nat, stage: Stage): State
    requires id in s.runners
  {
    s.(runners := s.runners[id := s.runners[id].(stage := stage)])
  }

  /** The registered entry is removed only by the very lifetime that it names. */
  function AfterDeregister(s: State, id: nat): State
    requires id in s.runners
  {
    var r := s.runners[id].repository;
    WithStage(if r in s.active && s.active[r].id == id then s.(active := s.active - {r}) else s, id, Deregistered)
  }

  ghost predicate Step(s: State, e: Event, t: State) {
    match e
    case Reconcile(admissions, configs) =>
      s.mode.Serving? && Reconciled(s, Desired(Eligible(admissions), configs), t)
    case ReconcileFails => s.mode.Serving? && t == s.(mode := Failed)
    case ContextDone => t == s.(contextDone := true)
    case RunnerReturns(id) => id in s.runners && s.runners[id].stage == Executing && t == WithStage(s, id, Returned)
    case Deregister(id) => id in s.runners && s.runners[id].stage == Returned && t == AfterDeregister(s, id)
    case CloseDone(id) => id in s.runners && s.runners[id].stage == Deregistered && t == WithStage(s, id, Closed)
    case BeginShutdown =>
      && s.mode.Serving? && s.contextDone
      && var ids := set r | r in s.active :: s.active[r].id;
      && t == s.(active := map[], cancelled := s.cancelled + ids, mode := Draining(ids))
    case FinishShutdown =>
      && s.mode.Draining? && (forall id :: id in s.mode.waiting ==> id in s.runners && s.runners[id].stage == Closed)
      && t == s.(mode := Finished)
  }

  const INITIAL := State(map[], map[], {}, false, Serving)

  ghost predicate Run(states: seq<State>, events: seq<Event>) {
    && |states| == |events| + 1
    && states[0] == INITIAL
    && forall i :: 0 <= i < |events| ==> Step(states[i], events[i], states[i + 1])
  }

  // ----- Invariant --------------------------------------------------------------------

  /** Not yet past its deregistration: Runner.Run may still be executing. */
  predicate Live(r: Runner) { r.stage == Executing || r.stage == Returned }

  ghost predicate Inv(s: State) {
    // Registered lifetimes are live runners of that repository and configuration.
    && (forall r :: r in s.active ==>
          s.active[r].id in s.runners && Live(s.runners[s.active[r].id])
          && s.runners[s.active[r].id].repository == r && s.runners[s.active[r].id].config == s.active[r].config)
    && s.cancelled <= s.runners.Keys
    // Every live runner is registered, or waited for once the shutdown collected it.
    && (s.mode.Serving? || s.mode.Failed? ==> forall id :: id in s.runners && Live(s.runners[id]) ==> Registered(s, id))
    && (s.mode.Draining? ==> s.active == map[] && forall id :: id in s.runners && Live(s.runners[id]) ==> id in s.mode.waiting)
    && (s.mode.Finished? ==> s.active == map[] && forall id :: id in s.runners ==> !Live(s.runners[id]))
    && (forall i, j :: LiveTwins(s, i, j) ==> i == j)
  }

  ghost predicate LiveTwins(s: State, i: nat, j: nat) {
    && i in s.runners && j in s.runners && Live(s.runners[i]) && Live(s.runners[j])
    && s.runners[i].repository == s.runners[j].repository
  }

  ghost predicate Registered(s: State, id: nat)
    requires id in s.runners
  {
    s.runners[id].repository in s.active && s.active[s.runners[id].repository].id == id
  }

  lemma ReconcileKeeps(s: State, desired: map<string, Config>, t: State)
    requires Inv(s) && s.mode.Serving? && Reconciled(s, desired, t)
    ensures Inv(t)
  {
    forall r | r in t.active
      ensures t.active[r].id in t.runners && Live(t.runners[t.active[r].id])
           && t.runners[t.active[r].id].repository == r && t.runners[t.active[r].id].config == t.active[r].config
    {
      if r !in s.active { assert StartedFor(s, t, r, desired[r]); }
    }
    forall id | id in t.runners && Live(t.runners[id]) ensures Registered(t, id) {
      if id in s.runners { assert Registered(s, id); }
    }
    forall i, j | LiveTwins(t, i, j) ensures i == j {
      assert Registered(t, i) && Registered(t, j);
    }
  }

  lemma ReturnKeeps(s: State, id: nat)
    requires Inv(s) && id in s.runners && s.runners[id].stage == Executing
    ensures Inv(WithStage(s, id, Returned))
  {
    var t := WithStage(s, id, Returned);
    forall i, j | LiveTwins(t, i, j) ensures i == j { assert LiveTwins(s, i, j); }
  }

  lemma DeregisterKeeps(s: State, id: nat)
    requires Inv(s) && id in s.runners && s.runners[id].stage == Returned
    ensures Inv(AfterDeregister(s, id))
  {
    var t := AfterDeregister(s, id);
    forall i, j | LiveTwins(t, i, j) ensures i == j { assert LiveTwins(s, i, j); }
    forall r | r in t.active ensures t.active[r].id != id {
      assert r in s.active;
    }
    if s.mode.Serving? || s.mode.Failed? {
      forall i | i in t.runners && Live(t.runners[i]) ensures Registered(t, i) {
        assert Registered(s, i);
        assert Registered(s, id);
      }
    }
  }

  lemma CloseKeeps(s: State, id: nat)
    requires Inv(s) && id in s.runners && s.runners[id].stage == Deregistered
    ensures Inv(WithStage(s, id, Closed))
  {
    var t := WithStage(s, id, Closed);
    forall i, j | LiveTwins(t, i, j) ensures i == j { assert LiveTwins(s, i, j); }
  }

  lemma ModeKeeps(s: State, e: Event, t: State)
    requires Inv(s) && Step(s, e, t)
    requires e.ReconcileFails? || e.ContextDone? || e.BeginShutdown? || e.FinishShutdown?
    ensures Inv(t)
  {
    forall i, j | LiveTwins(t, i, j) ensures i == j { assert LiveTwins(s, i, j); }
    if e.BeginShutdown? {
      forall id | id in t.runners && Live(t.runners[id]) ensures id in t.mode.waiting { assert Registered(s, id); }
    }
  }

  lemma StepKeeps(s: State, e: Event, t: State)
    requires Inv(s) && Step(s, e, t)
    ensures Inv(t)
  {
    match e
    case Reconcile(admissions, configs) => ReconcileKeeps(s, Desired(Eligible(admissions), configs), t);
    case RunnerReturns(id) => ReturnKeeps(s, id);
    case Deregister(id) => DeregisterKeeps(s, id);
    case CloseDone(id) => CloseKeeps(s, id);
    case _ => ModeKeeps(s, e, t);
  }

  lemma {:induction false} RunKeeps(states: seq<State>, events: seq<Event>, i: nat)
    requires Run(states, events) && i < |states|
    ensures Inv(states[i])
  {
    if i > 0 {
      RunKeeps(states, events, i - 1);
      StepKeeps(states[i - 1], events[i - 1], states[i]);
    }
  }
}
