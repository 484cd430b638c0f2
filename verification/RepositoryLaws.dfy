/** What every interleaving of the repository supervisor's steps keeps. */
module RepositoryLaws {
  import opened Collections
  import opened RepositorySteps

  ghost predicate Executes(s: State, id: nat) { id in s.runners && s.runners[id].stage == Executing }

  /** Whether the runner's context was cancelled, by its own cancel or by Run's context. */
  ghost predicate Cancelled(s: State, id: nat) { s.contextDone || id in s.cancelled }

  /** At most one live runner per repository, whatever the interleaving. */
  lemma OneRunnerPerRepository(states: seq<State>, events: seq<Event>, i: nat, a: nat, b: nat)
    requires Run(states, events) && i < |states|
    requires Executes(states[i], a) && Executes(states[i], b)
    requires states[i].runners[a].repository == states[i].runners[b].repository
    ensures a == b
  {
    RunKeeps(states, events, i);
    assert LiveTwins(states[i], a, b);
  }

  /** Right after a reconcile every uncancelled runner has the configuration now desired. */
  lemma ReconcileLeavesDesired(states: seq<State>, events: seq<Event>, i: nat, id: nat)
    requires Run(states, events) && i < |events| && events[i].Reconcile?
    requires Executes(states[i + 1], id) && !Cancelled(states[i + 1], id)
    ensures var desired := Desired(Eligible(events[i].admissions), events[i].configs);
      var runner := states[i + 1].runners[id];
      runner.repository in desired && desired[runner.repository] == runner.config
  {
    var s, t := states[i], states[i + 1];
    var desired := Desired(Eligible(events[i].admissions), events[i].configs);
    RunKeeps(states, events, i);
    RunKeeps(states, events, i + 1);
    assert Step(s, events[i], t);
    assert Registered(t, id);
    UnwantedHas(s, desired, t.runners[id].repository);
  }

  lemma UnwantedHas(s: State, desired: map<string, Config>, r: string)
    ensures r in s.active && !Keeps(desired, r, s.active[r]) ==> s.active[r].id in Unwanted(s, desired)
  {}

  /** And every desired repository has an entry then, its own or one still on its way out. */
  lemma ReconcileCoversDesired(s: State, desired: map<string, Config>, t: State)
    requires Reconciled(s, desired, t) && Inv(s) && s.mode.Serving?
    ensures forall r :: r in desired ==> r in t.active && Live(t.runners[t.active[r].id])
    ensures forall r :: r in desired ==>
      t.active[r].config == desired[r] || t.active[r].id in t.cancelled
  {
    ReconcileKeeps(s, desired, t);
    forall r | r in desired ensures t.active[r].config == desired[r] || t.active[r].id in t.cancelled {
      UnwantedHas(s, desired, r);
    }
  }

  /** A reconcile cancels exactly the entries whose repository is not to run any more, or not with that configuration. */
  lemma ReconcileCancelsExactly(s: State, e: Event, t: State, id: nat)
    requires Step(s, e, t) && e.Reconcile?
    ensures var desired := Desired(Eligible(e.admissions), e.configs);
      id in t.cancelled <==>
        || id in s.cancelled
        || exists r :: r in s.active && s.active[r].id == id && (r in desired ==> desired[r] != s.active[r].config)
  {
    var desired := Desired(Eligible(e.admissions), e.configs);
    forall r ensures r in s.active && (r in desired ==> desired[r] != s.active[r].config) ==> s.active[r].id in Unwanted(s, desired) {
      UnwantedHas(s, desired, r);
    }
    if id in Unwanted(s, desired) {
      var r :| r in s.active && !Keeps(desired, r, s.active[r]) && s.active[r].id == id;
      assert r in desired ==> desired[r] != s.active[r].config;
    }
  }

  /** It starts exactly the wanted ones that have no entry, and no entry is removed. */
  lemma ReconcileStartsExactly(s: State, e: Event, t: State, r: string)
    requires Step(s, e, t) && e.Reconcile?
    ensures var desired := Desired(Eligible(e.admissions), e.configs);
      && (r in t.active <==> r in s.active || r in desired)
      && (r in s.active ==> t.active[r] == s.active[r])
      && (r in desired && r !in s.active ==>
            t.active[r].config == desired[r] && Executes(t, t.active[r].id) && t.active[r].id !in s.runners)
  {}

  /** When Run returns through the cancellation path no runner is executing any more. */
  lemma CleanReturn(states: seq<State>, events: seq<Event>, i: nat, id: nat)
    requires Run(states, events) && i < |states| && states[i].mode.Finished?
    ensures !Executes(states[i], id)
  {
    RunKeeps(states, events, i);
  }

  /** Run returned because step `j` failed to reconcile. */
  ghost predicate FailedAt(events: seq<Event>, i: nat, j: nat) { j < i <= |events| && events[j].ReconcileFails? }

  lemma StepAfterFailure(s: State, e: Event, t: State, id: nat)
    requires Step(s, e, t) && s.mode.Failed?
    ensures t.mode.Failed? && t.cancelled == s.cancelled && !e.ReconcileFails?
    ensures Executes(t, id) <==> Executes(s, id) && e != RunnerReturns(id)
  {}

  lemma StepToFailure(s: State, e: Event, t: State, id: nat)
    requires Step(s, e, t) && !s.mode.Failed?
    ensures t.mode.Failed? <==> e.ReconcileFails?
    ensures t.mode.Failed? ==> t.cancelled == s.cancelled && t.active == s.active && (Executes(t, id) <==> Executes(s, id))
  {}

  /**
   * After a return through an error, in every run: nothing was cancelled since, the runners
   * executing are those that executed at the error and have not come back on their own, and
   * every one of them is still an entry of the map.
   */
  lemma {:induction false} FailedReturn(states: seq<State>, events: seq<Event>, i: nat, id: nat) returns (j: nat)
    requires Run(states, events) && i < |states| && states[i].mode.Failed?
    ensures FailedAt(events, i, j) && states[j].mode.Serving?
    ensures states[i].cancelled == states[j].cancelled
    ensures Executes(states[i], id) <==> Executes(states[j], id) && forall k :: j < k < i ==> events[k] != RunnerReturns(id)
    ensures Executes(states[i], id) ==> Registered(states[i], id)
  {
    var s, e, t := states[i - 1], events[i - 1], states[i];
    assert Step(s, e, t);
    if s.mode.Failed? {
      j := FailedReturn(states, events, i - 1, id);
      StepAfterFailure(s, e, t, id);
    } else {
      j := i - 1;
      StepToFailure(s, e, t, id);
    }
    RunKeeps(states, events, i);
  }

  /** A return because the store failed cancels nothing: a runner may go on, uncancelled. */
  lemma FailedReturnLeavesRunner(r: string, settings: string) returns (states: seq<State>, events: seq<Event>)
    ensures Run(states, events)
    ensures var last := states[|events|]; last.mode.Failed? && Executes(last, 0) && !Cancelled(last, 0)
  {
    var config := Config(r, settings, true);
    var started := State(map[r := Lifetime(0, config)], map[0 := Runner(r, config, Executing)], {}, false, Serving);
    events := [Reconcile([Admission(r, true)], [config]), ReconcileFails];
    states := [INITIAL, started, started.(mode := Failed)];
    DesiredOne(r, config);
    assert Unwanted(INITIAL, map[r := config]) == {};
    assert StartedFor(INITIAL, started, r, config);
    assert Step(states[0], events[0], states[1]);
    assert Step(states[1], events[1], states[2]);
  }

  lemma DesiredOne(r: string, config: Config)
    requires config.repository == r && config.ready
    ensures Desired(Eligible([Admission(r, true)]), [config]) == map[r := config]
  {
    assert [Admission(r, true)][..0] == [] && [config][..0] == [];
    assert Eligible([Admission(r, true)]) == map[r := true];
    assert Desired(map[r := true], []) == map[];
  }

  // ----- What a reconcile wants -----------------------------------------------------

  /** The admission at `i` is the last one of its repository. */
  ghost predicate LastAdmission(admissions: seq<Admission>, r: string, i: int) {
    && 0 <= i < |admissions| && admissions[i].repository == r
    && forall j :: i < j < |admissions| ==> admissions[j].repository != r
  }

  /** The configuration at `i` is the last ready one of its repository. */
  ghost predicate LastReady(configs: seq<Config>, r: string, i: int) {
    && 0 <= i < |configs| && configs[i].repository == r && configs[i].ready
    && forall j :: i < j < |configs| ==> configs[j].repository != r || !configs[j].ready
  }

  lemma {:induction false} EligibleMeans(admissions: seq<Admission>, r: string)
    ensures r in Eligible(admissions) <==> exists i :: LastAdmission(admissions, r, i)
    ensures r in Eligible(admissions) ==> exists i :: LastAdmission(admissions, r, i) && admissions[i].eligible == Eligible(admissions)[r]
  {
    if admissions != [] {
      var n := |admissions| - 1;
      var init := admissions[..n];
      EligibleMeans(init, r);
      if admissions[n].repository == r {
        assert LastAdmission(admissions, r, n);
      } else {
        forall i ensures LastAdmission(init, r, i) <==> LastAdmission(admissions, r, i) {}
        if r in Eligible(init) {
          var i :| LastAdmission(init, r, i) && init[i].eligible == Eligible(init)[r];
          assert LastAdmission(admissions, r, i) && admissions[i].eligible == Eligible(admissions)[r];
        }
      }
    }
  }

  lemma {:induction false} DesiredFrom(eligible: map<string, bool>, configs: seq<Config>, r: string)
    ensures r in Desired(eligible, configs) <==> r in eligible && eligible[r] && exists i :: LastReady(configs, r, i)
    ensures r in Desired(eligible, configs) ==> exists i :: LastReady(configs, r, i) && Desired(eligible, configs)[r] == configs[i]
  {
    if configs != [] {
      var n := |configs| - 1;
      var init := configs[..n];
      DesiredFrom(eligible, init, r);
      if configs[n].repository == r && configs[n].ready {
        assert LastReady(configs, r, n);
      } else {
        forall i ensures LastReady(init, r, i) <==> LastReady(configs, r, i) {}
        if r in Desired(eligible, init) {
          var i :| LastReady(init, r, i) && Desired(eligible, init)[r] == init[i];
          assert LastReady(configs, r, i) && Desired(eligible, configs)[r] == configs[i];
        }
      }
    }
  }

  /**
   * A repository is to run exactly when its last admission is eligible and a configuration of it
   * is ready, and it is to run with the last such configuration.
   */
  lemma DesiredMeans(admissions: seq<Admission>, configs: seq<Config>, r: string)
    ensures r in Desired(Eligible(admissions), configs) <==>
      && (exists i :: LastAdmission(admissions, r, i) && admissions[i].eligible)
      && (exists j :: 0 <= j < |configs| && configs[j].repository == r && configs[j].ready)
    ensures r in Desired(Eligible(admissions), configs) ==>
      exists j :: LastReady(configs, r, j) && Desired(Eligible(admissions), configs)[r] == configs[j]
  {
    EligibleMeans(admissions, r);
    DesiredFrom(Eligible(admissions), configs, r);
    forall i, j | LastAdmission(admissions, r, i) && LastAdmission(admissions, r, j) ensures i == j {}
    if j :| 0 <= j < |configs| && configs[j].repository == r && configs[j].ready {
      var last := SomeLastReady(configs, r, j);
    }
  }

  lemma SomeLastReady(configs: seq<Config>, r: string, j: nat) returns (last: nat)
    requires j < |configs| && configs[j].repository == r && configs[j].ready
    ensures LastReady(configs, r, last)
    decreases |configs| - j
  {
    if k :| j < k < |configs| && configs[k].repository == r && configs[k].ready {
      last := SomeLastReady(configs, r, k);
    } else {
      last := j;
    }
  }
}
