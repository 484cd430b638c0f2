/** What every interleaving of the watch supervisor's steps keeps, and what it does not. */
module WatchLaws {
  import opened Collections
  import opened WatchSteps

  // ----- What every interleaving keeps ------------------------------------------------

  /** At most one uncancelled lifetime per repository. */
  lemma OneUncancelledPerRepository(states: seq<State>, events: seq<Event>, i: nat, a: nat, b: nat)
    requires Run(states, events) && i < |states|
    requires a < |states[i].pollers| && b < |states[i].pollers|
    requires !Cancelled(states[i], a) && !Cancelled(states[i], b)
    requires states[i].pollers[a].repository == states[i].pollers[b].repository
    ensures a == b
  {
    RunKeeps(states, events, i);
    assert Registered(states[i], a) && Registered(states[i], b);
  }

  /** After a reconcile the uncancelled repositories are exactly the watched ones, old lifetimes kept. */
  lemma ReconcileFollowsWatches(s: State, watches: seq<string>, t: State)
    requires Inv(s) && Step(s, Reconcile(watches), t)
    ensures t.active.Keys == Elements(watches)
    ensures forall r :: r in s.active && r in watches ==> t.active[r] == s.active[r]
    ensures forall id :: 0 <= id < |t.pollers| && id !in t.cancelled ==> t.pollers[id].repository in watches
    ensures forall r :: r in s.active && r !in watches ==> s.active[r] in t.cancelled
    ensures forall r :: r in watches ==> r in t.active && t.active[r] !in t.cancelled
  {
    StepKeeps(s, Reconcile(watches), t);
    StartAllMeans(s, watches);
    forall id | 0 <= id < |t.pollers| && id !in t.cancelled ensures t.pollers[id].repository in watches {
      assert Registered(t, id);
    }
    forall r | r in s.active && r !in watches ensures s.active[r] in t.cancelled {
      assert r in Gone(StartAll(s, watches), watches);
    }
  }

  // ----- What a clean return leaves ----------------------------------------------------

  /** Reconcile number `j` dropped this lifetime because its watch had gone. */
  ghost predicate DroppedAt(states: seq<State>, events: seq<Event>, j: nat, id: nat)
    requires Run(states, events)
  {
    && j < |events| && events[j].Reconcile?
    && id < |states[j].pollers| && Registered(states[j], id)
    && states[j].pollers[id].repository !in events[j].watches
    && id in states[j + 1].cancelled
  }

  ghost predicate Dropped(states: seq<State>, events: seq<Event>, i: nat, id: nat)
    requires Run(states, events)
  {
    exists j :: 0 <= j < i && DroppedAt(states, events, j, id)
  }

  /** Every cancelled lifetime was dropped by a reconcile, is waited for, or has closed. */
  ghost predicate Accounted(states: seq<State>, events: seq<Event>, i: nat, id: nat)
    requires Run(states, events) && i < |states|
  {
    || Dropped(states, events, i, id)
    || (states[i].mode.Draining? && id in states[i].mode.waiting)
    || (states[i].mode.Finished? && !Running(states[i], id))
  }

  lemma ReconcileAccounts(states: seq<State>, events: seq<Event>, i: nat, id: nat)
    requires Run(states, events) && i < |events| && events[i].Reconcile? && Inv(states[i])
    requires id in states[i + 1].cancelled && id !in states[i].cancelled
    ensures DroppedAt(states, events, i, id)
  {
    var s, watches := states[i], events[i].watches;
    assert Step(s, events[i], states[i + 1]);
    StartAllMeans(s, watches);
    StartAllKeeps(s, watches);
    var started := StartAll(s, watches);
    var r :| r in started.active && r in Gone(started, watches) && started.active[r] == id;
    assert r in s.active;
  }

  lemma {:induction false} AllAccounted(states: seq<State>, events: seq<Event>, i: nat, id: nat)
    requires Run(states, events) && i < |states| && id in states[i].cancelled
    ensures Accounted(states, events, i, id)
  {
    if i > 0 {
      var s, e, t := states[i - 1], events[i - 1], states[i];
      assert Step(s, e, t);
      RunKeeps(states, events, i - 1);
      if id in s.cancelled {
        AllAccounted(states, events, i - 1, id);
        if Dropped(states, events, i - 1, id) {
          var j :| 0 <= j < i - 1 && DroppedAt(states, events, j, id);
        }
      } else if e.Reconcile? {
        ReconcileAccounts(states, events, i - 1, id);
      }
    }
  }

  /**
   * When Run returns through the cancellation path, a poller that still runs had lost its
   * watch to an earlier reconcile: shutdown waits only for the entries of the map.
   */
  lemma CleanReturnLeavesOnlyDropped(states: seq<State>, events: seq<Event>, i: nat, id: nat)
    requires Run(states, events) && i < |states| && states[i].mode.Finished?
    requires Running(states[i], id)
    ensures Dropped(states, events, i, id)
  {
    RunKeeps(states, events, i);
    assert id !in states[i].cancelled ==> Registered(states[i], id);
    AllAccounted(states, events, i, id);
  }

  /** And one may: drop a watch, then shut down before its poller noticed. */
  lemma DroppedPollerOutlivesRun(r: string) returns (states: seq<State>, events: seq<Event>)
    ensures Run(states, events)
    ensures var last := states[|events|]; last.mode.Finished? && Running(last, 0)
  {
    events := [Reconcile([r]), Reconcile([]), ContextDone, BeginShutdown, FinishShutdown];
    var p := [Poller(r, false)];
    var s1 := State(map[r := 0], p, {}, false, Serving);
    var s2 := State(map[], p, {0}, false, Serving);
    FirstReconcile(r);
    DropReconcile(r);
    var ended := s2.(contextDone := true);
    DrainedEmpty(ended);
    states := [INITIAL, s1, s2, ended, s2.(contextDone := true, mode := Draining({})),
               s2.(contextDone := true, mode := Finished)];
  }

  /** Run returned because step `j` failed to reconcile. */
  ghost predicate FailedAt(events: seq<Event>, i: nat, j: nat) { j < i <= |events| && events[j].ReconcileFails? }

  lemma StepAfterFailure(s: State, e: Event, t: State, id: nat)
    requires Step(s, e, t) && s.mode.Failed?
    ensures t.mode.Failed? && t.cancelled == s.cancelled && t.active == s.active
    ensures Running(t, id) <==> Running(s, id) && e != Exit(id)
  {}

  lemma StepToFailure(s: State, e: Event, t: State, id: nat)
    requires Step(s, e, t) && !s.mode.Failed?
    ensures t.mode.Failed? <==> e.ReconcileFails?
    ensures t.mode.Failed? ==> s.mode.Serving? && t.cancelled == s.cancelled && t.active == s.active && (Running(t, id) <==> Running(s, id))
  {
    if e.Reconcile? { StartAllMeans(s, e.watches); }
  }

  /**
   * After a return through an error, in every run: the map and what was cancelled stay as they
   * were, the pollers running are those that ran at the error and did not leave since, and each
   * is an entry of the map or lost its watch to an earlier reconcile.
   */
  lemma {:induction false} FailedReturn(states: seq<State>, events: seq<Event>, i: nat, id: nat) returns (j: nat)
    requires Run(states, events) && i < |states| && states[i].mode.Failed?
    ensures FailedAt(events, i, j) && states[j].mode.Serving?
    ensures states[i].cancelled == states[j].cancelled && states[i].active == states[j].active
    ensures Running(states[i], id) <==> Running(states[j], id) && forall k :: j < k < i ==> events[k] != Exit(id)
    ensures Running(states[i], id) ==> Registered(states[i], id) || Dropped(states, events, i, id)
  {
    var s, e, t := states[i - 1], events[i - 1], states[i];
    assert Step(s, e, t);
    if s.mode.Failed? {
      j := FailedReturn(states, events, i - 1, id);
      StepAfterFailure(s, e, t, id);
    } else {
      j := i - 1;
      StepToFailure(s, e, t, id);
    }
    RunKeeps(states, events, i);
    if id in t.cancelled { AllAccounted(states, events, i, id); }
  }

  /** A return because the store failed cancels nothing: a poller may go on, uncancelled. */
  lemma FailedReturnLeavesPoller(r: string) returns (states: seq<State>, events: seq<Event>)
    ensures Run(states, events)
    ensures var last := states[|events|]; last.mode.Failed? && Running(last, 0) && !Cancelled(last, 0)
  {
    events := [Reconcile([r]), ReconcileFails];
    var started := State(map[r := 0], [Poller(r, false)], {}, false, Serving);
    FirstReconcile(r);
    states := [INITIAL, started, started.(mode := Failed)];
    assert Step(states[0], events[0], states[1]) && Step(states[1], events[1], states[2]);
  }

  // ----- Pollers of one repository ----------------------------------------------------------

  ghost predicate Twins(s: State, a: nat, b: nat) {
    a < b < |s.pollers| && s.pollers[a].repository == s.pollers[b].repository
  }

  /** A reconcile starts a poller only for a repository whose earlier pollers were all cancelled. */
  lemma TwinIsCancelled(s: State, watches: seq<string>, a: nat, b: nat)
    requires Inv(s) && s.mode.Serving? && Twins(StartAll(s, watches), a, b) && b >= |s.pollers|
    ensures a < |s.pollers| && a in s.cancelled
  {
    var t := StartAll(s, watches);
    StartAllMeans(s, watches);
    StartAllKeeps(s, watches);
    assert b !in t.cancelled && Registered(t, b);
    assert a !in t.cancelled ==> Registered(t, a);
  }

  lemma StepPollers(s: State, e: Event, t: State)
    requires Step(s, e, t)
    ensures e.Reconcile? ==> t.pollers == StartAll(s, e.watches).pollers
    ensures !e.Reconcile? ==> |t.pollers| == |s.pollers| && forall id :: 0 <= id < |s.pollers| ==> t.pollers[id].repository == s.pollers[id].repository
  {}

  /** Of two pollers of one repository the older had lost its watch to an earlier reconcile. */
  lemma {:induction false} OlderWasDropped(states: seq<State>, events: seq<Event>, i: nat, a: nat, b: nat)
    requires Run(states, events) && i < |states| && Twins(states[i], a, b)
    ensures Dropped(states, events, i, a)
  {
    var s, e, t := states[i - 1], events[i - 1], states[i];
    assert Step(s, e, t);
    StepPollers(s, e, t);
    RunKeeps(states, events, i - 1);
    if e.Reconcile? { StartAllMeans(s, e.watches); }
    if b < |s.pollers| {
      OlderWasDropped(states, events, i - 1, a, b);
    } else {
      TwinIsCancelled(s, e.watches, a, b);
      AllAccounted(states, events, i - 1, a);
    }
    var j :| 0 <= j < i - 1 && DroppedAt(states, events, j, a);
  }

  /** A watch that comes back early is polled by two goroutines, one of them cancelled. */
  lemma ReturningWatchOverlaps(r: string) returns (states: seq<State>, events: seq<Event>)
    ensures Run(states, events)
    ensures var last := states[|events|];
      Running(last, 0) && Running(last, 1) && last.pollers[0].repository == last.pollers[1].repository == r
      && Cancelled(last, 0) && !Cancelled(last, 1)
  {
    events := [Reconcile([r]), Reconcile([]), Reconcile([r])];
    var p := [Poller(r, false)];
    var s2 := State(map[], p, {0}, false, Serving);
    FirstReconcile(r);
    DropReconcile(r);
    ReturnReconcile(r);
    states := [INITIAL, State(map[r := 0], p, {}, false, Serving), s2,
               State(map[r := 1], p + [Poller(r, false)], {0}, false, Serving)];
  }

  lemma DrainedEmpty(s: State)
    requires s.active == map[]
    ensures Drained(s) == s.(mode := Draining({}))
  {
    assert (set r | r in s.active :: s.active[r]) == {};
  }

  lemma FirstReconcile(r: string)
    ensures Reconciled(INITIAL, [r]) == State(map[r := 0], [Poller(r, false)], {}, false, Serving)
  {
    StartOnly(INITIAL, r);
    assert Gone(StartAll(INITIAL, [r]), [r]) == {};
  }

  lemma DropReconcile(r: string)
    ensures Reconciled(State(map[r := 0], [Poller(r, false)], {}, false, Serving), [])
         == State(map[], [Poller(r, false)], {0}, false, Serving)
  {
    var s := State(map[r := 0], [Poller(r, false)], {}, false, Serving);
    assert Gone(s, []) == {r};
    assert s.active - {r} == map[];
    assert s.active[r] == 0;
  }

  lemma ReturnReconcile(r: string)
    ensures Reconciled(State(map[], [Poller(r, false)], {0}, false, Serving), [r])
         == State(map[r := 1], [Poller(r, false), Poller(r, false)], {0}, false, Serving)
  {
    var s := State(map[], [Poller(r, false)], {0}, false, Serving);
    StartOnly(s, r);
    assert Gone(StartAll(s, [r]), [r]) == {};
  }

  lemma StartOnly(s: State, r: string)
    ensures StartAll(s, [r]) == Start(s, r)
  {
    assert [r][..0] == [];
    assert StartAll(s, []) == s;
  }
}
