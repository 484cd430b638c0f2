/**
 * The watch supervisor as interleaved steps. Unlike the repository supervisor it removes an
 * entry as soon as it cancels it, so an old lifetime may outlive its entry.
 */
module WatchSteps {
  import opened Collections

  /** A polling goroutine; `closed` once its done channel is closed. */
  datatype Poller = Poller(repository: string, closed: bool)

  datatype Mode = Serving | Draining(waiting: set<nat>) | Finished | Failed

  /** Lifetimes are numbered in the order in which they start. */
  datatype State = State(
    active: map<string, nat>,
    pollers: seq<Poller>,
    cancelled: set<nat>,
    contextDone: bool,
    mode: Mode)

  // ----- Reconcile --------------------------------------------------------------------

  function Start(s: State, repository: string): State {
    if repository in s.active then s
    else s.(active := s.active[repository := |s.pollers|], pollers := s.pollers + [Poller(repository, false)])
  }

  function StartAll(s: State, watches: seq<string>): State {
    if watches == [] then s
    else Start(StartAll(s, watches[..|watches| - 1]), watches[|watches| - 1])
  }

  function Without(s: State, gone: set<string>): State {
    s.(active := s.active - gone, cancelled := s.cancelled + set r | r in s.active && r in gone :: s.active[r])
  }

  ghost function Gone(s: State, watches: seq<string>): set<string> { s.active.Keys - Elements(watches) }

  /** Present watches are started first; then every absent entry is cancelled and deleted. */
  ghost function Reconciled(s: State, watches: seq<string>): State {
    var started := StartAll(s, watches);
    Without(started, Gone(started, watches))
  }

  // ----- Steps ------------------------------------------------------------------------

  datatype Event =
    | Reconcile(watches: seq<string>)
    | ReconcileFails
    | ContextDone
    | Exit(id: nat)
    | BeginShutdown
    | FinishShutdown

  ghost predicate Running(s: State, id: nat) { id < |s.pollers| && !s.pollers[id].closed }

  /** The poller's context is done: its own cancel was called, or Run's context ended. */
  ghost predicate Cancelled(s: State, id: nat) { s.contextDone || id in s.cancelled }

  function Drained(s: State): State {
    var ids := set r | r in s.active :: s.active[r];
    s.(active := map[], cancelled := s.cancelled + ids, mode := Draining(ids))
  }

  ghost predicate Step(s: State, e: Event, t: State) {
    match e
    case Reconcile(watches) => s.mode.Serving? && t == Reconciled(s, watches)
    case ReconcileFails => s.mode.Serving? && t == s.(mode := Failed)
    case ContextDone => t == s.(contextDone := true)
    case Exit(id) =>
      Running(s, id) && Cancelled(s, id) && t == s.(pollers := s.pollers[id := s.pollers[id].(closed := true)])
    case BeginShutdown => s.mode.Serving? && s.contextDone && t == Drained(s)
    case FinishShutdown =>
      && s.mode.Draining? && (forall id :: id in s.mode.waiting ==> !Running(s, id))
      && t == s.(mode := Finished)
  }

  const INITIAL := State(map[], [], {}, false, Serving)

  ghost predicate Run(states: seq<State>, events: seq<Event>) {
    && |states| == |events| + 1
    && states[0] == INITIAL
    && forall i :: 0 <= i < |events| ==> Step(states[i], events[i], states[i + 1])
  }

  // ----- Invariant --------------------------------------------------------------------

  ghost predicate Registered(s: State, id: nat)
    requires id < |s.pollers|
  {
    s.pollers[id].repository in s.active && s.active[s.pollers[id].repository] == id
  }

  ghost predicate Inv(s: State) {
    && (forall r :: r in s.active ==>
          s.active[r] < |s.pollers| && s.pollers[s.active[r]].repository == r && s.active[r] !in s.cancelled)
    && (forall id :: id in s.cancelled ==> id < |s.pollers|)
    && (forall id :: 0 <= id < |s.pollers| && id !in s.cancelled ==> Registered(s, id))
    && (s.mode.Draining? || s.mode.Finished? ==> s.active == map[])
  }

  lemma StartKeeps(s: State, repository: string)
    requires Inv(s) && s.mode.Serving?
    ensures Inv(Start(s, repository)) && Start(s, repository).mode.Serving?
  {
    var t := Start(s, repository);
    forall id | 0 <= id < |t.pollers| && id !in t.cancelled ensures Registered(t, id) {
      if id < |s.pollers| { assert Registered(s, id); }
    }
  }

  lemma {:induction false} StartAllKeeps(s: State, watches: seq<string>)
    requires Inv(s) && s.mode.Serving?
    ensures Inv(StartAll(s, watches)) && StartAll(s, watches).mode.Serving?
  {
    if watches != [] {
      StartAllKeeps(s, watches[..|watches| - 1]);
      StartKeeps(StartAll(s, watches[..|watches| - 1]), watches[|watches| - 1]);
    }
  }

  /** What starting leaves alone, and which repositories it covers. */
  lemma {:induction false} StartAllMeans(s: State, watches: seq<string>)
    ensures StartAll(s, watches).active.Keys == s.active.Keys + Elements(watches)
    ensures forall r :: r in s.active ==> r in StartAll(s, watches).active && StartAll(s, watches).active[r] == s.active[r]
    ensures s.pollers <= StartAll(s, watches).pollers
    ensures StartAll(s, watches).cancelled == s.cancelled && StartAll(s, watches).contextDone == s.contextDone
    ensures StartAll(s, watches).mode == s.mode
  {
    if watches != [] {
      var init := watches[..|watches| - 1];
      StartAllMeans(s, init);
      assert watches == init + [watches[|watches| - 1]];
    }
  }

  lemma WithoutKeeps(s: State, gone: set<string>)
    requires Inv(s) && s.mode.Serving?
    ensures Inv(Without(s, gone))
  {
    var t := Without(s, gone);
    forall r | r in t.active ensures t.active[r] !in t.cancelled {}
    forall id | 0 <= id < |t.pollers| && id !in t.cancelled ensures Registered(t, id) {
      assert Registered(s, id);
    }
  }

  lemma StepKeeps(s: State, e: Event, t: State)
    requires Inv(s) && Step(s, e, t)
    ensures Inv(t)
  {
    match e
    case Reconcile(watches) =>
      StartAllKeeps(s, watches);
      WithoutKeeps(StartAll(s, watches), Gone(StartAll(s, watches), watches));
    case BeginShutdown =>
      forall id | 0 <= id < |t.pollers| ensures id in t.cancelled {
        if id !in s.cancelled { assert Registered(s, id); }
      }
    case _ =>
      forall id | 0 <= id < |t.pollers| && id !in t.cancelled ensures Registered(t, id) { assert Registered(s, id); }
  }

  lemma {:induction false} RunKeeps(states: seq<State>, events: seq<Event>, i: nat)
    requires Run(states, events) && i < |states|
    ensures Inv(states[i])
  {
    if i > 0 {
      RunKeeps(states, events, i - 1);
      StepKeeps(states[i - 1], events[i - 1], states[i]);
    }
  }
}
