/** The repository supervisor itself: its loops make exactly the steps of the state machine. */
module RepositorySupervision {
  import opened Collections
  import opened RepositorySteps

  // ----- Starting, one key at a time ------------------------------------------------------

  ghost predicate Started(s: State, desired: map<string, Config>, done: set<string>, t: State) {
    && done <= desired.Keys
    && t == s.(active := t.active, runners := t.runners)
    && t.active.Keys == s.active.Keys + done
    && (forall r :: r in s.active ==> t.active[r] == s.active[r])
    && (forall id :: id in s.runners ==> id in t.runners && t.runners[id] == s.runners[id])
    && (forall r :: r in done && r !in s.active ==> StartedFor(s, t, r, desired[r]))
    && (forall id :: id in t.runners && id !in s.runners ==>
          t.runners[id].repository in done && t.runners[id].repository !in s.active
          && t.active[t.runners[id].repository].id == id)
  }

  function WithRunner(s: State, config: Config, r: string, id: nat): State {
    if r in s.active then s
    else s.(active := s.active[r := Lifetime(id, config)], runners := s.runners[id := Runner(r, config, Executing)])
  }

  lemma StartOne(s: State, desired: map<string, Config>, done: set<string>, t: State, r: string, id: nat)
    requires Started(s, desired, done, t) && r in desired && r !in done
    requires id !in t.runners && id !in s.cancelled
    ensures Started(s, desired, done + {r}, WithRunner(t, desired[r], r, id))
  {
    var u := WithRunner(t, desired[r], r, id);
    assert r in t.active <==> r in s.active;
    forall q | q in done + {r} && q !in s.active ensures StartedFor(s, u, q, desired[q]) {
      if q != r { assert StartedFor(s, t, q, desired[q]); }
    }
  }

  // ----- The supervisor itself ----------------------------------------------------------

  class RepositorySupervisor {
    var active: map<string, Lifetime>
    var runners: map<nat, Runner>
    var cancelled: set<nat>
    var contextDone: bool
    var mode: Mode
    var nextId: nat

    function Now(): State
      reads this
    {
      State(active, runners, cancelled, contextDone, mode)
    }

    /** New done channels differ from all that were made before. */
    ghost predicate Valid()
      reads this
    {
      && (forall id :: id in runners ==> id < nextId)
      && (forall id :: id in cancelled ==> id < nextId)
      && (forall r :: r in active ==> active[r].id < nextId)
    }

    constructor ()
      ensures Valid() && Now() == INITIAL
    {
      active, runners, cancelled, contextDone, mode, nextId := map[], map[], {}, false, Serving, 0;
    }

    /** The reconcile closure; None stands for a store call that failed. */
    method Reconcile(admissions: Option<seq<Admission>>, configs: Option<seq<Config>>) returns (ok: bool)
      requires Valid() && mode.Serving?
      modifies this
      ensures Valid() && (ok <==> admissions.Some? && configs.Some?)
      ensures ok ==> Step(old(Now()), Event.Reconcile(admissions.value, configs.value), Now())
      ensures !ok ==> Step(old(Now()), ReconcileFails, Now())
    {
      if admissions.None? || configs.None? {
        mode := Failed;
        return false;
      }
      var eligible := CollectEligible(admissions.value);
      var desired := CollectDesired(eligible, configs.value);
      CancelUnwanted(desired);
      StartMissing(desired);
      return true;
    }

    /** The first loop of the closure, over the map in any order. */
    method CancelUnwanted(desired: map<string, Config>)
      requires Valid()
      modifies `cancelled
      ensures Valid() && cancelled == old(cancelled) + Unwanted(old(Now()), desired)
    {
      var pending := active.Keys;
      while pending != {}
        invariant pending <= active.Keys && Valid()
        invariant cancelled == old(cancelled) + set r | r in active && r !in pending && !Keeps(desired, r, active[r]) :: active[r].id
        decreases |pending|
      {
        var repository := Take(pending);
        if !(repository in desired && desired[repository] == active[repository].config) {
          cancelled := cancelled + {active[repository].id};
        }
        pending := pending - {repository};
      }
    }

    /** The second loop: a new lifetime and its goroutine for every key without an entry. */
    method StartMissing(desired: map<string, Config>)
      requires Valid()
      modifies `active, `runners, `nextId
      ensures Valid() && Started(old(Now()), desired, desired.Keys, Now())
    {
      ghost var start := Now();
      var pending := desired.Keys;
      while pending != {}
        invariant Valid() && pending <= desired.Keys
        invariant Started(start, desired, desired.Keys - pending, Now())
        decreases |pending|
      {
        var repository := Take(pending);
        StartOne(start, desired, desired.Keys - pending, Now(), repository, nextId);
        assert desired.Keys - pending + {repository} == desired.Keys - (pending - {repository});
        pending := pending - {repository};
        StartRunner(repository, desired[repository]);
      }
      assert desired.Keys - pending == desired.Keys;
    }

    method StartRunner(repository: string, config: Config)
      requires Valid()
      modifies `active, `runners, `nextId
      ensures Valid() && Now() == WithRunner(old(Now()), config, repository, old(nextId))
    {
      if repository in active {
        return;
      }
      active := active[repository := Lifetime(nextId, config)];
      runners := runners[nextId := Runner(repository, config, Executing)];
      nextId := nextId + 1;
    }

    /** The goroutine after Runner.Run: lock, delete its own entry, unlock. */
    method DeregisterRunner(id: nat)
      requires Valid() && id in runners && runners[id].stage == Returned
      modifies `active, `runners
      ensures Valid() && Step(old(Now()), Deregister(id), Now())
    {
      var repository := runners[id].repository;
      if repository in active && active[repository].id == id {
        active := active - {repository};
      }
      runners := runners[id := runners[id].(stage := Deregistered)];
    }

    /** The cancellation path up to the unlock. */
    method Shutdown()
      requires Valid() && mode.Serving? && contextDone
      modifies this
      ensures Valid() && Step(old(Now()), BeginShutdown, Now())
    {
      var lifetimes := CancelAll();
      active := map[];
      mode := Draining(lifetimes);
    }

    method CancelAll() returns (lifetimes: set<nat>)
      requires Valid()
      modifies `cancelled
      ensures Valid() && lifetimes == (set r | r in active :: active[r].id) && cancelled == old(cancelled) + lifetimes
    {
      lifetimes := {};
      var pending := active.Keys;
      while pending != {}
        invariant pending <= active.Keys && Valid()
        invariant lifetimes == set r | r in active && r !in pending :: active[r].id
        invariant cancelled == old(cancelled) + lifetimes
        decreases |pending|
      {
        var repository := Take(pending);
        cancelled := cancelled + {active[repository].id};
        lifetimes := lifetimes + {active[repository].id};
        pending := pending - {repository};
      }
    }
  }

  method CollectEligible(admissions: seq<Admission>) returns (eligible: map<string, bool>)
    ensures eligible == Eligible(admissions)
  {
    eligible := map[];
    for i := 0 to |admissions|
      invariant eligible == Eligible(admissions[..i])
    {
      assert admissions[..i + 1][..i] == admissions[..i];
      eligible := eligible[admissions[i].repository := admissions[i].eligible];
    }
    assert admissions[..|admissions|] == admissions;
  }

  method CollectDesired(eligible: map<string, bool>, configs: seq<Config>) returns (desired: map<string, Config>)
    ensures desired == Desired(eligible, configs)
  {
    desired := map[];
    for i := 0 to |configs|
      invariant desired == Desired(eligible, configs[..i])
    {
      assert configs[..i + 1][..i] == configs[..i];
      if configs[i].repository in eligible && eligible[configs[i].repository] && configs[i].ready {
        desired := desired[configs[i].repository := configs[i]];
      }
    }
    assert configs[..|configs|] == configs;
  }
}
