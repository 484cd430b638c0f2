/** The watch supervisor itself: its loops make exactly the steps of the state machine. */
module WatchSupervision {
  import opened Collections
  import opened WatchSteps

  // ----- Dropping, one key at a time ----------------------------------------------------

  function DroppedFrom(s: State, r: string): State
    requires r in s.active
  {
    s.(active := s.active - {r}, cancelled := s.cancelled + {s.active[r]})
  }

  /** The cancel loop half way, with `pending` still to visit. */
  ghost predicate Dropping(s: State, watches: seq<string>, pending: set<string>, t: State) {
    pending <= t.active.Keys && t == Without(s, s.active.Keys - pending - Elements(watches))
  }

  lemma DropNone(s: State, watches: seq<string>)
    ensures Dropping(s, watches, s.active.Keys, s)
  {
    var gone := s.active.Keys - s.active.Keys - Elements(watches);
    assert gone == {};
    assert Without(s, gone).cancelled == s.cancelled;
    assert Without(s, gone).active == s.active;
  }

  lemma DropOne(s: State, watches: seq<string>, pending: set<string>, t: State, r: string)
    requires Dropping(s, watches, pending, t) && r in pending
    ensures Dropping(s, watches, pending - {r}, if r in watches then t else DroppedFrom(t, r))
  {
    var gone := s.active.Keys - pending - Elements(watches);
    var after := s.active.Keys - (pending - {r}) - Elements(watches);
    if r in watches {
      assert after == gone;
    } else {
      assert after == gone + {r};
      assert Without(s, gone + {r}) == DroppedFrom(Without(s, gone), r);
    }
  }

  lemma DropsAll(s: State, watches: seq<string>, t: State)
    requires Dropping(s, watches, {}, t)
    ensures t == Without(s, Gone(s, watches))
  {
    assert s.active.Keys - {} - Elements(watches) == Gone(s, watches);
  }

  // ----- The supervisor itself ----------------------------------------------------------

  class WatchSupervisor {
    var active: map<string, nat>
    var pollers: seq<Poller>
    var cancelled: set<nat>
    var contextDone: bool
    var mode: Mode

    function Now(): State
      reads this
    {
      State(active, pollers, cancelled, contextDone, mode)
    }

    constructor ()
      ensures Now() == INITIAL
    {
      active, pollers, cancelled, contextDone, mode := map[], [], {}, false, Serving;
    }

    /** The start closure: nothing when the repository already has an entry. */
    method StartWatch(repository: string)
      modifies `active, `pollers
      ensures Now() == Start(old(Now()), repository)
    {
      if repository in active {
        return;
      }
      active := active[repository := |pollers|];
      pollers := pollers + [Poller(repository, false)];
    }

    /** The reconcile closure; None stands for a store call that failed. */
    method Reconcile(watches: Option<seq<string>>) returns (ok: bool)
      requires mode.Serving?
      modifies this
      ensures ok <==> watches.Some?
      ensures Step(old(Now()), if ok then Event.Reconcile(watches.value) else ReconcileFails, Now())
    {
      if watches.None? {
        mode := Failed;
        return false;
      }
      StartPresent(watches.value);
      DropAbsent(watches.value);
      return true;
    }

    method StartPresent(watches: seq<string>)
      modifies `active, `pollers
      ensures Now() == StartAll(old(Now()), watches)
    {
      for i := 0 to |watches|
        invariant Now() == StartAll(old(Now()), watches[..i])
      {
        assert watches[..i + 1][..i] == watches[..i];
        StartWatch(watches[i]);
      }
      assert watches[..|watches|] == watches;
    }

    method DropAbsent(watches: seq<string>)
      modifies `active, `cancelled
      ensures Now() == Without(old(Now()), Gone(old(Now()), watches))
    {
      ghost var start := Now();
      var pending := active.Keys;
      DropNone(start, watches);
      while pending != {}
        invariant Dropping(start, watches, pending, Now())
        decreases |pending|
      {
        var repository := Take(pending);
        DropOne(start, watches, pending, Now(), repository);
        pending := pending - {repository};
        if repository !in watches {
          DropEntry(repository);
        }
      }
      DropsAll(start, watches, Now());
    }

    method DropEntry(repository: string)
      requires repository in active
      modifies `active, `cancelled
      ensures Now() == DroppedFrom(old(Now()), repository)
    {
      cancelled := cancelled + {active[repository]};
      active := active - {repository};
    }

    /** The cancellation path up to the unlock. */
    method Shutdown()
      requires mode.Serving? && contextDone
      modifies this
      ensures Step(old(Now()), BeginShutdown, Now())
    {
      var lifetimes := CancelAll();
      active := map[];
      mode := Draining(lifetimes);
    }

    method CancelAll() returns (lifetimes: set<nat>)
      modifies `cancelled
      ensures lifetimes == (set r | r in active :: active[r]) && cancelled == old(cancelled) + lifetimes
    {
      lifetimes := {};
      var pending := active.Keys;
      while pending != {}
        invariant pending <= active.Keys
        invariant lifetimes == set r | r in active && r !in pending :: active[r]
        invariant cancelled == old(cancelled) + lifetimes
        decreases |pending|
      {
        var repository := Take(pending);
        cancelled := cancelled + {active[repository]};
        lifetimes := lifetimes + {active[repository]};
        pending := pending - {repository};
      }
    }
  }
}
