/** One repository's watch: polling past a cursor, with failures and idempotent intake. */
module WatchPoll {
  import opened Collections

  datatype Issue = Issue(id: int, number: int, title: string, body: string, state: string)

  type Receipts = map<int, Issue>

  /** The first receipt of an id stays; intake never overwrites it. */
  function Accepted(receipts: Receipts, issue: Issue): Receipts {
    if issue.id in receipts then receipts else receipts[issue.id := issue]
  }

  /** What survives a poll: the recorded cursor and the receipts. */
  datatype Durable = Durable(cursor: int, receipts: Receipts)

  function Max(a: int, b: int): int { if a < b then b else a }

  /**
   * The durable side: the recorded cursor of the watch and the receipts of the intake.
   * Every call may fail, and a failing call may still have taken effect.
   */
  class Backend {
    var cursor: int
    var receipts: Receipts
    ghost var acknowledged: seq<int>

    function Now(): Durable
      reads this
    {
      Durable(cursor, receipts)
    }

    /** AcceptIssue: idempotent on repository and immutable issue id. */
    method AcceptIssue(issue: Issue, recorded: bool, reported: bool) returns (ok: bool)
      modifies `receipts, `acknowledged
      ensures ok <==> recorded && reported
      ensures receipts == if recorded then Accepted(old(receipts), issue) else old(receipts)
      ensures acknowledged == if ok then old(acknowledged) + [issue.id] else old(acknowledged)
    {
      if recorded {
        receipts := Accepted(receipts, issue);
      }
      ok := recorded && reported;
      if ok {
        acknowledged := acknowledged + [issue.id];
      }
    }

    /** RecordRepositoryWatchPoll: the recorded cursor never moves back. */
    method RecordPoll(newCursor: int, recorded: bool, reported: bool) returns (ok: bool)
      modifies `cursor
      ensures ok <==> newCursor >= 0 && recorded && reported
      ensures cursor == if newCursor >= 0 && recorded then Max(old(cursor), newCursor) else old(cursor)
    {
      if newCursor < 0 {
        return false;
      }
      if recorded {
        cursor := Max(cursor, newCursor);
      }
      return recorded && reported;
    }
  }

  /** What the world does to one poll: the answer of the observer and the fate of each call. */
  datatype Fate = Fate(recorded: bool, reported: bool)
  datatype World = World(observed: Option<seq<Issue>>, intake: int -> Fate, record: Fate)

  /** One observed issue for every observed id, whichever when an id is listed more than once. */
  ghost predicate Holds(issues: seq<Issue>, observed: Receipts) {
    && (forall i :: i in issues ==> i.id in observed)
    && (forall id :: id in observed ==> observed[id] in issues && observed[id].id == id)
  }

  /** No issue before it has the same id. */
  ghost predicate IsFirst(issues: seq<Issue>, k: int)
    requires 0 <= k < |issues|
  {
    forall j :: 0 <= j < k ==> issues[j].id != issues[k].id
  }

  /** The first issue with each id. */
  function Firsts(issues: seq<Issue>): Receipts {
    if issues == [] then map[] else Accepted(Firsts(issues[..|issues| - 1]), issues[|issues| - 1])
  }

  lemma {:induction false} FirstsAreListed(issues: seq<Issue>)
    ensures Holds(issues, Firsts(issues))
  {
    if issues != [] {
      var init, last := issues[..|issues| - 1], issues[|issues| - 1];
      FirstsAreListed(init);
      forall i | i in issues ensures i.id in Firsts(issues) { assert i in init || i == last; }
    }
  }

  lemma {:induction false} FirstIsTaken(issues: seq<Issue>, k: nat)
    requires k < |issues| && IsFirst(issues, k)
    ensures issues[k].id in Firsts(issues) && Firsts(issues)[issues[k].id] == issues[k]
  {
    var init := issues[..|issues| - 1];
    if k < |init| {
      FirstIsTaken(init, k);
    } else {
      FirstsAreListed(init);
      assert forall i :: i in init ==> i.id != issues[k].id;
    }
  }

  /** The receipts after the observed ids above `low` and up to `high` were taken in. */
  function TakenIn(receipts: Receipts, observed: Receipts, low: int, high: int): Receipts {
    (map id | id in observed && low < id <= high :: observed[id]) + receipts
  }

  ghost predicate AllUpTo(observed: Receipts, high: int) { forall id :: id in observed ==> id <= high }

  ghost predicate Ascending(ids: seq<int>) { forall i, j :: 0 <= i < j < |ids| ==> ids[i] < ids[j] }

  /** `ids` lists exactly the observed ids above `low` and up to `high`, ascending. */
  ghost predicate Lists(ids: seq<int>, observed: Receipts, low: int, high: int) {
    Ascending(ids) && forall id :: id in ids <==> id in observed && low < id <= high
  }

  /** `reach` is the last observed id above `low`, or `low` when there is none above it. */
  ghost predicate Covers(observed: Receipts, low: int, reach: int) {
    reach >= low && AllUpTo(observed, reach) && (reach == low || reach in observed)
  }

  /** What one poll did to the durable side; `reach` is the last id its intake recorded. */
  ghost predicate PollStep(observed: Receipts, low: int, before: Durable, after: Durable, reach: int, ok: bool) {
    && reach >= low && (reach == low || reach in observed)
    && after.receipts == TakenIn(before.receipts, observed, low, reach)
    && if after.cursor == before.cursor && !ok then true
       else Covers(observed, low, reach) && after.cursor == Max(before.cursor, reach)
  }

  // ----- A poll in plain words --------------------------------------------------------------

  /** The observer lists an issue with this id, above the cursor. */
  ghost predicate New(w: World, low: int, id: int) {
    w.observed.Some? && low < id && exists i :: i in w.observed.value && i.id == id
  }

  /** The id is a real one, and its intake is recorded and says so. */
  predicate Passes(w: World, id: int) { id > 0 && w.intake(id).recorded && w.intake(id).reported }

  /** A new id that the intake gets to: every smaller one passed. */
  ghost predicate Reached(w: World, low: int, id: int) {
    New(w, low, id) && forall e :: New(w, low, e) && e < id ==> Passes(w, e)
  }

  ghost predicate AllPass(w: World, low: int) { forall id :: New(w, low, id) ==> Passes(w, id) }

  /**
   * When a poll succeeds, which ids it acknowledges, which receipts and which cursor it leaves:
   * it stops at the first new id that does not pass, and what was recorded before stays as it was.
   */
  ghost predicate Tells(w: World, low: int, before: Durable, after: Durable, ids: seq<int>, ok: bool) {
    && (ok <==>
          && w.observed.Some? && AllPass(w, low) && w.record.recorded && w.record.reported
          && (low >= 0 || exists id :: New(w, low, id)))
    && (forall id :: id in ids <==> Reached(w, low, id) && Passes(w, id))
    && (forall id :: id in after.receipts <==>
          id in before.receipts || (Reached(w, low, id) && id > 0 && w.intake(id).recorded))
    && (forall id :: id in before.receipts ==> id in after.receipts && after.receipts[id] == before.receipts[id])
    && (forall id :: id in after.receipts && id !in before.receipts ==>
          after.receipts[id].id == id && after.receipts[id] in w.observed.value)
    && (after.cursor != before.cursor ==>
          && AllPass(w, low) && w.record.recorded && after.cursor > before.cursor
          && (New(w, low, after.cursor) || after.cursor == low >= 0))
    && (w.observed.Some? && AllPass(w, low) && w.record.recorded ==>
          forall id :: New(w, low, id) || id == low >= 0 ==> id <= after.cursor)
  }

  /** How far the loop came, by the observed ids. */
  ghost predicate Came(w: World, observed: Receipts, low: int, cursor: int, reach: int, done: bool) {
    && low <= cursor && (cursor == low || cursor in observed)
    && (forall id :: id in observed && low < id <= cursor ==> Passes(w, id))
    && if done then reach == cursor && AllUpTo(observed, cursor)
       else exists stop :: StopsAt(w, observed, cursor, reach, stop)
  }

  /** The first observed id above the cursor does not pass; its receipt may be there all the same. */
  ghost predicate StopsAt(w: World, observed: Receipts, cursor: int, reach: int, stop: int) {
    && (forall id :: id in observed && cursor < id <= stop <==> id == stop) && !Passes(w, stop)
    && reach == if stop > 0 && w.intake(stop).recorded then stop else cursor
  }

  lemma NewMeans(w: World, observed: Receipts, low: int, id: int)
    requires w.observed.Some? && Holds(w.observed.value, observed)
    ensures New(w, low, id) <==> id in observed && low < id
  {}

  /** What the loop came to decides which new ids are reached and pass. */
  lemma CameTells(w: World, observed: Receipts, low: int, cursor: int, reach: int, done: bool, id: int)
    requires w.observed.Some? && Holds(w.observed.value, observed) && Came(w, observed, low, cursor, reach, done)
    ensures Reached(w, low, id) && Passes(w, id) <==> id in observed && low < id <= cursor
    ensures Reached(w, low, id) && id > 0 && w.intake(id).recorded <==> id in observed && low < id <= reach
    ensures done <==> AllPass(w, low)
  {
    forall e ensures New(w, low, e) <==> e in observed && low < e { NewMeans(w, observed, low, e); }
    if done {
      assert Reached(w, low, id) <==> New(w, low, id);
    } else {
      var stop :| StopsAt(w, observed, cursor, reach, stop);
      assert stop in observed && New(w, low, stop);
      assert Reached(w, low, id) && id > stop ==> Passes(w, stop);
      assert New(w, low, id) && id <= stop ==> Reached(w, low, id);
    }
  }

  lemma CameTellsAll(w: World, observed: Receipts, low: int, cursor: int, reach: int, done: bool,
                     before: Durable, after: Durable, ids: seq<int>, ok: bool)
    requires w.observed.Some? && Holds(w.observed.value, observed) && Came(w, observed, low, cursor, reach, done)
    requires Lists(ids, observed, low, cursor) && after.receipts == TakenIn(before.receipts, observed, low, reach)
    requires ok <==> done && cursor >= 0 && w.record.recorded && w.record.reported
    requires after.cursor == if done && cursor >= 0 && w.record.recorded then Max(before.cursor, cursor) else before.cursor
    ensures Tells(w, low, before, after, ids, ok)
  {
    forall id
      ensures Reached(w, low, id) && Passes(w, id) <==> id in observed && low < id <= cursor
      ensures Reached(w, low, id) && id > 0 && w.intake(id).recorded <==> id in observed && low < id <= reach
      ensures New(w, low, id) <==> id in observed && low < id
      ensures done <==> AllPass(w, low)
    {
      CameTells(w, observed, low, cursor, reach, done, id);
      NewMeans(w, observed, low, id);
    }
  }

  /** poll: sort, hand over every id above the cursor in order, then record the last one. */
  method Poll(b: Backend, watchCursor: int, w: World)
    returns (ok: bool, ghost reach: int, ghost ids: seq<int>, ghost observed: Receipts)
    modifies b
    ensures w.observed.Some? ==> Holds(w.observed.value, observed)
    ensures w.observed.None? ==> !ok && b.Now() == old(b.Now()) && b.acknowledged == old(b.acknowledged)
    ensures w.observed.Some? ==> PollStep(observed, watchCursor, old(b.Now()), b.Now(), reach, ok)
    ensures w.observed.Some? ==> b.acknowledged == old(b.acknowledged) + ids
    ensures w.observed.Some? ==> Ascending(ids) && (ok ==> Lists(ids, observed, watchCursor, reach) && AllUpTo(observed, reach))
    ensures w.observed.Some? ==> forall id :: id in ids ==> id in observed && watchCursor < id <= reach
    ensures Tells(w, watchCursor, old(b.Now()), b.Now(), ids, ok)
  {
    ids, reach, observed := [], watchCursor, map[];
    if w.observed.None? {
      return false, reach, ids, observed;
    }
    var issues := SortSlice(w.observed.value, (a: Issue, b: Issue) => a.id < b.id);
    observed := Firsts(issues);
    var done, cursor;
    done, cursor, reach, ids := HandOver(b, watchCursor, issues, w, observed);
    ObservedHolds(w.observed.value, issues, observed);
    if !done {
      CameTellsAll(w, observed, watchCursor, cursor, reach, done, old(b.Now()), b.Now(), ids, false);
      return false, reach, ids, observed;
    }
    ok := b.RecordPoll(cursor, w.record.recorded, w.record.reported);
    CameTellsAll(w, observed, watchCursor, cursor, reach, done, old(b.Now()), b.Now(), ids, ok);
  }

  lemma ObservedHolds(listed: seq<Issue>, issues: seq<Issue>, observed: Receipts)
    requires Permutes(issues, listed) && observed == Firsts(issues)
    ensures Holds(listed, observed)
  {
    FirstsAreListed(issues);
    forall i ensures i in issues <==> i in listed { PermutesMembers(issues, listed, i); }
  }

  /** The loop of poll over the sorted issues. */
  method HandOver(b: Backend, watchCursor: int, issues: seq<Issue>, w: World, ghost observed: Receipts)
    returns (done: bool, cursor: int, ghost reach: int, ghost ids: seq<int>)
    requires observed == Firsts(issues) && Sorted((a: Issue, b: Issue) => a.id < b.id, issues)
    modifies b`receipts, b`acknowledged
    ensures watchCursor <= cursor <= reach && (reach == watchCursor || reach in observed)
    ensures b.receipts == TakenIn(old(b.receipts), observed, watchCursor, reach)
    ensures Lists(ids, observed, watchCursor, cursor) && b.acknowledged == old(b.acknowledged) + ids
    ensures done ==> cursor == reach && Covers(observed, watchCursor, reach)
    ensures Came(w, observed, watchCursor, cursor, reach, done)
  {
    cursor, ids, reach := watchCursor, [], watchCursor;
    for k := 0 to |issues|
      invariant cursor == reach >= watchCursor && (cursor == watchCursor || cursor in observed)
      invariant forall j :: 0 <= j < k ==> issues[j].id <= cursor
      invariant b.receipts == TakenIn(old(b.receipts), observed, watchCursor, cursor)
      invariant Lists(ids, observed, watchCursor, cursor) && b.acknowledged == old(b.acknowledged) + ids
      invariant forall id :: id in observed && watchCursor < id <= cursor ==> Passes(w, id)
    {
      var issue := issues[k];
      assert issue in issues;
      if issue.id <= cursor {
        continue;
      }
      NextOnly(issues, observed, cursor, k);
      if issue.id <= 0 {
        assert StopsAt(w, observed, cursor, cursor, issue.id);
        return false, cursor, cursor, ids;
      }
      TakesNext(issues, observed, old(b.receipts), ids, watchCursor, cursor, k);
      var fate := w.intake(issue.id);
      var accepted := b.AcceptIssue(issue, fate.recorded, fate.reported);
      if !accepted {
        assert StopsAt(w, observed, cursor, if fate.recorded then issue.id else cursor, issue.id);
        return false, cursor, if fate.recorded then issue.id else cursor, ids;
      }
      ids, cursor, reach := ids + [issue.id], issue.id, issue.id;
    }
    AllReached(issues, observed, cursor);
    return true, cursor, cursor, ids;
  }

  lemma AllReached(issues: seq<Issue>, observed: Receipts, cursor: int)
    requires observed == Firsts(issues) && forall j :: 0 <= j < |issues| ==> issues[j].id <= cursor
    ensures AllUpTo(observed, cursor)
  {
    FirstsAreListed(issues);
    forall id | id in observed ensures id <= cursor { assert observed[id] in issues; }
  }

  /** What accepting the next sorted issue above the cursor does. */
  lemma TakesNext(issues: seq<Issue>, observed: Receipts, receipts: Receipts, ids: seq<int>, low: int, cursor: int, k: nat)
    requires observed == Firsts(issues) && k < |issues| && low <= cursor < issues[k].id
    requires Sorted((a: Issue, b: Issue) => a.id < b.id, issues)
    requires forall j :: 0 <= j < k ==> issues[j].id <= cursor
    requires Lists(ids, observed, low, cursor)
    ensures issues[k].id in observed && Lists(ids + [issues[k].id], observed, low, issues[k].id)
    ensures TakenIn(receipts, observed, low, issues[k].id) == Accepted(TakenIn(receipts, observed, low, cursor), issues[k])
  {
    NextOnly(issues, observed, cursor, k);
    NextTaken(issues[k], observed, receipts, low, cursor);
    NextListed(ids, observed, low, cursor, issues[k].id);
  }

  /** Between the cursor and the next sorted issue there is no other observed id. */
  lemma NextOnly(issues: seq<Issue>, observed: Receipts, cursor: int, k: nat)
    requires observed == Firsts(issues) && k < |issues|
    requires Sorted((a: Issue, b: Issue) => a.id < b.id, issues)
    requires forall j :: 0 <= j < k ==> issues[j].id <= cursor
    requires cursor < issues[k].id
    ensures forall id :: id in observed && cursor < id <= issues[k].id <==> id == issues[k].id
    ensures issues[k].id in observed && observed[issues[k].id] == issues[k]
  {
    FirstsAreListed(issues);
    assert IsFirst(issues, k);
    FirstIsTaken(issues, k);
    forall id | id in observed && cursor < id <= issues[k].id ensures id == issues[k].id {
      var j :| 0 <= j < |issues| && issues[j] == observed[id];
      SortedAt(issues, k, j);
    }
  }

  lemma SortedAt(issues: seq<Issue>, k: nat, j: nat)
    requires Sorted((a: Issue, b: Issue) => a.id < b.id, issues) && k < |issues| && j < |issues|
    ensures k <= j ==> issues[k].id <= issues[j].id
  {
    assert k < j ==> !((a: Issue, b: Issue) => a.id < b.id)(issues[j], issues[k]);
  }

  lemma NextTaken(issue: Issue, observed: Receipts, receipts: Receipts, low: int, cursor: int)
    requires issue.id in observed && observed[issue.id] == issue && low <= cursor
    requires forall id :: id in observed && cursor < id <= issue.id <==> id == issue.id
    ensures TakenIn(receipts, observed, low, issue.id) == Accepted(TakenIn(receipts, observed, low, cursor), issue)
  {
    var after, before := TakenIn(receipts, observed, low, issue.id), TakenIn(receipts, observed, low, cursor);
    assert after.Keys == before.Keys + {issue.id};
  }

  lemma NextListed(ids: seq<int>, observed: Receipts, low: int, cursor: int, next: int)
    requires Lists(ids, observed, low, cursor) && low <= cursor < next
    requires forall id :: id in observed && cursor < id <= next <==> id == next
    ensures Lists(ids + [next], observed, low, next)
  {
    var more := ids + [next];
    forall i, j | 0 <= i < j < |more| ensures more[i] < more[j] {
      assert more[i] in ids;
    }
  }

  // ----- Retries ------------------------------------------------------------------------

  /** One poll of a run; `seen` is None when the observer itself failed. */
  datatype Attempt = Attempt(seen: Option<Receipts>, reach: int, ok: bool)

  /** Each attempt starts from the recorded cursor, as the ticker loop re-reads it. */
  ghost predicate AttemptStep(a: Attempt, before: Durable, after: Durable) {
    if a.seen.None? then !a.ok && after == before
    else PollStep(a.seen.value, before.cursor, before, after, a.reach, a.ok)
  }

  /** An earlier look at the same repository: issue ids only grow. */
  ghost predicate EarlierIds(seen: Receipts, all: Receipts) {
    seen.Keys <= all.Keys && forall id, later :: id in all && later in seen && id <= later ==> id in seen
  }

  /** And no issue was edited in between. */
  ghost predicate Earlier(seen: Receipts, all: Receipts) {
    EarlierIds(seen, all) && forall id :: id in seen ==> all[id] == seen[id]
  }

  ghost predicate Attempts(attempts: seq<Attempt>, states: seq<Durable>, all: Receipts) {
    && AttemptSteps(attempts, states)
    && (forall i :: 0 <= i < |attempts| ==> attempts[i].seen.Some? ==> Earlier(attempts[i].seen.value, all))
  }

  ghost predicate AttemptSteps(attempts: seq<Attempt>, states: seq<Durable>) {
    && |states| == |attempts| + 1
    && forall i :: 0 <= i < |attempts| ==> AttemptStep(attempts[i], states[i], states[i + 1])
  }

  /** Nothing between the first cursor and the current one is missing from the receipts. */
  ghost predicate OnTrack(start: Durable, now: Durable, all: Receipts) {
    && now.cursor >= start.cursor && (now.cursor == start.cursor || now.cursor in all)
    && exists high :: high >= now.cursor && now.receipts == TakenIn(start.receipts, all, start.cursor, high)
  }

  lemma TakenTwice(receipts: Receipts, seen: Receipts, all: Receipts, low: int, high: int, cursor: int, reach: int)
    requires Earlier(seen, all) && low <= cursor <= high && cursor <= reach
    requires reach == cursor || reach in seen
    ensures TakenIn(TakenIn(receipts, all, low, high), seen, cursor, reach) == TakenIn(receipts, all, low, Max(high, reach))
  {
    var a, b := TakenIn(TakenIn(receipts, all, low, high), seen, cursor, reach), TakenIn(receipts, all, low, Max(high, reach));
    forall id ensures id in a <==> id in b {}
    forall id | id in a ensures a[id] == b[id] {}
  }

  lemma KeepsOnTrack(start: Durable, before: Durable, after: Durable, all: Receipts, a: Attempt)
    requires OnTrack(start, before, all) && AttemptStep(a, before, after)
    requires a.seen.Some? ==> Earlier(a.seen.value, all)
    ensures OnTrack(start, after, all)
  {
    if a.seen.Some? {
      var high :| high >= before.cursor && before.receipts == TakenIn(start.receipts, all, start.cursor, high);
      TakenTwice(start.receipts, a.seen.value, all, start.cursor, high, before.cursor, a.reach);
      assert after.receipts == TakenIn(start.receipts, all, start.cursor, Max(high, a.reach));
    }
  }

  lemma {:induction false} StaysOnTrack(attempts: seq<Attempt>, states: seq<Durable>, all: Receipts, i: nat)
    requires Attempts(attempts, states, all) && i < |states|
    ensures OnTrack(states[0], states[i], all)
  {
    if i == 0 {
      var s := states[0];
      assert TakenIn(s.receipts, all, s.cursor, s.cursor) == s.receipts;
    } else {
      StaysOnTrack(attempts, states, all, i - 1);
      KeepsOnTrack(states[0], states[i - 1], states[i], all, attempts[i - 1]);
    }
  }

  lemma TakenAll(receipts: Receipts, all: Receipts, low: int, high: int, reach: int)
    requires AllUpTo(all, reach)
    ensures TakenIn(receipts, all, low, Max(high, reach)) == TakenIn(receipts, all, low, reach)
  {
    var a, b := TakenIn(receipts, all, low, Max(high, reach)), TakenIn(receipts, all, low, reach);
    forall id ensures id in a <==> id in b {}
    forall id | id in a ensures a[id] == b[id] {}
  }

  lemma SuccessIsComplete(start: Durable, before: Durable, after: Durable, all: Receipts, reach: int)
    requires OnTrack(start, before, all)
    requires PollStep(all, before.cursor, before, after, reach, true)
    ensures Covers(all, start.cursor, reach) && after == Durable(reach, TakenIn(start.receipts, all, start.cursor, reach))
  {
    var high :| high >= before.cursor && before.receipts == TakenIn(start.receipts, all, start.cursor, high);
    TakenTwice(start.receipts, all, all, start.cursor, high, before.cursor, reach);
    TakenAll(start.receipts, all, start.cursor, high, reach);
  }

  /**
   * Retries change nothing: after any run of attempts, however their calls failed or took
   * effect unreported, a success ends where one failure-free poll would have ended, as long as
   * no issue was edited between the attempts: intake keeps what it saw first.
   */
  lemma SteadyRetriesConverge(attempts: seq<Attempt>, states: seq<Durable>, all: Receipts, alone: Durable, reach: int)
    requires Attempts(attempts, states, all) && attempts != []
    requires attempts[|attempts| - 1].ok && attempts[|attempts| - 1].seen == Some(all)
    requires PollStep(all, states[0].cursor, states[0], alone, reach, true)
    ensures states[|attempts|] == alone
  {
    var n := |attempts| - 1;
    StaysOnTrack(attempts, states, all, n);
    assert AttemptStep(attempts[n], states[n], states[n + 1]);
    SuccessIsComplete(states[0], states[n], states[n + 1], all, attempts[n].reach);
    assert Covers(all, states[0].cursor, reach);
  }

  // ----- Issues may be edited --------------------------------------------------------------

  /** Everything but the id forgotten. */
  function Bare(receipts: Receipts): (r: Receipts)
    ensures r.Keys == receipts.Keys
  {
    map id | id in receipts :: Issue(id, 0, "", "", "")
  }

  function BareDurable(d: Durable): Durable { Durable(d.cursor, Bare(d.receipts)) }

  function BareAttempt(a: Attempt): Attempt { a.(seen := if a.seen.Some? then Some(Bare(a.seen.value)) else None) }

  lemma BareTaken(receipts: Receipts, observed: Receipts, low: int, high: int)
    ensures Bare(TakenIn(receipts, observed, low, high)) == TakenIn(Bare(receipts), Bare(observed), low, high)
  {
    var a, b := Bare(TakenIn(receipts, observed, low, high)), TakenIn(Bare(receipts), Bare(observed), low, high);
    forall id ensures id in a <==> id in b {}
    forall id | id in a ensures a[id] == b[id] {}
  }

  /** A poll does not look at what it forgets. */
  lemma BarePoll(observed: Receipts, low: int, before: Durable, after: Durable, reach: int, ok: bool)
    requires PollStep(observed, low, before, after, reach, ok)
    ensures PollStep(Bare(observed), low, BareDurable(before), BareDurable(after), reach, ok)
  {
    BareTaken(before.receipts, observed, low, reach);
    assert AllUpTo(observed, reach) ==> AllUpTo(Bare(observed), reach);
  }

  /** Edited or not, the same ids are accepted, and the cursor ends at the same place. */
  lemma RetriesConverge(attempts: seq<Attempt>, states: seq<Durable>, all: Receipts, alone: Durable, reach: int)
    requires AttemptSteps(attempts, states) && attempts != []
    requires forall i :: 0 <= i < |attempts| && attempts[i].seen.Some? ==> EarlierIds(attempts[i].seen.value, all)
    requires attempts[|attempts| - 1].ok && attempts[|attempts| - 1].seen == Some(all)
    requires PollStep(all, states[0].cursor, states[0], alone, reach, true)
    ensures states[|attempts|].cursor == alone.cursor && states[|attempts|].receipts.Keys == alone.receipts.Keys
    ensures (forall i :: 0 <= i < |attempts| && attempts[i].seen.Some? ==> Earlier(attempts[i].seen.value, all)) ==>
      states[|attempts|] == alone
  {
    var bare := seq(|attempts|, i requires 0 <= i < |attempts| => BareAttempt(attempts[i]));
    var durable := seq(|states|, i requires 0 <= i < |states| => BareDurable(states[i]));
    forall i | 0 <= i < |bare| ensures AttemptStep(bare[i], durable[i], durable[i + 1]) {
      assert AttemptStep(attempts[i], states[i], states[i + 1]);
      if attempts[i].seen.Some? {
        BarePoll(attempts[i].seen.value, states[i].cursor, states[i], states[i + 1], attempts[i].reach, attempts[i].ok);
      }
    }
    forall i | 0 <= i < |bare| && bare[i].seen.Some? ensures Earlier(bare[i].seen.value, Bare(all)) {
      assert EarlierIds(attempts[i].seen.value, all);
    }
    BarePoll(all, states[0].cursor, states[0], alone, reach, true);
    SteadyRetriesConverge(bare, durable, Bare(all), BareDurable(alone), reach);
    assert durable[|attempts|] == BareDurable(states[|attempts|]);
    if forall i :: 0 <= i < |attempts| && attempts[i].seen.Some? ==> Earlier(attempts[i].seen.value, all) {
      SteadyRetriesConverge(attempts, states, all, alone, reach);
    }
  }
}
