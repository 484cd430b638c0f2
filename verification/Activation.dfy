/** projectionFor: the projection of an admitted snapshot, and why its rendering is unique. */
module Activation {
  import opened Collections
  import PM = PlanModel
  import opened Projections

  /** The table entry of one child: its identity and the numbers of its blockers. */
  function Entry(s: PM.Snapshot, child: PM.Issue): Ticket {
    Ticket(child.number, child.title, "", "", "", "", 0, 0, "", "", "",
           if child.id in s.blockedBy then PM.Numbers(s.blockedBy[child.id]) else [])
  }

  /** What projectionFor returns: every child's entry once, in whatever order a map walk gives. */
  ghost predicate IsProjectionOf(s: PM.Snapshot, versionId: string, state: string, p: Projection) {
    && p == Projection(versionId, state, "", p.tickets, [])
    && Permutes(p.tickets, Mapped((c: PM.Issue) => Entry(s, c), s.children))
  }

  method ProjectionFor(s: PM.Snapshot, versionId: string, state: string) returns (r: Option<Projection>)
    requires forall c :: c in s.children ==> c.IsTicket()
    requires Distinct(PM.Ids(s.children))
    ensures r.Some? <==> forall blocked :: blocked in s.blockedBy ==> blocked in PM.Ids(s.children)
    ensures r.Some? ==> IsProjectionOf(s, versionId, state, r.value)
  {
    var ids := PM.Ids(s.children);
    var bare := BareTickets(s.children);
    var tickets := WithBlockers(s, bare);
    if tickets.None? {
      return None;
    }
    var ordered, order := Values(tickets.value);
    ValuesPermute(tickets.value, ordered, order, ids, Mapped((c: PM.Issue) => Entry(s, c), s.children));
    r := Some(Projection(versionId, state, "", ordered, []));
  }

  /** The walk over the blocker map, in any order; a blocked issue without an entry is refused. */
  method WithBlockers(s: PM.Snapshot, bare: map<int, Ticket>) returns (r: Option<map<int, Ticket>>)
    requires Distinct(PM.Ids(s.children))
    requires forall id :: id in bare <==> id in PM.Ids(s.children)
    requires forall k :: 0 <= k < |s.children| ==> PM.Ids(s.children)[k] in bare && bare[PM.Ids(s.children)[k]] == Bare(s.children[k])
    ensures r.Some? <==> forall blocked :: blocked in s.blockedBy ==> blocked in PM.Ids(s.children)
    ensures r.Some? ==> Complete(s, r.value)
  {
    var ids := PM.Ids(s.children);
    var tickets := bare;
    var pending := s.blockedBy.Keys;
    while pending != {}
      invariant pending <= s.blockedBy.Keys
      invariant forall id :: id in tickets <==> id in ids
      invariant forall b :: b in s.blockedBy && b !in pending ==> b in ids
      invariant forall k :: 0 <= k < |ids| ==> tickets[ids[k]] == Partial(s, pending, s.children[k])
      decreases |pending|
    {
      var blocked := Take(pending);
      if blocked !in tickets {
        return None;
      }
      var projected := tickets[blocked];
      var numbers := PM.Numbers(s.blockedBy[blocked]);
      tickets := tickets[blocked := projected.(blockers := projected.blockers + numbers)];
      assert [] + numbers == numbers;
      pending := pending - {blocked};
    }
    return Some(tickets);
  }

  ghost predicate Complete(s: PM.Snapshot, tickets: map<int, Ticket>) {
    && (forall id :: id in tickets <==> id in PM.Ids(s.children))
    && forall k :: 0 <= k < |s.children| ==>
         PM.Ids(s.children)[k] in tickets && tickets[PM.Ids(s.children)[k]] == Entry(s, s.children[k])
  }

  method BareTickets(children: seq<PM.Issue>) returns (tickets: map<int, Ticket>)
    requires Distinct(PM.Ids(children))
    ensures forall id :: id in tickets <==> id in PM.Ids(children)
    ensures forall k :: 0 <= k < |children| ==> PM.Ids(children)[k] in tickets && tickets[PM.Ids(children)[k]] == Bare(children[k])
  {
    var ids := PM.Ids(children);
    tickets := map[];
    for i := 0 to |children|
      invariant forall id :: id in tickets <==> id in ids[..i]
      invariant forall k :: 0 <= k < i ==> ids[k] in tickets && tickets[ids[k]] == Bare(children[k])
    {
      assert ids[..i + 1] == ids[..i] + [ids[i]];
      assert forall k :: 0 <= k < i ==> ids[k] != ids[i];
      tickets := tickets[ids[i] := Bare(children[i])];
    }
    assert ids[..|ids|] == ids;
  }

  function Bare(child: PM.Issue): Ticket {
    Ticket(child.number, child.title, "", "", "", "", 0, 0, "", "", "", [])
  }

  /** An entry while the blockers of `pending` are still to come. */
  function Partial(s: PM.Snapshot, pending: set<int>, child: PM.Issue): Ticket {
    if child.id in s.blockedBy && child.id !in pending then Entry(s, child) else Bare(child)
  }

  /** The loop that appends the map's values, in any order of its keys. */
  method Values(tickets: map<int, Ticket>) returns (ordered: seq<Ticket>, ghost order: seq<int>)
    ensures Distinct(order) && forall id :: id in order <==> id in tickets
    ensures |ordered| == |order| && forall k :: 0 <= k < |order| ==> order[k] in tickets && ordered[k] == tickets[order[k]]
  {
    ordered, order := [], [];
    var pending := tickets.Keys;
    while pending != {}
      invariant pending <= tickets.Keys
      invariant Distinct(order) && forall id :: id in order <==> id in tickets && id !in pending
      invariant |ordered| == |order| && forall k :: 0 <= k < |order| ==> order[k] in tickets && ordered[k] == tickets[order[k]]
      decreases |pending|
    {
      var id := Take(pending);
      ordered := ordered + [tickets[id]];
      order := order + [id];
      pending := pending - {id};
    }
  }

  lemma ValuesPermute(tickets: map<int, Ticket>, ordered: seq<Ticket>, order: seq<int>, ids: seq<int>, entries: seq<Ticket>)
    requires Distinct(order) && Distinct(ids)
    requires forall id :: id in order <==> id in tickets
    requires forall id :: id in ids <==> id in tickets
    requires |ordered| == |order| && forall k :: 0 <= k < |order| ==> order[k] in tickets && ordered[k] == tickets[order[k]]
    requires |entries| == |ids| && forall k :: 0 <= k < |ids| ==> ids[k] in tickets && entries[k] == tickets[ids[k]]
    ensures Permutes(ordered, entries)
  {
    forall id: int ensures id in order <==> id in ids { assert id in tickets <==> id in ids; }
    DistinctSameElements(order, ids);
    PermutesLength(order, ids);
    if ids != [] {
      var default := tickets[ids[0]];
      var at := id => if id in tickets then tickets[id] else default;
      MappedPermutes(at, order, ids);
      assert ordered == Mapped(at, order);
      assert entries == Mapped(at, ids);
    }
  }

  /** Whatever order the two map walks took, an admitted plan has one status block. */
  lemma ProjectionRendersOnce(s: PM.Snapshot, versionId: string, state: string, p: Projection, q: Projection, a: string, b: string)
    requires PM.ValidPlan(s)
    requires IsProjectionOf(s, versionId, state, p) && IsProjectionOf(s, versionId, state, q)
    requires IsRendering(p, a) && IsRendering(q, b)
    ensures a == b
  {
    var entries := Mapped((c: PM.Issue) => Entry(s, c), s.children);
    forall i, j | 0 <= i < j < |entries| ensures entries[i].number != entries[j].number {
      assert PM.Numbers(s.children)[i] != PM.Numbers(s.children)[j];
    }
    NumbersPermute(entries, p.tickets);
    MappedPermutes(ViewOf, p.tickets, q.tickets);
    RenderingUnique(p, q, a, b);
  }

  lemma NumbersPermute(a: seq<Ticket>, b: seq<Ticket>)
    requires DistinctNumbers(a) && Permutes(b, a)
    ensures DistinctNumbers(b)
  {
    forall i, j | 0 <= i < j < |a| ensures a[i] != a[j] {}
    PermutesDistinct(b, a);
    forall i, j | 0 <= i < j < |b| ensures b[i].number != b[j].number {
      PermutesMembers(b, a, b[i]);
      PermutesMembers(b, a, b[j]);
      var k :| 0 <= k < |a| && a[k] == b[i];
      var l :| 0 <= l < |a| && a[l] == b[j];
      assert k != l;
    }
  }

  /** The entry says which ticket it is and which issue numbers block it, and nothing of any run. */
  ghost predicate Describes(s: PM.Snapshot, child: PM.Issue, t: Ticket) {
    && t.number == child.number && t.title == child.title
    && t.state == t.owner == t.sessionId == t.runId == t.revision == t.gateResult == t.lastActivity == ""
    && t.leaseGeneration == 0 && t.pullRequest == 0
    && (child.id !in s.blockedBy ==> t.blockers == [])
    && (child.id in s.blockedBy ==>
          && |t.blockers| == |s.blockedBy[child.id]|
          && forall i :: 0 <= i < |t.blockers| ==> t.blockers[i] == s.blockedBy[child.id][i].number)
  }

  /** A new version's projection: one entry for each child, and no pause or question. */
  lemma ProjectionMeans(s: PM.Snapshot, versionId: string, state: string, p: Projection)
    requires IsProjectionOf(s, versionId, state, p)
    ensures p.versionId == versionId && p.state == state && p.dispatchPaused == "" && p.questions == []
    ensures |p.tickets| == |s.children|
    ensures forall t :: t in p.tickets ==> exists c :: c in s.children && Describes(s, c, t)
    ensures forall c :: c in s.children ==> exists t :: t in p.tickets && Describes(s, c, t)
  {
    var entries := Mapped((c: PM.Issue) => Entry(s, c), s.children);
    PermutesLength(p.tickets, entries);
    forall t | t in p.tickets ensures exists c :: c in s.children && Describes(s, c, t) {
      PermutesMembers(p.tickets, entries, t);
      var k :| 0 <= k < |entries| && entries[k] == t;
      assert s.children[k] in s.children && Describes(s, s.children[k], t);
    }
    forall c | c in s.children ensures exists t :: t in p.tickets && Describes(s, c, t) {
      var k :| 0 <= k < |s.children| && s.children[k] == c;
      PermutesMembers(p.tickets, entries, entries[k]);
      assert entries[k] in p.tickets && Describes(s, c, entries[k]);
    }
  }
}
