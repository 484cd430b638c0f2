/** What the dispatch rule means: least ready tickets, order-freedom, claims. */
module FrontierLaws {
  import opened Collections
  import opened PlanGraph
  import opened Frontier
  import opened RankLaws

  function TicketIds(tickets: seq<Ticket>): (r: seq<int>)
    ensures |r| == |tickets| && forall i :: 0 <= i < |r| ==> r[i] == tickets[i].issueId
  {
    seq(|tickets|, i requires 0 <= i < |tickets| => tickets[i].issueId)
  }

  ghost predicate UniqueIds(s: Snapshot) {
    Distinct(TicketIds(s.tickets))
  }

  lemma SameTicket(s: Snapshot, a: Ticket, b: Ticket)
    requires UniqueIds(s) && a in s.tickets && b in s.tickets && a.issueId == b.issueId
    ensures a == b
  {
    var i :| 0 <= i < |s.tickets| && s.tickets[i] == a;
    var j :| 0 <= j < |s.tickets| && s.tickets[j] == b;
    assert TicketIds(s.tickets)[i] == TicketIds(s.tickets)[j];
  }

  // ----- The ready list, member by member -------------------------------------

  lemma {:induction false} ReadyMembers(s: Snapshot, ranks: map<int, int>, tickets: seq<Ticket>, x: Ticket)
    ensures x in ReadyAmong(s, ranks, tickets) <==>
            exists t :: t in tickets && Ready(s, t) && x == Ranked(t, ranks)
  {
    if tickets != [] {
      var init, last := tickets[..|tickets| - 1], tickets[|tickets| - 1];
      assert tickets == init + [last];
      ReadyMembers(s, ranks, init, x);
    }
  }

  lemma {:induction false} ReadyDistinct(s: Snapshot, ranks: map<int, int>, tickets: seq<Ticket>)
    requires Distinct(TicketIds(tickets))
    ensures Distinct(ReadyAmong(s, ranks, tickets))
  {
    if tickets != [] {
      var init, last := tickets[..|tickets| - 1], tickets[|tickets| - 1];
      assert forall i :: 0 <= i < |init| ==> TicketIds(init)[i] == TicketIds(tickets)[i];
      ReadyDistinct(s, ranks, init);
      var before := ReadyAmong(s, ranks, init);
      forall i | 0 <= i < |before| ensures before[i] != Ranked(last, ranks) {
        ReadyMembers(s, ranks, init, before[i]);
        var t :| t in init && before[i] == Ranked(t, ranks);
        var k :| 0 <= k < |init| && init[k] == t;
        assert TicketIds(tickets)[k] != TicketIds(tickets)[|tickets| - 1];
      }
    }
  }

  /** Ready tickets never tie in dispatch order. */
  lemma ReadySeparated(s: Snapshot, ranks: map<int, int>, queue: seq<Ticket>)
    requires UniqueIds(s)
    requires Permutes(queue, ReadyAmong(s, ranks, s.tickets))
    ensures Separates(Before, queue) && Distinct(queue)
  {
    var ready := ReadyAmong(s, ranks, s.tickets);
    forall x, y | x in queue && y in queue && x != y ensures Before(x, y) || Before(y, x) {
      PermutesMembers(queue, ready, x);
      PermutesMembers(queue, ready, y);
      ReadyMembers(s, ranks, s.tickets, x);
      ReadyMembers(s, ranks, s.tickets, y);
      var t :| t in s.tickets && Ready(s, t) && x == Ranked(t, ranks);
      var u :| u in s.tickets && Ready(s, u) && y == Ranked(u, ranks);
      if t.issueId == u.issueId { SameTicket(s, t, u); }
    }
    ReadyDistinct(s, ranks, s.tickets);
    PermutesDistinct(queue, ready);
  }

  /**
   * The frontier holds exactly the least ready tickets: it is sorted, as long as the
   * capacity and the number of ready tickets allow, and whatever is ready but left
   * out comes after every ticket that is in.
   */
  lemma FrontierIsLeast(s: Snapshot, ranks: map<int, int>, frontier: seq<Ticket>)
    requires UniqueIds(s) && Open(s) && IsFrontier(s, ranks, frontier)
    ensures |frontier| == Min(s.maxParallel - s.activeRuns, |ReadyAmong(s, ranks, s.tickets)|)
    ensures forall i, j :: 0 <= i < j < |frontier| ==> Before(frontier[i], frontier[j])
    ensures forall x :: x in frontier ==> exists t :: t in s.tickets && Ready(s, t) && x == Ranked(t, ranks)
    ensures forall t, x :: t in s.tickets && Ready(s, t) && Ranked(t, ranks) !in frontier && x in frontier
              ==> Before(x, Ranked(t, ranks))
  {
    var ready := ReadyAmong(s, ranks, s.tickets);
    var capacity := s.maxParallel - s.activeRuns;
    var queue :| Permutes(queue, ready) && Sorted(Before, queue) && frontier == queue[..Min(capacity, |queue|)];
    PermutesLength(queue, ready);
    ReadySeparated(s, ranks, queue);
    forall i, j | 0 <= i < j < |queue| ensures Before(queue[i], queue[j]) {
      assert queue[i] in queue && queue[j] in queue;
    }
    forall x | x in frontier
      ensures exists t :: t in s.tickets && Ready(s, t) && x == Ranked(t, ranks)
    {
      PermutesMembers(queue, ready, x);
      ReadyMembers(s, ranks, s.tickets, x);
    }
    forall t, x | t in s.tickets && Ready(s, t) && Ranked(t, ranks) !in frontier && x in frontier
      ensures Before(x, Ranked(t, ranks))
    {
      ReadyMembers(s, ranks, s.tickets, Ranked(t, ranks));
      PermutesMembers(queue, ready, Ranked(t, ranks));
      PrefixFirst(queue, |frontier|, x, Ranked(t, ranks));
    }
  }

  // ----- The dispatch rule in plain words -----------------------------------------

  /** No ticket that is ready sees a cycle; admission guarantees it of every ticket. */
  ghost predicate NoReadyCycle(s: Snapshot) {
    forall t :: t in s.tickets && Ready(s, t) ==> AcyclicFrom(s.dependencies, t.issueId)
  }

  /** By rank, then by number, then by id. */
  predicate Earlier(a: Ticket, b: Ticket) {
    || a.rank < b.rank
    || (a.rank == b.rank && a.number < b.number)
    || (a.rank == b.rank && a.number == b.number && a.issueId < b.issueId)
  }

  /** An undelivered ticket that nobody works on, whose blockers are all delivered tickets of the plan. */
  ghost predicate Startable(s: Snapshot, t: Ticket) {
    && t in s.tickets && !t.delivered && t.owner == ""
    && (t.issueId in s.dependencies ==>
          forall b :: b in s.dependencies[t.issueId] ==> HasDelivered(s, b))
  }

  ghost predicate HasDelivered(s: Snapshot, id: int) { exists u :: u in s.tickets && u.issueId == id && u.delivered }

  /** The entry of a startable ticket: the ticket itself with its longest blocker path for a rank. */
  ghost predicate Entry(s: Snapshot, t: Ticket, x: Ticket) {
    Startable(s, t) && x == t.(rank := x.rank) && IsLongest(s.dependencies, t.issueId, x.rank)
  }

  lemma StartableIsReady(s: Snapshot, t: Ticket)
    requires UniqueIds(s)
    ensures Startable(s, t) <==> t in s.tickets && Ready(s, t)
  {
    forall b ensures DeliveredIn(s.tickets, b) <==> HasDelivered(s, b) { DeliveredMeans(s, b); }
    var blockers := Blockers(s.dependencies, t.issueId);
    assert (forall b :: b in blockers ==> HasDelivered(s, b)) <==> (forall b :: b in blockers ==> DeliveredIn(s.tickets, b));
  }

  lemma DeliveredMeans(s: Snapshot, id: int)
    requires UniqueIds(s)
    ensures DeliveredIn(s.tickets, id) <==> HasDelivered(s, id)
  {
    LookupKnows(s.tickets, id);
    if HasDelivered(s, id) {
      var u :| u in s.tickets && u.issueId == id && u.delivered;
      SameTicket(s, u, Lookup(s.tickets, id).value);
    }
  }

  lemma EarlierIsBefore(a: Ticket, b: Ticket)
    requires a.rank >= 0 && b.rank >= 0
    ensures Before(a, b) <==> Earlier(a, b)
  {}

  /** The rank of a ready ticket is its longest blocker path. */
  lemma EntryOf(s: Snapshot, ranks: map<int, int>, t: Ticket)
    requires UniqueIds(s) && NoReadyCycle(s) && RanksOf(s, ranks) && t in s.tickets && Ready(s, t)
    ensures Entry(s, t, Ranked(t, ranks)) && Ranked(t, ranks).rank >= 0
  {
    StartableIsReady(s, t);
    assert IsLongest(s.dependencies, t.issueId, ranks[t.issueId]);
  }

  lemma MembersAreEntries(s: Snapshot, ranks: map<int, int>, frontier: seq<Ticket>, x: Ticket)
    requires UniqueIds(s) && NoReadyCycle(s) && Open(s) && RanksOf(s, ranks) && IsFrontier(s, ranks, frontier) && x in frontier
    ensures exists t :: Entry(s, t, x)
    ensures x.rank >= 0
  {
    FrontierIsLeast(s, ranks, frontier);
    var t :| t in s.tickets && Ready(s, t) && x == Ranked(t, ranks);
    EntryOf(s, ranks, t);
  }

  /** What startable tickets are left out, or in. */
  lemma LeftOutIsLater(s: Snapshot, ranks: map<int, int>, frontier: seq<Ticket>, t: Ticket, y: Ticket)
    requires UniqueIds(s) && NoReadyCycle(s) && Open(s) && RanksOf(s, ranks) && IsFrontier(s, ranks, frontier) && Entry(s, t, y)
    ensures y in frontier || (|frontier| == s.maxParallel - s.activeRuns && forall x :: x in frontier ==> Earlier(x, y))
  {
    StartableIsReady(s, t);
    EntryOf(s, ranks, t);
    LongestUnique(s.dependencies, t.issueId, y.rank, ranks[t.issueId]);
    assert y == Ranked(t, ranks);
    FrontierIsLeast(s, ranks, frontier);
    ReadyMembers(s, ranks, s.tickets, y);
    if y !in frontier {
      NotAllIn(s, ranks, frontier, y);
      forall x | x in frontier ensures Earlier(x, y) {
        MembersAreEntries(s, ranks, frontier, x);
        EarlierIsBefore(x, y);
      }
    }
  }

  lemma NotAllIn(s: Snapshot, ranks: map<int, int>, frontier: seq<Ticket>, y: Ticket)
    requires Open(s) && IsFrontier(s, ranks, frontier) && y in ReadyAmong(s, ranks, s.tickets) && y !in frontier
    ensures |frontier| == s.maxParallel - s.activeRuns
  {
    AllInOrFull(ReadyAmong(s, ranks, s.tickets), s.maxParallel - s.activeRuns, frontier, y);
  }

  lemma AllInOrFull(ready: seq<Ticket>, capacity: nat, cut: seq<Ticket>, y: Ticket)
    requires IsCut(ready, capacity, cut) && y in ready && y !in cut
    ensures |cut| == capacity
  {
    var queue :| Permutes(queue, ready) && Sorted(Before, queue) && cut == queue[..Min(capacity, |queue|)];
    PermutesMembers(queue, ready, y);
    assert queue[..|queue|] == queue;
  }

  /**
   * What ReadyFrontier answers, in plain words. In an active plan with free places: startable
   * tickets, each with its longest blocker path for a rank, in strictly increasing order of rank,
   * number and id; a startable ticket is left out only when all places are taken by earlier ones.
   * Otherwise nothing.
   */
  lemma FrontierMeans(s: Snapshot, frontier: seq<Ticket>)
    requires UniqueIds(s) && NoReadyCycle(s)
    requires !Open(s) ==> frontier == []
    requires Open(s) ==> exists order :: Previews(s, order, frontier)
    ensures s.planState != "active" || s.activeRuns >= s.maxParallel ==> frontier == []
    ensures s.planState == "active" && s.activeRuns < s.maxParallel ==>
      && |frontier| <= s.maxParallel - s.activeRuns
      && (forall i, j :: 0 <= i < j < |frontier| ==> Earlier(frontier[i], frontier[j]))
      && (forall x :: x in frontier ==> exists t :: Entry(s, t, x))
      && (forall t, y :: Entry(s, t, y) ==>
            y in frontier || (|frontier| == s.maxParallel - s.activeRuns && forall x :: x in frontier ==> Earlier(x, y)))
  {
    if Open(s) {
      var order :| Previews(s, order, frontier);
      var ranks := RankInOrder(s.dependencies, order);
      FrontierIsLeast(s, ranks, frontier);
      forall x | x in frontier ensures (exists t :: Entry(s, t, x)) && x.rank >= 0 {
        MembersAreEntries(s, ranks, frontier, x);
      }
      forall i, j | 0 <= i < j < |frontier| ensures Earlier(frontier[i], frontier[j]) {
        assert frontier[i] in frontier && frontier[j] in frontier;
        EarlierIsBefore(frontier[i], frontier[j]);
      }
      forall t, y | Entry(s, t, y)
        ensures y in frontier || (|frontier| == s.maxParallel - s.activeRuns && forall x :: x in frontier ==> Earlier(x, y))
      {
        LeftOutIsLater(s, ranks, frontier, t, y);
      }
    }
  }

  /** Every startable ticket has an entry, and only one. */
  lemma OneEntry(s: Snapshot, t: Ticket)
    requires UniqueIds(s) && NoReadyCycle(s) && Startable(s, t)
    ensures exists y :: Entry(s, t, y)
    ensures forall y, z :: Entry(s, t, y) && Entry(s, t, z) ==> y == z
  {
    StartableIsReady(s, t);
    RankMeaningful(s.dependencies, t.issueId);
    var k: nat :| IsLongest(s.dependencies, t.issueId, k);
    assert Entry(s, t, t.(rank := k));
    forall y, z | Entry(s, t, y) && Entry(s, t, z) ensures y == z {
      LongestUnique(s.dependencies, t.issueId, y.rank, z.rank);
    }
  }

  /** In a strictly ordered queue what is cut off comes after what is kept. */
  lemma PrefixFirst(queue: seq<Ticket>, n: nat, x: Ticket, y: Ticket)
    requires forall i, j :: 0 <= i < j < |queue| ==> Before(queue[i], queue[j])
    requires n <= |queue| && x in queue[..n] && y in queue && y !in queue[..n]
    ensures Before(x, y)
  {
    var j :| 0 <= j < |queue| && queue[j] == y;
    var i :| 0 <= i < n && queue[i] == x;
    assert forall k :: 0 <= k < n ==> queue[..n][k] == queue[k];
  }

  // ----- Independence of input and visiting order -----------------------------

  /** The same plan: tickets and blocker lists in any order, blockers repeated or not. */
  ghost predicate SamePlan(s: Snapshot, t: Snapshot) {
    && s.planState == t.planState && s.activeRuns == t.activeRuns && s.maxParallel == t.maxParallel
    && Permutes(s.tickets, t.tickets)
    && SameEdges(s.dependencies, t.dependencies)
  }

  ghost predicate SameEdges(g: Graph, h: Graph) {
    forall n, b :: b in Blockers(g, n) <==> b in Blockers(h, n)
  }

  lemma SameReach(g: Graph, h: Graph, a: int, b: int)
    requires SameEdges(g, h) && Reaches(g, a, b)
    ensures Reaches(h, a, b)
  {
    var p :| PathFrom(g, p, a) && |p| >= 2 && p[|p| - 1] == b;
    SamePaths(g, h, p);
    assert PathFrom(h, p, a);
  }

  lemma SameAcyclic(g: Graph, h: Graph, n: int)
    requires SameEdges(g, h) && AcyclicFrom(g, n)
    ensures AcyclicFrom(h, n)
  {
    if Reaches(h, n, n) { SameReach(h, g, n, n); }
    forall m | Reaches(h, n, m) ensures !Reaches(h, m, m) {
      SameReach(h, g, n, m);
      if Reaches(h, m, m) { SameReach(h, g, m, m); }
    }
  }

  lemma SamePaths(g: Graph, h: Graph, p: seq<int>)
    requires SameEdges(g, h)
    ensures IsPath(g, p) <==> IsPath(h, p)
  {
    forall i | 0 <= i < |p| - 1
      ensures p[i + 1] in Blockers(g, p[i]) <==> p[i + 1] in Blockers(h, p[i])
    {
      var n, b := p[i], p[i + 1];
      assert b in Blockers(g, n) <==> b in Blockers(h, n);
    }
  }

  lemma SameLongest(g: Graph, h: Graph, n: int, j: int, k: int)
    requires SameEdges(g, h) && IsLongest(g, n, j) && IsLongest(h, n, k)
    ensures j == k
  {
    var p :| PathFrom(g, p, n) && |p| == j + 1;
    var q :| PathFrom(h, q, n) && |q| == k + 1;
    SamePaths(g, h, p);
    SamePaths(g, h, q);
    assert PathFrom(h, p, n) && PathFrom(g, q, n);
  }

  lemma SameReadiness(s: Snapshot, t: Snapshot, x: Ticket)
    requires UniqueIds(s) && UniqueIds(t) && SamePlan(s, t)
    ensures Ready(s, x) <==> Ready(t, x)
  {
    forall id ensures DeliveredIn(s.tickets, id) <==> DeliveredIn(t.tickets, id) {
      LookupKnows(s.tickets, id);
      LookupKnows(t.tickets, id);
      forall u ensures u in s.tickets <==> u in t.tickets { PermutesMembers(s.tickets, t.tickets, u); }
      if Lookup(s.tickets, id).Some? && Lookup(t.tickets, id).Some? {
        SameTicket(s, Lookup(s.tickets, id).value, Lookup(t.tickets, id).value);
      }
    }
  }

  lemma PermutesUnique(s: Snapshot, t: Snapshot)
    requires UniqueIds(s) && Permutes(s.tickets, t.tickets)
    ensures UniqueIds(t)
  {
    forall i, j | 0 <= i < j < |s.tickets| ensures s.tickets[i] != s.tickets[j] {
      assert TicketIds(s.tickets)[i] != TicketIds(s.tickets)[j];
    }
    PermutesDistinct(t.tickets, s.tickets);
    forall i, j | 0 <= i < j < |t.tickets| ensures TicketIds(t.tickets)[i] != TicketIds(t.tickets)[j] {
      PermutesMembers(s.tickets, t.tickets, t.tickets[i]);
      PermutesMembers(s.tickets, t.tickets, t.tickets[j]);
      if t.tickets[i].issueId == t.tickets[j].issueId {
        SameTicket(s, t.tickets[i], t.tickets[j]);
      }
    }
  }

  lemma SameRanks(s: Snapshot, r: map<int, int>, t: Snapshot, q: map<int, int>, x: Ticket)
    requires SameEdges(s.dependencies, t.dependencies)
    requires RanksOf(s, r) && RanksOf(t, q) && AcyclicFrom(s.dependencies, x.issueId)
    requires x in s.tickets && x in t.tickets
    ensures Ranked(x, r) == Ranked(x, q)
  {
    SameAcyclic(s.dependencies, t.dependencies, x.issueId);
    SameLongest(s.dependencies, t.dependencies, x.issueId, r[x.issueId], q[x.issueId]);
  }

  lemma SameReadyList(s: Snapshot, r: map<int, int>, t: Snapshot, q: map<int, int>)
    requires UniqueIds(s) && UniqueIds(t) && SamePlan(s, t)
    requires RanksOf(s, r) && RanksOf(t, q) && NoReadyCycle(s)
    ensures Permutes(ReadyAmong(s, r, s.tickets), ReadyAmong(t, q, t.tickets))
  {
    var a, b := ReadyAmong(s, r, s.tickets), ReadyAmong(t, q, t.tickets);
    forall x ensures x in a <==> x in b {
      ReadyMembers(s, r, s.tickets, x);
      ReadyMembers(t, q, t.tickets, x);
      forall u | u in s.tickets || u in t.tickets
        ensures u in s.tickets && u in t.tickets && (Ready(s, u) <==> Ready(t, u))
        ensures Ready(s, u) ==> Ranked(u, r) == Ranked(u, q)
      {
        PermutesMembers(s.tickets, t.tickets, u);
        SameReadiness(s, t, u);
        if Ready(s, u) { SameRanks(s, r, t, q, u); }
      }
    }
    ReadyDistinct(s, r, s.tickets);
    ReadyDistinct(t, q, t.tickets);
    DistinctSameElements(a, b);
  }

  lemma CutUnique(ready: seq<Ticket>, f: seq<Ticket>, other: seq<Ticket>, h: seq<Ticket>, capacity: nat)
    requires Permutes(ready, other) && Separates(Before, ready)
    requires IsCut(ready, capacity, f) && IsCut(other, capacity, h)
    ensures f == h
  {
    var a :| Permutes(a, ready) && Sorted(Before, a) && f == a[..Min(capacity, |a|)];
    var b :| Permutes(b, other) && Sorted(Before, b) && h == b[..Min(capacity, |b|)];
    forall x | x in a ensures x in ready { PermutesMembers(a, ready, x); }
    SortedUnique(Before, a, b);
  }

  /** One plan has one frontier: where no ready ticket sees a cycle neither input order nor map iteration order shows. */
  lemma FrontierOrderFree(s: Snapshot, r: map<int, int>, f: seq<Ticket>, t: Snapshot, q: map<int, int>, h: seq<Ticket>)
    requires UniqueIds(s) && NoReadyCycle(s) && SamePlan(s, t)
    requires Open(s) ==> RanksOf(s, r)
    requires Open(t) ==> RanksOf(t, q)
    requires IsFrontier(s, r, f) && IsFrontier(t, q, h)
    ensures f == h
  {
    if Open(s) {
      PermutesUnique(s, t);
      SameReadyList(s, r, t, q);
      ReadySeparated(s, r, ReadyAmong(s, r, s.tickets));
      FrontiersAgree(s, r, f, t, q, h);
    }
  }

  /** In particular the order in which the ticket map is walked never shows. */
  lemma OnePreview(s: Snapshot, walk: seq<int>, f: seq<Ticket>, other: seq<int>, h: seq<Ticket>)
    requires UniqueIds(s) && NoReadyCycle(s) && Previews(s, walk, f) && Previews(s, other, h)
    ensures f == h
  {
    FrontierOrderFree(s, RankInOrder(s.dependencies, walk), f, s, RankInOrder(s.dependencies, other), h);
  }

  lemma FrontiersAgree(s: Snapshot, r: map<int, int>, f: seq<Ticket>, t: Snapshot, q: map<int, int>, h: seq<Ticket>)
    requires Open(s) && Open(t) && s.maxParallel == t.maxParallel && s.activeRuns == t.activeRuns
    requires IsFrontier(s, r, f) && IsFrontier(t, q, h)
    requires Permutes(ReadyAmong(s, r, s.tickets), ReadyAmong(t, q, t.tickets))
    requires Separates(Before, ReadyAmong(s, r, s.tickets))
    ensures f == h
  {
    CutUnique(ReadyAmong(s, r, s.tickets), f, ReadyAmong(t, q, t.tickets), h, s.maxParallel - s.activeRuns);
  }

  // ----- Claims -----------------------------------------------------------------

  /** The same snapshot after `taken` got an owner and its run became active. */
  ghost predicate AfterClaim(s: Snapshot, t: Snapshot, taken: int, owner: string) {
    && owner != ""
    && t.planState == s.planState && t.dependencies == s.dependencies && t.maxParallel == s.maxParallel
    && t.activeRuns == s.activeRuns + 1
    && |t.tickets| == |s.tickets|
    && forall i :: 0 <= i < |s.tickets| ==>
         t.tickets[i] == if s.tickets[i].issueId == taken then s.tickets[i].(owner := owner) else s.tickets[i]
  }

  lemma {:induction false} ClaimKeepsLookup(a: seq<Ticket>, b: seq<Ticket>, taken: int, owner: string, id: int)
    requires |a| == |b|
    requires forall i :: 0 <= i < |a| ==> b[i] == if a[i].issueId == taken then a[i].(owner := owner) else a[i]
    ensures DeliveredIn(a, id) == DeliveredIn(b, id)
  {
    if a != [] {
      ClaimKeepsLookup(a[..|a| - 1], b[..|b| - 1], taken, owner, id);
    }
  }

  lemma ClaimKeepsReady(s: Snapshot, t: Snapshot, taken: int, owner: string, u: Ticket)
    requires AfterClaim(s, t, taken, owner)
    ensures Ready(s, u) <==> Ready(t, u)
  {
    forall id ensures DeliveredIn(s.tickets, id) == DeliveredIn(t.tickets, id) {
      ClaimKeepsLookup(s.tickets, t.tickets, taken, owner, id);
    }
  }

  lemma ClaimKeepsOthers(s: Snapshot, t: Snapshot, taken: int, owner: string, u: Ticket)
    requires AfterClaim(s, t, taken, owner)
    ensures u.issueId != taken ==> (u in s.tickets <==> u in t.tickets)
    ensures u.issueId == taken && u in t.tickets ==> u.owner != ""
  {
    if u in s.tickets {
      var i :| 0 <= i < |s.tickets| && s.tickets[i] == u;
      assert t.tickets[i] in t.tickets;
    }
    if u in t.tickets {
      var i :| 0 <= i < |t.tickets| && t.tickets[i] == u;
      assert s.tickets[i] in s.tickets;
    }
  }

  /** The claimed ticket leaves the ready list; every other ticket stays as it was. */
  lemma ClaimReadyMembers(s: Snapshot, r: map<int, int>, t: Snapshot, q: map<int, int>, taken: int, owner: string, x: Ticket)
    requires AfterClaim(s, t, taken, owner) && NoReadyCycle(s) && RanksOf(s, r) && RanksOf(t, q)
    ensures x in ReadyAmong(t, q, t.tickets) <==> x in ReadyAmong(s, r, s.tickets) && x.issueId != taken
  {
    ReadyMembers(s, r, s.tickets, x);
    ReadyMembers(t, q, t.tickets, x);
    if x in ReadyAmong(s, r, s.tickets) && x.issueId != taken {
      var u :| u in s.tickets && Ready(s, u) && x == Ranked(u, r);
      ClaimKeepsReady(s, t, taken, owner, u);
      ClaimKeepsOthers(s, t, taken, owner, u);
      LongestUnique(s.dependencies, u.issueId, r[u.issueId], q[u.issueId]);
      assert x == Ranked(u, q);
    }
    if x in ReadyAmong(t, q, t.tickets) {
      var u :| u in t.tickets && Ready(t, u) && x == Ranked(u, q);
      ClaimKeepsReady(s, t, taken, owner, u);
      ClaimKeepsOthers(s, t, taken, owner, u);
      LongestUnique(s.dependencies, u.issueId, r[u.issueId], q[u.issueId]);
      assert x == Ranked(u, r);
    }
  }

  /** A sequence without its member at `i`. */
  function Without<T>(s: seq<T>, i: nat): (r: seq<T>)
    requires i < |s|
    ensures |r| == |s| - 1
    ensures forall j :: 0 <= j < |r| ==> r[j] == s[if j < i then j else j + 1]
  {
    s[..i] + s[i + 1..]
  }

  lemma WithoutSorted(a: seq<Ticket>, i: nat)
    requires i < |a| && Sorted(Before, a) && Distinct(a)
    ensures Sorted(Before, Without(a, i)) && Distinct(Without(a, i))
  {}

  lemma WithoutMembers<T>(a: seq<T>, i: nat, x: T)
    requires i < |a| && Distinct(a)
    ensures x in Without(a, i) <==> x in a && x != a[i]
  {
    if x in a && x != a[i] {
      var j :| 0 <= j < |a| && a[j] == x;
      assert Without(a, i)[if j < i then j else j - 1] == x;
    }
    if x in Without(a, i) {
      var j :| 0 <= j < |a| - 1 && Without(a, i)[j] == x;
      assert x == a[if j < i then j else j + 1];
    }
  }

  /** No repetition and no ties. */
  ghost predicate Strict(ready: seq<Ticket>) { Distinct(ready) && Separates(Before, ready) }

  ghost predicate OneLess(ready: seq<Ticket>, fewer: seq<Ticket>, taken: Ticket) {
    Distinct(fewer) && forall x :: x in fewer <==> x in ready && x != taken
  }

  lemma CutWithout(ready: seq<Ticket>, fewer: seq<Ticket>, left: nat, cut: seq<Ticket>, smaller: seq<Ticket>, i: nat)
    requires Strict(ready) && IsCut(ready, left + 1, cut) && i < |cut|
    requires OneLess(ready, fewer, cut[i])
    requires IsCut(fewer, left, smaller)
    ensures smaller == Without(cut, i)
  {
    var a :| Permutes(a, ready) && Sorted(Before, a) && cut == a[..Min(left + 1, |a|)];
    var b :| Permutes(b, fewer) && Sorted(Before, b) && smaller == b[..Min(left, |b|)];
    CutOfWithout(a, i, left + 1);
    assert a[i] == cut[i];
    QueueWithout(ready, fewer, a, b, i);
  }

  lemma CutOfWithout(a: seq<Ticket>, i: nat, capacity: nat)
    requires i < Min(capacity, |a|)
    ensures Without(a, i)[..Min(capacity - 1, |a| - 1)] == Without(a[..Min(capacity, |a|)], i)
  {}

  /** The sorted queue of the others is the sorted queue without the one. */
  lemma QueueWithout(ready: seq<Ticket>, fewer: seq<Ticket>, a: seq<Ticket>, b: seq<Ticket>, i: nat)
    requires Strict(ready) && Permutes(a, ready) && Sorted(Before, a) && Permutes(b, fewer) && Sorted(Before, b)
    requires i < |a| && OneLess(ready, fewer, a[i])
    ensures b == Without(a, i)
  {
    PermutesDistinct(a, ready);
    PermutesDistinct(b, fewer);
    WithoutSorted(a, i);
    forall x ensures x in Without(a, i) <==> x in b {
      PermutesMembers(a, ready, x);
      PermutesMembers(b, fewer, x);
      WithoutMembers(a, i, x);
    }
    DistinctSameElements(Without(a, i), b);
    forall x | x in b ensures x in ready { PermutesMembers(b, fewer, x); }
    SortedUnique(Before, b, Without(a, i));
  }

  /** Claiming any member of the frontier leaves exactly the others, in their order. */
  lemma ClaimRemovesMember(
      s: Snapshot, r: map<int, int>, f: seq<Ticket>,
      t: Snapshot, q: map<int, int>, h: seq<Ticket>, i: nat, owner: string)
    requires UniqueIds(s) && NoReadyCycle(s)
    requires Open(s) && RanksOf(s, r) && (Open(t) ==> RanksOf(t, q))
    requires IsFrontier(s, r, f) && IsFrontier(t, q, h)
    requires i < |f| && AfterClaim(s, t, f[i].issueId, owner)
    ensures h == Without(f, i)
  {
    if Open(t) {
      ReadySeparated(s, r, ReadyAmong(s, r, s.tickets));
      MemberIsReady(s, r, f, i);
      ReadyWithout(s, r, f[i], t, q, owner);
      CutsDiffer(s, r, f, t, q, h, i);
    } else {
      LastPlace(s, r, f);
    }
  }

  lemma MemberIsReady(s: Snapshot, r: map<int, int>, f: seq<Ticket>, i: nat)
    requires UniqueIds(s) && Open(s) && IsFrontier(s, r, f) && i < |f|
    ensures exists u :: u in s.tickets && Ready(s, u) && f[i] == Ranked(u, r)
  {
    FrontierIsLeast(s, r, f);
    assert f[i] in f;
  }

  /** The frontier never exceeds the places left. */
  lemma LastPlace(s: Snapshot, r: map<int, int>, f: seq<Ticket>)
    requires UniqueIds(s) && Open(s) && IsFrontier(s, r, f)
    ensures |f| <= s.maxParallel - s.activeRuns
  {
    FrontierIsLeast(s, r, f);
  }

  lemma {:induction false} CutsDiffer(s: Snapshot, r: map<int, int>, f: seq<Ticket>, t: Snapshot, q: map<int, int>, h: seq<Ticket>, i: nat)
    requires Open(s) && Open(t) && IsFrontier(s, r, f) && IsFrontier(t, q, h) && i < |f|
    requires t.maxParallel == s.maxParallel && t.activeRuns == s.activeRuns + 1
    requires Strict(ReadyAmong(s, r, s.tickets)) && OneLess(ReadyAmong(s, r, s.tickets), ReadyAmong(t, q, t.tickets), f[i])
    ensures h == Without(f, i)
  {
    var ready, fewer, left := ReadyAmong(s, r, s.tickets), ReadyAmong(t, q, t.tickets), t.maxParallel - t.activeRuns;
    assert IsCut(ready, left + 1, f) by { assert s.maxParallel - s.activeRuns == left + 1; }
    CutWithout(ready, fewer, left, f, h, i);
  }

  /** The ready list after a claim: the others, still without repetition. */
  lemma ReadyWithout(s: Snapshot, r: map<int, int>, taken: Ticket, t: Snapshot, q: map<int, int>, owner: string)
    requires UniqueIds(s) && NoReadyCycle(s) && RanksOf(s, r) && RanksOf(t, q)
    requires AfterClaim(s, t, taken.issueId, owner)
    requires exists u :: u in s.tickets && Ready(s, u) && taken == Ranked(u, r)
    ensures OneLess(ReadyAmong(s, r, s.tickets), ReadyAmong(t, q, t.tickets), taken)
  {
    AfterClaimUnique(s, t, taken.issueId, owner);
    ReadyDistinct(t, q, t.tickets);
    forall x ensures x in ReadyAmong(t, q, t.tickets) <==> x in ReadyAmong(s, r, s.tickets) && x != taken {
      ClaimReadyMembers(s, r, t, q, taken.issueId, owner, x);
      ReadyIdUnique(s, r, x, taken);
    }
  }

  lemma AfterClaimUnique(s: Snapshot, t: Snapshot, taken: int, owner: string)
    requires UniqueIds(s) && AfterClaim(s, t, taken, owner)
    ensures UniqueIds(t)
  {
    forall k | 0 <= k < |s.tickets| ensures TicketIds(t.tickets)[k] == TicketIds(s.tickets)[k] {}
  }

  lemma ReadyIdUnique(s: Snapshot, r: map<int, int>, x: Ticket, y: Ticket)
    requires UniqueIds(s)
    requires exists t :: t in s.tickets && Ready(s, t) && y == Ranked(t, r)
    ensures x in ReadyAmong(s, r, s.tickets) && x.issueId == y.issueId ==> x == y
  {
    ReadyMembers(s, r, s.tickets, x);
    if x in ReadyAmong(s, r, s.tickets) && x.issueId == y.issueId {
      var t :| t in s.tickets && Ready(s, t) && x == Ranked(t, r);
      var u :| u in s.tickets && Ready(s, u) && y == Ranked(u, r);
      SameTicket(s, t, u);
    }
  }
}
