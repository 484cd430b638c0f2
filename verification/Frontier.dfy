/** The scheduler's dispatch rule: longest-path ranks, readiness, order, capacity. */
module Frontier {
  import opened Collections
  import opened PlanGraph

  const STATE_ACTIVE := "active"

  datatype Ticket = Ticket(
    issueId: int,
    number: int,
    title: string,
    delivered: bool,
    owner: string,
    rank: int)

  datatype Snapshot = Snapshot(
    planState: string,
    tickets: seq<Ticket>,
    dependencies: Graph,
    activeRuns: int,
    maxParallel: int)

  // ----- Memoised ranks -------------------------------------------------------

  /**
   * The closure `rank` of the source as a function: the memo and the set being
   * visited go in, the rank and the new memo come out. It terminates on every
   * finite graph, cyclic or not.
   */
  function RankRun(g: Graph, n: int, visiting: set<int>, memo: map<int, int>): (int, map<int, int>)
    decreases g.Keys - visiting, 1
  {
    if n in memo then (memo[n], memo)
    else if n in visiting then (0, memo)
    else
      var (best, after) := RankFold(g, n, 0, visiting + {n}, memo, 0);
      (best, after[n := best])
  }

  /** The loop over the blockers of `n`, from position `i`. */
  function RankFold(g: Graph, n: int, i: nat, visiting: set<int>, memo: map<int, int>, best: int): (int, map<int, int>)
    requires i <= |Blockers(g, n)|
    decreases g.Keys - visiting, if i == |Blockers(g, n)| then 0 else 2 + |Blockers(g, n)| - i
  {
    if i == |Blockers(g, n)| then (best, memo)
    else
      var (value, after) := RankRun(g, Blockers(g, n)[i], visiting, memo);
      RankFold(g, n, i + 1, visiting, after, if value + 1 > best then value + 1 else best)
  }

  /** Every remembered rank of a node that sees no cycle is its longest path. */
  ghost predicate SoundMemo(g: Graph, ranks: map<int, int>) {
    forall n :: n in ranks && AcyclicFrom(g, n) ==> IsLongest(g, n, ranks[n])
  }

  ghost predicate MemoGrows(before: map<int, int>, after: map<int, int>) {
    forall n :: n in before ==> n in after && after[n] == before[n]
  }

  /** `best` is the rank the blockers before position `i` call for. */
  ghost predicate BestOf(blockers: seq<int>, i: nat, ranks: map<int, int>, best: int)
    requires i <= |blockers|
  {
    && (forall k :: 0 <= k < i ==> blockers[k] in ranks && ranks[blockers[k]] + 1 <= best)
    && (best == 0 || exists k :: 0 <= k < i && best == ranks[blockers[k]] + 1)
    && best >= 0
  }

  lemma BestOfNext(blockers: seq<int>, i: nat, before: map<int, int>, after: map<int, int>, best: int, value: int)
    requires i < |blockers| && BestOf(blockers, i, before, best)
    requires MemoGrows(before, after) && blockers[i] in after && after[blockers[i]] == value
    ensures BestOf(blockers, i + 1, after, if value + 1 > best then value + 1 else best)
  {
    forall k | 0 <= k < i ensures blockers[k] in after && after[blockers[k]] == before[blockers[k]] {
      var b := blockers[k];
      assert b in before;
    }
    if value + 1 > best {
      assert after[blockers[i]] + 1 == value + 1;
    }
  }

  lemma RankedNode(g: Graph, n: int, ranks: map<int, int>, best: int)
    requires SoundMemo(g, ranks) && BestOf(Blockers(g, n), |Blockers(g, n)|, ranks, best)
    ensures SoundMemo(g, ranks[n := best])
  {
    if AcyclicFrom(g, n) {
      var blockers := Blockers(g, n);
      forall b | b in blockers ensures b in ranks && IsLongest(g, b, ranks[b]) {
        AcyclicFromBlocker(g, n, b);
        var k :| 0 <= k < |blockers| && blockers[k] == b;
      }
      LongestStep(g, n, best, b => if b in ranks then ranks[b] else 0);
    }
  }

  /** Everything being visited reaches the blocker that is visited next. */
  lemma EnterBlocker(g: Graph, n: int, blocker: int, visiting: set<int>)
    requires blocker in Blockers(g, n)
    requires forall v :: v in visiting ==> v == n || Reaches(g, v, n)
    ensures forall v :: v in visiting + {n} ==> Reaches(g, v, blocker)
  {
    EdgeReaches(g, n, blocker);
    forall v | v in visiting ensures Reaches(g, v, blocker) {
      if v != n { ReachesTrans(g, v, n, blocker); }
    }
  }

  /** The `ranks` and `visiting` maps that the recursive closure shares. */
  class RankTable {
    const dependencies: Graph
    var ranks: map<int, int>
    var visiting: set<int>

    constructor (dependencies: Graph)
      ensures this.dependencies == dependencies && ranks == map[] && visiting == {}
    {
      this.dependencies := dependencies;
      ranks, visiting := map[], {};
    }

    /** On a node that sees no cycle: its longest path, whatever is remembered already. */
    method Rank(issueId: int) returns (value: int)
      requires SoundMemo(dependencies, ranks)
      requires forall v :: v in visiting ==> v == issueId || Reaches(dependencies, v, issueId)
      requires issueId in visiting ==> Reaches(dependencies, issueId, issueId)
      requires ranks.Keys !! visiting
      modifies this
      ensures (value, ranks) == RankRun(dependencies, issueId, old(visiting), old(ranks))
      ensures visiting == old(visiting) && ranks.Keys !! visiting
      ensures SoundMemo(dependencies, ranks) && MemoGrows(old(ranks), ranks)
      ensures issueId !in visiting ==> issueId in ranks && ranks[issueId] == value
      ensures AcyclicFrom(dependencies, issueId) ==> issueId !in visiting && IsLongest(dependencies, issueId, value)
      decreases dependencies.Keys - visiting
    {
      if issueId in ranks {
        return ranks[issueId];
      }
      if issueId in visiting {
        return 0;
      }
      visiting := visiting + {issueId};
      var best := 0;
      var blockers := Blockers(dependencies, issueId);
      for i := 0 to |blockers|
        invariant visiting == old(visiting) + {issueId} && ranks.Keys !! visiting
        invariant RankFold(dependencies, issueId, 0, visiting, old(ranks), 0)
               == RankFold(dependencies, issueId, i, visiting, ranks, best)
        invariant SoundMemo(dependencies, ranks) && MemoGrows(old(ranks), ranks)
        invariant AcyclicFrom(dependencies, issueId) ==> BestOf(blockers, i, ranks, best)
      {
        ghost var before := ranks;
        EnterBlocker(dependencies, issueId, blockers[i], old(visiting));
        var value := Rank(blockers[i]);
        if AcyclicFrom(dependencies, issueId) {
          AcyclicFromBlocker(dependencies, issueId, blockers[i]);
          BestOfNext(blockers, i, before, ranks, best, value);
        }
        var candidate := value + 1;
        if candidate > best {
          best := candidate;
        }
      }
      visiting := visiting - {issueId};
      if AcyclicFrom(dependencies, issueId) {
        RankedNode(dependencies, issueId, ranks, best);
      }
      ranks := ranks[issueId := best];
      return best;
    }
  }

  // ----- Readiness, order and cut ---------------------------------------------

  /** The ticket a blocker id stands for; a later ticket with the same id wins. */
  function Lookup(tickets: seq<Ticket>, id: int): Option<Ticket> {
    if tickets == [] then None
    else if tickets[|tickets| - 1].issueId == id then Some(tickets[|tickets| - 1])
    else Lookup(tickets[..|tickets| - 1], id)
  }

  predicate DeliveredIn(tickets: seq<Ticket>, id: int) {
    var found := Lookup(tickets, id);
    found.Some? && found.value.delivered
  }

  predicate Ready(s: Snapshot, t: Ticket) {
    && !t.delivered && t.owner == ""
    && forall b :: b in Blockers(s.dependencies, t.issueId) ==> DeliveredIn(s.tickets, b)
  }

  /** Rank first (rank 0 spelled out as in the source), then number, then id. */
  predicate Before(a: Ticket, b: Ticket) {
    if a.rank == 0 && b.rank != 0 then true
    else if a.rank != 0 && b.rank == 0 then false
    else if a.rank != b.rank then a.rank < b.rank
    else if a.number == b.number then a.issueId < b.issueId
    else a.number < b.number
  }

  function Ranked(t: Ticket, ranks: map<int, int>): Ticket {
    t.(rank := if t.issueId in ranks then ranks[t.issueId] else 0)
  }

  /** The ready ones among `tickets`, in their own order, with ranks filled in. */
  ghost function ReadyAmong(s: Snapshot, ranks: map<int, int>, tickets: seq<Ticket>): seq<Ticket> {
    if tickets == [] then []
    else
      var t := tickets[|tickets| - 1];
      ReadyAmong(s, ranks, tickets[..|tickets| - 1]) + if Ready(s, t) then [Ranked(t, ranks)] else []
  }

  ghost predicate Open(s: Snapshot) {
    s.planState == STATE_ACTIVE && s.activeRuns < s.maxParallel
  }

  /** A ready list in dispatch order, cut to the free capacity. */
  ghost predicate IsFrontier(s: Snapshot, ranks: map<int, int>, frontier: seq<Ticket>) {
    if !Open(s) then frontier == []
    else IsCut(ReadyAmong(s, ranks, s.tickets), s.maxParallel - s.activeRuns, frontier)
  }

  ghost predicate IsCut(ready: seq<Ticket>, capacity: nat, cut: seq<Ticket>) {
    exists queue ::
      && Permutes(queue, ready)
      && Sorted(Before, queue)
      && cut == queue[..Min(capacity, |queue|)]
  }

  /** Every ticket is ranked, and ranked by its longest path where it sees no cycle. */
  ghost predicate RanksOf(s: Snapshot, ranks: map<int, int>) {
    && SoundMemo(s.dependencies, ranks)
    && forall t :: t in s.tickets ==> t.issueId in ranks
  }

  ghost predicate Indexes(byId: map<int, Ticket>, tickets: seq<Ticket>) {
    forall id :: Lookup(tickets, id) == if id in byId then Some(byId[id]) else None
  }

  /** A visiting order of the ticket map: every known id once. */
  ghost predicate VisitsAll(s: Snapshot, order: seq<int>) {
    && Distinct(order)
    && forall id :: id in order <==> exists t :: t in s.tickets && t.issueId == id
  }

  /** What one walk over the ticket map gives: its ranks are longest paths wherever no cycle is seen. */
  ghost predicate Previews(s: Snapshot, order: seq<int>, frontier: seq<Ticket>) {
    var ranks := RankInOrder(s.dependencies, order);
    VisitsAll(s, order) && RanksOf(s, ranks) && IsFrontier(s, ranks, frontier)
  }

  /** ReadyFrontier: one preview of the dispatch set. */
  method ReadyFrontier(s: Snapshot) returns (frontier: seq<Ticket>)
    ensures !Open(s) ==> frontier == []
    ensures Open(s) ==> exists order :: Previews(s, order, frontier)
  {
    if s.planState != STATE_ACTIVE || s.maxParallel <= s.activeRuns {
      return [];
    }
    var byId := IndexById(s.tickets);
    var known;
    ghost var order;
    known, order := RankAll(s, byId.Keys);
    ghost var ranks := known;
    forall id ensures id in order <==> exists t :: t in s.tickets && t.issueId == id {
      assert id in Elements(order) <==> id in byId.Keys;
      LookupKnows(s.tickets, id);
    }
    forall t | t in s.tickets ensures t.issueId in ranks {
      LookupKnows(s.tickets, t.issueId);
      assert t.issueId in byId.Keys;
    }
    var ready := CollectReady(s, byId, known);
    BeforeIsOrder();
    var queue := SortSlice(ready, Before);
    var capacity := s.maxParallel - s.activeRuns;
    frontier := if capacity < |queue| then queue[..capacity] else queue;
    assert queue[..|queue|] == queue;
    assert frontier == queue[..Min(capacity, |queue|)];
    assert Previews(s, order, frontier);
  }

  method IndexById(tickets: seq<Ticket>) returns (byId: map<int, Ticket>)
    ensures Indexes(byId, tickets)
  {
    byId := map[];
    for i := 0 to |tickets|
      invariant Indexes(byId, tickets[..i])
    {
      assert tickets[..i + 1][..i] == tickets[..i];
      byId := byId[tickets[i].issueId := tickets[i]];
    }
    assert tickets[..|tickets|] == tickets;
  }

  lemma {:induction false} LookupKnows(tickets: seq<Ticket>, id: int)
    ensures Lookup(tickets, id).Some? <==> exists t :: t in tickets && t.issueId == id
    ensures Lookup(tickets, id).Some? ==> Lookup(tickets, id).value in tickets && Lookup(tickets, id).value.issueId == id
  {
    if tickets != [] {
      var last := tickets[|tickets| - 1];
      assert tickets == tickets[..|tickets| - 1] + [last];
      LookupKnows(tickets[..|tickets| - 1], id);
    }
  }

  /** The memo after ranking the issues of `order` one after the other. */
  function RankInOrder(g: Graph, order: seq<int>): map<int, int> {
    if order == [] then map[]
    else RankRun(g, order[|order| - 1], {}, RankInOrder(g, order[..|order| - 1])).1
  }

  /** Ranks every known ticket, starting from each in an arbitrary order. */
  method RankAll(s: Snapshot, ids: set<int>) returns (ranks: map<int, int>, ghost order: seq<int>)
    ensures Elements(order) == ids && Distinct(order) && ranks == RankInOrder(s.dependencies, order)
    ensures SoundMemo(s.dependencies, ranks)
    ensures forall id :: id in ids ==> id in ranks
  {
    var table := new RankTable(s.dependencies);
    var pending := ids;
    order := [];
    while pending != {}
      invariant pending <= ids && Distinct(order) && forall id :: id in order <==> id in ids && id !in pending
      invariant table.ranks == RankInOrder(s.dependencies, order)
      invariant table.dependencies == s.dependencies && table.visiting == {}
      invariant SoundMemo(s.dependencies, table.ranks)
      invariant forall id :: id in ids && id !in pending ==> id in table.ranks
      decreases |pending|
    {
      var id := Take(pending);
      var _ := table.Rank(id);
      pending := pending - {id};
      order := order + [id];
    }
    assert forall id :: id in Elements(order) <==> id in ids;
    ranks := table.ranks;
  }

  method CollectReady(s: Snapshot, byId: map<int, Ticket>, ranks: map<int, int>) returns (ready: seq<Ticket>)
    requires Indexes(byId, s.tickets)
    ensures ready == ReadyAmong(s, ranks, s.tickets)
  {
    ready := [];
    for i := 0 to |s.tickets|
      invariant ready == ReadyAmong(s, ranks, s.tickets[..i])
    {
      assert s.tickets[..i + 1][..i] == s.tickets[..i];
      var ticket := s.tickets[i];
      if ticket.delivered || ticket.owner != "" {
        continue;
      }
      var allDelivered := AllDelivered(s, byId, Blockers(s.dependencies, ticket.issueId));
      if allDelivered {
        ready := ready + [Ranked(ticket, ranks)];
      }
    }
    assert s.tickets[..|s.tickets|] == s.tickets;
  }

  method AllDelivered(s: Snapshot, byId: map<int, Ticket>, blockers: seq<int>) returns (all: bool)
    requires Indexes(byId, s.tickets)
    ensures all <==> forall b :: b in blockers ==> DeliveredIn(s.tickets, b)
  {
    for i := 0 to |blockers|
      invariant forall k :: 0 <= k < i ==> DeliveredIn(s.tickets, blockers[k])
    {
      var blocker := blockers[i];
      if blocker !in byId || !byId[blocker].delivered {
        assert blocker in blockers && !DeliveredIn(s.tickets, blocker);
        return false;
      }
    }
    return true;
  }

  lemma BeforeIsOrder()
    ensures WeakOrder(Before)
  {}
}
