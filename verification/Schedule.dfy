/** Whole scheduling runs over one admitted plan. */
module Schedule {
  import opened Collections
  import opened PlanGraph
  import opened Frontier
  import opened FrontierLaws
  import RankLaws
  import PlanModel

  const STATE_WAITING_REVIEW := "waiting_review"

  /** Where a ticket stands: free, owned by a live run, owned while waiting for review, delivered. */
  datatype Phase = Idle | Running(owner: string) | Waiting | Delivered

  type State = map<int, Phase>

  /** `tickets` carries the identities; owner and delivery come from the state. */
  datatype Plan = Plan(tickets: seq<Ticket>, graph: Graph, maxParallel: int)

  ghost function Ids(plan: Plan): set<int> { Elements(TicketIds(plan.tickets)) }

  ghost predicate PlanOk(plan: Plan) {
    && Distinct(TicketIds(plan.tickets))
    && Closed(plan.graph, Ids(plan))
    && !Cyclic(plan.graph, Ids(plan))
    && plan.maxParallel >= 1
  }

  /** The plan a GitHub snapshot activates. */
  function PlanOf(s: PlanModel.Snapshot, maxParallel: int): Plan {
    Plan(seq(|s.children|, i requires 0 <= i < |s.children| =>
           Ticket(s.children[i].id, s.children[i].number, s.children[i].title, false, "", 0)),
         PlanModel.BlockerGraph(s), maxParallel)
  }

  /** What admission guarantees is what scheduling relies on. */
  lemma AdmittedPlanOk(s: PlanModel.Snapshot, maxParallel: int)
    requires PlanModel.ValidPlan(s) && maxParallel >= 1
    ensures PlanOk(PlanOf(s, maxParallel))
  {
    var plan := PlanOf(s, maxParallel);
    assert TicketIds(plan.tickets) == PlanModel.Ids(s.children);
    PlanModel.ValidPlanClosed(s);
  }

  function RunningIds(st: State): set<int> { set id | id in st && st[id].Running? }

  predicate Owned(p: Phase) { p.Running? || p.Waiting? }

  function InPhase(t: Ticket, st: State): Ticket {
    if t.issueId !in st then t
    else match st[t.issueId]
      case Idle => t.(delivered := false, owner := "")
      case Running(owner) => t.(delivered := false, owner := owner)
      case Waiting => t.(delivered := false, owner := STATE_WAITING_REVIEW)
      case Delivered => t.(delivered := true, owner := "")
  }

  /** The snapshot the store would load in this state. */
  function SnapshotOf(plan: Plan, st: State): Snapshot {
    Snapshot(STATE_ACTIVE,
             seq(|plan.tickets|, i requires 0 <= i < |plan.tickets| => InPhase(plan.tickets[i], st)),
             plan.graph, |RunningIds(st)|, plan.maxParallel)
  }

  // ----- Steps ------------------------------------------------------------------

  datatype Event =
    | Claim(id: int, owner: string)
    | Park(id: int)
    | Resume(id: int, owner: string)
    | Deliver(id: int)
    | Release(id: int)

  ghost predicate InFrontier(plan: Plan, st: State, id: int) {
    exists ranks: map<int, int>, frontier: seq<Ticket>, x: Ticket ::
      && RanksOf(SnapshotOf(plan, st), ranks)
      && IsFrontier(SnapshotOf(plan, st), ranks, frontier)
      && x in frontier && x.issueId == id
  }

  ghost predicate Enabled(plan: Plan, st: State, e: Event) {
    && e.id in st
    && match e
       case Claim(id, owner) => owner != "" && InFrontier(plan, st, id)
       case Park(id) => st[id].Running?
       case Resume(id, owner) => owner != "" && st[id].Waiting? && |RunningIds(st)| < plan.maxParallel
       case Deliver(id) => Owned(st[id])
       case Release(id) => Owned(st[id])
  }

  function After(st: State, e: Event): State {
    match e
    case Claim(id, owner) => st[id := Running(owner)]
    case Park(id) => st[id := Waiting]
    case Resume(id, owner) => st[id := Running(owner)]
    case Deliver(id) => st[id := Delivered]
    case Release(id) => st[id := Idle]
  }

  ghost predicate Step(plan: Plan, st: State, st': State) {
    exists e :: Enabled(plan, st, e) && st' == After(st, e)
  }

  /** A run, failures included: consecutive states are steps apart. */
  ghost predicate Run(plan: Plan, states: seq<State>) {
    && states != []
    && forall i :: 0 <= i < |states| - 1 ==> Step(plan, states[i], states[i + 1])
  }

  /** Nothing is released, and no review sends a ticket back to work. */
  predicate Clean(e: Event) { !e.Release? && !e.Resume? }

  ghost predicate CleanStep(plan: Plan, st: State, st': State) {
    exists e: Event :: Clean(e) && Enabled(plan, st, e) && st' == After(st, e)
  }

  ghost predicate CleanRun(plan: Plan, states: seq<State>) {
    && states != []
    && forall i :: 0 <= i < |states| - 1 ==> CleanStep(plan, states[i], states[i + 1])
  }

  // ----- Safety -----------------------------------------------------------------

  ghost predicate Safe(plan: Plan, st: State) {
    && st.Keys == Ids(plan)
    && (forall id :: id in st && st[id].Running? ==> st[id].owner != "")
    && |RunningIds(st)| <= plan.maxParallel
    && BlockersFirst(plan, st)
  }

  /** Delivery never runs ahead of the blockers. */
  ghost predicate DeliveredInOrder(plan: Plan, st: State) {
    forall id, b :: id in st && st[id].Delivered? && b in Blockers(plan.graph, id) ==> b in st && st[b].Delivered?
  }

  /** What the loaded ticket shows of its phase. */
  predicate Shows(t: Ticket, p: Phase) {
    && (t.delivered <==> p.Delivered?)
    && (t.owner == "" ==> !p.Waiting?)
    && (p.Idle? || p.Delivered? ==> t.owner == "")
    && (p.Running? ==> t.owner == p.owner)
  }

  ghost predicate Identified(plan: Plan, st: State) {
    Distinct(TicketIds(plan.tickets)) && st.Keys == Ids(plan)
  }

  lemma SnapshotTickets(plan: Plan, st: State)
    requires Identified(plan, st)
    ensures UniqueIds(SnapshotOf(plan, st))
    ensures forall t :: t in SnapshotOf(plan, st).tickets ==> t.issueId in st && Shows(t, st[t.issueId])
  {
    var s := SnapshotOf(plan, st);
    assert TicketIds(s.tickets) == TicketIds(plan.tickets);
    forall t | t in s.tickets ensures t.issueId in st && Shows(t, st[t.issueId]) {
      var i :| 0 <= i < |s.tickets| && s.tickets[i] == t;
      assert TicketIds(plan.tickets)[i] == t.issueId;
    }
  }

  lemma SnapshotHas(plan: Plan, st: State, id: int) returns (t: Ticket)
    requires Identified(plan, st) && id in st
    ensures t in SnapshotOf(plan, st).tickets && t.issueId == id && Shows(t, st[id])
  {
    var s := SnapshotOf(plan, st);
    var i :| 0 <= i < |plan.tickets| && TicketIds(plan.tickets)[i] == id;
    t := s.tickets[i];
  }

  lemma DeliveredMeans(plan: Plan, st: State, id: int)
    requires Identified(plan, st)
    ensures DeliveredIn(SnapshotOf(plan, st).tickets, id) <==> id in st && st[id].Delivered?
  {
    var tickets := SnapshotOf(plan, st).tickets;
    SnapshotTickets(plan, st);
    LookupKnows(tickets, id);
    if id in st {
      var t := SnapshotHas(plan, st, id);
    }
  }

  lemma ReadyMeans(plan: Plan, st: State, t: Ticket)
    requires Identified(plan, st) && Ready(SnapshotOf(plan, st), t)
    ensures forall b :: b in Blockers(plan.graph, t.issueId) ==> b in st && st[b].Delivered?
  {
    var s := SnapshotOf(plan, st);
    forall b | b in Blockers(plan.graph, t.issueId) ensures b in st && st[b].Delivered? {
      assert b in Blockers(s.dependencies, t.issueId);
      DeliveredMeans(plan, st, b);
    }
  }

  lemma FrontierMember(plan: Plan, st: State, id: int)
    requires Identified(plan, st) && InFrontier(plan, st, id)
    requires forall id :: id in st && st[id].Running? ==> st[id].owner != ""
    ensures id in st && st[id].Idle? && |RunningIds(st)| < plan.maxParallel
    ensures forall b :: b in Blockers(plan.graph, id) ==> b in st && st[b].Delivered?
  {
    var s := SnapshotOf(plan, st);
    var ranks: map<int, int>, frontier: seq<Ticket>, x: Ticket :|
      RanksOf(s, ranks) && IsFrontier(s, ranks, frontier) && x in frontier && x.issueId == id;
    SnapshotTickets(plan, st);
    FrontierIsLeast(s, ranks, frontier);
    var t :| t in s.tickets && Ready(s, t) && x == Ranked(t, ranks);
    ReadyMeans(plan, st, t);
  }

  lemma RunningAfter(st: State, e: Event)
    requires e.id in st
    ensures RunningIds(After(st, e)) == if e.Claim? || e.Resume? then RunningIds(st) + {e.id} else RunningIds(st) - {e.id}
  {}

  lemma StepSafe(plan: Plan, st: State, e: Event)
    requires Identified(plan, st) && Safe(plan, st) && Enabled(plan, st, e)
    ensures Safe(plan, After(st, e))
    ensures DeliveredInOrder(plan, st) ==> DeliveredInOrder(plan, After(st, e))
  {
    if e.Claim? {
      ClaimSafe(plan, st, e);
    } else {
      OtherSafe(plan, st, e);
    }
  }

  lemma ClaimSafe(plan: Plan, st: State, e: Event)
    requires Identified(plan, st) && Safe(plan, st) && Enabled(plan, st, e) && e.Claim?
    ensures Safe(plan, After(st, e))
    ensures DeliveredInOrder(plan, st) ==> DeliveredInOrder(plan, After(st, e))
  {
    RunningAfter(st, e);
    FrontierMember(plan, st, e.id);
    ClaimBlockers(plan, st, e.id, e.owner);
  }

  lemma OtherSafe(plan: Plan, st: State, e: Event)
    requires Identified(plan, st) && Safe(plan, st) && Enabled(plan, st, e) && !e.Claim?
    ensures Safe(plan, After(st, e))
    ensures DeliveredInOrder(plan, st) ==> DeliveredInOrder(plan, After(st, e))
  {
    RunningAfter(st, e);
    if !e.Resume? { SubsetSize(RunningIds(st) - {e.id}, RunningIds(st)); }
    OtherBlockers(plan, st, e);
  }

  ghost predicate BlockersFirst(plan: Plan, st: State) {
    forall id, b :: id in st && Owned(st[id]) && b in Blockers(plan.graph, id) ==> b in st && st[b].Delivered?
  }

  lemma ClaimBlockers(plan: Plan, st: State, id: int, owner: string)
    requires BlockersFirst(plan, st) && id in st && st[id].Idle?
    requires forall b :: b in Blockers(plan.graph, id) ==> b in st && st[b].Delivered?
    ensures BlockersFirst(plan, st[id := Running(owner)])
    ensures DeliveredInOrder(plan, st) ==> DeliveredInOrder(plan, st[id := Running(owner)])
  {}

  lemma OtherBlockers(plan: Plan, st: State, e: Event)
    requires BlockersFirst(plan, st) && e.id in st && Owned(st[e.id]) && !e.Claim?
    ensures BlockersFirst(plan, After(st, e))
    ensures DeliveredInOrder(plan, st) ==> DeliveredInOrder(plan, After(st, e))
  {}

  lemma {:induction false} RunSafeAt(plan: Plan, states: seq<State>, i: nat)
    requires PlanOk(plan) && Run(plan, states) && Safe(plan, states[0]) && i < |states|
    ensures Safe(plan, states[i])
    ensures DeliveredInOrder(plan, states[0]) ==> DeliveredInOrder(plan, states[i])
  {
    if i > 0 {
      RunSafeAt(plan, states, i - 1);
      assert Step(plan, states[i - 1], states[i - 1 + 1]);
      var e :| Enabled(plan, states[i - 1], e) && states[i] == After(states[i - 1], e);
      StepSafe(plan, states[i - 1], e);
    }
  }

  /** Every reachable state: owned tickets have their blockers delivered, capacity holds. */
  lemma RunSafe(plan: Plan, states: seq<State>)
    requires PlanOk(plan) && Run(plan, states) && Safe(plan, states[0])
    ensures forall i :: 0 <= i < |states| ==> Safe(plan, states[i])
    ensures DeliveredInOrder(plan, states[0]) ==> forall i :: 0 <= i < |states| ==> DeliveredInOrder(plan, states[i])
  {
    forall i | 0 <= i < |states|
      ensures Safe(plan, states[i]) && (DeliveredInOrder(plan, states[0]) ==> DeliveredInOrder(plan, states[i]))
    {
      RunSafeAt(plan, states, i);
    }
  }

  /** What a plan starts from: some tickets may have been delivered before it was activated. */
  ghost function Beginning(plan: Plan, delivered: set<int>): State {
    map id | id in Ids(plan) :: if id in delivered then Delivered else Idle
  }

  /** Every plan starts safe, and in order when what was delivered before is closed under blockers. */
  lemma BeginningSafe(plan: Plan, delivered: set<int>)
    requires PlanOk(plan)
    ensures Safe(plan, Beginning(plan, delivered))
    ensures DeliveredInOrder(plan, Beginning(plan, delivered)) <==>
            forall id, b :: id in Ids(plan) && id in delivered && b in Blockers(plan.graph, id) ==> b in delivered
  {
    var st := Beginning(plan, delivered);
    assert RunningIds(st) == {};
    assert st.Keys == Ids(plan);
    assert forall id :: id in st ==> (st[id].Delivered? <==> id in delivered);
    if DeliveredInOrder(plan, st) {
      forall id, b | id in Ids(plan) && id in delivered && b in Blockers(plan.graph, id) ensures b in delivered {
        assert id in st && st[id].Delivered?;
      }
    }
  }

  /** An admitted plan is safe in every state of every run from its beginning. */
  lemma AdmittedRunsSafe(s: PlanModel.Snapshot, maxParallel: int, delivered: set<int>, states: seq<State>)
    requires PlanModel.ValidPlan(s) && maxParallel >= 1
    requires Run(PlanOf(s, maxParallel), states) && states[0] == Beginning(PlanOf(s, maxParallel), delivered)
    ensures forall i :: 0 <= i < |states| ==> Safe(PlanOf(s, maxParallel), states[i])
    ensures delivered == {} ==> forall i :: 0 <= i < |states| ==> DeliveredInOrder(PlanOf(s, maxParallel), states[i])
  {
    var plan := PlanOf(s, maxParallel);
    AdmittedPlanOk(s, maxParallel);
    BeginningSafe(plan, delivered);
    RunSafe(plan, states);
  }

  // ----- Progress -----------------------------------------------------------------

  ghost predicate AllDone(st: State) { forall id :: id in st ==> st[id].Delivered? }

  /** Below any undelivered ticket there is one whose blockers are all delivered. */
  lemma {:induction false} LowestUndelivered(plan: Plan, st: State, n: int, k: nat) returns (m: int)
    requires PlanOk(plan) && st.Keys == Ids(plan)
    requires n in st && !st[n].Delivered? && IsLongest(plan.graph, n, k)
    ensures m in st && !st[m].Delivered?
    ensures forall b :: b in Blockers(plan.graph, m) ==> b in st && st[b].Delivered?
    decreases k
  {
    if b :| b in Blockers(plan.graph, n) && !st[b].Delivered? {
      AcyclicNode(plan.graph, Ids(plan), b);
      RankLaws.RankMeaningful(plan.graph, b);
      var j: nat :| IsLongest(plan.graph, b, j);
      var q :| PathFrom(plan.graph, q, b) && |q| == j + 1;
      assert PathFrom(plan.graph, [n] + q, n);
      m := LowestUndelivered(plan, st, b, j);
    } else {
      m := n;
    }
  }

  lemma PlanAcyclic(plan: Plan, st: State)
    requires PlanOk(plan)
    ensures NoReadyCycle(SnapshotOf(plan, st))
  {
    var s := SnapshotOf(plan, st);
    forall t | t in s.tickets ensures AcyclicFrom(plan.graph, t.issueId) {
      var i :| 0 <= i < |s.tickets| && s.tickets[i] == t;
      assert TicketIds(plan.tickets)[i] == t.issueId;
      AcyclicNode(plan.graph, Ids(plan), t.issueId);
    }
  }

  /** In every state of every run the rule has one preview, however the map is walked. */
  lemma OneFrontier(plan: Plan, st: State, r: map<int, int>, f: seq<Ticket>, q: map<int, int>, h: seq<Ticket>)
    requires PlanOk(plan) && Safe(plan, st)
    requires RanksOf(SnapshotOf(plan, st), r) && IsFrontier(SnapshotOf(plan, st), r, f)
    requires RanksOf(SnapshotOf(plan, st), q) && IsFrontier(SnapshotOf(plan, st), q, h)
    ensures f == h
  {
    PlanAcyclic(plan, st);
    SnapshotTickets(plan, st);
    FrontierOrderFree(SnapshotOf(plan, st), r, f, SnapshotOf(plan, st), q, h);
  }

  /** No stuck state: with a ticket undelivered, one is owned or every preview is non-empty. */
  lemma NotStuck(plan: Plan, st: State, ranks: map<int, int>, frontier: seq<Ticket>)
    requires PlanOk(plan) && Safe(plan, st) && !AllDone(st)
    requires RanksOf(SnapshotOf(plan, st), ranks) && IsFrontier(SnapshotOf(plan, st), ranks, frontier)
    ensures (exists id :: id in st && Owned(st[id])) || frontier != []
  {
    if forall id :: id in st ==> !Owned(st[id]) {
      assert RunningIds(st) == {};
      var m := Startable(plan, st);
      var t := StartableReady(plan, st, m);
      var s := SnapshotOf(plan, st);
      ReadyMembers(s, ranks, s.tickets, Ranked(t, ranks));
      SnapshotTickets(plan, st);
      FrontierIsLeast(s, ranks, frontier);
    }
  }

  /** Some undelivered ticket has all its blockers delivered. */
  lemma Startable(plan: Plan, st: State) returns (m: int)
    requires PlanOk(plan) && st.Keys == Ids(plan) && !AllDone(st)
    ensures m in st && !st[m].Delivered?
    ensures forall b :: b in Blockers(plan.graph, m) ==> b in st && st[b].Delivered?
  {
    var n :| n in st && !st[n].Delivered?;
    AcyclicNode(plan.graph, Ids(plan), n);
    RankLaws.RankMeaningful(plan.graph, n);
    var k: nat :| IsLongest(plan.graph, n, k);
    m := LowestUndelivered(plan, st, n, k);
  }

  lemma StartableReady(plan: Plan, st: State, m: int) returns (t: Ticket)
    requires Identified(plan, st) && m in st && !st[m].Delivered? && !Owned(st[m])
    requires forall b :: b in Blockers(plan.graph, m) ==> b in st && st[b].Delivered?
    ensures t in SnapshotOf(plan, st).tickets && t.issueId == m && Ready(SnapshotOf(plan, st), t)
  {
    var s := SnapshotOf(plan, st);
    t := SnapshotHas(plan, st, m);
    forall b | b in Blockers(s.dependencies, m) ensures DeliveredIn(s.tickets, b) { DeliveredMeans(plan, st, b); }
  }

  /** The rule always has a preview to offer. */
  lemma FrontierExists(plan: Plan, st: State) returns (ranks: map<int, int>, frontier: seq<Ticket>)
    requires PlanOk(plan)
    ensures RanksOf(SnapshotOf(plan, st), ranks) && IsFrontier(SnapshotOf(plan, st), ranks, frontier)
  {
    var s := SnapshotOf(plan, st);
    var ids := Elements(TicketIds(s.tickets));
    ranks := map id | id in ids :: LongestOf(s.dependencies, id);
    forall t | t in s.tickets ensures t.issueId in ranks {
      var i :| 0 <= i < |s.tickets| && s.tickets[i] == t;
      assert TicketIds(s.tickets)[i] in TicketIds(s.tickets);
    }
    forall n | n in ranks && AcyclicFrom(s.dependencies, n) ensures IsLongest(s.dependencies, n, ranks[n]) {
      RankLaws.RankMeaningful(s.dependencies, n);
    }
    frontier := CutExists(s, ranks);
  }

  lemma CutExists(s: Snapshot, ranks: map<int, int>) returns (frontier: seq<Ticket>)
    ensures IsFrontier(s, ranks, frontier)
  {
    frontier := [];
    if Open(s) {
      BeforeIsOrder();
      var queue := SortExists(Before, ReadyAmong(s, ranks, s.tickets));
      frontier := queue[..Min(s.maxParallel - s.activeRuns, |queue|)];
    }
  }

  ghost function LongestOf(g: Graph, n: int): int {
    if exists k: nat :: IsLongest(g, n, k) then
      var k: nat :| IsLongest(g, n, k); k
    else 0
  }

  /** Until everything is delivered some claim or delivery is possible. */
  lemma CleanStepExists(plan: Plan, st: State) returns (e: Event)
    requires PlanOk(plan) && Safe(plan, st) && !AllDone(st)
    ensures (e.Claim? || e.Deliver?) && Enabled(plan, st, e)
  {
    if id :| id in st && Owned(st[id]) {
      e := Deliver(id);
    } else {
      var ranks, frontier := FrontierExists(plan, st);
      NotStuck(plan, st, ranks, frontier);
      var x := frontier[0];
      assert x in frontier;
      e := Claim(x.issueId, "agent");
      FrontierMember(plan, st, x.issueId);
    }
  }

  function PhaseWeight(p: Phase): nat {
    match p case Idle => 3 case Running(_) => 2 case Waiting => 1 case Delivered => 0
  }

  ghost function Weight(st: State, ids: seq<int>): nat {
    if ids == [] then 0
    else (if ids[0] in st then PhaseWeight(st[ids[0]]) else 0) + Weight(st, ids[1..])
  }

  lemma {:induction false} WeightUpdate(st: State, ids: seq<int>, id: int, p: Phase)
    requires Distinct(ids) && id in st
    ensures Weight(st[id := p], ids) == Weight(st, ids) + if id in ids then PhaseWeight(p) - PhaseWeight(st[id]) else 0
  {
    if ids != [] {
      WeightUpdate(st, ids[1..], id, p);
      assert id in ids <==> id == ids[0] || id in ids[1..];
      assert id in ids[1..] ==> id != ids[0];
    }
  }

  ghost function PlanWeight(plan: Plan, st: State): nat { Weight(st, TicketIds(plan.tickets)) }

  lemma CleanStepLightens(plan: Plan, st: State, e: Event)
    requires PlanOk(plan) && Safe(plan, st) && Enabled(plan, st, e) && Clean(e)
    ensures PlanWeight(plan, After(st, e)) < PlanWeight(plan, st)
  {
    if e.Claim? { FrontierMember(plan, st, e.id); }
    WeightUpdate(st, TicketIds(plan.tickets), e.id, After(st, e)[e.id]);
    assert e.id in Ids(plan);
  }

  /**
   * Failure-free runs: they are bounded by the weight they start from, and one that
   * cannot go on (no claim and no delivery is possible any more) has delivered every ticket.
   */
  lemma {:induction false} CleanRunBounded(plan: Plan, states: seq<State>)
    requires PlanOk(plan) && CleanRun(plan, states) && Safe(plan, states[0])
    ensures Safe(plan, states[|states| - 1])
    ensures |states| - 1 + PlanWeight(plan, states[|states| - 1]) <= PlanWeight(plan, states[0])
  {
    if |states| > 1 {
      var k := |states| - 2;
      assert CleanStep(plan, states[k], states[k + 1]);
      CleanRunBounded(plan, states[..k + 1]);
      var e: Event :| Clean(e) && Enabled(plan, states[k], e) && states[k + 1] == After(states[k], e);
      StepSafe(plan, states[k], e);
      CleanStepLightens(plan, states[k], e);
    }
  }

  /** No failure-free step is possible. */
  ghost predicate Ended(plan: Plan, st: State) {
    forall st' :: !CleanStep(plan, st, st')
  }

  lemma MaximalRunDelivers(plan: Plan, states: seq<State>)
    requires PlanOk(plan) && CleanRun(plan, states) && Safe(plan, states[0])
    ensures Ended(plan, states[|states| - 1]) <==> AllDone(states[|states| - 1])
  {
    CleanRunBounded(plan, states);
    var last := states[|states| - 1];
    if AllDone(last) {
      forall st' ensures !CleanStep(plan, last, st') { DoneIsEnd(plan, last, st'); }
    } else {
      var e := CleanStepExists(plan, last);
      StepsCleanly(plan, last, e);
    }
  }

  lemma StepsCleanly(plan: Plan, st: State, e: Event)
    requires Clean(e) && Enabled(plan, st, e)
    ensures CleanStep(plan, st, After(st, e))
  {}

  lemma DoneIsEnd(plan: Plan, st: State, st': State)
    requires PlanOk(plan) && Safe(plan, st) && AllDone(st)
    ensures !CleanStep(plan, st, st')
  {
    if CleanStep(plan, st, st') {
      var e: Event :| Clean(e) && Enabled(plan, st, e) && st' == After(st, e);
      if e.Claim? { FrontierMember(plan, st, e.id); }
    }
  }

  /** However many failures came before, every safe state can still be driven to completion. */
  lemma {:induction false} CompletionReachable(plan: Plan, st: State) returns (states: seq<State>)
    requires PlanOk(plan) && Safe(plan, st)
    ensures CleanRun(plan, states) && states[0] == st && AllDone(states[|states| - 1])
    decreases PlanWeight(plan, st)
  {
    if AllDone(st) {
      states := [st];
    } else {
      var e := CleanStepExists(plan, st);
      StepSafe(plan, st, e);
      CleanStepLightens(plan, st, e);
      StepsCleanly(plan, st, e);
      var rest := CompletionReachable(plan, After(st, e));
      StepThenRun(plan, st, rest);
      states := [st] + rest;
    }
  }

  lemma StepThenRun(plan: Plan, st: State, rest: seq<State>)
    requires CleanRun(plan, rest) && CleanStep(plan, st, rest[0])
    ensures CleanRun(plan, [st] + rest) && ([st] + rest)[|rest|] == rest[|rest| - 1]
  {
    var states := [st] + rest;
    forall i | 0 <= i < |states| - 1 ensures CleanStep(plan, states[i], states[i + 1]) {
      if i > 0 { assert CleanStep(plan, rest[i - 1], rest[i - 1 + 1]); }
    }
  }
}
