/** When a rank means something, and what a cycle does to it. */
module RankLaws {
  import opened Collections
  import opened PlanGraph
  import opened Frontier

  /** Walking round a cycle makes paths of every length. */
  lemma {:induction false} CyclePumps(g: Graph, m: int, k: nat) returns (p: seq<int>)
    requires Reaches(g, m, m)
    ensures PathFrom(g, p, m) && |p| > k
  {
    if k == 0 {
      p := [m];
    } else {
      var q := CyclePumps(g, m, k - 1);
      var loop :| PathFrom(g, loop, m) && |loop| >= 2 && loop[|loop| - 1] == m;
      p := loop + q[1..];
    }
  }

  lemma {:induction false} LongestBelow(g: Graph, n: int, bound: nat)
    requires forall p :: PathFrom(g, p, n) ==> |p| <= bound + 1
    ensures exists k: nat :: IsLongest(g, n, k)
  {
    if exists p :: PathFrom(g, p, n) && |p| == bound + 1 {
      assert IsLongest(g, n, bound);
    } else {
      assert PathFrom(g, [n], n);
      LongestBelow(g, n, bound - 1);
    }
  }

  /** A longest path exists exactly for the nodes that see no cycle. */
  lemma RankMeaningful(g: Graph, n: int)
    ensures AcyclicFrom(g, n) <==> exists k: nat :: IsLongest(g, n, k)
  {
    if AcyclicFrom(g, n) {
      forall p | PathFrom(g, p, n) ensures |p| <= |g.Keys| + 1 {
        PathIsDistinct(g, p);
        var init := p[..|p| - 1];
        forall x | x in init ensures x in g.Keys {
          var i :| 0 <= i < |init| && init[i] == x;
          assert p[i + 1] in Blockers(g, p[i]);
        }
        Pigeonhole(init, g.Keys);
      }
      LongestBelow(g, n, |g.Keys|);
    } else if k: nat :| IsLongest(g, n, k) {
      if Reaches(g, n, n) {
        var p := CyclePumps(g, n, k + 1);
      } else {
        var m :| Reaches(g, n, m) && Reaches(g, m, m);
        var p := CyclePumps(g, m, k + 1);
        var q :| PathFrom(g, q, n) && |q| >= 2 && q[|q| - 1] == m;
        assert PathFrom(g, q + p[1..], n);
      }
    }
  }

  const LOOP_GRAPH: Graph := map[1 := [2], 2 := [1], 3 := [4]]
  const FIRST := Ticket(1, 1, "", false, "", 1)
  const THIRD := Ticket(3, 3, "", false, "", 1)
  const LOOP_PLAN := Snapshot(STATE_ACTIVE, [
    Ticket(1, 1, "", false, "", 0), Ticket(2, 2, "", true, "", 0),
    Ticket(3, 3, "", false, "", 0), Ticket(4, 4, "", true, "", 0)], LOOP_GRAPH, 0, 1)

  lemma RanksFromOne()
    ensures RankInOrder(LOOP_GRAPH, [1, 2, 3, 4]) == map[1 := 2, 2 := 1, 3 := 1, 4 := 0]
  {
    var g := LOOP_GRAPH;
    var two := RankRun(g, 2, {1}, map[]);
    assert RankRun(g, 1, {1, 2}, map[]) == (0, map[]);
    assert {1} + {2} == {1, 2};
    assert RankFold(g, 2, 1, {1, 2}, map[], 1) == (1, map[]);
    assert two == (1, map[2 := 1]);
    assert RankFold(g, 1, 1, {1}, map[2 := 1], 2) == (2, map[2 := 1]);
    assert RankFold(g, 1, 0, {1}, map[], 0) == (2, map[2 := 1]);
    assert {} + {1} == {1};
    assert map[2 := 1][1 := 2] == map[1 := 2, 2 := 1];
    assert RankRun(g, 1, {}, map[]) == (2, map[1 := 2, 2 := 1]);
    RanksOfRest(map[1 := 2, 2 := 1]);
    assert [1, 2, 3, 4][..3] == [1, 2, 3] && [1, 2, 3][..2] == [1, 2] && [1, 2][..1] == [1] && [1][..0] == [];
    assert RankInOrder(g, [1]) == map[1 := 2, 2 := 1];
    assert RankInOrder(g, [1, 2]) == map[1 := 2, 2 := 1];
    assert RankInOrder(g, [1, 2, 3]) == map[1 := 2, 2 := 1, 3 := 1, 4 := 0];
  }

  lemma RanksFromTwo()
    ensures RankInOrder(LOOP_GRAPH, [2, 1, 3, 4]) == map[1 := 1, 2 := 2, 3 := 1, 4 := 0]
  {
    var g := LOOP_GRAPH;
    var one := RankRun(g, 1, {2}, map[]);
    assert {2} + {1} == {1, 2};
    assert RankRun(g, 2, {1, 2}, map[]) == (0, map[]);
    assert RankFold(g, 1, 1, {1, 2}, map[], 1) == (1, map[]);
    assert one == (1, map[1 := 1]);
    assert RankFold(g, 2, 1, {2}, map[1 := 1], 2) == (2, map[1 := 1]);
    assert RankFold(g, 2, 0, {2}, map[], 0) == (2, map[1 := 1]);
    assert {} + {2} == {2};
    assert RankRun(g, 2, {}, map[]) == (2, map[1 := 1, 2 := 2]);
    RanksOfRest(map[1 := 1, 2 := 2]);
    assert [2, 1, 3, 4][..3] == [2, 1, 3] && [2, 1, 3][..2] == [2, 1] && [2, 1][..1] == [2] && [2][..0] == [];
    assert RankInOrder(g, [2]) == map[1 := 1, 2 := 2];
    assert RankInOrder(g, [2, 1]) == map[1 := 1, 2 := 2];
    assert RankInOrder(g, [2, 1, 3]) == map[1 := 1, 2 := 2, 3 := 1, 4 := 0];
  }

  lemma RanksOfRest(memo: map<int, int>)
    requires 3 !in memo && 4 !in memo
    ensures RankRun(LOOP_GRAPH, 3, {}, memo) == (1, memo[4 := 0][3 := 1])
    ensures RankRun(LOOP_GRAPH, 4, {}, memo[4 := 0][3 := 1]) == (0, memo[4 := 0][3 := 1])
  {
    var g := LOOP_GRAPH;
    assert {} + {3} == {3};
    assert RankFold(g, 4, 0, {3, 4}, memo, 0) == (0, memo);
    assert {3} + {4} == {3, 4};
    assert RankRun(g, 4, {3}, memo) == (0, memo[4 := 0]);
    assert RankFold(g, 3, 1, {3}, memo[4 := 0], 1) == (1, memo[4 := 0]);
    assert RankFold(g, 3, 0, {3}, memo, 0) == (1, memo[4 := 0]);
  }

  /**
   * On a cyclic graph the frontier is not order-free: over one and the same snapshot,
   * ranking from issue 1 dispatches ticket 3 and ranking from issue 2 dispatches ticket 1.
   */
  lemma CycleShowsVisitingOrder()
    ensures VisitsAll(LOOP_PLAN, [1, 2, 3, 4]) && VisitsAll(LOOP_PLAN, [2, 1, 3, 4])
    ensures IsFrontier(LOOP_PLAN, RankInOrder(LOOP_GRAPH, [1, 2, 3, 4]), [THIRD])
    ensures IsFrontier(LOOP_PLAN, RankInOrder(LOOP_GRAPH, [2, 1, 3, 4]), [FIRST])
  {
    LoopKnows();
    RanksFromOne();
    RanksFromTwo();
    LoopFrontierOne(map[1 := 2, 2 := 1, 3 := 1, 4 := 0]);
    LoopFrontierTwo(map[1 := 1, 2 := 2, 3 := 1, 4 := 0]);
  }

  lemma LoopFrontierOne(ranks: map<int, int>)
    requires 1 in ranks && 3 in ranks && ranks[1] == 2 && ranks[3] == 1
    ensures IsFrontier(LOOP_PLAN, ranks, [THIRD])
  {
    LoopReady(ranks);
    var ready, queue := [FIRST.(rank := 2), THIRD], [THIRD, FIRST.(rank := 2)];
    assert ReadyAmong(LOOP_PLAN, ranks, LOOP_PLAN.tickets) == ready;
    LoopCut(ready, queue);
  }

  lemma LoopFrontierTwo(ranks: map<int, int>)
    requires 1 in ranks && 3 in ranks && ranks[1] == 1 && ranks[3] == 1
    ensures IsFrontier(LOOP_PLAN, ranks, [FIRST])
  {
    LoopReady(ranks);
    var ready := [FIRST, THIRD];
    assert ReadyAmong(LOOP_PLAN, ranks, LOOP_PLAN.tickets) == ready;
    LoopCut(ready, ready);
  }

  lemma LoopCut(ready: seq<Ticket>, queue: seq<Ticket>)
    requires |ready| == |queue| == 2
    requires queue == ready || queue == [ready[1], ready[0]]
    requires Before(queue[0], queue[1])
    ensures IsCut(ready, 1, [queue[0]])
  {
    assert ready == [ready[0], ready[1]] && queue == [queue[0], queue[1]];
    assert Permutes(queue, ready);
    assert queue[..1] == [queue[0]];
  }

  lemma LoopKnows()
    ensures VisitsAll(LOOP_PLAN, [1, 2, 3, 4]) && VisitsAll(LOOP_PLAN, [2, 1, 3, 4])
  {
    var t := LOOP_PLAN.tickets;
    assert t[0].issueId == 1 && t[1].issueId == 2 && t[2].issueId == 3 && t[3].issueId == 4;
    assert t[0] in t && t[1] in t && t[2] in t && t[3] in t;
  }

  lemma LoopReady(ranks: map<int, int>)
    requires 1 in ranks && 3 in ranks
    ensures ReadyAmong(LOOP_PLAN, ranks, LOOP_PLAN.tickets) == [FIRST.(rank := ranks[1]), THIRD.(rank := ranks[3])]
  {
    var s, t := LOOP_PLAN, LOOP_PLAN.tickets;
    assert t[..4] == t && t[..3] == [t[0], t[1], t[2]] && t[..3][..2] == [t[0], t[1]]
        && [t[0], t[1]][..1] == [t[0]] && [t[0]][..0] == [];
    assert Lookup(t, 4) == Some(t[3]);
    assert Lookup(t[..3], 2) == Lookup([t[0], t[1]], 2) == Some(t[1]);
    assert Lookup(t, 2) == Some(t[1]);
    assert Ready(s, t[0]) && !Ready(s, t[1]) && Ready(s, t[2]) && !Ready(s, t[3]);
    assert ReadyAmong(s, ranks, [t[0]]) == [Ranked(t[0], ranks)];
    assert ReadyAmong(s, ranks, [t[0], t[1]]) == [Ranked(t[0], ranks)];
    assert ReadyAmong(s, ranks, t[..3]) == [Ranked(t[0], ranks), Ranked(t[2], ranks)];
  }
}
