/** Which plans are admitted, told from the issues alone. */
module AdmissionLaws {
  import opened Collections
  import opened PlanGraph
  import opened PlanModel

  /** A repository, and a root that is a plan and no ticket. */
  predicate NamedRoot(s: Snapshot) {
    && s.repository != "" && s.root.id != 0 && s.root.number != 0
    && "workflow:plan" in s.root.labels && "workflow:ticket" !in s.root.labels
  }

  /** The issue has an id and a number, and neither is the root's. */
  predicate NamedApart(s: Snapshot, i: Issue) {
    i.id != 0 && i.number != 0 && i.id != s.root.id && i.number != s.root.number
  }

  /** Sub-issues: at least one, tickets all of them, no id and no number twice. */
  ghost predicate ProperChildren(s: Snapshot) {
    && s.children != []
    && (forall c :: c in s.children ==> NamedApart(s, c) && "workflow:ticket" in c.labels)
    && forall i, j :: 0 <= i < j < |s.children| ==>
         s.children[i].id != s.children[j].id && s.children[i].number != s.children[j].number
  }

  ghost predicate IsChild(s: Snapshot, id: int) { exists c :: c in s.children && c.id == id }

  /** Blockers: children that block children, each once, and delivered when closed. */
  ghost predicate ProperBlockers(s: Snapshot, blocked: int)
    requires blocked in s.blockedBy
  {
    var blockers := s.blockedBy[blocked];
    && IsChild(s, blocked)
    && (forall b :: b in blockers ==> NamedApart(s, b) && IsChild(s, b.id) && (b.state == "closed" ==> b.delivered))
    && forall i, j :: 0 <= i < j < |blockers| ==> blockers[i].id != blockers[j].id
  }

  /** Issue `id` is listed as a blocker of issue `blocked`. */
  ghost predicate BlockedBy(s: Snapshot, blocked: int, id: int) {
    blocked in s.blockedBy && exists b :: b in s.blockedBy[blocked] && b.id == id
  }

  /** A walk from blocked issues to their blockers that comes back to where it began. */
  ghost predicate Ring(s: Snapshot, p: seq<int>) {
    |p| >= 2 && p[0] == p[|p| - 1] && forall i :: 0 <= i < |p| - 1 ==> BlockedBy(s, p[i], p[i + 1])
  }

  lemma IdsOf(issues: seq<Issue>, id: int)
    ensures id in Ids(issues) <==> exists i :: i in issues && i.id == id
  {
    if i :| i in issues && i.id == id {
      var k :| 0 <= k < |issues| && issues[k] == i;
      assert Ids(issues)[k] == id;
    }
    if id in Ids(issues) {
      var k :| 0 <= k < |issues| && Ids(issues)[k] == id;
      assert issues[k] in issues;
    }
  }

  lemma ChildOf(s: Snapshot, id: int)
    ensures id in Ids(s.children) <==> IsChild(s, id)
  {
    IdsOf(s.children, id);
  }

  lemma EdgeMeans(s: Snapshot, blocked: int, id: int)
    ensures id in Blockers(BlockerGraph(s), blocked) <==> BlockedBy(s, blocked, id)
  {
    if blocked in s.blockedBy { IdsOf(s.blockedBy[blocked], id); }
  }

  lemma RootMeans(s: Snapshot)
    ensures RootAdmissible(s) <==> NamedRoot(s) && s.children != []
  {}

  lemma ChildrenMean(s: Snapshot)
    requires s.children != []
    ensures ChildrenAdmissible(s) <==> ProperChildren(s)
  {
    var ids, numbers := Ids(s.children), Numbers(s.children);
    assert forall c :: ChildAdmissible(s, c) <==> NamedApart(s, c) && "workflow:ticket" in c.labels;
    if ProperChildren(s) {
      forall i, j | 0 <= i < j < |ids| ensures ids[i] != ids[j] && numbers[i] != numbers[j] {}
    }
    if ChildrenAdmissible(s) {
      forall i, j | 0 <= i < j < |s.children|
        ensures s.children[i].id != s.children[j].id && s.children[i].number != s.children[j].number
      {
        assert ids[i] != ids[j] && numbers[i] != numbers[j];
      }
    }
  }

  lemma BlockersMean(s: Snapshot, blocked: int)
    requires blocked in s.blockedBy
    ensures BlockersAdmissible(s, blocked) <==> ProperBlockers(s, blocked)
  {
    var blockers := s.blockedBy[blocked];
    var ids := Ids(blockers);
    ChildOf(s, blocked);
    forall b ensures BlockerAdmissible(s, b) <==> NamedApart(s, b) && IsChild(s, b.id) && (b.state == "closed" ==> b.delivered) {
      ChildOf(s, b.id);
    }
    if ProperBlockers(s, blocked) {
      forall i, j | 0 <= i < j < |ids| ensures ids[i] != ids[j] {}
    }
    if BlockersAdmissible(s, blocked) {
      forall i, j | 0 <= i < j < |blockers| ensures blockers[i].id != blockers[j].id { assert ids[i] != ids[j]; }
    }
  }

  lemma RingsMean(s: Snapshot)
    requires forall blocked :: blocked in s.blockedBy ==> ProperBlockers(s, blocked)
    ensures Cyclic(BlockerGraph(s), Elements(Ids(s.children))) <==> exists p :: Ring(s, p)
  {
    var g, nodes := BlockerGraph(s), Elements(Ids(s.children));
    forall a, b ensures b in Blockers(g, a) <==> BlockedBy(s, a, b) { EdgeMeans(s, a, b); }
    if Cyclic(g, nodes) {
      var n :| n in nodes && Reaches(g, n, n);
      var p :| PathFrom(g, p, n) && |p| >= 2 && p[|p| - 1] == n;
      assert Ring(s, p);
    }
    if p :| Ring(s, p) {
      var n := p[0];
      assert BlockedBy(s, p[0], p[1]);
      ChildOf(s, n);
      assert PathFrom(g, p, n);
      assert Reaches(g, n, n) && n in nodes;
    }
  }

  /**
   * A plan is admitted exactly when its root is a plan, its sub-issues are tickets, its blockers are
   * among them, delivered when closed, and nothing waits for itself.
   */
  lemma AdmissionMeans(s: Snapshot)
    ensures ValidPlan(s) <==>
      && NamedRoot(s) && ProperChildren(s)
      && (forall blocked :: blocked in s.blockedBy ==> ProperBlockers(s, blocked))
      && !exists p :: Ring(s, p)
  {
    RootMeans(s);
    if s.children != [] { ChildrenMean(s); }
    forall blocked | blocked in s.blockedBy ensures BlockersAdmissible(s, blocked) <==> ProperBlockers(s, blocked) {
      BlockersMean(s, blocked);
    }
    if forall blocked :: blocked in s.blockedBy ==> ProperBlockers(s, blocked) { RingsMean(s); }
  }
}
