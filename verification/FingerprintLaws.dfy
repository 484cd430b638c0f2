/** What a plan's fingerprint takes from labels and blockers, in plain words. */
module FingerprintLaws {
  import opened Collections
  import opened Text
  import opened PlanGraph
  import opened PlanModel
  import opened Fingerprint
  import SB = StatusBlock

  // ----- Labels ---------------------------------------------------------------------------

  /** Labels that say how far a plan is, and not what it is. */
  predicate Progress(name: string) { name in {"workflow:active", "workflow:delivered"} }

  /** Progress labels are left out of the print; of any other label every occurrence is kept. */
  lemma {:induction false} ContractLabelCount(labels: seq<string>, name: string)
    ensures multiset(ContractLabels(labels))[name] == if Progress(name) then 0 else multiset(labels)[name]
  {
    if labels != [] {
      var init, last := labels[..|labels| - 1], labels[|labels| - 1];
      ContractLabelCount(init, name);
      assert labels == init + [last];
    }
  }

  /** The labels agree but for how often, and where, progress labels occur. */
  ghost predicate AlikeLabels(a: seq<string>, b: seq<string>) {
    forall name :: !Progress(name) ==> multiset(a)[name] == multiset(b)[name]
  }

  lemma AlikeLabelsMeans(a: seq<string>, b: seq<string>)
    ensures AlikeLabels(a, b) <==> Permutes(ContractLabels(a), ContractLabels(b))
  {
    var p, q := multiset(ContractLabels(a)), multiset(ContractLabels(b));
    forall name ensures p[name] == (if Progress(name) then 0 else multiset(a)[name])
                ensures q[name] == (if Progress(name) then 0 else multiset(b)[name]) {
      ContractLabelCount(a, name);
      ContractLabelCount(b, name);
    }
    if AlikeLabels(a, b) {
      assert forall name :: p[name] == q[name];
      assert p == q;
    }
    if p == q {
      forall name | !Progress(name) ensures multiset(a)[name] == multiset(b)[name] { assert p[name] == q[name]; }
    }
  }

  /** The same snapshot with other labels on its issues. */
  ghost predicate Relabelled(s: Snapshot, t: Snapshot) {
    && t == s.(root := s.root.(labels := t.root.labels), children := t.children) && |t.children| == |s.children|
    && forall i :: 0 <= i < |s.children| ==> t.children[i] == s.children[i].(labels := t.children[i].labels)
  }

  ghost predicate AlikeAll(s: Snapshot, t: Snapshot) {
    && AlikeLabels(s.root.labels, t.root.labels) && |t.children| == |s.children|
    && forall i :: 0 <= i < |s.children| ==> AlikeLabels(s.children[i].labels, t.children[i].labels)
  }

  lemma SameIssueMeans(a: Issue, b: Issue)
    ensures SameIssue(a, b) <==> b == a.(state := b.state, delivered := b.delivered, labels := b.labels) && AlikeLabels(a.labels, b.labels)
  {
    AlikeLabelsMeans(a.labels, b.labels);
  }

  lemma ChildById(children: seq<Issue>, i: nat, b: Issue)
    requires Distinct(Ids(children)) && i < |children| && b in children && b.id == children[i].id
    ensures b == children[i]
  {
    var j :| 0 <= j < |children| && children[j] == b;
    assert Ids(children)[j] == Ids(children)[i];
  }

  ghost predicate SameInPlace(a: seq<Issue>, b: seq<Issue>) {
    |a| == |b| && forall i :: 0 <= i < |a| ==> SameIssue(a[i], b[i])
  }

  lemma SameChildrenInPlace(a: seq<Issue>, b: seq<Issue>)
    requires |a| == |b| && Distinct(Ids(b)) && forall i :: 0 <= i < |a| ==> a[i].id == b[i].id
    ensures SameChildren(a, b) <==> SameInPlace(a, b)
  {
    if SameChildren(a, b) {
      forall i | 0 <= i < |a| ensures SameIssue(a[i], b[i]) { SameAt(a, b, i); }
    }
    if SameInPlace(a, b) { InPlaceIsSame(a, b); }
  }

  lemma SameAt(a: seq<Issue>, b: seq<Issue>, i: nat)
    requires i < |a| == |b| && Distinct(Ids(b)) && a[i].id == b[i].id
    requires forall x :: x in a ==> exists y :: y in b && SameIssue(x, y)
    ensures SameIssue(a[i], b[i])
  {
    assert a[i] in a;
    var y :| y in b && SameIssue(a[i], y);
    ChildById(b, i, y);
  }

  lemma InPlaceIsSame(a: seq<Issue>, b: seq<Issue>)
    requires SameInPlace(a, b)
    ensures SameChildren(a, b)
  {
    forall x | x in a ensures exists y :: y in b && SameIssue(x, y) {
      var i :| 0 <= i < |a| && a[i] == x;
      assert b[i] in b && SameIssue(x, b[i]);
    }
    forall y | y in b ensures exists x :: x in a && SameIssue(x, y) {
      var i :| 0 <= i < |b| && b[i] == y;
      assert a[i] in a && SameIssue(a[i], y);
    }
  }

  lemma AlikeChildren(s: Snapshot, t: Snapshot)
    requires Relabelled(s, t) && Distinct(Ids(t.children))
    ensures SameChildren(s.children, t.children)
       <==> forall i :: 0 <= i < |s.children| ==> AlikeLabels(s.children[i].labels, t.children[i].labels)
  {
    var a, b := s.children, t.children;
    SameChildrenInPlace(a, b);
    forall i | 0 <= i < |a| ensures SameIssue(a[i], b[i]) <==> AlikeLabels(a[i].labels, b[i].labels) {
      SameIssueMeans(a[i], b[i]);
    }
  }

  /**
   * Labelling issues active or delivered never changes the fingerprint; adding, dropping or
   * repeating any other label on any issue always does.
   */
  lemma LabelsShow(s: Snapshot, c: Canonical, t: Snapshot, d: Canonical)
    requires ValidPlan(s) && ValidPlan(t) && Relabelled(s, t)
    requires IsCanonical(s, c) && IsCanonical(t, d)
    ensures c == d <==> AlikeAll(s, t)
  {
    CanonicalIdentifies(s, c, t, d);
    AlikeChildren(s, t);
    SameIssueMeans(s.root.(body := SB.Strip(s.root.body)), t.root.(body := SB.Strip(t.root.body)));
    assert BlockerGraph(s) == BlockerGraph(t);
    assert SameContract(s, t) <==>
      SameIssue(s.root.(body := SB.Strip(s.root.body)), t.root.(body := SB.Strip(t.root.body)))
      && SameChildren(s.children, t.children);
  }

  /** Progress labels do not decide admission either. */
  lemma ProgressKeepsValid(s: Snapshot, t: Snapshot)
    requires ValidPlan(s) && Relabelled(s, t) && AlikeAll(s, t)
    ensures ValidPlan(t)
  {
    AlikeHas(s.root, t.root);
    assert Ids(t.children) == Ids(s.children) && Numbers(t.children) == Numbers(s.children);
    assert BlockerGraph(t) == BlockerGraph(s);
    forall c | c in t.children ensures ChildAdmissible(t, c) {
      var i :| 0 <= i < |t.children| && t.children[i] == c;
      AlikeHas(s.children[i], t.children[i]);
      assert s.children[i] in s.children;
    }
    forall blocked | blocked in t.blockedBy ensures BlockersAdmissible(t, blocked) {
      assert BlockersAdmissible(s, blocked);
      forall b | b in t.blockedBy[blocked] ensures BlockerAdmissible(t, b) { assert BlockerAdmissible(s, b); }
    }
  }

  lemma AlikeHas(a: Issue, b: Issue)
    requires AlikeLabels(a.labels, b.labels)
    ensures a.HasLabel(PLAN_LABEL) <==> b.HasLabel(PLAN_LABEL)
    ensures a.HasLabel(TICKET_LABEL) <==> b.HasLabel(TICKET_LABEL)
  {
    assert !Progress(PLAN_LABEL) && !Progress(TICKET_LABEL);
    assert forall name :: name in a.labels <==> multiset(a.labels)[name] > 0;
    assert forall name :: name in b.labels <==> multiset(b.labels)[name] > 0;
  }

  /** One more label on one ticket. */
  function Labelled(s: Snapshot, i: nat, name: string): Snapshot
    requires i < |s.children|
  {
    s.(children := s.children[i := s.children[i].(labels := s.children[i].labels + [name])])
  }

  /** A delivery labels its ticket and keeps the version; any other label makes a new one. */
  lemma AddedLabelShows(s: Snapshot, c: Canonical, i: nat, name: string, d: Canonical)
    requires i < |s.children| && ValidPlan(s) && ValidPlan(Labelled(s, i, name))
    requires IsCanonical(s, c) && IsCanonical(Labelled(s, i, name), d)
    ensures c == d <==> name == "workflow:active" || name == "workflow:delivered"
  {
    LabelledAlike(s, i, name);
    LabelsShow(s, c, Labelled(s, i, name), d);
    AddedLabelAlike(s.children[i].labels, name);
  }

  lemma LabelledAlike(s: Snapshot, i: nat, name: string)
    requires i < |s.children|
    ensures Relabelled(s, Labelled(s, i, name))
    ensures AlikeAll(s, Labelled(s, i, name)) <==> AlikeLabels(s.children[i].labels, s.children[i].labels + [name])
  {
    var t := Labelled(s, i, name);
    assert t.children[i].labels == s.children[i].labels + [name];
    forall j | 0 <= j < |s.children| && j != i ensures AlikeLabels(s.children[j].labels, t.children[j].labels) {
      assert t.children[j] == s.children[j];
    }
  }

  lemma AddedLabelAlike(labels: seq<string>, name: string)
    ensures AlikeLabels(labels, labels + [name]) <==> Progress(name)
  {
    var more := multiset(labels + [name]);
    assert more == multiset(labels) + multiset{name};
    assert more[name] == multiset(labels)[name] + 1;
    assert forall other :: other != name ==> more[other] == multiset(labels)[other];
  }

  // ----- Blockers -------------------------------------------------------------------------

  /** Every issue listed as a blocker makes one pair, blocked issue first, in ascending order. */
  lemma DependenciesMean(s: Snapshot, c: Canonical)
    requires IsCanonical(s, c)
    ensures forall e :: e in c.dependencies <==>
      e.0 in s.blockedBy && exists blocker :: blocker in s.blockedBy[e.0] && blocker.id == e.1
    ensures forall i, j :: 0 <= i < j < |c.dependencies| ==>
      var e, f := c.dependencies[i], c.dependencies[j];
      e.0 < f.0 || (e.0 == f.0 && e.1 < f.1)
  {
    forall e ensures IsEdge(s, e) <==> e.0 in s.blockedBy && exists blocker :: blocker in s.blockedBy[e.0] && blocker.id == e.1 {
      if e.0 in s.blockedBy { IdsMean(s.blockedBy[e.0], e.1); }
    }
    forall i, j | 0 <= i < j < |c.dependencies|
      ensures var e, f := c.dependencies[i], c.dependencies[j]; e.0 < f.0 || (e.0 == f.0 && e.1 < f.1)
    {
      assert !ByEdge(c.dependencies[j], c.dependencies[i]) && c.dependencies[i] != c.dependencies[j];
    }
  }

  lemma IdsMean(issues: seq<Issue>, id: int)
    ensures id in Ids(issues) <==> exists i :: i in issues && i.id == id
  {
    if i :| i in issues && i.id == id {
      var k :| 0 <= k < |issues| && issues[k] == i;
      assert Ids(issues)[k] == id;
    }
    if id in Ids(issues) {
      var k :| 0 <= k < |issues| && Ids(issues)[k] == id;
      assert issues[k] in issues;
    }
  }

  /** The tickets of a version: one print for each child, in the order of ids. */
  lemma TicketsMean(s: Snapshot, c: Canonical)
    requires IsCanonical(s, c) && Distinct(Ids(s.children))
    ensures |c.tickets| == |s.children|
    ensures forall i, j :: 0 <= i < j < |c.tickets| ==> c.tickets[i].id < c.tickets[j].id
    ensures forall p :: p in c.tickets ==> exists child :: child in s.children && Prints(child, child.body, p)
    ensures Prints(s.root, SB.Strip(s.root.body), c.root)
  {
    var prints := Mapped(PrintOf, s.children);
    PermutesLength(c.tickets, prints);
    PrintsDistinct(s.children);
    forall p | p in c.tickets ensures exists child :: child in s.children && Prints(child, child.body, p) {
      PermutesMembers(c.tickets, prints, p);
      var i :| 0 <= i < |prints| && prints[i] == p;
      assert s.children[i] in s.children;
      PrintMeans(s.children[i]);
    }
    PrintMeans(s.root.(body := SB.Strip(s.root.body)));
    forall i, j | 0 <= i < j < |c.tickets| ensures c.tickets[i].id < c.tickets[j].id {
      DistinctTickets(s, c, i, j);
    }
  }

  lemma DistinctTickets(s: Snapshot, c: Canonical, i: nat, j: nat)
    requires IsCanonical(s, c) && Distinct(Ids(s.children)) && i < j < |c.tickets|
    ensures c.tickets[i].id < c.tickets[j].id
  {
    var prints := Mapped(PrintOf, s.children);
    PrintsDistinct(s.children);
    PermutesDistinct(c.tickets, prints);
    PermutesMembers(c.tickets, prints, c.tickets[i]);
    PermutesMembers(c.tickets, prints, c.tickets[j]);
    assert c.tickets[i] != c.tickets[j] && !ById(c.tickets[j], c.tickets[i]);
  }

  /** The issue's own id, number and title, this body, and its other labels in order. */
  ghost predicate Prints(issue: Issue, body: string, p: Print) {
    && p.id == issue.id && p.number == issue.number && p.title == issue.title && p.body == body
    && AlikeLabels(p.labels, issue.labels) && (forall name :: name in p.labels ==> !Progress(name))
    && forall i, j :: 0 <= i < j < |p.labels| ==> p.labels[i] == p.labels[j] || Precedes(p.labels[i], p.labels[j])
  }

  lemma PrintMeans(issue: Issue)
    ensures Prints(issue, issue.body, PrintOf(issue))
  {
    var kept, sorted := ContractLabels(issue.labels), SortedStrings(ContractLabels(issue.labels));
    forall name ensures multiset(sorted)[name] == if Progress(name) then 0 else multiset(issue.labels)[name] {
      ContractLabelCount(issue.labels, name);
      assert multiset(sorted) == multiset(kept);
    }
    assert forall name :: name in sorted <==> multiset(sorted)[name] > 0;
    forall i, j | 0 <= i < j < |sorted| ensures sorted[i] == sorted[j] || Precedes(sorted[i], sorted[j]) {
      LessTotal(sorted[i], sorted[j]);
      LessMeans(sorted[i], sorted[j]);
    }
  }
}
