/** The canonical value a plan version's fingerprint hashes, and what it identifies. */
module Fingerprint {
  import opened Collections
  import opened Text
  import opened PlanGraph
  import opened PlanModel
  import SB = StatusBlock

  datatype Print = Print(id: int, number: int, title: string, body: string, labels: seq<string>)

  datatype Canonical = Canonical(
    repository: string,
    root: Print,
    tickets: seq<Print>,
    dependencies: seq<(int, int)>)

  predicate IsContractLabel(name: string) { name != ACTIVE_LABEL && name != DELIVERED_LABEL }

  /** contractLabels: the labels that are part of the plan, in their own order. */
  function ContractLabels(labels: seq<string>): seq<string> {
    if labels == [] then []
    else ContractLabels(labels[..|labels| - 1]) +
         if IsContractLabel(labels[|labels| - 1]) then [labels[|labels| - 1]] else []
  }

  ghost function PrintOf(i: Issue): Print {
    Print(i.id, i.number, i.title, i.body, SortedStrings(ContractLabels(i.labels)))
  }

  predicate ById(a: Print, b: Print) { a.id < b.id }

  predicate ByEdge(a: (int, int), b: (int, int)) {
    if a.0 == b.0 then a.1 < b.1 else a.0 < b.0
  }

  ghost predicate IsEdge(s: Snapshot, e: (int, int)) { e.1 in Blockers(BlockerGraph(s), e.0) }

  /** The canonical form of an admitted plan, stated by its contents. */
  ghost predicate IsCanonical(s: Snapshot, c: Canonical) {
    && c.repository == s.repository
    && c.root == PrintOf(s.root.(body := SB.Strip(s.root.body)))
    && Permutes(c.tickets, Mapped(PrintOf, s.children)) && Sorted(ById, c.tickets)
    && Distinct(c.dependencies) && Sorted(ByEdge, c.dependencies)
    && forall e :: e in c.dependencies <==> IsEdge(s, e)
  }

  // ----- Computing it ---------------------------------------------------------------

  method FilterLabels(labels: seq<string>) returns (filtered: seq<string>)
    ensures filtered == ContractLabels(labels)
  {
    filtered := [];
    for i := 0 to |labels|
      invariant filtered == ContractLabels(labels[..i])
    {
      assert labels[..i + 1][..i] == labels[..i];
      if labels[i] != ACTIVE_LABEL && labels[i] != DELIVERED_LABEL {
        filtered := filtered + [labels[i]];
      }
    }
    assert labels[..|labels|] == labels;
  }

  method PrintIssue(i: Issue, body: string) returns (p: Print)
    ensures p == PrintOf(i.(body := body))
  {
    var filtered := FilterLabels(i.labels);
    LessIsOrder();
    var labels := SortSlice(filtered, Less);
    SortedStringsUnique(filtered, labels);
    p := Print(i.id, i.number, i.title, body, labels);
  }

  /** Tickets: the typed children, in the order of their ids. */
  method Tickets(s: Snapshot) returns (tickets: seq<Issue>)
    ensures Sorted((a: Issue, b: Issue) => a.id < b.id, tickets)
    ensures (forall c :: c in s.children ==> c.IsTicket()) ==> Permutes(tickets, s.children)
    ensures forall c :: c in tickets <==> c in s.children && c.IsTicket()
  {
    var typed: seq<Issue> := [];
    for i := 0 to |s.children|
      invariant forall c :: c in typed <==> c in s.children[..i] && c.IsTicket()
      invariant (forall c :: c in s.children ==> c.IsTicket()) ==> typed == s.children[..i]
    {
      assert s.children[..i + 1] == s.children[..i] + [s.children[i]];
      if s.children[i].IsTicket() {
        typed := typed + [s.children[i]];
      }
    }
    assert s.children[..|s.children|] == s.children;
    tickets := SortSlice(typed, (a: Issue, b: Issue) => a.id < b.id);
    forall c ensures c in tickets <==> c in typed { PermutesMembers(tickets, typed, c); }
  }

  /** The edges of the blocker map, collected in any order of its keys. */
  method Edges(s: Snapshot) returns (edges: seq<(int, int)>)
    requires forall b :: b in s.blockedBy ==> Distinct(Ids(s.blockedBy[b]))
    ensures Distinct(edges) && forall e :: e in edges <==> IsEdge(s, e)
  {
    edges := [];
    var pending := s.blockedBy.Keys;
    while pending != {}
      invariant pending <= s.blockedBy.Keys
      invariant Distinct(edges)
      invariant forall e :: e in edges <==> IsEdge(s, e) && e.0 in s.blockedBy && e.0 !in pending
      decreases |pending|
    {
      var blocked := Take(pending);
      var more := EdgesOf(blocked, Ids(s.blockedBy[blocked]));
      EdgesDisjoint(edges, more);
      edges := edges + more;
      pending := pending - {blocked};
    }
  }

  method EdgesOf(blocked: int, blockers: seq<int>) returns (edges: seq<(int, int)>)
    requires Distinct(blockers)
    ensures Distinct(edges) && forall e :: e in edges <==> e.0 == blocked && e.1 in blockers
  {
    edges := [];
    for i := 0 to |blockers|
      invariant |edges| == i && forall k :: 0 <= k < i ==> edges[k] == (blocked, blockers[k])
    {
      edges := edges + [(blocked, blockers[i])];
    }
    forall e ensures e in edges <==> e.0 == blocked && e.1 in blockers {
      if e.0 == blocked && e.1 in blockers {
        var k :| 0 <= k < |blockers| && blockers[k] == e.1;
        assert edges[k] == e;
      }
    }
  }

  lemma EdgesDisjoint(a: seq<(int, int)>, b: seq<(int, int)>)
    requires Distinct(a) && Distinct(b) && forall e :: e in b ==> e !in a
    ensures Distinct(a + b)
  {
    var c := a + b;
    forall i, j | 0 <= i < j < |c| ensures c[i] != c[j] {
      if i < |a| <= j { assert b[j - |a|] in b && a[i] in a; }
    }
  }

  /** Fingerprint up to its encoding: None for a plan that admission refuses. */
  method CanonicalForm(s: Snapshot) returns (c: Option<Canonical>)
    ensures c.Some? <==> ValidPlan(s)
    ensures c.Some? ==> IsCanonical(s, c.value)
  {
    var accepted := Validate(s);
    if !accepted {
      return None;
    }
    var tickets := Tickets(s);
    var unsorted := Edges(s);
    var deps := SortSlice(unsorted, ByEdge);
    PermutesDistinct(deps, unsorted);
    forall e ensures e in deps <==> IsEdge(s, e) { PermutesMembers(deps, unsorted, e); }
    var root := PrintIssue(s.root, SB.Strip(s.root.body));
    var prints := PrintAll(tickets);
    MappedPermutes(PrintOf, tickets, s.children);
    c := Some(Canonical(s.repository, root, prints, deps));
  }

  method PrintAll(tickets: seq<Issue>) returns (prints: seq<Print>)
    requires Sorted((a: Issue, b: Issue) => a.id < b.id, tickets)
    ensures prints == Mapped(PrintOf, tickets) && Sorted(ById, prints)
  {
    prints := [];
    for i := 0 to |tickets|
      invariant prints == Mapped(PrintOf, tickets[..i])
    {
      var one := PrintIssue(tickets[i], tickets[i].body);
      assert tickets[i].(body := tickets[i].body) == tickets[i];
      prints := prints + [one];
    }
    assert tickets[..|tickets|] == tickets;
  }

  // ----- What it identifies -----------------------------------------------------------

  ghost predicate SameIssue(a: Issue, b: Issue) {
    && a.id == b.id && a.number == b.number && a.title == b.title && a.body == b.body
    && Permutes(ContractLabels(a.labels), ContractLabels(b.labels))
  }

  /** The same contract: everything but order, delivery facts and runtime labels. */
  ghost predicate SameContract(s: Snapshot, t: Snapshot) {
    && s.repository == t.repository
    && SameIssue(s.root.(body := SB.Strip(s.root.body)), t.root.(body := SB.Strip(t.root.body)))
    && (forall a :: a in s.children ==> exists b :: b in t.children && SameIssue(a, b))
    && (forall b :: b in t.children ==> exists a :: a in s.children && SameIssue(a, b))
    && (forall e :: IsEdge(s, e) <==> IsEdge(t, e))
  }

  lemma SamePrint(a: Issue, b: Issue)
    ensures PrintOf(a) == PrintOf(b) <==> SameIssue(a, b)
  {
    SortedStringsSame(ContractLabels(a.labels), ContractLabels(b.labels));
  }

  lemma PrintsDistinct(children: seq<Issue>)
    requires Distinct(Ids(children))
    ensures Distinct(Mapped(PrintOf, children)) && Separates(ById, Mapped(PrintOf, children))
  {
    var prints := Mapped(PrintOf, children);
    forall i, j | 0 <= i < j < |prints| ensures prints[i].id != prints[j].id {
      assert Ids(children)[i] != Ids(children)[j];
    }
    forall x, y | x in prints && y in prints && x != y ensures ById(x, y) || ById(y, x) {
      var i :| 0 <= i < |prints| && prints[i] == x;
      var j :| 0 <= j < |prints| && prints[j] == y;
      assert i != j;
    }
  }

  ghost predicate SameChildren(a: seq<Issue>, b: seq<Issue>) {
    && (forall x :: x in a ==> exists y :: y in b && SameIssue(x, y))
    && (forall y :: y in b ==> exists x :: x in a && SameIssue(x, y))
  }

  lemma PrintIn(x: Issue, children: seq<Issue>)
    ensures PrintOf(x) in Mapped(PrintOf, children) <==> exists y :: y in children && SameIssue(x, y)
  {
    var prints := Mapped(PrintOf, children);
    if PrintOf(x) in prints {
      var i :| 0 <= i < |prints| && prints[i] == PrintOf(x);
      SamePrint(x, children[i]);
      assert children[i] in children;
    }
    if y :| y in children && SameIssue(x, y) {
      SamePrint(x, y);
      var i :| 0 <= i < |children| && children[i] == y;
      assert prints[i] == PrintOf(x);
    }
  }

  lemma SameIssueSymmetric(x: Issue, y: Issue)
    ensures SameIssue(x, y) <==> SameIssue(y, x)
  {}

  ghost predicate Covered(a: seq<Issue>, b: seq<Issue>) {
    forall x :: x in a ==> PrintOf(x) in Mapped(PrintOf, b)
  }

  lemma SameChildrenCovered(a: seq<Issue>, b: seq<Issue>)
    ensures SameChildren(a, b) <==> Covered(a, b) && Covered(b, a)
  {
    forall x ensures PrintOf(x) in Mapped(PrintOf, b) <==> exists y :: y in b && SameIssue(x, y) { PrintIn(x, b); }
    forall y ensures PrintOf(y) in Mapped(PrintOf, a) <==> exists x :: x in a && SameIssue(x, y) {
      PrintIn(y, a);
      forall x ensures SameIssue(x, y) <==> SameIssue(y, x) { SameIssueSymmetric(x, y); }
    }
  }

  lemma CoveredPermutes(a: seq<Issue>, b: seq<Issue>)
    requires Distinct(Ids(a)) && Distinct(Ids(b))
    ensures Permutes(Mapped(PrintOf, a), Mapped(PrintOf, b)) <==> Covered(a, b) && Covered(b, a)
  {
    var p, q := Mapped(PrintOf, a), Mapped(PrintOf, b);
    PrintsDistinct(a);
    PrintsDistinct(b);
    if Covered(a, b) && Covered(b, a) {
      forall z ensures z in p <==> z in q {
        if z in p { var i :| 0 <= i < |p| && p[i] == z; assert a[i] in a; }
        if z in q { var i :| 0 <= i < |q| && q[i] == z; assert b[i] in b; }
      }
      DistinctSameElements(p, q);
    }
    if Permutes(p, q) {
      forall z ensures z in p <==> z in q { PermutesMembers(p, q, z); }
      forall x | x in a ensures PrintOf(x) in p { PrintMember(x, a); }
      forall y | y in b ensures PrintOf(y) in q { PrintMember(y, b); }
    }
  }

  lemma PrintMember(x: Issue, children: seq<Issue>)
    requires x in children
    ensures PrintOf(x) in Mapped(PrintOf, children)
  {
    var i :| 0 <= i < |children| && children[i] == x;
    assert Mapped(PrintOf, children)[i] == PrintOf(x);
  }

  lemma TicketsAgree(s: Snapshot, c: Canonical, t: Snapshot, d: Canonical)
    requires Distinct(Ids(s.children)) && Distinct(Ids(t.children))
    requires IsCanonical(s, c) && IsCanonical(t, d)
    ensures c.tickets == d.tickets <==> SameChildren(s.children, t.children)
  {
    var p, q := Mapped(PrintOf, s.children), Mapped(PrintOf, t.children);
    SameChildrenCovered(s.children, t.children);
    CoveredPermutes(s.children, t.children);
    if Permutes(p, q) {
      PrintsDistinct(s.children);
      forall x ensures x in c.tickets <==> x in p { PermutesMembers(c.tickets, p, x); }
      SortedUnique(ById, c.tickets, d.tickets);
    }
  }

  lemma DependenciesAgree(s: Snapshot, c: Canonical, t: Snapshot, d: Canonical)
    requires IsCanonical(s, c) && IsCanonical(t, d)
    ensures c.dependencies == d.dependencies <==> forall e :: IsEdge(s, e) <==> IsEdge(t, e)
  {
    if forall e :: IsEdge(s, e) <==> IsEdge(t, e) {
      DistinctSameElements(c.dependencies, d.dependencies);
      EdgesSeparate(c.dependencies);
      SortedUnique(ByEdge, c.dependencies, d.dependencies);
    }
    if c.dependencies == d.dependencies {
      forall e ensures IsEdge(s, e) <==> IsEdge(t, e) {
        assert e in c.dependencies <==> IsEdge(s, e);
      }
    }
  }

  lemma EdgesSeparate(edges: seq<(int, int)>)
    ensures Separates(ByEdge, edges)
  {}

  /** Two admitted plans hash the same value exactly when they are the same contract. */
  lemma CanonicalIdentifies(s: Snapshot, c: Canonical, t: Snapshot, d: Canonical)
    requires ValidPlan(s) && ValidPlan(t)
    requires IsCanonical(s, c) && IsCanonical(t, d)
    ensures c == d <==> SameContract(s, t)
  {
    TicketsAgree(s, c, t, d);
    DependenciesAgree(s, c, t, d);
    SamePrint(s.root.(body := SB.Strip(s.root.body)), t.root.(body := SB.Strip(t.root.body)));
  }

  /** Writing a status block into the root does not touch admission. */
  lemma BodyKeepsValid(s: Snapshot, body: string)
    requires ValidPlan(s)
    ensures ValidPlan(s.(root := s.root.(body := body)))
  {
    var t := s.(root := s.root.(body := body));
    assert BlockerGraph(t) == BlockerGraph(s);
    forall blocked | blocked in t.blockedBy ensures BlockersAdmissible(t, blocked) {
      assert BlockersAdmissible(s, blocked);
      forall b | b in t.blockedBy[blocked] ensures BlockerAdmissible(t, b) { assert BlockerAdmissible(s, b); }
    }
    forall c | c in t.children ensures ChildAdmissible(t, c) { assert ChildAdmissible(s, c); }
  }

  /**
   * Projecting the status block onto the root keeps the fingerprint exactly when the body
   * already had a block or did not end in a line break: otherwise a retry hashes a new value.
   */
  lemma ProjectionKeepsFingerprint(s: Snapshot, c: Canonical, inner: string, d: Canonical)
    requires ValidPlan(s) && SB.NoMarkers(inner) && SB.Place(s.root.body, SB.Block(inner)).Some?
    requires IsCanonical(s, c)
    requires IsCanonical(s.(root := s.root.(body := SB.Place(s.root.body, SB.Block(inner)).value)), d)
    ensures c == d <==> !(SB.NoMarkers(s.root.body) && SB.EndsInBreak(s.root.body))
  {
    var body := SB.Place(s.root.body, SB.Block(inner)).value;
    var t := s.(root := s.root.(body := body));
    BodyKeepsValid(s, body);
    SB.StripStable(s.root.body, inner);
    CanonicalIdentifies(s, c, t, d);
    assert BlockerGraph(t) == BlockerGraph(s);
    forall a | a in s.children ensures SameIssue(a, a) {}
    assert SameContract(s, t) <==> SB.Strip(body) == SB.Strip(s.root.body);
  }
}
