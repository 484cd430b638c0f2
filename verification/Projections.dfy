/** renderBlock: the status table, its free-text fields, and when it is marker-free. */
module Projections {
  import opened Collections
  import opened Text
  import opened Markers
  import opened StatusBlock

  datatype Ticket = Ticket(
    number: int,
    title: string,
    state: string,
    owner: string,
    sessionId: string,
    runId: string,
    leaseGeneration: int,
    pullRequest: int,
    revision: string,
    gateResult: string,
    lastActivity: string,
    blockers: seq<int>)

  datatype Projection = Projection(
    versionId: string,
    state: string,
    dispatchPaused: string,
    tickets: seq<Ticket>,
    questions: seq<string>)

  // ----- Formatting -------------------------------------------------------------

  function Digits(n: nat): string {
    var last := [('0' as int + n % 10) as char];
    if n < 10 then last else Digits(n / 10) + last
  }

  /** fmt's %d */
  function Decimal(n: int): string { if n < 0 then "-" + Digits(-n) else Digits(n) }

  function EscapeChar(c: char): string {
    if c == '|' then "\\|" else if IsBreak(c) then " " else [c]
  }

  function EscapeCell(s: string): string {
    if s == "" then "" else EscapeCell(s[..|s| - 1]) + EscapeChar(s[|s| - 1])
  }

  function ShortRevision(s: string): string { if |s| <= 12 then s else s[..12] }

  function Reference(n: int): string { if n == 0 then "" else "#" + Decimal(n) }

  function BlockerRefs(blockers: seq<int>): (r: seq<string>)
    ensures |r| == |blockers| && forall i :: 0 <= i < |r| ==> r[i] == "#" + Decimal(blockers[i])
  {
    seq(|blockers|, i requires 0 <= i < |blockers| => "#" + Decimal(blockers[i]))
  }

  /** strings.Join(refs, ", ") */
  function JoinRefs(refs: seq<string>): string {
    if refs == [] then ""
    else if |refs| == 1 then refs[0]
    else JoinRefs(refs[..|refs| - 1]) + ", " + refs[|refs| - 1]
  }

  // ----- The block as pieces ----------------------------------------------------

  /** Text the renderer supplies itself, or free text that a plan or a run supplies. */
  datatype Piece = Fixed(text: string) | Field(text: string)

  function Joined(pieces: seq<Piece>): string {
    if pieces == [] then "" else Joined(pieces[..|pieces| - 1]) + pieces[|pieces| - 1].text
  }

  /** A ticket with its blocker references in display order. */
  datatype View = View(ticket: Ticket, refs: seq<string>)

  ghost function ViewOf(t: Ticket): View {
    View(t.(blockers := []), SortedStrings(BlockerRefs(t.blockers)))
  }

  ghost function Views(tickets: seq<Ticket>): seq<View> { Mapped(ViewOf, tickets) }

  predicate HasRuntime(t: Ticket) {
    || t.state != "" || t.owner != "" || t.sessionId != "" || t.runId != "" || t.leaseGeneration != 0
    || t.pullRequest != 0 || t.revision != "" || t.gateResult != "" || t.lastActivity != ""
  }

  const EM_DASH := "\U{E2}\U{80}\U{94}"
  const NO_TICKETS := "No executable tickets.\n"
  const PLAIN_COLUMNS := ["Ticket", "Blocked by"]
  const RUNTIME_COLUMNS :=
    ["Ticket", "State", "Owner", "Session", "Run", "Lease", "Pull request", "Revision", "Gate", "Last activity", "Blocked by"]

  function Cells(columns: seq<string>): string {
    if columns == [] then "|" else Cells(columns[..|columns| - 1]) + " " + columns[|columns| - 1] + " |"
  }

  function Header(columns: seq<string>): string {
    Cells(columns) + "\n" + Cells(seq(|columns|, _ => "---")) + "\n"
  }

  /** A separator and the free text of the cell it opens. */
  function Cell(separator: string, text: string): seq<Piece> {
    [Fixed(separator), Field(EscapeCell(text))]
  }

  function RuntimeCells(t: Ticket): seq<Piece> {
    Cell(" | ", t.state) + Cell(" | ", t.owner) + Cell(" | ", t.sessionId) + Cell(" | ", t.runId)
    + Cell(" | " + Decimal(t.leaseGeneration) + " | " + Reference(t.pullRequest) + " | ", ShortRevision(t.revision))
    + Cell(" | ", t.gateResult) + Cell(" | ", t.lastActivity)
  }

  /** One table row. */
  function Row(runtime: bool, v: View): seq<Piece> {
    Cell("| #" + Decimal(v.ticket.number) + " ", v.ticket.title)
    + (if runtime then RuntimeCells(v.ticket) else [])
    + [Fixed(" | " + JoinRefs(v.refs) + " |\n")]
  }

  function Rows(runtime: bool, views: seq<View>): seq<Piece> {
    if views == [] then [] else Rows(runtime, views[..|views| - 1]) + Row(runtime, views[|views| - 1])
  }

  const STATE_LINE := "\n### Control Plane\n\n- state: `"
  const VERSION_LINE := "`\n- plan version: `"
  const PAUSED_LINE := "- new dispatches: paused " + EM_DASH + " "

  function Heading(p: Projection): seq<Piece> {
    [Fixed(STATE_LINE), Field(p.state), Fixed(VERSION_LINE), Field(p.versionId), Fixed("`\n\n")] + Paused(p)
  }

  function Paused(p: Projection): seq<Piece> {
    if p.dispatchPaused == "" then []
    else [Fixed(PAUSED_LINE), Field(EscapeCell(p.dispatchPaused)), Fixed("\n\n")]
  }

  const INBOX_LINE_1 := "\n### Workflow Inbox\n\n"
  const INBOX_LINE_2 := "Pending human decisions "
  const INBOX_LINE_3 := "are listed in the repository "
  const INBOX_LINE_4 := "Workflow Inbox.\n"

  function InboxNote(p: Projection): seq<Piece> {
    if p.questions == [] then []
    else [Fixed(INBOX_LINE_1), Fixed(INBOX_LINE_2), Fixed(INBOX_LINE_3), Fixed(INBOX_LINE_4)]
  }

  ghost predicate Runtime(views: seq<View>) {
    exists v :: v in views && HasRuntime(v.ticket)
  }

  ghost function Table(views: seq<View>): seq<Piece> {
    if views == [] then [Fixed(NO_TICKETS)]
    else [Fixed(Header(if Runtime(views) then RUNTIME_COLUMNS else PLAIN_COLUMNS))] + Rows(Runtime(views), views)
  }

  /** Everything between the two markers, for the tickets in display order. */
  ghost function Contents(p: Projection, views: seq<View>): seq<Piece> {
    Heading(p) + Table(views) + InboxNote(p)
  }

  predicate ByNumber(a: View, b: View) { a.ticket.number < b.ticket.number }

  /** A block renderBlock may produce; only equal ticket numbers leave it a choice. */
  ghost predicate IsRendering(p: Projection, text: string) {
    exists views ::
      && Permutes(views, Views(p.tickets)) && Sorted(ByNumber, views)
      && text == Block(Joined(Contents(p, views)))
  }

  // ----- The renderer -----------------------------------------------------------

  lemma {:induction false} TextAppend(a: seq<Piece>, b: seq<Piece>)
    ensures Joined(a + b) == Joined(a) + Joined(b)
  {
    if b == [] {
      assert a + b == a;
    } else {
      var init, last := b[..|b| - 1], b[|b| - 1];
      assert (a + b)[..|a + b| - 1] == a + init;
      TextAppend(a, init);
    }
  }

  lemma TextSnoc(a: seq<Piece>, p: Piece)
    ensures Joined(a + [p]) == Joined(a) + p.text
  {
    assert (a + [p])[..|a|] == a;
  }

  method RenderBlock(p: Projection) returns (text: string)
    ensures IsRendering(p, text)
  {
    var tickets := SortSlice(p.tickets, (a: Ticket, b: Ticket) => a.number < b.number);
    MappedPermutes(ViewOf, tickets, p.tickets);
    var table := RenderTable(tickets);
    text := STATUS_START + Joined(Heading(p)) + table + Joined(InboxNote(p)) + STATUS_END;
    BlockPieces(p, Views(tickets));
  }

  lemma BlockPieces(p: Projection, views: seq<View>)
    ensures STATUS_START + Joined(Heading(p)) + Joined(Table(views)) + Joined(InboxNote(p)) + STATUS_END
         == Block(Joined(Contents(p, views)))
  {
    BlockOfPieces(Heading(p), Table(views), InboxNote(p));
  }

  lemma BlockOfPieces(a: seq<Piece>, b: seq<Piece>, c: seq<Piece>)
    ensures STATUS_START + Joined(a) + Joined(b) + Joined(c) + STATUS_END == Block(Joined(a + b + c))
  {
    ThreePieces(a, b, c);
    assert STATUS_START + Joined(a) + Joined(b) + Joined(c) == STATUS_START + (Joined(a) + Joined(b) + Joined(c));
  }

  lemma ThreePieces(a: seq<Piece>, b: seq<Piece>, c: seq<Piece>)
    ensures Joined(a + b + c) == Joined(a) + Joined(b) + Joined(c)
  {
    TextAppend(a + b, c);
    TextAppend(a, b);
  }

  method RenderTable(tickets: seq<Ticket>) returns (text: string)
    ensures text == Joined(Table(Views(tickets)))
  {
    if |tickets| == 0 {
      TextSnoc([], Fixed(NO_TICKETS));
      return NO_TICKETS;
    }
    var runtime := AnyRuntime(tickets);
    var header := Header(if runtime then RUNTIME_COLUMNS else PLAIN_COLUMNS);
    var rows := RenderRows(tickets, RowText(runtime));
    text := header + rows;
    TablePieces(runtime, header, Views(tickets));
  }

  lemma TablePieces(runtime: bool, header: string, views: seq<View>)
    ensures header + RowTexts(RowText(runtime), views) == Joined([Fixed(header)] + Rows(runtime, views))
  {
    RowsJoined(runtime, views);
    TextAppend([Fixed(header)], Rows(runtime, views));
    OnePiece(header);
  }

  lemma OnePiece(text: string)
    ensures Joined([Fixed(text)]) == text
  {
    TextSnoc([], Fixed(text));
    assert [] + [Fixed(text)] == [Fixed(text)];
  }

  method AnyRuntime(tickets: seq<Ticket>) returns (runtime: bool)
    ensures runtime <==> Runtime(Views(tickets))
  {
    for i := 0 to |tickets|
      invariant forall k :: 0 <= k < i ==> !HasRuntime(tickets[k])
    {
      if HasRuntime(tickets[i]) {
        assert Views(tickets)[i] in Views(tickets) && HasRuntime(Views(tickets)[i].ticket);
        return true;
      }
    }
    return false;
  }

  function RowText(runtime: bool): View -> string { v => Joined(Row(runtime, v)) }

  ghost function RowTexts(row: View -> string, views: seq<View>): string {
    if views == [] then "" else RowTexts(row, views[..|views| - 1]) + row(views[|views| - 1])
  }

  method RenderRows(tickets: seq<Ticket>, row: View -> string) returns (text: string)
    ensures text == RowTexts(row, Views(tickets))
  {
    ghost var views := Views(tickets);
    text := "";
    for i := 0 to |tickets|
      invariant text == RowTexts(row, views[..i])
    {
      var refs := SortRefs(tickets[i].blockers);
      var v := View(tickets[i].(blockers := []), refs);
      assert views[..i + 1][..i] == views[..i] && views[..i + 1][i] == v;
      text := text + row(v);
    }
    assert views[..|tickets|] == views;
  }

  lemma {:induction false} RowsJoined(runtime: bool, views: seq<View>)
    ensures Joined(Rows(runtime, views)) == RowTexts(RowText(runtime), views)
  {
    if views != [] {
      var init, last := views[..|views| - 1], views[|views| - 1];
      RowsJoined(runtime, init);
      TextAppend(Rows(runtime, init), Row(runtime, last));
    }
  }

  method SortRefs(blockers: seq<int>) returns (refs: seq<string>)
    ensures refs == SortedStrings(BlockerRefs(blockers))
  {
    LessIsOrder();
    refs := SortSlice(BlockerRefs(blockers), Less);
    SortedStringsUnique(BlockerRefs(blockers), refs);
  }

  // ----- One projection, one block ------------------------------------------------

  ghost predicate DistinctNumbers(tickets: seq<Ticket>) {
    forall i, j :: 0 <= i < j < |tickets| ==> tickets[i].number != tickets[j].number
  }

  /** The same projection up to the order of its tickets and of each ticket's blockers. */
  ghost predicate SameProjection(p: Projection, q: Projection) {
    && q == p.(tickets := q.tickets)
    && Permutes(Views(p.tickets), Views(q.tickets))
  }

  lemma NumbersSeparate(tickets: seq<Ticket>, views: seq<View>)
    requires DistinctNumbers(tickets) && Permutes(views, Views(tickets))
    ensures Separates(ByNumber, views)
  {
    forall x, y | x in views && y in views && x != y ensures ByNumber(x, y) || ByNumber(y, x) {
      PermutesMembers(views, Views(tickets), x);
      PermutesMembers(views, Views(tickets), y);
      var i :| 0 <= i < |tickets| && Views(tickets)[i] == x;
      var j :| 0 <= j < |tickets| && Views(tickets)[j] == y;
      assert i != j;
    }
  }

  /** With the distinct ticket numbers admission enforces, the block is unique. */
  lemma RenderingUnique(p: Projection, q: Projection, a: string, b: string)
    requires SameProjection(p, q) && DistinctNumbers(p.tickets)
    requires IsRendering(p, a) && IsRendering(q, b)
    ensures a == b
  {
    var v :| Permutes(v, Views(p.tickets)) && Sorted(ByNumber, v) && a == Block(Joined(Contents(p, v)));
    var w :| Permutes(w, Views(q.tickets)) && Sorted(ByNumber, w) && b == Block(Joined(Contents(q, w)));
    NumbersSeparate(p.tickets, v);
    SortedUnique(ByNumber, v, w);
    SameContents(p, q, v);
  }

  lemma SameContents(p: Projection, q: Projection, views: seq<View>)
    requires q == p.(tickets := q.tickets)
    ensures Contents(p, views) == Contents(q, views)
  {}
}
