/** What a status block says, letter by letter. */
module ProjectionTexts {
  import opened Collections
  import opened Text
  import opened StatusBlock
  import opened Projections

  // ----- Cells --------------------------------------------------------------------------

  /** In a table cell a bar is escaped and a line break becomes a blank; nothing else changes. */
  lemma {:induction false} EscapeReads(a: string, b: string)
    ensures EscapeCell("") == "" && EscapeCell(a + b) == EscapeCell(a) + EscapeCell(b)
    ensures forall c :: EscapeCell([c]) == if c == '|' then ['\\', '|'] else if c in {'\r', '\n'} then [' '] else [c]
  {
    forall c ensures EscapeCell([c]) == if c == '|' then ['\\', '|'] else if c in {'\r', '\n'} then [' '] else [c] {
      assert [c][..0] == [];
      assert EscapeCell([c]) == EscapeCell([]) + EscapeChar(c);
    }
    if b == "" {
      assert a + b == a;
    } else {
      var init, last := b[..|b| - 1], b[|b| - 1];
      assert (a + b)[..|a + b| - 1] == a + init;
      EscapeReads(a, init);
    }
  }

  /** The number that decimal digits stand for. */
  function Value(digits: string): int {
    if digits == "" then 0 else 10 * Value(digits[..|digits| - 1]) + (digits[|digits| - 1] as int - '0' as int)
  }

  /** A number is printed in decimal digits without a leading zero. */
  lemma {:induction false} DigitsRead(n: nat)
    ensures Digits(n) != "" && Value(Digits(n)) == n
    ensures forall c :: c in Digits(n) ==> '0' <= c <= '9'
    ensures n > 0 ==> Digits(n)[0] != '0'
  {
    var last := [('0' as int + n % 10) as char];
    if n < 10 {
      assert Digits(n)[..0] == "";
    } else {
      DigitsRead(n / 10);
      assert Digits(n)[..|Digits(n)| - 1] == Digits(n / 10);
    }
  }

  lemma DecimalReads(n: int)
    ensures n >= 0 ==> Value(Decimal(n)) == n
    ensures n < 0 ==> Decimal(n)[0] == '-' && Value(Decimal(n)[1..]) == -n
  {
    DigitsRead(if n < 0 then -n else n);
  }

  /** References stand side by side, separated by a comma and a blank. */
  lemma JoinReads(refs: seq<string>, last: string)
    ensures JoinRefs([]) == "" && JoinRefs([last]) == last
    ensures refs != [] ==> JoinRefs(refs + [last]) == JoinRefs(refs) + ", " + last
  {
    assert (refs + [last])[..|refs|] == refs;
  }

  // ----- Pieces -----------------------------------------------------------------------

  lemma OneReads(a: Piece)
    ensures Joined([a]) == a.text
  {
    TextSnoc([], a);
    assert [] + [a] == [a];
  }

  lemma TwoRead(a: Piece, b: Piece)
    ensures Joined([a, b]) == a.text + b.text
  {
    OneReads(a);
    TextSnoc([a], b);
    assert [a] + [b] == [a, b];
  }

  lemma CellReads(separator: string, text: string)
    ensures Joined(Cell(separator, text)) == separator + EscapeCell(text)
  {
    TwoRead(Fixed(separator), Field(EscapeCell(text)));
  }

  // ----- Rows -------------------------------------------------------------------------

  /** A row of a plan that nobody works on yet: the ticket and what blocks it. */
  lemma PlainRowReads(v: View)
    ensures Joined(Row(false, v))
         == "| #" + Decimal(v.ticket.number) + " " + EscapeCell(v.ticket.title) + " | " + JoinRefs(v.refs) + " |\n"
  {
    var t := v.ticket;
    var head, tail := "| #" + Decimal(t.number) + " ", " | " + JoinRefs(v.refs) + " |\n";
    CellReads(head, t.title);
    OneReads(Fixed(tail));
    assert Row(false, v) == Cell(head, t.title) + [Fixed(tail)];
    TextAppend(Cell(head, t.title), [Fixed(tail)]);
  }

  /** The columns of a ticket's runtime, each behind its bar. */
  lemma RuntimeCellsRead(t: Ticket)
    ensures Joined(RuntimeCells(t))
         == (" | " + EscapeCell(t.state)) + (" | " + EscapeCell(t.owner))
            + (" | " + EscapeCell(t.sessionId)) + (" | " + EscapeCell(t.runId))
            + (" | " + Decimal(t.leaseGeneration)
               + " | " + (if t.pullRequest == 0 then "" else "#" + Decimal(t.pullRequest))
               + " | " + EscapeCell(if |t.revision| <= 12 then t.revision else t.revision[..12]))
            + (" | " + EscapeCell(t.gateResult)) + (" | " + EscapeCell(t.lastActivity))
  {
    var bar := " | ";
    var middle := bar + Decimal(t.leaseGeneration) + bar + Reference(t.pullRequest) + bar;
    CellReads(bar, t.state);
    CellReads(bar, t.owner);
    CellReads(bar, t.sessionId);
    CellReads(bar, t.runId);
    CellReads(middle, ShortRevision(t.revision));
    CellReads(bar, t.gateResult);
    CellReads(bar, t.lastActivity);
    SevenRead(Cell(bar, t.state), Cell(bar, t.owner), Cell(bar, t.sessionId), Cell(bar, t.runId),
              Cell(middle, ShortRevision(t.revision)), Cell(bar, t.gateResult), Cell(bar, t.lastActivity));
  }

  lemma SevenRead(a: seq<Piece>, b: seq<Piece>, c: seq<Piece>, d: seq<Piece>, e: seq<Piece>, f: seq<Piece>, g: seq<Piece>)
    ensures Joined(a + b + c + d + e + f + g)
         == Joined(a) + Joined(b) + Joined(c) + Joined(d) + Joined(e) + Joined(f) + Joined(g)
  {
    TextAppend(a, b);
    TextAppend(a + b, c);
    TextAppend(a + b + c, d);
    TextAppend(a + b + c + d, e);
    TextAppend(a + b + c + d + e, f);
    TextAppend(a + b + c + d + e + f, g);
  }

  lemma RuntimeRowReads(v: View)
    ensures Joined(Row(true, v))
         == "| #" + Decimal(v.ticket.number) + " " + EscapeCell(v.ticket.title)
            + Joined(RuntimeCells(v.ticket)) + (" | " + JoinRefs(v.refs) + " |\n")
  {
    RowParts("| #" + Decimal(v.ticket.number) + " ", v.ticket.title, RuntimeCells(v.ticket), " | " + JoinRefs(v.refs) + " |\n");
  }

  lemma RowParts(head: string, title: string, middle: seq<Piece>, tail: string)
    ensures Joined(Cell(head, title) + middle + [Fixed(tail)]) == head + EscapeCell(title) + Joined(middle) + tail
  {
    CellReads(head, title);
    TextAppend(Cell(head, title), middle);
    TextSnoc(Cell(head, title) + middle, Fixed(tail));
  }

  // ----- Table --------------------------------------------------------------------------

  /** Some ticket has been worked on. */
  ghost predicate WorkedOn(t: Ticket) {
    t != Ticket(t.number, t.title, "", "", "", "", 0, 0, "", "", "", t.blockers)
  }

  lemma RuntimeMeans(tickets: seq<Ticket>)
    ensures Runtime(Views(tickets)) <==> exists t :: t in tickets && WorkedOn(t)
  {
    var views := Views(tickets);
    if t :| t in tickets && WorkedOn(t) {
      var i :| 0 <= i < |tickets| && tickets[i] == t;
      assert views[i] in views && HasRuntime(views[i].ticket);
    }
    if v :| v in views && HasRuntime(v.ticket) {
      var i :| 0 <= i < |views| && views[i] == v;
      assert tickets[i] in tickets && WorkedOn(tickets[i]);
    }
  }

  lemma CellsSnoc(columns: seq<string>, last: string)
    ensures Cells(columns + [last]) == Cells(columns) + " " + last + " |"
  {
    assert (columns + [last])[..|columns|] == columns;
  }

  lemma PlainHeaderReads()
    ensures Header(PLAIN_COLUMNS) == "| Ticket | Blocked by |\n" + "| --- | --- |\n"
  {
    CellsSnoc([], "Ticket");
    CellsSnoc(["Ticket"], "Blocked by");
    CellsSnoc([], "---");
    CellsSnoc(["---"], "---");
    assert [] + ["Ticket"] == ["Ticket"] && ["Ticket"] + ["Blocked by"] == PLAIN_COLUMNS;
    assert [] + ["---"] == ["---"] && ["---"] + ["---"] == seq(2, _ => "---");
  }

  /** Over the tickets that were worked on stand eleven columns, in the order of the cells. */
  lemma RuntimeHeaderReads()
    ensures Header(RUNTIME_COLUMNS) == Cells(RUNTIME_COLUMNS) + "\n" + Cells(seq(11, _ => "---")) + "\n"
    ensures Cells(RUNTIME_COLUMNS)
         == "|"
            + " " + "Ticket" + " |"
            + " " + "State" + " |"
            + " " + "Owner" + " |"
            + " " + "Session" + " |"
            + " " + "Run" + " |"
            + " " + "Lease" + " |"
            + " " + "Pull request" + " |"
            + " " + "Revision" + " |"
            + " " + "Gate" + " |"
            + " " + "Last activity" + " |"
            + " " + "Blocked by" + " |"
  {
    CellsRead(RUNTIME_COLUMNS);
  }

  lemma CellsRead(c: seq<string>)
    requires |c| == 11
    ensures Cells(c) == "|" + " " + c[0] + " |" + " " + c[1] + " |" + " " + c[2] + " |" + " " + c[3] + " |" + " " + c[4] + " |"
                        + " " + c[5] + " |" + " " + c[6] + " |" + " " + c[7] + " |" + " " + c[8] + " |" + " " + c[9] + " |"
                        + " " + c[10] + " |"
  {
    CellsTo(c, 6);
    CellsUpTo(c);
  }

  lemma CellAt(c: seq<string>, i: nat)
    requires i < |c|
    ensures Cells(c[..i + 1]) == Cells(c[..i]) + " " + c[i] + " |"
  {
    assert c[..i + 1] == c[..i] + [c[i]];
    CellsSnoc(c[..i], c[i]);
  }

  lemma CellsTo(c: seq<string>, n: nat)
    requires n == 6 < |c|
    ensures Cells(c[..6]) == "|" + " " + c[0] + " |" + " " + c[1] + " |" + " " + c[2] + " |" + " " + c[3] + " |" + " " + c[4] + " |"
                             + " " + c[5] + " |"
  {
    assert c[..0] == [];
    CellAt(c, 0);
    CellAt(c, 1);
    CellAt(c, 2);
    CellAt(c, 3);
    CellAt(c, 4);
    CellAt(c, 5);
  }

  lemma CellsUpTo(c: seq<string>)
    requires |c| == 11
    ensures Cells(c) == Cells(c[..6]) + " " + c[6] + " |" + " " + c[7] + " |" + " " + c[8] + " |" + " " + c[9] + " |"
                        + " " + c[10] + " |"
  {
    assert c[..11] == c;
    CellAt(c, 6);
    CellAt(c, 7);
    CellAt(c, 8);
    CellAt(c, 9);
    CellAt(c, 10);
  }

  // ----- The rest of the block --------------------------------------------------------------

  lemma FiveRead(a: Piece, b: Piece, c: Piece, d: Piece, e: Piece)
    ensures Joined([a, b, c, d, e]) == a.text + b.text + c.text + d.text + e.text
  {
    TwoRead(a, b);
    TextSnoc([a, b], c);
    assert [a, b] + [c] == [a, b, c];
    TextSnoc([a, b, c], d);
    assert [a, b, c] + [d] == [a, b, c, d];
    TextSnoc([a, b, c, d], e);
    assert [a, b, c, d] + [e] == [a, b, c, d, e];
  }

  /** The block opens with the state and the version of the plan, and says why dispatching is paused. */
  lemma HeadingReads(p: Projection)
    ensures Joined(Heading(p)) == "\n### Control Plane\n\n- state: `" + p.state + "`\n- plan version: `" + p.versionId + "`\n\n" + Joined(Paused(p))
    ensures Joined(Paused(p)) == if p.dispatchPaused == "" then ""
                                 else "- new dispatches: paused " + EM_DASH + " " + EscapeCell(p.dispatchPaused) + "\n\n"
  {
    var a, b, c := Fixed(STATE_LINE), Fixed(VERSION_LINE), Fixed("`\n\n");
    FiveRead(a, Field(p.state), b, Field(p.versionId), c);
    TextAppend([a, Field(p.state), b, Field(p.versionId), c], Paused(p));
    PausedReads(p);
  }

  lemma PausedReads(p: Projection)
    ensures Joined(Paused(p)) == if p.dispatchPaused == "" then ""
                                 else "- new dispatches: paused " + EM_DASH + " " + EscapeCell(p.dispatchPaused) + "\n\n"
  {
    var a, b, c := Fixed(PAUSED_LINE), Field(EscapeCell(p.dispatchPaused)), Fixed("\n\n");
    TwoRead(a, b);
    TextSnoc([a, b], c);
    assert [a, b] + [c] == [a, b, c];
  }

  /** Open questions are announced, and nothing is said without them. */
  lemma InboxReads(p: Projection)
    ensures Joined(InboxNote(p)) == if p.questions == [] then ""
      else "\n### Workflow Inbox\n\n" + "Pending human decisions " + "are listed in the repository " + "Workflow Inbox.\n"
  {
    var a, b, c, d := Fixed(INBOX_LINE_1), Fixed(INBOX_LINE_2), Fixed(INBOX_LINE_3), Fixed(INBOX_LINE_4);
    TwoRead(a, b);
    TextSnoc([a, b], c);
    assert [a, b] + [c] == [a, b, c];
    TextSnoc([a, b, c], d);
    assert [a, b, c] + [d] == [a, b, c, d];
  }

  /** Every blocker is a reference by its number, in byte order. */
  lemma RefsRead(t: Ticket)
    ensures ViewOf(t).ticket == t.(blockers := [])
    ensures Permutes(ViewOf(t).refs, BlockerRefs(t.blockers))
    ensures forall i, j :: 0 <= i < j < |ViewOf(t).refs| ==>
      ViewOf(t).refs[i] == ViewOf(t).refs[j] || Precedes(ViewOf(t).refs[i], ViewOf(t).refs[j])
  {
    var refs := ViewOf(t).refs;
    forall i, j | 0 <= i < j < |refs| ensures refs[i] == refs[j] || Precedes(refs[i], refs[j]) {
      LessTotal(refs[i], refs[j]);
      LessMeans(refs[i], refs[j]);
    }
  }

  lemma RowsRead(runtime: bool, views: seq<View>, last: View)
    ensures Joined(Rows(runtime, views + [last])) == Joined(Rows(runtime, views)) + Joined(Row(runtime, last))
  {
    assert (views + [last])[..|views|] == views;
    TextAppend(Rows(runtime, views), Row(runtime, last));
  }

  /** Without tickets the table is one sentence; otherwise a header, with runtime columns when any ticket was worked on, and rows. */
  lemma TableReads(tickets: seq<Ticket>, views: seq<View>)
    requires Permutes(views, Views(tickets))
    ensures views == [] ==> Joined(Table(views)) == "No executable tickets.\n"
    ensures views != [] ==>
      var runtime := exists t :: t in tickets && WorkedOn(t);
      Joined(Table(views)) == Header(if runtime then RUNTIME_COLUMNS else PLAIN_COLUMNS) + Joined(Rows(runtime, views))
  {
    RuntimeMeans(tickets);
    forall v ensures v in views <==> v in Views(tickets) { PermutesMembers(views, Views(tickets), v); }
    if views == [] {
      OneReads(Fixed(NO_TICKETS));
    } else {
      var header := Header(if Runtime(views) then RUNTIME_COLUMNS else PLAIN_COLUMNS);
      OneReads(Fixed(header));
      TextAppend([Fixed(header)], Rows(Runtime(views), views));
    }
  }

  /** The tickets by their numbers. */
  ghost predicate OrderedViews(p: Projection, views: seq<View>) {
    && Permutes(views, Views(p.tickets))
    && forall i, j :: 0 <= i < j < |views| ==> views[i].ticket.number <= views[j].ticket.number
  }

  /** A status block: its two markers around the heading, the table of the ordered tickets, and the note. */
  ghost predicate ReadsAs(p: Projection, views: seq<View>, text: string) {
    text == "<!-- workflow:status:start -->" + (Joined(Heading(p)) + Joined(Table(views)) + Joined(InboxNote(p)))
            + "<!-- workflow:status:end -->"
  }

  lemma BlockReads(p: Projection, text: string)
    requires IsRendering(p, text)
    ensures exists views :: OrderedViews(p, views) && ReadsAs(p, views, text)
  {
    var views: seq<View> :| Permutes(views, Views(p.tickets)) && Sorted(ByNumber, views) && text == Block(Joined(Contents(p, views)));
    ThreePieces(Heading(p), Table(views), InboxNote(p));
    forall i, j | 0 <= i < j < |views| ensures views[i].ticket.number <= views[j].ticket.number {
      assert !ByNumber(views[j], views[i]);
    }
    assert OrderedViews(p, views) && ReadsAs(p, views, text);
  }
}
