/** Which projections render a block that can be found, replaced and stripped again. */
module ProjectionLaws {
  import opened Collections
  import opened Text
  import opened Markers
  import opened StatusBlock
  import opened Projections

  // ----- Markers in text made of pieces -------------------------------------------

  predicate IsBreaker(c: char) { c == '|' || c == '`' || IsBreak(c) }

  ghost predicate Plain(s: string) { forall i :: 0 <= i < |s| ==> s[i] != '<' && s[i] != '>' }

  ghost predicate HasBreaker(s: string) { exists i :: 0 <= i < |s| && IsBreaker(s[i]) }

  /** A marker that no table punctuation can be part of. */
  predicate IsTableMarker(m: string) {
    IsMarker(m) && forall i :: 0 <= i < |m| ==> !IsBreaker(m[i])
  }

  ghost predicate PieceOk(pieces: seq<Piece>, i: nat)
    requires i < |pieces|
  {
    match pieces[i]
    case Fixed(t) => Plain(t) && (i > 0 && pieces[i - 1].Field? ==> HasBreaker(t))
    case Field(_) => i > 0 ==> pieces[i - 1].Fixed?
  }

  /** Renderer text has no angle brackets, and between two fields stands table punctuation. */
  ghost predicate WellFormed(pieces: seq<Piece>) {
    forall i :: 0 <= i < |pieces| ==> PieceOk(pieces, i)
  }

  /** After the last table punctuation there is no angle bracket. */
  ghost predicate SafeEnd(s: string) {
    exists k :: 0 <= k <= |s| && Plain(s[k..]) && (k == 0 || IsBreaker(s[k - 1]))
  }

  lemma SafeEndPlain(s: string, t: string)
    requires Plain(t) && (SafeEnd(s) || HasBreaker(t))
    ensures SafeEnd(s + t)
  {
    if HasBreaker(t) {
      var i :| 0 <= i < |t| && IsBreaker(t[i]);
      var k := |s| + i + 1;
      assert (s + t)[k..] == t[i + 1..];
      assert (s + t)[k - 1] == t[i];
    } else {
      var k :| 0 <= k <= |s| && Plain(s[k..]) && (k == 0 || IsBreaker(s[k - 1]));
      assert (s + t)[k..] == s[k..] + t;
      assert k > 0 ==> (s + t)[k - 1] == s[k - 1];
    }
  }

  lemma SafeEndSeam(s: string, f: string, m: string)
    requires IsTableMarker(m) && SafeEnd(s)
    ensures NoStraddle(s, f, m)
  {
    var k :| 0 <= k <= |s| && Plain(s[k..]) && (k == 0 || IsBreaker(s[k - 1]));
    var whole := s + f;
    assert forall x :: k <= x < |s| ==> whole[x] == s[k..][x - k];
    assert k > 0 ==> whole[k - 1] == s[k - 1];
    forall i | 0 <= i < |s| < i + |m| <= |whole| ensures !OccursAt(whole, m, i) {
      var part := whole[i..i + |m|];
      assert part[0] == whole[i];
      assert i < k ==> part[k - 1 - i] == whole[k - 1];
    }
  }

  lemma PlainTail(s: string, t: string, m: string)
    requires IsMarker(m) && Plain(t)
    ensures Contains(s + t, m) <==> Contains(s, m)
  {
    var whole := s + t;
    forall i ensures OccursAt(whole, m, i) <==> OccursAt(s, m, i) {
      if i + |m| <= |s| {
        OccursLeft(s, t, m, i);
      } else if 0 <= i && i + |m| <= |whole| {
        assert whole[i..i + |m|][|m| - 1] == whole[i + |m| - 1] == t[i + |m| - 1 - |s|];
      }
    }
  }

  lemma FieldTail(s: string, f: string, m: string)
    requires IsTableMarker(m) && SafeEnd(s)
    ensures Contains(s + f, m) <==> Contains(s, m) || Contains(f, m)
  {
    SafeEndSeam(s, f, m);
    CountConcat(s, f, m);
    CountZero(s + f, m);
    CountZero(s, m);
    CountZero(f, m);
  }

  ghost predicate FieldHolds(pieces: seq<Piece>, m: string) {
    exists p :: p in pieces && p.Field? && Contains(p.text, m)
  }

  lemma FieldHoldsNext(init: seq<Piece>, last: Piece, m: string)
    ensures FieldHolds(init + [last], m) <==> FieldHolds(init, m) || (last.Field? && Contains(last.text, m))
  {
    forall p ensures p in init + [last] <==> p in init || p == last {}
  }

  lemma WellFormedInit(pieces: seq<Piece>)
    requires WellFormed(pieces) && pieces != []
    ensures WellFormed(pieces[..|pieces| - 1])
  {
    var init := pieces[..|pieces| - 1];
    forall i | 0 <= i < |init| ensures PieceOk(init, i) {
      assert PieceOk(pieces, i);
      assert init[i] == pieces[i] && (i > 0 ==> init[i - 1] == pieces[i - 1]);
    }
  }

  /** A marker occurs in the text exactly when it occurs within a single free-text field. */
  lemma {:induction false} MarkerInPieces(pieces: seq<Piece>, m: string)
    requires WellFormed(pieces) && IsTableMarker(m)
    ensures Contains(Joined(pieces), m) <==> FieldHolds(pieces, m)
    ensures pieces == [] || pieces[|pieces| - 1].Fixed? ==> SafeEnd(Joined(pieces))
  {
    if pieces == [] {
      assert Plain(""[0..]);
    } else {
      var init, last := pieces[..|pieces| - 1], pieces[|pieces| - 1];
      WellFormedInit(pieces);
      assert PieceOk(pieces, |pieces| - 1);
      MarkerInPieces(init, m);
      assert pieces == init + [last];
      FieldHoldsNext(init, last, m);
      if last.Fixed? {
        PlainTail(Joined(init), last.text, m);
        SafeEndPlain(Joined(init), last.text);
      } else {
        FieldTail(Joined(init), last.text, m);
      }
    }
  }

  // ----- The pieces of a block ------------------------------------------------------

  ghost predicate Ends(pieces: seq<Piece>) {
    pieces != [] ==> pieces[0].Fixed? && pieces[|pieces| - 1].Fixed?
  }

  lemma WellFormedAppend(a: seq<Piece>, b: seq<Piece>)
    requires WellFormed(a) && WellFormed(b) && Ends(a) && Ends(b)
    ensures WellFormed(a + b) && Ends(a + b)
  {
    var c := a + b;
    forall i | 0 <= i < |c| ensures PieceOk(c, i) {
      if i < |a| {
        assert PieceOk(a, i);
      } else {
        assert PieceOk(b, i - |a|);
      }
    }
  }

  lemma {:induction false} DigitsPlain(n: nat)
    ensures Plain(Digits(n))
  {
    if n >= 10 { DigitsPlain(n / 10); }
  }

  lemma DecimalPlain(n: int)
    ensures Plain(Decimal(n))
  {
    DigitsPlain(if n < 0 then -n else n);
  }

  lemma ReferencePlain(n: int)
    ensures Plain(Reference(n))
  {
    DecimalPlain(n);
  }

  lemma {:induction false} RefsPlain(refs: seq<string>)
    requires forall r :: r in refs ==> Plain(r)
    ensures Plain(JoinRefs(refs))
  {
    if |refs| >= 1 {
      assert refs[|refs| - 1] in refs;
      RefsPlain(refs[..|refs| - 1]);
    }
  }

  lemma BlockerRefsPlain(blockers: seq<int>)
    ensures forall r :: r in BlockerRefs(blockers) ==> Plain(r)
  {
    forall r | r in BlockerRefs(blockers) ensures Plain(r) {
      var i :| 0 <= i < |blockers| && BlockerRefs(blockers)[i] == r;
      DecimalPlain(blockers[i]);
    }
  }

  lemma {:induction false} CellsPlain(columns: seq<string>)
    requires forall c :: c in columns ==> Plain(c)
    ensures Plain(Cells(columns)) && HasBreaker(Cells(columns))
  {
    if columns == [] {
      assert IsBreaker(Cells(columns)[0]);
    } else {
      assert columns[|columns| - 1] in columns;
      CellsPlain(columns[..|columns| - 1]);
      var s := Cells(columns);
      assert IsBreaker(s[|s| - 1]);
    }
  }

  ghost predicate PlainView(v: View) { forall r :: r in v.refs ==> Plain(r) }

  lemma ViewPlain(t: Ticket)
    ensures PlainView(ViewOf(t))
  {
    BlockerRefsPlain(t.blockers);
    forall r | r in ViewOf(t).refs ensures Plain(r) {
      PermutesMembers(ViewOf(t).refs, BlockerRefs(t.blockers), r);
    }
  }

  lemma HeaderPlain(columns: seq<string>)
    requires forall c :: c in columns ==> Plain(c)
    ensures Plain(Header(columns))
  {
    CellsPlain(columns);
    var rule := seq(|columns|, _ => "---");
    assert forall c :: c in rule ==> Plain(c);
    CellsPlain(rule);
  }

  lemma ColumnsPlain()
    ensures forall c :: c in PLAIN_COLUMNS ==> Plain(c)
    ensures forall c :: c in RUNTIME_COLUMNS ==> Plain(c)
  {}

  lemma SeparatorOk()
    ensures Plain(" | ") && HasBreaker(" | ")
  {
    assert IsBreaker(" | "[1]);
  }

  lemma RowEndOk(refs: seq<string>)
    requires forall r :: r in refs ==> Plain(r)
    ensures Plain(" | " + JoinRefs(refs) + " |\n") && HasBreaker(" | " + JoinRefs(refs) + " |\n")
  {
    RefsPlain(refs);
    assert (" | " + JoinRefs(refs) + " |\n")[1] == '|';
  }

  lemma NumbersOk(lease: int, pull: int)
    ensures Plain(" | " + Decimal(lease) + " | " + Reference(pull) + " | ")
    ensures HasBreaker(" | " + Decimal(lease) + " | " + Reference(pull) + " | ")
  {
    DecimalPlain(lease);
    ReferencePlain(pull);
    assert (" | " + Decimal(lease) + " | " + Reference(pull) + " | ")[1] == '|';
  }

  /** Pieces that start with renderer text holding punctuation and end with a field. */
  ghost predicate CellList(pieces: seq<Piece>) {
    && WellFormed(pieces)
    && (pieces != [] ==> pieces[0].Fixed? && HasBreaker(pieces[0].text) && pieces[|pieces| - 1].Field?)
  }

  lemma CellIsList(separator: string, text: string)
    requires Plain(separator) && HasBreaker(separator)
    ensures CellList(Cell(separator, text))
  {}

  lemma CellsAppend(a: seq<Piece>, b: seq<Piece>)
    requires CellList(a) && CellList(b)
    ensures CellList(a + b)
  {
    var c := a + b;
    forall i | 0 <= i < |c| ensures PieceOk(c, i) {
      if i < |a| {
        assert PieceOk(a, i);
      } else {
        assert PieceOk(b, i - |a|);
      }
    }
  }

  lemma RuntimeCellsWellFormed(t: Ticket)
    ensures CellList(RuntimeCells(t))
  {
    SeparatorOk();
    NumbersOk(t.leaseGeneration, t.pullRequest);
    var numbers := " | " + Decimal(t.leaseGeneration) + " | " + Reference(t.pullRequest) + " | ";
    var cells := Cell(" | ", t.state);
    cells := AddCell(cells, " | ", t.owner);
    cells := AddCell(cells, " | ", t.sessionId);
    cells := AddCell(cells, " | ", t.runId);
    cells := AddCell(cells, numbers, ShortRevision(t.revision));
    cells := AddCell(cells, " | ", t.gateResult);
    cells := AddCell(cells, " | ", t.lastActivity);
  }

  lemma AddCell(cells: seq<Piece>, separator: string, text: string) returns (more: seq<Piece>)
    requires CellList(cells) && Plain(separator) && HasBreaker(separator)
    ensures more == cells + Cell(separator, text) && CellList(more)
  {
    CellIsList(separator, text);
    CellsAppend(cells, Cell(separator, text));
    more := cells + Cell(separator, text);
  }

  lemma CellsClosed(cells: seq<Piece>, last: string)
    requires cells != [] && CellList(cells) && Plain(last) && HasBreaker(last)
    ensures WellFormed(cells + [Fixed(last)]) && Ends(cells + [Fixed(last)])
  {
    var c := cells + [Fixed(last)];
    forall i | 0 <= i < |c| ensures PieceOk(c, i) {
      if i < |cells| { assert PieceOk(cells, i); }
    }
  }

  lemma RowWellFormed(runtime: bool, v: View)
    requires PlainView(v)
    ensures WellFormed(Row(runtime, v)) && Ends(Row(runtime, v))
  {
    var opening := "| #" + Decimal(v.ticket.number) + " ";
    DecimalPlain(v.ticket.number);
    assert opening[0] == '|';
    CellIsList(opening, v.ticket.title);
    RuntimeCellsWellFormed(v.ticket);
    var more := if runtime then RuntimeCells(v.ticket) else [];
    CellsAppend(Cell(opening, v.ticket.title), more);
    RowEndOk(v.refs);
    CellsClosed(Cell(opening, v.ticket.title) + more, " | " + JoinRefs(v.refs) + " |\n");
  }

  lemma {:induction false} RowsWellFormed(runtime: bool, views: seq<View>)
    requires forall v :: v in views ==> PlainView(v)
    ensures WellFormed(Rows(runtime, views)) && Ends(Rows(runtime, views))
  {
    if views != [] {
      var init, last := views[..|views| - 1], views[|views| - 1];
      assert last in views;
      RowsWellFormed(runtime, init);
      RowWellFormed(runtime, last);
      WellFormedAppend(Rows(runtime, init), Row(runtime, last));
    }
  }

  lemma StateLinePlain() ensures Plain(STATE_LINE) {}

  lemma VersionLinePlain()
    ensures Plain(VERSION_LINE) && HasBreaker(VERSION_LINE)
  {
    assert VERSION_LINE[0] == '`';
  }

  lemma PausedLinePlain() ensures Plain(PAUSED_LINE) {}

  lemma FieldsBetween(a: string, x: string, b: string, y: string, c: string)
    requires Plain(a) && Plain(b) && Plain(c) && HasBreaker(b) && HasBreaker(c)
    ensures WellFormed([Fixed(a), Field(x), Fixed(b), Field(y), Fixed(c)])
    ensures WellFormed([Fixed(a), Field(x), Fixed(b)])
  {}

  lemma HeadingWellFormed(p: Projection)
    ensures WellFormed(Heading(p)) && Ends(Heading(p))
  {
    StateLinePlain();
    VersionLinePlain();
    PausedLinePlain();
    var close, gap := "`\n\n", "\n\n";
    assert close[0] == '`' && IsBreak(gap[0]);
    FieldsBetween(STATE_LINE, p.state, VERSION_LINE, p.versionId, close);
    FieldsBetween(PAUSED_LINE, EscapeCell(p.dispatchPaused), gap, "", gap);
    WellFormedAppend([Fixed(STATE_LINE), Field(p.state), Fixed(VERSION_LINE), Field(p.versionId), Fixed(close)], Paused(p));
  }

  lemma InboxLinesPlain()
    ensures Plain(INBOX_LINE_1) && Plain(INBOX_LINE_2)
  {}

  lemma MoreInboxLinesPlain()
    ensures Plain(INBOX_LINE_3) && Plain(INBOX_LINE_4)
  {}

  lemma FixedWellFormed(pieces: seq<Piece>)
    requires forall i :: 0 <= i < |pieces| ==> pieces[i].Fixed? && Plain(pieces[i].text)
    ensures WellFormed(pieces) && Ends(pieces)
  {}

  lemma InboxWellFormed(p: Projection)
    ensures WellFormed(InboxNote(p)) && Ends(InboxNote(p))
  {
    InboxLinesPlain();
    MoreInboxLinesPlain();
    FixedWellFormed(InboxNote(p));
  }

  lemma TableWellFormed(views: seq<View>)
    requires forall v :: v in views ==> PlainView(v)
    ensures WellFormed(Table(views)) && Ends(Table(views))
  {
    ColumnsPlain();
    var header := Header(if Runtime(views) then RUNTIME_COLUMNS else PLAIN_COLUMNS);
    HeaderPlain(if Runtime(views) then RUNTIME_COLUMNS else PLAIN_COLUMNS);
    RowsWellFormed(Runtime(views), views);
    WellFormedAppend([Fixed(header)], Rows(Runtime(views), views));
  }

  lemma ContentsWellFormed(p: Projection, views: seq<View>)
    requires forall v :: v in views ==> PlainView(v)
    ensures WellFormed(Contents(p, views))
  {
    HeadingWellFormed(p);
    TableWellFormed(views);
    InboxWellFormed(p);
    WellFormedAppend(Heading(p), Table(views));
    WellFormedAppend(Heading(p) + Table(views), InboxNote(p));
  }

  // ----- The free texts of a projection -----------------------------------------------

  ghost function FieldTexts(pieces: seq<Piece>): set<string> {
    set p | p in pieces && p.Field? :: p.text
  }

  lemma FieldTextsAppend(a: seq<Piece>, b: seq<Piece>)
    ensures FieldTexts(a + b) == FieldTexts(a) + FieldTexts(b)
  {}

  ghost function TicketTexts(runtime: bool, t: Ticket): set<string> {
    {EscapeCell(t.title)} +
    if runtime then
      {EscapeCell(t.state), EscapeCell(t.owner), EscapeCell(t.sessionId), EscapeCell(t.runId),
       EscapeCell(ShortRevision(t.revision)), EscapeCell(t.gateResult), EscapeCell(t.lastActivity)}
    else {}
  }

  ghost function TableTexts(runtime: bool, views: seq<View>): set<string> {
    set v, x | v in views && x in TicketTexts(runtime, v.ticket) :: x
  }

  /** Every text of the projection that reaches the block, as it reaches it. */
  ghost function FreeTexts(p: Projection): set<string> {
    {p.state, p.versionId}
    + (if p.dispatchPaused != "" then {EscapeCell(p.dispatchPaused)} else {})
    + TableTexts(Runtime(Views(p.tickets)), Views(p.tickets))
  }

  lemma CellTexts(separator: string, text: string)
    ensures FieldTexts(Cell(separator, text)) == {EscapeCell(text)}
  {
    var c := Cell(separator, text);
    assert c[1] in c;
  }

  lemma AddCellTexts(cells: seq<Piece>, separator: string, text: string) returns (more: seq<Piece>)
    ensures more == cells + Cell(separator, text)
    ensures FieldTexts(more) == FieldTexts(cells) + {EscapeCell(text)}
  {
    more := cells + Cell(separator, text);
    FieldTextsAppend(cells, Cell(separator, text));
    CellTexts(separator, text);
  }

  lemma RuntimeCellsTexts(t: Ticket)
    ensures FieldTexts(RuntimeCells(t)) ==
      {EscapeCell(t.state), EscapeCell(t.owner), EscapeCell(t.sessionId), EscapeCell(t.runId),
       EscapeCell(ShortRevision(t.revision)), EscapeCell(t.gateResult), EscapeCell(t.lastActivity)}
  {
    SevenCellsTexts(" | ", " | " + Decimal(t.leaseGeneration) + " | " + Reference(t.pullRequest) + " | ", t);
  }

  lemma SevenCellsTexts(bar: string, numbers: string, t: Ticket)
    ensures FieldTexts(
              Cell(bar, t.state) + Cell(bar, t.owner) + Cell(bar, t.sessionId) + Cell(bar, t.runId)
              + Cell(numbers, ShortRevision(t.revision)) + Cell(bar, t.gateResult) + Cell(bar, t.lastActivity)) ==
      {EscapeCell(t.state), EscapeCell(t.owner), EscapeCell(t.sessionId), EscapeCell(t.runId),
       EscapeCell(ShortRevision(t.revision)), EscapeCell(t.gateResult), EscapeCell(t.lastActivity)}
  {
    CellTexts(bar, t.state);
    var cells := FourMoreCells(Cell(bar, t.state), bar, numbers, t);
    cells := AddCellTexts(cells, bar, t.gateResult);
    cells := AddCellTexts(cells, bar, t.lastActivity);
    Together({EscapeCell(t.state)}, EscapeCell(t.owner), EscapeCell(t.sessionId), EscapeCell(t.runId),
             EscapeCell(ShortRevision(t.revision)));
  }

  lemma FourMoreCells(first: seq<Piece>, bar: string, numbers: string, t: Ticket) returns (more: seq<Piece>)
    ensures more == first + Cell(bar, t.owner) + Cell(bar, t.sessionId) + Cell(bar, t.runId) + Cell(numbers, ShortRevision(t.revision))
    ensures FieldTexts(more) == FieldTexts(first) + {EscapeCell(t.owner), EscapeCell(t.sessionId), EscapeCell(t.runId),
                                                     EscapeCell(ShortRevision(t.revision))}
  {
    more := AddCellTexts(first, bar, t.owner);
    more := AddCellTexts(more, bar, t.sessionId);
    more := AddCellTexts(more, bar, t.runId);
    more := AddCellTexts(more, numbers, ShortRevision(t.revision));
    Together(FieldTexts(first), EscapeCell(t.owner), EscapeCell(t.sessionId), EscapeCell(t.runId),
             EscapeCell(ShortRevision(t.revision)));
  }

  lemma Together(s: set<string>, a: string, b: string, c: string, d: string)
    ensures s + {a} + {b} + {c} + {d} == s + {a, b, c, d}
  {}

  lemma RowTextsAre(runtime: bool, v: View)
    ensures FieldTexts(Row(runtime, v)) == TicketTexts(runtime, v.ticket)
  {
    var opening := "| #" + Decimal(v.ticket.number) + " ";
    var more := if runtime then RuntimeCells(v.ticket) else [];
    CellTexts(opening, v.ticket.title);
    RuntimeCellsTexts(v.ticket);
    FieldTextsAppend(Cell(opening, v.ticket.title), more);
    FieldTextsAppend(Cell(opening, v.ticket.title) + more, [Fixed(" | " + JoinRefs(v.refs) + " |\n")]);
  }

  lemma {:induction false} RowsTextsAre(runtime: bool, views: seq<View>)
    ensures FieldTexts(Rows(runtime, views)) == TableTexts(runtime, views)
  {
    if views != [] {
      var init, last := views[..|views| - 1], views[|views| - 1];
      assert views == init + [last];
      RowsTextsAre(runtime, init);
      RowTextsAre(runtime, last);
      FieldTextsAppend(Rows(runtime, init), Row(runtime, last));
      TableTextsNext(runtime, init, last);
    }
  }

  lemma TableTextsNext(runtime: bool, init: seq<View>, last: View)
    ensures TableTexts(runtime, init + [last]) == TableTexts(runtime, init) + TicketTexts(runtime, last.ticket)
  {
    forall v ensures v in init + [last] <==> v in init || v == last {}
  }

  lemma TableTextsAre(views: seq<View>)
    ensures FieldTexts(Table(views)) == TableTexts(Runtime(views), views)
  {
    RowsTextsAre(Runtime(views), views);
    if views != [] {
      FieldTextsAppend([Fixed(Header(if Runtime(views) then RUNTIME_COLUMNS else PLAIN_COLUMNS))], Rows(Runtime(views), views));
    }
  }

  lemma HeadingTextsAre(p: Projection)
    ensures FieldTexts(Heading(p)) == {p.state, p.versionId} + if p.dispatchPaused != "" then {EscapeCell(p.dispatchPaused)} else {}
  {
    var h := Heading(p);
    assert h[1] == Field(p.state) && h[3] == Field(p.versionId) && h[1] in h && h[3] in h;
    if p.dispatchPaused != "" { assert h[6] == Field(EscapeCell(p.dispatchPaused)) && h[6] in h; }
  }

  lemma SameTableTexts(views: seq<View>, others: seq<View>)
    requires Permutes(views, others)
    ensures TableTexts(Runtime(views), views) == TableTexts(Runtime(others), others)
  {
    forall v ensures v in views <==> v in others { PermutesMembers(views, others, v); }
  }

  lemma ContentsTexts(p: Projection, views: seq<View>)
    requires Permutes(views, Views(p.tickets))
    ensures FieldTexts(Contents(p, views)) == FreeTexts(p)
  {
    HeadingTextsAre(p);
    TableTextsAre(views);
    SameTableTexts(views, Views(p.tickets));
    ThreeTexts(Heading(p), Table(views), InboxNote(p));
    NoteTexts(p);
  }

  lemma NoteTexts(p: Projection)
    ensures FieldTexts(InboxNote(p)) == {}
  {}

  lemma ThreeTexts(a: seq<Piece>, b: seq<Piece>, c: seq<Piece>)
    ensures FieldTexts(a + b + c) == FieldTexts(a) + FieldTexts(b) + FieldTexts(c)
  {
    FieldTextsAppend(a, b);
    FieldTextsAppend(a + b, c);
  }

  /** The exact condition on a projection: no free text, once escaped, holds a marker. */
  ghost predicate CleanTexts(p: Projection) {
    forall x :: x in FreeTexts(p) ==> NoMarkers(x)
  }

  lemma StartIsTableMarker() ensures IsTableMarker(STATUS_START) { StatusMarkers(); }

  lemma EndIsTableMarker() ensures IsTableMarker(STATUS_END) { StatusMarkers(); }

  /** The rendered contents hold a marker exactly when one of the free texts does. */
  lemma RenderingClean(p: Projection, text: string) returns (inner: string)
    requires IsRendering(p, text)
    ensures text == Block(inner) && (NoMarkers(inner) <==> CleanTexts(p))
  {
    var views :| Permutes(views, Views(p.tickets)) && Sorted(ByNumber, views) && text == Block(Joined(Contents(p, views)));
    inner := Joined(Contents(p, views));
    forall v | v in views ensures PlainView(v) {
      PermutesMembers(views, Views(p.tickets), v);
      var i :| 0 <= i < |p.tickets| && Views(p.tickets)[i] == v;
      ViewPlain(p.tickets[i]);
    }
    ContentsWellFormed(p, views);
    StartIsTableMarker();
    EndIsTableMarker();
    MarkerInTexts(Contents(p, views), STATUS_START);
    MarkerInTexts(Contents(p, views), STATUS_END);
    ContentsTexts(p, views);
  }

  lemma MarkerInTexts(pieces: seq<Piece>, m: string)
    requires WellFormed(pieces) && IsTableMarker(m)
    ensures Contains(Joined(pieces), m) <==> exists x :: x in FieldTexts(pieces) && Contains(x, m)
  {
    MarkerInPieces(pieces, m);
    if exists x :: x in FieldTexts(pieces) && Contains(x, m) {
      var x :| x in FieldTexts(pieces) && Contains(x, m);
      var p :| p in pieces && p.Field? && p.text == x;
      assert Contains(p.text, m);
    }
    if p :| p in pieces && p.Field? && Contains(p.text, m) {
      assert p.text in FieldTexts(pieces);
    }
  }

  // ----- Projection laws -----------------------------------------------------------------

  /**
   * Rendering p and then q: the second rendering is accepted exactly when p's free texts
   * are clean, and then the result is what rendering q alone gives.
   */
  lemma RenderTwice(body: string, p: Projection, first: string, second: string)
    requires IsRendering(p, first) && Place(body, first).Some?
    ensures Place(Place(body, first).value, second).Some? <==> CleanTexts(p)
    ensures CleanTexts(p) ==> Place(Place(body, first).value, second) == Place(body, second)
  {
    var inner := RenderingClean(p, first);
    PlaceTwice(body, inner, second);
  }

  const MARKER_HEAD := "<!--"
  const MARKER_TAIL := "workflow:status:end -->"

  /** A marker split over a line break passes unescaped and is whole in the table. */
  lemma EscapingJoinsMarkers()
    ensures NoMarkers(MARKER_HEAD + "\n" + MARKER_TAIL)
    ensures EscapeCell(MARKER_HEAD + "\n" + MARKER_TAIL) == STATUS_END
  {
    MarkerSplits();
    EscapeBreak(MARKER_HEAD, MARKER_TAIL);
    BrokenMarker(MARKER_HEAD + "\n" + MARKER_TAIL);
  }

  /** A reason for pausing that was given on two lines. */
  function PausedFor(reason: string): Projection { Projection("version", "Active", reason, [], []) }

  /** None of its texts holds a marker, and yet what it renders to is not rendered over again. */
  lemma SplitReasonRefused(body: string) returns (first: string)
    ensures var p := PausedFor(MARKER_HEAD + "\n" + MARKER_TAIL);
      IsRendering(p, first) && NoMarkers(p.versionId) && NoMarkers(p.state) && NoMarkers(p.dispatchPaused)
    ensures Place(body, first).Some? ==> forall second :: Place(Place(body, first).value, second).None?
    ensures NoMarkers(body) ==> Place(body, first).Some?
  {
    var reason := MARKER_HEAD + "\n" + MARKER_TAIL;
    var p := PausedFor(reason);
    first := Block(Joined(Contents(p, [])));
    assert Views(p.tickets) == [];
    EscapingJoinsMarkers();
    ShortTexts();
    SplitIsUnclean(reason);
    if Place(body, first).Some? {
      forall second ensures Place(Place(body, first).value, second).None? { RenderTwice(body, p, first, second); }
    }
    if NoMarkers(body) { CleanIsPlaced(body, first); }
  }

  lemma ShortTexts()
    ensures NoMarkers("version") && NoMarkers("Active")
  {
    BrokenMarker("version");
    BrokenMarker("Active");
  }

  lemma SplitIsUnclean(reason: string)
    requires reason != "" && EscapeCell(reason) == STATUS_END
    ensures !CleanTexts(PausedFor(reason))
  {
    assert EscapeCell(reason) in FreeTexts(PausedFor(reason));
    assert OccursAt(STATUS_END, STATUS_END, 0);
  }

  lemma CleanIsPlaced(body: string, block: string)
    requires NoMarkers(body)
    ensures Place(body, block).Some?
  {
    StatusMarkers();
    CountZero(body, STATUS_START);
    CountZero(body, STATUS_END);
  }

  lemma MarkerSplits()
    ensures MARKER_HEAD + " " + MARKER_TAIL == STATUS_END
    ensures |MARKER_HEAD + "\n" + MARKER_TAIL| == |STATUS_END|
    ensures MARKER_HEAD + "\n" + MARKER_TAIL != STATUS_END
    ensures forall i :: 0 <= i < |MARKER_HEAD| ==> MARKER_HEAD[i] != '|' && !IsBreak(MARKER_HEAD[i])
    ensures forall i :: 0 <= i < |MARKER_TAIL| ==> MARKER_TAIL[i] != '|' && !IsBreak(MARKER_TAIL[i])
  {
    assert (MARKER_HEAD + "\n" + MARKER_TAIL)[4] == '\n' && STATUS_END[4] == ' ';
  }

  lemma EscapeBreak(head: string, tail: string)
    requires forall i :: 0 <= i < |head| ==> head[i] != '|' && !IsBreak(head[i])
    requires forall i :: 0 <= i < |tail| ==> tail[i] != '|' && !IsBreak(tail[i])
    ensures EscapeCell(head + "\n" + tail) == head + " " + tail
  {
    EscapeAppend(head + "\n", tail);
    EscapeAppend(head, "\n");
    EscapeNothing(head);
    EscapeNothing(tail);
    assert "\n"[..0] == "";
    assert EscapeCell("\n") == " ";
  }

  lemma BrokenMarker(title: string)
    requires |title| <= |STATUS_END| && title != STATUS_END
    ensures NoMarkers(title)
  {
    forall i ensures !OccursAt(title, STATUS_START, i) && !OccursAt(title, STATUS_END, i) {
      if i == 0 && |title| == |STATUS_END| { assert title[0..|STATUS_END|] == title; }
    }
  }

  lemma {:induction false} EscapeAppend(a: string, b: string)
    ensures EscapeCell(a + b) == EscapeCell(a) + EscapeCell(b)
  {
    if b == "" {
      assert a + b == a;
    } else {
      assert (a + b)[..|a + b| - 1] == a + b[..|b| - 1];
      EscapeAppend(a, b[..|b| - 1]);
    }
  }

  lemma {:induction false} EscapeNothing(s: string)
    requires forall i :: 0 <= i < |s| ==> s[i] != '|' && !IsBreak(s[i])
    ensures EscapeCell(s) == s
  {
    if s != "" {
      EscapeNothing(s[..|s| - 1]);
      assert s == s[..|s| - 1] + [s[|s| - 1]];
    }
  }
}
