/** The Workflow-managed block of AGENTS.md: rewriting it and reading it back. */
module ManagedBlock {
  import opened Collections
  import opened Text
  import opened Markers

  const BLOCK_START := "<!-- agent-workflow:start -->"
  const BLOCK_END := "<!-- agent-workflow:end -->"

  /**
   * What the generated template block looks like: one start marker, a text without
   * markers, one end marker and a line feed. Everything below holds for any such block.
   */
  ghost predicate IsTemplate(block: string) {
    exists inner :: TemplateWith(block, inner)
  }

  ghost predicate TemplateWith(block: string, inner: string) {
    block == BLOCK_START + inner + BLOCK_END + "\n" && Clean(inner, BLOCK_START, BLOCK_END)
  }

  /** The local `end++` steps: one optional CR, then one optional LF. */
  function SkipLineEnd(s: string, end: nat): (r: nat)
    requires end <= |s|
    ensures end <= r <= |s|
  {
    var afterCr := if end < |s| && s[end] == '\r' then end + 1 else end;
    if afterCr < |s| && s[afterCr] == '\n' then afterCr + 1 else afterCr
  }

  /** reconcileBlock: append the block, or replace the one that is there. */
  function ReconcileBlock(block: string, existing: string): Option<string> {
    ReconcileBetween(block, existing, BLOCK_START, BLOCK_END)
  }

  function ReconcileBetween(block: string, existing: string, startMarker: string, endMarker: string): Option<string> {
    var start, end := Index(existing, startMarker), Index(existing, endMarker);
    if start < 0 && end < 0 then
      var closed := if existing != "" && existing[|existing| - 1] != '\n' then existing + "\n" else existing;
      Some((if closed != "" then closed + "\n" else closed) + block)
    else if start < 0 || end < start then None
    else Some(existing[..start] + block + existing[SkipLineEnd(existing, end + |endMarker|)..])
  }

  /** extractBlock: the block with its line end, when it is the only one. */
  function ExtractBlock(value: string): Option<string> { ExtractBetween(value, BLOCK_START, BLOCK_END) }

  function ExtractBetween(value: string, startMarker: string, endMarker: string): Option<string>
    requires startMarker != "" && endMarker != ""
  {
    if Count(value, startMarker) != 1 || Count(value, endMarker) != 1 then None
    else
      var start := Index(value, startMarker);
      if start < 0 then None
      else
        var endRelative := Index(value[start..], endMarker);
        if endRelative < 0 then None
        else Some(value[start..SkipLineEnd(value, start + endRelative + |endMarker|)])
  }

  ghost predicate AtMostOneEach(s: string) {
    Count(s, BLOCK_START) <= 1 && Count(s, BLOCK_END) <= 1
  }

  // ----- Laws -------------------------------------------------------------------

  lemma StartMarker()
    ensures IsMarker(BLOCK_START)
  {
    StartOpens();
    StartCloses();
    StartUnbroken();
  }

  lemma StartOpens()
    ensures forall i :: 0 < i < |BLOCK_START| ==> BLOCK_START[i] != '<'
  {}

  lemma StartCloses()
    ensures forall i :: 0 <= i < |BLOCK_START| - 1 ==> BLOCK_START[i] != '>'
  {}

  lemma StartUnbroken()
    ensures forall i :: 0 <= i < |BLOCK_START| ==> !IsBreak(BLOCK_START[i])
  {}

  lemma EndMarker()
    ensures IsMarker(BLOCK_END)
  {
    EndOpens();
    EndCloses();
    EndUnbroken();
  }

  lemma EndOpens()
    ensures forall i :: 0 < i < |BLOCK_END| ==> BLOCK_END[i] != '<'
  {}

  lemma EndCloses()
    ensures forall i :: 0 <= i < |BLOCK_END| - 1 ==> BLOCK_END[i] != '>'
  {}

  lemma EndUnbroken()
    ensures forall i :: 0 <= i < |BLOCK_END| ==> !IsBreak(BLOCK_END[i])
  {}

  lemma BlockMarkers()
    ensures IsPair(BLOCK_START, BLOCK_END)
  {
    StartMarker();
    EndMarker();
    assert |BLOCK_START| != |BLOCK_END|;
  }

  /** How a text with the block in it is laid out. */
  function Layout(before: string, inner: string, lineEnd: string, after: string): string {
    Marked(before, BLOCK_START, inner, BLOCK_END, lineEnd + after)
  }

  ghost predicate EndsLine(lineEnd: string, after: string) {
    SkipLineEnd(lineEnd + after, 0) == |lineEnd|
  }

  lemma SkipAfter(head: string, lineEnd: string, after: string)
    requires EndsLine(lineEnd, after)
    ensures SkipLineEnd(head + (lineEnd + after), |head|) == |head| + |lineEnd|
  {
    var tail := lineEnd + after;
    assert forall i :: 0 <= i < |tail| ==> (head + tail)[|head| + i] == tail[i];
  }

  lemma ReconcileAt(block: string, existing: string, start: string, end: string, i: nat, j: nat)
    requires Index(existing, start) == i <= j == Index(existing, end)
    ensures ReconcileBetween(block, existing, start, end)
         == Some(existing[..i] + block + existing[SkipLineEnd(existing, j + |end|)..])
  {}

  lemma InOrder(block: string, existing: string, start: string, end: string)
    requires ReconcileBetween(block, existing, start, end).Some?
    requires Contains(existing, start) || Contains(existing, end)
    ensures 0 <= Index(existing, start) <= Index(existing, end)
  {}

  lemma LayoutSlices(before: string, start: string, inner: string, end: string, lineEnd: string, after: string)
    ensures var s := Marked(before, start, inner, end, lineEnd + after);
      var j := |before| + |start| + |inner| + |end|;
      j + |lineEnd| <= |s| && s[..|before|] == before && s[j + |lineEnd|..] == after
      && s == (before + start + inner + end) + (lineEnd + after)
  {}

  /** A successful rewrite replaces exactly the block and its line end. */
  lemma ReconcileReplaces(block: string, existing: string) returns (before: string, inner: string, lineEnd: string, after: string)
    requires ReconcileBlock(block, existing).Some?
    requires Contains(existing, BLOCK_START) || Contains(existing, BLOCK_END)
    ensures existing == Layout(before, inner, lineEnd, after) && EndsLine(lineEnd, after)
    ensures Clean(before, BLOCK_START, BLOCK_END) && !Contains(inner, BLOCK_END)
    ensures ReconcileBlock(block, existing) == Some(before + block + after)
  {
    BlockMarkers();
    InOrder(block, existing, BLOCK_START, BLOCK_END);
    before, inner, lineEnd, after := ReplacedBetween(block, existing, BLOCK_START, BLOCK_END);
  }

  lemma ReplacedBetween(block: string, existing: string, start: string, end: string)
    returns (before: string, inner: string, lineEnd: string, after: string)
    requires IsPair(start, end) && 0 <= Index(existing, start) <= Index(existing, end)
    ensures existing == Marked(before, start, inner, end, lineEnd + after) && EndsLine(lineEnd, after)
    ensures Clean(before, start, end) && !Contains(inner, end)
    ensures ReconcileBetween(block, existing, start, end) == Some(before + block + after)
  {
    var rest;
    before, inner, rest := Unmark(existing, start, end);
    var n := |before| + |start| + |inner| + |end|;
    lineEnd, after := SplitLineEnd(before + start + inner + end, rest);
    LayoutSlices(before, start, inner, end, lineEnd, after);
    assert SkipLineEnd(existing, n) == n + |lineEnd|;
    ReconcileAt(block, existing, start, end, |before|, |before| + |start| + |inner|);
  }

  lemma SplitLineEnd(head: string, rest: string) returns (lineEnd: string, after: string)
    ensures rest == lineEnd + after && EndsLine(lineEnd, after)
    ensures SkipLineEnd(head + rest, |head|) == |head| + |lineEnd|
  {
    var n := SkipLineEnd(rest, 0);
    lineEnd, after := rest[..n], rest[n..];
    assert rest == lineEnd + after;
    SkipAfter(head, lineEnd, after);
  }

  /** The first start marker comes before the first end marker. */
  ghost predicate InBlockOrder(existing: string, before: string, inner: string, rest: string) {
    && existing == before + "<!-- agent-workflow:start -->" + inner + "<!-- agent-workflow:end -->" + rest
    && Clean(before, BLOCK_START, BLOCK_END) && !Contains(inner, BLOCK_END)
  }

  /** Which texts are rewritten: those without any marker, and those whose first markers stand in order. */
  lemma ReconcileAccepts(block: string, existing: string)
    ensures ReconcileBlock(block, existing).Some? <==>
      Clean(existing, BLOCK_START, BLOCK_END) || exists before, inner, rest :: InBlockOrder(existing, before, inner, rest)
  {
    BlockMarkers();
    if Clean(existing, BLOCK_START, BLOCK_END) {
      var gap := ReconcileAppends(block, existing);
    } else if ReconcileBlock(block, existing).Some? {
      InOrder(block, existing, BLOCK_START, BLOCK_END);
      var before, inner, rest := Unmark(existing, BLOCK_START, BLOCK_END);
      assert InBlockOrder(existing, before, inner, rest);
    } else {
      forall before, inner, rest ensures !InBlockOrder(existing, before, inner, rest) {
        if InBlockOrder(existing, before, inner, rest) { OrderIsRewritten(block, before, inner, rest, BLOCK_START, BLOCK_END); }
      }
    }
  }

  lemma OrderIsRewritten(block: string, before: string, inner: string, rest: string, start: string, end: string)
    requires IsPair(start, end) && Clean(before, start, end) && !Contains(inner, end)
    ensures ReconcileBetween(block, Marked(before, start, inner, end, rest), start, end).Some?
  {
    MarkedStart(before, start, inner, end, rest);
    MarkedEnd(before, start, inner, end, rest);
  }

  /** A line end is what follows up to the line feed, a carriage return before it, or nothing. */
  lemma LineEndMeans(lineEnd: string, after: string)
    ensures EndsLine(lineEnd, after) <==>
      || lineEnd == ['\n'] || lineEnd == ['\r', '\n']
      || (lineEnd == ['\r'] && (after == "" || after[0] != '\n'))
      || (lineEnd == [] && (after == "" || after[0] !in {'\r', '\n'}))
  {
    var s := lineEnd + after;
    assert forall i :: 0 <= i < |lineEnd| ==> s[i] == lineEnd[i];
    assert forall i :: |lineEnd| <= i < |s| ==> s[i] == after[i - |lineEnd|];
  }

  /** One block with its line end, and no other marker. */
  ghost predicate SingleBlock(value: string, before: string, inner: string, lineEnd: string, after: string) {
    && value == Layout(before, inner, lineEnd, after) && EndsLine(lineEnd, after)
    && Clean(before, BLOCK_START, BLOCK_END) && Clean(inner, BLOCK_START, BLOCK_END) && Clean(after, BLOCK_START, BLOCK_END)
  }

  /** A marker that is found a second time is counted twice. */
  lemma {:induction false} TwiceCounted(s: string, m: string, i: nat, k: int)
    requires IsMarker(m) && Index(s, m) == i && OccursAt(s, m, k) && i < k
    ensures Count(s, m) >= 2
  {
    SelfApart(s, m, i, k);
    var rest := s[i + |m|..];
    assert s == s[..i + |m|] + rest;
    OccursRight(s[..i + |m|], rest, m, k);
    CountZero(rest, m);
    CountNext(s, m, i, rest);
  }

  lemma SelfApart(s: string, m: string, i: int, k: int)
    requires IsMarker(m) && OccursAt(s, m, i) && OccursAt(s, m, k) && i < k
    ensures i + |m| <= k
  {
    var a, b := s[i..i + |m|], s[k..k + |m|];
    assert b[0] == s[k];
    assert forall x :: i < x < i + |m| ==> s[x] == a[x - i] != '<';
  }

  /** Where a block is found its markers stand in order. */
  lemma {:induction false} ExtractedOrder(value: string, start: string, end: string)
    requires IsPair(start, end) && ExtractBetween(value, start, end).Some?
    ensures 0 <= Index(value, start) <= Index(value, end) && Count(value, start) == 1 && Count(value, end) == 1
  {
    var i, j := ExtractedWhere(value, start, end);
    EndWhere(value, end, i, j);
  }

  lemma {:induction false} EndWhere(value: string, end: string, i: nat, j: nat)
    requires IsMarker(end) && i <= |value| && Index(value[i..], end) == j && Count(value, end) == 1
    ensures Index(value, end) == i + j && i + j + |end| <= |value|
  {
    assert value == value[..i] + value[i..];
    OccursRight(value[..i], value[i..], end, i + j);
    if Index(value, end) < i + j { TwiceCounted(value, end, Index(value, end), i + j); }
  }

  /** The parts of a text in which a block is found. */
  lemma {:induction false} ExtractedParts(value: string, start: string, end: string)
    returns (before: string, inner: string, lineEnd: string, after: string)
    requires IsPair(start, end) && ExtractBetween(value, start, end).Some?
    ensures value == Marked(before, start, inner, end, lineEnd + after) && EndsLine(lineEnd, after)
    ensures Clean(before, start, end) && Clean(inner, start, end) && Clean(after, start, end)
    ensures Index(value, start) == |before| && Index(value, end) == |before| + |start| + |inner|
  {
    ExtractedOrder(value, start, end);
    var rest;
    before, inner, rest := Unmark(value, start, end);
    lineEnd, after := SplitLineEnd(before + start + inner + end, rest);
    CleanAround(before, start, inner, end, lineEnd, after);
  }

  /** Between the markers' places stands the block with its line end. */
  lemma {:induction false} TextBetween(value: string, before: string, start: string, inner: string, end: string, lineEnd: string, after: string)
    requires value == Marked(before, start, inner, end, lineEnd + after) && EndsLine(lineEnd, after)
    ensures var n := |before| + |start| + |inner| + |end|;
      n <= |value| && value[|before|..SkipLineEnd(value, n)] == start + inner + end + lineEnd
  {
    LayoutSlices(before, start, inner, end, lineEnd, after);
    SkipAfter(before + start + inner + end, lineEnd, after);
    ExtractedSlice(before, start, inner, end, lineEnd, after);
  }

  lemma ExtractedSlice(before: string, start: string, inner: string, end: string, lineEnd: string, after: string)
    ensures var n := |before| + |start| + |inner| + |end| + |lineEnd|;
      n <= |Marked(before, start, inner, end, lineEnd + after)|
      && Marked(before, start, inner, end, lineEnd + after)[|before|..n] == start + inner + end + lineEnd
      && Marked(before, start, inner, end, lineEnd + after)[|before|..] == Marked("", start, inner, end, lineEnd + after)
  {}

  /** Counted once each, the two markers leave nothing marked around them. */
  lemma CleanAround(before: string, start: string, inner: string, end: string, lineEnd: string, after: string)
    requires IsPair(start, end) && Clean(before, start, end) && !Contains(inner, end) && EndsLine(lineEnd, after)
    ensures var s := Marked(before, start, inner, end, lineEnd + after);
      Count(s, start) == 1 && Count(s, end) == 1 <==> Clean(inner, start, end) && Clean(after, start, end)
  {
    MarkedParts(before, start, inner, end, lineEnd + after);
    CountZero(before, start);
    CountZero(before, end);
    CountZero(inner, start);
    CountZero(inner, end);
    CountZero(lineEnd + after, start);
    CountZero(lineEnd + after, end);
    LineEndIsClean(lineEnd, after, start);
    LineEndIsClean(lineEnd, after, end);
  }

  /** Both markers occur once, from `i` on the end marker first at `j`, and the block is what lies up to the line end. */
  ghost predicate FoundAt(value: string, start: string, end: string, i: nat, j: nat, block: string) {
    && start != "" && end != "" && Count(value, start) == 1 && Count(value, end) == 1
    && i + j + |end| <= |value| && Index(value, start) == i && Index(value[i..], end) == j
    && value[i..SkipLineEnd(value, i + j + |end|)] == block
  }

  lemma {:induction false} FoundIsExtracted(value: string, start: string, end: string, i: nat, j: nat, block: string)
    requires FoundAt(value, start, end, i, j, block)
    ensures ExtractBetween(value, start, end) == Some(block)
  {}

  lemma {:induction false} SingleIsFound(value: string, before: string, start: string, inner: string, end: string, lineEnd: string, after: string)
    requires IsPair(start, end) && Clean(before, start, end) && Clean(inner, start, end) && Clean(after, start, end)
    requires value == Marked(before, start, inner, end, lineEnd + after) && EndsLine(lineEnd, after)
    ensures FoundAt(value, start, end, |before|, |start| + |inner|, start + inner + end + lineEnd)
  {
    CleanAround(before, start, inner, end, lineEnd, after);
    MarkedStart(before, start, inner, end, lineEnd + after);
    MarkedEnd("", start, inner, end, lineEnd + after);
    ExtractedSlice(before, start, inner, end, lineEnd, after);
    TextBetween(value, before, start, inner, end, lineEnd, after);
  }

  lemma {:induction false} SingleIsExtracted(before: string, start: string, inner: string, end: string, lineEnd: string, after: string)
    requires IsPair(start, end) && Clean(before, start, end) && Clean(inner, start, end) && Clean(after, start, end)
    requires EndsLine(lineEnd, after)
    ensures ExtractBetween(Marked(before, start, inner, end, lineEnd + after), start, end) == Some(start + inner + end + lineEnd)
  {
    var value := Marked(before, start, inner, end, lineEnd + after);
    SingleIsFound(value, before, start, inner, end, lineEnd, after);
    FoundIsExtracted(value, start, end, |before|, |start| + |inner|, start + inner + end + lineEnd);
  }

  lemma {:induction false} ExtractedWhere(value: string, start: string, end: string) returns (i: nat, j: nat)
    requires start != "" && end != "" && ExtractBetween(value, start, end).Some?
    ensures Count(value, start) == 1 && Count(value, end) == 1
    ensures i <= |value| && Index(value, start) == i && Index(value[i..], end) == j
  {
    i := Index(value, start);
    j := Index(value[i..], end);
  }

  /** What is extracted: the only block, with its markers and its line end; nothing when there is none or another marker. */
  lemma {:induction false} ExtractMeans(value: string, block: string)
    ensures ExtractBlock(value) == Some(block) <==> exists before, inner, lineEnd, after ::
      SingleBlock(value, before, inner, lineEnd, after)
      && block == "<!-- agent-workflow:start -->" + inner + "<!-- agent-workflow:end -->" + lineEnd
  {
    BlockMarkers();
    if ExtractBlock(value) == Some(block) {
      var before, inner, lineEnd, after := ExtractedParts(value, BLOCK_START, BLOCK_END);
      assert SingleBlock(value, before, inner, lineEnd, after);
      SingleIsExtracted(before, BLOCK_START, inner, BLOCK_END, lineEnd, after);
    }
    if before, inner, lineEnd, after :|
      SingleBlock(value, before, inner, lineEnd, after)
      && block == "<!-- agent-workflow:start -->" + inner + "<!-- agent-workflow:end -->" + lineEnd
    {
      SingleIsExtracted(before, BLOCK_START, inner, BLOCK_END, lineEnd, after);
    }
  }

  /** The rewritten text, read with the template in place of the old block. */
  lemma RewrittenLayout(block: string, inner: string, before: string, after: string)
    requires TemplateWith(block, inner)
    ensures before + block + after == Layout(before, inner, "\n", after)
    ensures EndsLine("\n", after)
  {
    assert BLOCK_END + "\n" + after == BLOCK_END + ("\n" + after);
    LineFeedEnds(after);
  }

  /** Every successful rewrite is a fixed point of rewriting. */
  lemma ReconcileIdempotent(block: string, existing: string)
    requires IsTemplate(block)
    requires ReconcileBlock(block, existing).Some?
    ensures ReconcileBlock(block, ReconcileBlock(block, existing).value) == ReconcileBlock(block, existing)
  {
    var inner :| TemplateWith(block, inner);
    var before, after := Surroundings(block, existing);
    RewriteAgain(block, inner, before, after);
  }

  lemma RewriteAgain(block: string, inner: string, before: string, after: string)
    requires TemplateWith(block, inner) && Clean(before, BLOCK_START, BLOCK_END)
    ensures ReconcileBlock(block, before + block + after) == Some(before + block + after)
  {
    BlockMarkers();
    RewrittenLayout(block, inner, before, after);
    RewrittenBetween(block, before, BLOCK_START, inner, BLOCK_END, after);
  }

  lemma RewrittenBetween(block: string, before: string, start: string, inner: string, end: string, after: string)
    requires IsPair(start, end) && Clean(before, start, end) && !Contains(inner, end)
    ensures var s := Marked(before, start, inner, end, "\n" + after);
      ReconcileBetween(block, s, start, end) == Some(before + block + after)
  {
    var s := Marked(before, start, inner, end, "\n" + after);
    MarkedStart(before, start, inner, end, "\n" + after);
    MarkedEnd(before, start, inner, end, "\n" + after);
    SkipMarked(before, start, inner, end, "\n", after);
    LayoutSlices(before, start, inner, end, "\n", after);
    ReconcileAt(block, s, start, end, |before|, |before| + |start| + |inner|);
  }

  lemma LineFeedEnds(after: string)
    ensures EndsLine("\n", after)
  {
    assert ("\n" + after)[0] == '\n';
  }

  /** A text without markers is kept whole, closed by line feeds, before the block. */
  lemma ReconcileAppends(block: string, existing: string) returns (gap: string)
    requires Clean(existing, BLOCK_START, BLOCK_END)
    ensures ReconcileBlock(block, existing) == Some(existing + gap + block)
    ensures gap == "" || gap == "\n" || gap == "\n\n"
    ensures Clean(existing + gap, BLOCK_START, BLOCK_END)
  {
    BlockMarkers();
    gap := if existing == "" then "" else if existing[|existing| - 1] != '\n' then "\n\n" else "\n";
    assert existing + "\n" + "\n" == existing + "\n\n";
    NotInBreaks(gap, BLOCK_START);
    NotInBreaks(gap, BLOCK_END);
    AtSeam(existing, gap, BLOCK_START);
    AtSeam(existing, gap, BLOCK_END);
  }

  /** What a caller can check before rewriting: nothing marked follows the first end marker. */
  ghost predicate NothingMarkedAfter(existing: string) {
    var end := Index(existing, BLOCK_END);
    end >= 0 ==> Clean(existing[end + |BLOCK_END|..], BLOCK_START, BLOCK_END)
  }

  lemma Surroundings(block: string, existing: string) returns (before: string, after: string)
    requires ReconcileBlock(block, existing).Some?
    ensures ReconcileBlock(block, existing) == Some(before + block + after)
    ensures Clean(before, BLOCK_START, BLOCK_END)
    ensures Clean(after, BLOCK_START, BLOCK_END) <==> NothingMarkedAfter(existing)
  {
    BlockMarkers();
    if Clean(existing, BLOCK_START, BLOCK_END) {
      var gap := ReconcileAppends(block, existing);
      before, after := existing + gap, "";
      assert existing + gap + block == before + block + after;
    } else {
      var inner, lineEnd;
      before, inner, lineEnd, after := ReconcileReplaces(block, existing);
      MarkedEnd(before, BLOCK_START, inner, BLOCK_END, lineEnd + after);
      assert existing[Index(existing, BLOCK_END) + |BLOCK_END|..] == lineEnd + after;
      LineEndIsClean(lineEnd, after, BLOCK_START);
      LineEndIsClean(lineEnd, after, BLOCK_END);
    }
  }

  lemma LineEndIsClean(lineEnd: string, after: string, m: string)
    requires EndsLine(lineEnd, after) && IsMarker(m)
    ensures Contains(lineEnd + after, m) <==> Contains(after, m)
  {
    var s := lineEnd + after;
    assert forall i :: 0 <= i < |lineEnd| ==> s[i] == lineEnd[i] && IsBreak(s[i]);
    NotInBreaks(lineEnd, m);
    AtSeam(lineEnd, after, m);
  }

  /**
   * The rewritten text holds exactly the template block, as the extractor sees it, if and
   * only if nothing marked followed the first end marker of the text that was rewritten.
   */
  lemma ExtractAfterReconcile(block: string, existing: string)
    requires IsTemplate(block) && ReconcileBlock(block, existing).Some?
    ensures ExtractBlock(ReconcileBlock(block, existing).value) == Some(block) <==> NothingMarkedAfter(existing)
    ensures ExtractBlock(ReconcileBlock(block, existing).value) == None <==> !NothingMarkedAfter(existing)
  {
    var inner :| TemplateWith(block, inner);
    var before, after := Surroundings(block, existing);
    ExtractRewritten(block, inner, before, after);
  }

  lemma ExtractRewritten(block: string, inner: string, before: string, after: string)
    requires TemplateWith(block, inner) && Clean(before, BLOCK_START, BLOCK_END)
    ensures ExtractBlock(before + block + after) ==
            if Clean(after, BLOCK_START, BLOCK_END) then Some(block) else None
  {
    BlockMarkers();
    RewrittenLayout(block, inner, before, after);
    RewrittenCounts(before, inner, after);
    if Clean(after, BLOCK_START, BLOCK_END) {
      SingleIsExtracted(before, BLOCK_START, inner, BLOCK_END, "\n", after);
    }
  }

  lemma SkipMarked(before: string, start: string, inner: string, end: string, lineEnd: string, after: string)
    requires lineEnd == "\n"
    ensures var n := |before| + |start| + |inner| + |end|;
      n <= |Marked(before, start, inner, end, lineEnd + after)|
      && SkipLineEnd(Marked(before, start, inner, end, lineEnd + after), n) == n + 1
  {
    LineFeedEnds(after);
    SkipAfter(before + start + inner + end, lineEnd, after);
    LayoutSlices(before, start, inner, end, lineEnd, after);
  }

  lemma RewrittenCounts(before: string, inner: string, after: string)
    requires Clean(before, BLOCK_START, BLOCK_END) && Clean(inner, BLOCK_START, BLOCK_END)
    ensures (Count(Layout(before, inner, "\n", after), BLOCK_START) == 1 && Count(Layout(before, inner, "\n", after), BLOCK_END) == 1)
       <==> Clean(after, BLOCK_START, BLOCK_END)
  {
    BlockMarkers();
    MarkedParts(before, BLOCK_START, inner, BLOCK_END, "\n" + after);
    CountZero(before, BLOCK_START);
    CountZero(before, BLOCK_END);
    CountZero(inner, BLOCK_START);
    CountZero(inner, BLOCK_END);
    TailCount(after, BLOCK_START);
    TailCount(after, BLOCK_END);
  }

  lemma TailCount(after: string, m: string)
    requires IsMarker(m)
    ensures Count("\n" + after, m) == 0 <==> !Contains(after, m)
  {
    CountZero("\n" + after, m);
    assert ("\n" + after)[0] == '\n';
    LineEndIsClean("\n", after, m);
  }

  /** At most one marker of each kind is enough. */
  lemma OneBlockIsEnough(block: string, existing: string)
    requires ReconcileBlock(block, existing).Some? && AtMostOneEach(existing)
    ensures NothingMarkedAfter(existing)
  {
    BlockMarkers();
    if !Clean(existing, BLOCK_START, BLOCK_END) {
      var before, inner, lineEnd, after := ReconcileReplaces(block, existing);
      var tail := lineEnd + after;
      MarkedParts(before, BLOCK_START, inner, BLOCK_END, tail);
      MarkedEnd(before, BLOCK_START, inner, BLOCK_END, tail);
      assert existing[Index(existing, BLOCK_END) + |BLOCK_END|..] == tail;
      CountZero(tail, BLOCK_START);
      CountZero(tail, BLOCK_END);
    }
  }

  /** Two blocks: the rewrite succeeds, yet nothing can be extracted from its result. */
  lemma TwoBlocksAreNotExtracted(block: string)
    requires IsTemplate(block)
    ensures var twice := BLOCK_START + BLOCK_END + BLOCK_START + BLOCK_END;
      ReconcileBlock(block, twice).Some? && ExtractBlock(ReconcileBlock(block, twice).value) == None
  {
    BlockMarkers();
    TwiceMarked(block, BLOCK_START, BLOCK_END);
    var twice := BLOCK_START + BLOCK_END + BLOCK_START + BLOCK_END;
    ExtractAfterReconcile(block, twice);
  }

  lemma TwiceMarked(block: string, start: string, end: string)
    requires IsPair(start, end)
    ensures var twice := start + end + start + end;
      ReconcileBetween(block, twice, start, end).Some?
      && Index(twice, end) == |start| && Contains(twice[|start| + |end|..], start)
  {
    var twice, tail := start + end + start + end, start + end;
    assert twice == Marked("", start, "", end, tail);
    MarkedStart("", start, "", end, tail);
    MarkedEnd("", start, "", end, tail);
    assert twice[|start| + |end|..] == tail;
    assert OccursAt(tail, start, 0);
  }
}
