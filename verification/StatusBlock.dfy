/** Placing the status block in the Plan Root's body, and stripping it off again. */
module StatusBlock {
  import opened Collections
  import opened Text
  import opened Markers

  const STATUS_START := "<!-- workflow:status:start -->"
  const STATUS_END := "<!-- workflow:status:end -->"

  /** A rendered block around its contents. */
  function Block(inner: string): string { STATUS_START + inner + STATUS_END }

  /** RenderProjection, given the block it renders; None is the malformed-status error. */
  function Place(body: string, block: string): Option<string> { PlaceBetween(body, block, STATUS_START, STATUS_END) }

  function PlaceBetween(body: string, block: string, startMarker: string, endMarker: string): Option<string>
    requires startMarker != "" && endMarker != ""
  {
    if Count(body, startMarker) > 1 || Count(body, endMarker) > 1 then None
    else
      var start, end := Index(body, startMarker), Index(body, endMarker);
      if (start >= 0) != (end >= 0) || (end >= 0 && end < start) then None
      else if start >= 0 then Some(body[..start] + block + body[end + |endMarker|..])
      else if body == "" then Some(block)
      else Some(TrimRight(body) + "\n\n" + block)
  }

  /** stripProjection */
  function Strip(body: string): string { StripBetween(body, STATUS_START, STATUS_END) }

  function StripBetween(body: string, startMarker: string, endMarker: string): string {
    var around := Around(body, startMarker, endMarker);
    if around.None? then body else TrimRight(around.value.0) + TrimLeft(around.value.1)
  }

  /** What stands before and after the first block. */
  function Around(body: string, startMarker: string, endMarker: string): Option<(string, string)> {
    var start := Index(body, startMarker);
    if start < 0 then None
    else
      var rest := body[start + |startMarker|..];
      var end := Index(rest, endMarker);
      if end < 0 then None else Some((body[..start], rest[end + |endMarker|..]))
  }

  ghost predicate NoMarkers(s: string) { Clean(s, STATUS_START, STATUS_END) }

  lemma StartMarker()
    ensures IsMarker(STATUS_START)
  {
    StartOpens();
    StartCloses();
    StartUnbroken();
  }

  lemma StartOpens()
    ensures forall i :: 0 < i < |STATUS_START| ==> STATUS_START[i] != '<'
  {}

  lemma StartCloses()
    ensures forall i :: 0 <= i < |STATUS_START| - 1 ==> STATUS_START[i] != '>'
  {}

  lemma StartUnbroken()
    ensures forall i :: 0 <= i < |STATUS_START| ==> !IsBreak(STATUS_START[i])
  {}

  lemma EndMarker()
    ensures IsMarker(STATUS_END)
  {
    EndOpens();
    EndCloses();
    EndUnbroken();
  }

  lemma EndOpens()
    ensures forall i :: 0 < i < |STATUS_END| ==> STATUS_END[i] != '<'
  {}

  lemma EndCloses()
    ensures forall i :: 0 <= i < |STATUS_END| - 1 ==> STATUS_END[i] != '>'
  {}

  lemma EndUnbroken()
    ensures forall i :: 0 <= i < |STATUS_END| ==> !IsBreak(STATUS_END[i])
  {}

  lemma StatusMarkers()
    ensures IsPair(STATUS_START, STATUS_END)
  {
    StartMarker();
    EndMarker();
    assert |STATUS_START| != |STATUS_END|;
  }

  lemma NoMarkersInBreaks(s: string)
    requires forall i :: 0 <= i < |s| ==> IsBreak(s[i])
    ensures NoMarkers(s)
  {
    StatusMarkers();
    NotInBreaks(s, STATUS_START);
    NotInBreaks(s, STATUS_END);
  }

  /** A body with markers that Place accepts is exactly one block between marker-free texts. */
  lemma PlacedAround(body: string, block: string) returns (before: string, prior: string, after: string)
    requires Place(body, block).Some? && !NoMarkers(body)
    ensures body == before + Block(prior) + after
    ensures NoMarkers(before) && NoMarkers(prior) && NoMarkers(after)
  {
    StatusMarkers();
    MarkersInOrder(body, block);
    before, prior, after := SplitBody(body);
  }

  lemma MarkersInOrder(body: string, block: string)
    requires Place(body, block).Some? && !NoMarkers(body)
    ensures 0 <= Index(body, STATUS_START) <= Index(body, STATUS_END)
    ensures Count(body, STATUS_START) <= 1 && Count(body, STATUS_END) <= 1
  {
    StatusMarkers();
    InOrder(body, block, STATUS_START, STATUS_END);
  }

  lemma InOrder(body: string, block: string, start: string, end: string)
    requires IsPair(start, end) && PlaceBetween(body, block, start, end).Some? && !Clean(body, start, end)
    ensures 0 <= Index(body, start) <= Index(body, end)
    ensures Count(body, start) <= 1 && Count(body, end) <= 1
  {}

  lemma SplitBody(body: string) returns (before: string, prior: string, after: string)
    requires 0 <= Index(body, STATUS_START) <= Index(body, STATUS_END)
    requires Count(body, STATUS_START) <= 1 && Count(body, STATUS_END) <= 1
    ensures body == before + Block(prior) + after
    ensures NoMarkers(before) && NoMarkers(prior) && NoMarkers(after)
  {
    StatusMarkers();
    before, prior, after := Unmark(body, STATUS_START, STATUS_END);
    BlockLayout(before, prior, after);
    OnlyBlock(before, prior, after);
  }

  lemma BlockLayout(before: string, inner: string, after: string)
    ensures Marked(before, STATUS_START, inner, STATUS_END, after) == before + Block(inner) + after
  {
    assert before + (STATUS_START + inner + STATUS_END) == before + STATUS_START + inner + STATUS_END;
  }

  lemma OnlyBlock(before: string, prior: string, after: string)
    requires Count(Marked(before, STATUS_START, prior, STATUS_END, after), STATUS_START) <= 1
    requires Count(Marked(before, STATUS_START, prior, STATUS_END, after), STATUS_END) <= 1
    ensures !Contains(prior, STATUS_START) && NoMarkers(after)
  {
    StatusMarkers();
    MarkedParts(before, STATUS_START, prior, STATUS_END, after);
    CountZero(prior, STATUS_START);
    CountZero(after, STATUS_START);
    CountZero(after, STATUS_END);
  }

  lemma PlaceAt(body: string, block: string, start: string, end: string, i: nat, j: nat)
    requires IsPair(start, end) && Count(body, start) <= 1 && Count(body, end) <= 1
    requires Index(body, start) == i <= j == Index(body, end)
    ensures PlaceBetween(body, block, start, end) == Some(body[..i] + block + body[j + |end|..])
  {}

  /** Placing over an existing block keeps everything outside it. */
  lemma PlaceReplaces(before: string, prior: string, after: string, block: string)
    requires NoMarkers(before) && NoMarkers(prior) && NoMarkers(after)
    ensures Place(before + Block(prior) + after, block) == Some(before + block + after)
  {
    StatusMarkers();
    BlockLayout(before, prior, after);
    var body := Marked(before, STATUS_START, prior, STATUS_END, after);
    CountBlock(before, prior, after);
    CountZero(prior, STATUS_START);
    CountZero(prior, STATUS_END);
    MarkedStart(before, STATUS_START, prior, STATUS_END, after);
    MarkedEnd(before, STATUS_START, prior, STATUS_END, after);
    MarkedSlices(before, STATUS_START, prior, STATUS_END, after);
    PlaceAt(body, block, STATUS_START, STATUS_END, |before|, |before| + |STATUS_START| + |prior|);
  }

  lemma CountBlock(before: string, inner: string, after: string)
    requires NoMarkers(before) && NoMarkers(after)
    ensures Count(Marked(before, STATUS_START, inner, STATUS_END, after), STATUS_START) == 1 + Count(inner, STATUS_START)
    ensures Count(Marked(before, STATUS_START, inner, STATUS_END, after), STATUS_END) == 1 + Count(inner, STATUS_END)
  {
    StatusMarkers();
    MarkedParts(before, STATUS_START, inner, STATUS_END, after);
    CountZero(before, STATUS_START);
    CountZero(before, STATUS_END);
    CountZero(after, STATUS_START);
    CountZero(after, STATUS_END);
  }

  /** The body is this, with one block and no other marker. */
  ghost predicate OneBlock(body: string, before: string, prior: string, after: string) {
    && body == before + ("<!-- workflow:status:start -->" + prior + "<!-- workflow:status:end -->") + after
    && NoMarkers(before) && NoMarkers(prior) && NoMarkers(after)
  }

  /** Which bodies are accepted: those without any marker, and those with exactly one block. */
  lemma PlaceAccepts(body: string, block: string)
    ensures Place(body, block).Some? <==> NoMarkers(body) || exists before, prior, after :: OneBlock(body, before, prior, after)
  {
    if NoMarkers(body) {
      CountZero(body, STATUS_START);
      CountZero(body, STATUS_END);
    } else if Place(body, block).Some? {
      var before, prior, after := PlacedAround(body, block);
      assert OneBlock(body, before, prior, after);
    } else {
      forall before, prior, after ensures !OneBlock(body, before, prior, after) {
        if OneBlock(body, before, prior, after) { PlaceReplaces(before, prior, after, block); }
      }
    }
  }

  /** What stands around the placed block, for every accepted body. */
  lemma Placed(body: string, block: string) returns (before: string, after: string)
    requires Place(body, block).Some?
    ensures NoMarkers(before) && NoMarkers(after)
    ensures forall b :: Place(body, b) == Some(before + b + after)
    ensures NoMarkers(body) ==> after == "" && before == if body == "" then "" else TrimRight(body) + "\n\n"
    ensures !NoMarkers(body) ==> exists prior :: NoMarkers(prior) && body == before + Block(prior) + after
  {
    StatusMarkers();
    if NoMarkers(body) {
      CountZero(body, STATUS_START);
      CountZero(body, STATUS_END);
      after := "";
      before := if body == "" then "" else TrimRight(body) + "\n\n";
      NoMarkersInPadded(body);
      forall b ensures Place(body, b) == Some(before + b + after) {
        assert before + b + after == before + b;
        assert "" + b == b;
      }
    } else {
      var prior;
      before, prior, after := PlacedAround(body, block);
      forall b ensures Place(body, b) == Some(before + b + after) { PlaceReplaces(before, prior, after, b); }
    }
  }

  lemma NoMarkersInPadded(body: string)
    requires NoMarkers(body)
    ensures NoMarkers(if body == "" then "" else TrimRight(body) + "\n\n")
  {
    StatusMarkers();
    var t := TrimRight(body);
    NoMarkersInPrefix(body, |t|);
    assert t == body[..|t|];
    NoMarkersInBreaks("\n\n");
    Padded(t, STATUS_START);
    Padded(t, STATUS_END);
  }

  lemma Padded(t: string, m: string)
    requires IsMarker(m)
    ensures Contains(t + "\n\n", m) <==> Contains(t, m) || Contains("\n\n", m)
  {
    assert IsBreak("\n\n"[0]);
    AtSeam(t, "\n\n", m);
  }

  lemma NoMarkersInPrefix(body: string, n: nat)
    requires NoMarkers(body) && n <= |body|
    ensures NoMarkers(body[..n])
  {
    forall i ensures !OccursAt(body[..n], STATUS_START, i) && !OccursAt(body[..n], STATUS_END, i) {
      assert body == body[..n] + body[n..];
      if i + |STATUS_START| <= n { OccursLeft(body[..n], body[n..], STATUS_START, i); }
      if i + |STATUS_END| <= n { OccursLeft(body[..n], body[n..], STATUS_END, i); }
    }
  }

  /**
   * Rendering twice: the second rendering is accepted exactly when the contents of the
   * first block hold no marker, and then it equals rendering the second block once.
   */
  lemma PlaceTwice(body: string, inner: string, block: string)
    requires Place(body, Block(inner)).Some?
    ensures Place(Place(body, Block(inner)).value, block).Some? <==> NoMarkers(inner)
    ensures NoMarkers(inner) ==> Place(Place(body, Block(inner)).value, block) == Place(body, block)
  {
    StatusMarkers();
    var before, after := Placed(body, Block(inner));
    if NoMarkers(inner) {
      PlaceReplaces(before, inner, after, block);
    } else {
      BlockLayout(before, inner, after);
      CountBlock(before, inner, after);
      CountZero(inner, STATUS_START);
      CountZero(inner, STATUS_END);
    }
  }

  lemma AroundAt(body: string, start: string, end: string, i: nat, rest: string, j: nat)
    requires Index(body, start) == i && rest == body[i + |start|..] && Index(rest, end) == j
    ensures Around(body, start, end) == Some((body[..i], rest[j + |end|..]))
  {}

  lemma StripBlock(before: string, inner: string, after: string)
    requires NoMarkers(before) && !Contains(inner, STATUS_END)
    ensures Strip(before + Block(inner) + after) == TrimRight(before) + TrimLeft(after)
  {
    StatusMarkers();
    BlockLayout(before, inner, after);
    var body := Marked(before, STATUS_START, inner, STATUS_END, after);
    var rest := inner + STATUS_END + after;
    MarkedStart(before, STATUS_START, inner, STATUS_END, after);
    MarkedSlices(before, STATUS_START, inner, STATUS_END, after);
    TailIs(inner, STATUS_END, after);
    FirstMarker(inner, STATUS_END);
    AfterMarker(inner, STATUS_END, after, STATUS_END);
    AroundAt(body, STATUS_START, STATUS_END, |before|, rest, |inner|);
  }

  /** Without a start marker, or without an end marker after it, nothing is stripped. */
  lemma StripKeeps(body: string, before: string, rest: string)
    ensures !Contains(body, STATUS_START) ==> Strip(body) == body
    ensures body == before + STATUS_START + rest && !Contains(before, STATUS_START) && !Contains(rest, STATUS_END) ==>
      Strip(body) == body
  {
    StatusMarkers();
    if body == before + STATUS_START + rest && !Contains(before, STATUS_START) && !Contains(rest, STATUS_END) {
      StripsNothing(body, before, STATUS_START, rest, STATUS_END);
    }
  }

  lemma StripsNothing(body: string, before: string, start: string, rest: string, end: string)
    requires IsPair(start, end) && body == before + start + rest && !Contains(before, start) && !Contains(rest, end)
    ensures StripBetween(body, start, end) == body
  {
    FirstMarker(before, start);
    AfterMarker(before, start, rest, start);
    assert Index(body, start) == |before| && body[|before| + |start|..] == rest;
  }

  lemma TailIs(inner: string, end: string, after: string)
    ensures Marked("", "", inner, end, after) == inner + end + after
    ensures (inner + end + after)[|inner| + |end|..] == after
  {
    assert "" + "" + inner == inner;
  }

  ghost predicate EndsInBreak(s: string) { s != "" && IsBreak(s[|s| - 1]) }

  /**
   * Stripping what was rendered: the same as stripping the body it was rendered into,
   * except for a body without a block, where the trailing CR and LF are lost.
   */
  lemma StripAfterPlace(body: string, inner: string)
    requires Place(body, Block(inner)).Some? && NoMarkers(inner)
    ensures NoMarkers(body) ==> Strip(Place(body, Block(inner)).value) == TrimRight(body)
    ensures !NoMarkers(body) ==> Strip(Place(body, Block(inner)).value) == Strip(body)
  {
    var before, after := Placed(body, Block(inner));
    StripBlock(before, inner, after);
    if NoMarkers(body) {
      TrimPadded(body);
    } else {
      var prior :| NoMarkers(prior) && body == before + Block(prior) + after;
      StripBlock(before, prior, after);
    }
  }

  lemma TrimPadded(body: string)
    ensures TrimRight(if body == "" then "" else TrimRight(body) + "\n\n") + TrimLeft("") == TrimRight(body)
  {
    if body != "" {
      TrimRightUnique(TrimRight(body) + "\n\n", TrimRight(body));
    }
  }

  /** Stripping sees no difference exactly when there was a block, or no trailing line break. */
  lemma StripStable(body: string, inner: string)
    requires Place(body, Block(inner)).Some? && NoMarkers(inner)
    ensures Strip(Place(body, Block(inner)).value) == Strip(body) <==> !(NoMarkers(body) && EndsInBreak(body))
  {
    StripAfterPlace(body, inner);
    if NoMarkers(body) {
      assert Strip(body) == body;
      if !EndsInBreak(body) { TrimRightUnique(body, body); }
    }
  }
}
