/** Texts with one marked block: `before + START + inner + END + after`. */
module Markers {
  import opened Text

  /** The shape of an HTML comment marker: its angle brackets stand only at its ends. */
  predicate IsMarker(m: string) {
    && |m| >= 2 && m[0] == '<' && m[|m| - 1] == '>'
    && (forall i :: 0 < i < |m| ==> m[i] != '<')
    && (forall i :: 0 <= i < |m| - 1 ==> m[i] != '>')
    && (forall i :: 0 <= i < |m| ==> !IsBreak(m[i]))
  }

  predicate IsPair(start: string, end: string) {
    IsMarker(start) && IsMarker(end) && start != end
  }

  /** Neither marker occurs. */
  ghost predicate Clean(s: string, start: string, end: string) {
    !Contains(s, start) && !Contains(s, end)
  }

  /** No marker runs across a seam at an angle bracket or a line break. */
  ghost predicate Seam(x: string, y: string) {
    || x == "" || y == ""
    || y[0] == '<' || x[|x| - 1] == '>'
    || IsBreak(y[0]) || IsBreak(x[|x| - 1])
  }

  lemma SeamHolds(x: string, y: string, m: string)
    requires IsMarker(m) && Seam(x, y)
    ensures NoStraddle(x, y, m)
  {
    forall i | 0 <= i < |x| < i + |m| <= |x + y| ensures !OccursAt(x + y, m, i) {
      var s := (x + y)[i..i + |m|];
      assert s[|x| - 1 - i] == x[|x| - 1] && s[|x| - i] == y[0];
    }
  }

  lemma AtSeam(x: string, y: string, m: string)
    requires IsMarker(m) && Seam(x, y)
    ensures Count(x + y, m) == Count(x, m) + Count(y, m)
    ensures Contains(x + y, m) <==> Contains(x, m) || Contains(y, m)
  {
    SeamHolds(x, y, m);
    CountConcat(x, y, m);
    CountZero(x, m);
    CountZero(y, m);
    CountZero(x + y, m);
  }

  lemma FirstAtSeam(x: string, y: string, m: string)
    requires IsMarker(m) && Seam(x, y)
    ensures Contains(x, m) ==> Index(x + y, m) == Index(x, m)
    ensures !Contains(x, m) && Contains(y, m) ==> Index(x + y, m) == |x| + Index(y, m)
  {
    SeamHolds(x, y, m);
    IndexConcat(x, y, m);
  }

  lemma NotInBreaks(s: string, m: string)
    requires IsMarker(m) && forall i :: 0 <= i < |s| ==> IsBreak(s[i])
    ensures !Contains(s, m)
  {
    forall i ensures !OccursAt(s, m, i) {
      if 0 <= i && i + |m| <= |s| { assert s[i..i + |m|][0] == s[i]; }
    }
  }

  lemma MarkerItself(m: string)
    requires IsMarker(m)
    ensures Index(m, m) == 0 && Count(m, m) == 1
  {
    assert OccursAt(m, m, 0);
    CountNext(m, m, 0, "");
  }

  lemma MarkerOther(start: string, end: string)
    requires IsPair(start, end)
    ensures !Contains(start, end) && !Contains(end, start)
  {
    MarkerNotIn(start, end);
    MarkerNotIn(end, start);
  }

  lemma MarkerNotIn(m: string, other: string)
    requires IsMarker(m) && IsMarker(other) && m != other
    ensures !Contains(m, other)
  {
    forall i ensures !OccursAt(m, other, i) {
      if 0 <= i && i + |other| <= |m| {
        var part := m[i..i + |other|];
        assert part[0] == m[i] && part[|other| - 1] == m[i + |other| - 1];
        assert m[0..|m|] == m;
      }
    }
  }

  function Marked(before: string, start: string, inner: string, end: string, after: string): string {
    before + start + inner + end + after
  }

  lemma BeforeMarker(x: string, marker: string, m: string)
    requires IsMarker(marker) && IsMarker(m)
    ensures Count(x + marker, m) == Count(x, m) + Count(marker, m)
    ensures Contains(x + marker, m) <==> Contains(x, m) || Contains(marker, m)
  {
    AtSeam(x, marker, m);
  }

  lemma AfterMarker(x: string, marker: string, y: string, m: string)
    requires IsMarker(marker) && IsMarker(m)
    ensures Count(x + marker + y, m) == Count(x + marker, m) + Count(y, m)
    ensures Contains(x + marker + y, m) <==> Contains(x + marker, m) || Contains(y, m)
    ensures Contains(x + marker, m) ==> Index(x + marker + y, m) == Index(x + marker, m)
  {
    assert (x + marker)[|x + marker| - 1] == '>';
    AtSeam(x + marker, y, m);
    FirstAtSeam(x + marker, y, m);
  }

  lemma MarkedCount(before: string, start: string, inner: string, end: string, after: string, m: string)
    requires IsPair(start, end) && IsMarker(m)
    ensures Count(Marked(before, start, inner, end, after), m) ==
            Count(before, m) + Count(start, m) + Count(inner, m) + Count(end, m) + Count(after, m)
  {
    BeforeMarker(before, start, m);
    AfterMarker(before, start, inner, m);
    BeforeMarker(before + start + inner, end, m);
    AfterMarker(before + start + inner, end, after, m);
  }

  /** Counting and finding the markers of a marked text, piece by piece. */
  lemma MarkedParts(before: string, start: string, inner: string, end: string, after: string)
    requires IsPair(start, end)
    ensures Count(Marked(before, start, inner, end, after), start) == Count(before, start) + 1 + Count(inner, start) + Count(after, start)
    ensures Count(Marked(before, start, inner, end, after), end) == Count(before, end) + Count(inner, end) + 1 + Count(after, end)
  {
    MarkerItself(start);
    MarkerItself(end);
    MarkerOther(start, end);
    CountZero(start, end);
    CountZero(end, start);
    MarkedCount(before, start, inner, end, after, start);
    MarkedCount(before, start, inner, end, after, end);
  }

  lemma MarkedStart(before: string, start: string, inner: string, end: string, after: string)
    requires IsPair(start, end) && !Contains(before, start)
    ensures Index(Marked(before, start, inner, end, after), start) == |before|
  {
    var rest := inner + end + after;
    assert Marked(before, start, inner, end, after) == before + start + rest;
    FirstMarker(before, start);
    AfterMarker(before, start, rest, start);
  }

  lemma MarkedEnd(before: string, start: string, inner: string, end: string, after: string)
    requires IsPair(start, end) && !Contains(before, end) && !Contains(inner, end)
    ensures Index(Marked(before, start, inner, end, after), end) == |before| + |start| + |inner|
  {
    var head := before + start + inner;
    MarkerOther(start, end);
    BeforeMarker(before, start, end);
    AfterMarker(before, start, inner, end);
    FirstMarker(head, end);
    AfterMarker(head, end, after, end);
  }

  lemma FirstMarker(x: string, m: string)
    requires IsMarker(m) && !Contains(x, m)
    ensures Index(x + m, m) == |x| && Contains(x + m, m)
  {
    MarkerItself(m);
    FirstAtSeam(x, m, m);
    BeforeMarker(x, m, m);
  }

  /** Any text whose first markers stand in order splits around its block. */
  lemma Unmark(s: string, start: string, end: string) returns (before: string, inner: string, after: string)
    requires IsPair(start, end)
    requires Index(s, start) >= 0 && Index(s, end) >= Index(s, start)
    ensures s == Marked(before, start, inner, end, after)
    ensures Clean(before, start, end) && !Contains(inner, end)
    ensures |before| == Index(s, start) && |before| + |start| + |inner| == Index(s, end)
  {
    var i, j := Index(s, start), Index(s, end);
    MarkersApart(s, start, end, i, j);
    before, inner, after := s[..i], s[i + |start|..j], s[j + |end|..];
    CutTwice(s, start, end, i, j);
    CleanPart(s, start, 0, i);
    CleanPart(s, end, 0, i);
    CleanPart(s, end, i + |start|, j);
  }

  lemma CutTwice(s: string, start: string, end: string, i: nat, j: nat)
    requires OccursAt(s, start, i) && OccursAt(s, end, j) && i + |start| <= j
    ensures s == Marked(s[..i], start, s[i + |start|..j], end, s[j + |end|..])
  {
    assert s == s[..i] + s[i..i + |start|] + s[i + |start|..j] + s[j..j + |end|] + s[j + |end|..];
  }

  lemma MarkedSlices(before: string, start: string, inner: string, end: string, after: string)
    ensures var body := Marked(before, start, inner, end, after);
      var j := |before| + |start| + |inner|;
      |before| <= |body| && j + |end| <= |body| && body[..|before|] == before && body[j + |end|..] == after
      && body[|before| + |start|..] == Marked("", "", inner, end, after)
  {}

  lemma MarkersApart(s: string, start: string, end: string, i: int, j: int)
    requires IsPair(start, end) && OccursAt(s, start, i) && OccursAt(s, end, j) && j >= i
    ensures j >= i + |start|
  {
    var a, b := s[i..i + |start|], s[j..j + |end|];
    assert forall k :: i <= k < i + |start| ==> s[k] == a[k - i];
    assert forall k :: j <= k < j + |end| ==> s[k] == b[k - j];
    assert s[j] == '<' && s[i + |start| - 1] == '>' && s[j + |end| - 1] == '>';
    assert i == j && |start| == |end| ==> a == b;
  }

  /** Up to the first occurrence there is none. */
  lemma CleanPart(s: string, m: string, lo: nat, hi: nat)
    requires lo <= hi <= |s| && forall k :: lo <= k < hi ==> !OccursAt(s, m, k)
    requires m != ""
    ensures !Contains(s[lo..hi], m)
  {
    forall k ensures !OccursAt(s[lo..hi], m, k) {
      if 0 <= k && k + |m| <= hi - lo {
        var part, whole := s[lo..hi][k..k + |m|], s[lo + k..lo + k + |m|];
        assert forall x :: 0 <= x < |m| ==> part[x] == whole[x];
        assert !OccursAt(s, m, lo + k);
      }
    }
  }
}
