/** Go's byte strings, one character to a byte: searching, counting, trimming. */
module Text {
  import opened Collections

  predicate OccursAt(s: string, sub: string, i: int) {
    0 <= i && i + |sub| <= |s| && s[i..i + |sub|] == sub
  }

  ghost predicate Contains(s: string, sub: string) {
    exists i :: OccursAt(s, sub, i)
  }

  /** strings.Index and bytes.Index: the first occurrence, or -1. */
  function Index(s: string, sub: string): (r: int)
    ensures r >= 0 ==> OccursAt(s, sub, r) && forall i :: 0 <= i < r ==> !OccursAt(s, sub, i)
    ensures r < 0 ==> r == -1 && !Contains(s, sub)
  {
    IndexFrom(s, sub, 0)
  }

  function IndexFrom(s: string, sub: string, i: nat): (r: int)
    requires i <= |s|
    ensures r >= 0 ==> i <= r && OccursAt(s, sub, r) && forall k :: i <= k < r ==> !OccursAt(s, sub, k)
    ensures r < 0 ==> r == -1 && forall k :: i <= k ==> !OccursAt(s, sub, k)
    decreases |s| - i
  {
    if OccursAt(s, sub, i) then i
    else if i == |s| then -1
    else IndexFrom(s, sub, i + 1)
  }

  /** strings.Count and bytes.Count for a non-empty pattern: occurrences without overlap. */
  function Count(s: string, sub: string): nat
    requires sub != ""
    decreases |s|
  {
    var i := Index(s, sub);
    if i < 0 then 0 else 1 + Count(s[i + |sub|..], sub)
  }

  predicate IsBreak(c: char) { c == '\r' || c == '\n' }

  /** strings.TrimRight(s, "\r\n") */
  function TrimRight(s: string): (r: string)
    ensures r <= s && (r == "" || !IsBreak(r[|r| - 1]))
    ensures forall i :: |r| <= i < |s| ==> IsBreak(s[i])
  {
    if s != "" && IsBreak(s[|s| - 1]) then TrimRight(s[..|s| - 1]) else s
  }

  /** strings.TrimLeft(s, "\r\n") */
  function TrimLeft(s: string): (r: string)
    ensures |r| <= |s| && r == s[|s| - |r|..] && (r == "" || !IsBreak(r[0]))
    ensures forall i :: 0 <= i < |s| - |r| ==> IsBreak(s[i])
  {
    if s != "" && IsBreak(s[0]) then TrimLeft(s[1..]) else s
  }

  lemma {:induction false} TrimRightUnique(s: string, r: string)
    requires r <= s && (r == "" || !IsBreak(r[|r| - 1]))
    requires forall i :: |r| <= i < |s| ==> IsBreak(s[i])
    ensures TrimRight(s) == r
  {
    var t := TrimRight(s);
    assert |t| == |r|;
  }

  /** No occurrence of `sub` runs across the seam of `x + y`. */
  ghost predicate NoStraddle(x: string, y: string, sub: string) {
    forall i :: i < |x| < i + |sub| ==> !OccursAt(x + y, sub, i)
  }

  lemma OccursLeft(x: string, y: string, sub: string, i: int)
    requires i + |sub| <= |x|
    ensures OccursAt(x + y, sub, i) <==> OccursAt(x, sub, i)
  {
    if i >= 0 {
      assert (x + y)[i..i + |sub|] == x[i..i + |sub|];
    }
  }

  lemma OccursRight(x: string, y: string, sub: string, i: int)
    requires i >= |x|
    ensures OccursAt(x + y, sub, i) <==> OccursAt(y, sub, i - |x|)
  {
    if i + |sub| <= |x| + |y| {
      assert (x + y)[i..i + |sub|] == y[i - |x|..i - |x| + |sub|];
    }
  }

  lemma IndexConcat(x: string, y: string, sub: string)
    requires NoStraddle(x, y, sub) && sub != ""
    ensures Index(x + y, sub) ==
            if Index(x, sub) >= 0 then Index(x, sub)
            else if Index(y, sub) >= 0 then |x| + Index(y, sub)
            else -1
  {
    forall i ensures OccursAt(x + y, sub, i) <==> OccursAt(x, sub, i) || OccursAt(y, sub, i - |x|) {
      if i + |sub| <= |x| {
        OccursLeft(x, y, sub, i);
      } else if i >= |x| {
        OccursRight(x, y, sub, i);
      }
    }
    var r := if Index(x, sub) >= 0 then Index(x, sub)
             else if Index(y, sub) >= 0 then |x| + Index(y, sub) else -1;
    if r >= 0 {
      assert OccursAt(x + y, sub, r);
    }
  }

  lemma TailNoStraddle(x: string, y: string, sub: string, n: nat)
    requires NoStraddle(x, y, sub) && n <= |x|
    ensures NoStraddle(x[n..], y, sub) && (x + y)[n..] == x[n..] + y
  {
    var tail := x[n..];
    assert x + y == x[..n] + (tail + y);
    forall k | k < |tail| < k + |sub| ensures !OccursAt(tail + y, sub, k) {
      if k >= 0 {
        OccursRight(x[..n], tail + y, sub, k + n);
        assert !OccursAt(x + y, sub, k + n);
      }
    }
  }

  lemma CountNext(s: string, sub: string, i: int, rest: string)
    requires sub != "" && Index(s, sub) == i && i >= 0 && rest == s[i + |sub|..]
    ensures Count(s, sub) == 1 + Count(rest, sub)
  {}

  lemma {:induction false} CountConcat(x: string, y: string, sub: string)
    requires NoStraddle(x, y, sub) && sub != ""
    ensures Count(x + y, sub) == Count(x, sub) + Count(y, sub)
    decreases |x|
  {
    IndexConcat(x, y, sub);
    var i := Index(x, sub);
    if i >= 0 {
      var tail := x[i + |sub|..];
      TailNoStraddle(x, y, sub, i + |sub|);
      CountConcat(tail, y, sub);
      CountNext(x, sub, i, tail);
      CountNext(x + y, sub, i, tail + y);
    } else {
      CountZero(x, sub);
      var j := Index(y, sub);
      if j >= 0 {
        CountNext(y, sub, j, y[j + |sub|..]);
        assert (x + y)[|x| + j + |sub|..] == y[j + |sub|..];
        CountNext(x + y, sub, |x| + j, y[j + |sub|..]);
      } else {
        CountZero(y, sub);
        CountZero(x + y, sub);
      }
    }
  }

  lemma CountZero(s: string, sub: string)
    requires sub != ""
    ensures Count(s, sub) == 0 <==> !Contains(s, sub)
  {}

  /** strings.ReplaceAll and bytes.ReplaceAll for a non-empty pattern. */
  function ReplaceAll(s: string, pattern: string, substitute: string): string
    requires pattern != ""
    decreases |s|
  {
    var i := Index(s, pattern);
    if i < 0 then s else s[..i] + substitute + ReplaceAll(s[i + |pattern|..], pattern, substitute)
  }

  /** From the front: what stands before the first occurrence stays, and the rest is replaced on its own. */
  lemma ReplaceAllMeans(s: string, head: string, pattern: string, tail: string, substitute: string)
    requires pattern != ""
    ensures !Contains(s, pattern) ==> ReplaceAll(s, pattern, substitute) == s
    ensures s == head + pattern + tail && (forall i :: OccursAt(s, pattern, i) ==> i >= |head|) ==>
      ReplaceAll(s, pattern, substitute) == head + substitute + ReplaceAll(tail, pattern, substitute)
  {
    if s == head + pattern + tail && forall i :: OccursAt(s, pattern, i) ==> i >= |head| {
      assert OccursAt(s, pattern, |head|);
      assert s[..|head|] == head && s[|head| + |pattern|..] == tail;
    }
  }

  /** The order sort.Strings uses: byte by byte. */
  predicate Less(a: string, b: string) {
    if b == "" then false
    else if a == "" then true
    else a[0] < b[0] || (a[0] == b[0] && Less(a[1..], b[1..]))
  }

  lemma {:induction false} LessTotal(a: string, b: string)
    ensures !(Less(a, b) && Less(b, a))
    ensures a != b ==> Less(a, b) || Less(b, a)
  {
    if a != "" && b != "" {
      LessTotal(a[1..], b[1..]);
      assert a == [a[0]] + a[1..] && b == [b[0]] + b[1..];
    }
  }

  lemma {:induction false} NotLessTransitive(a: string, b: string, c: string)
    requires !Less(b, a) && !Less(c, b)
    ensures !Less(c, a)
  {
    if a != "" && b != "" && c != "" && a[0] == b[0] && b[0] == c[0] {
      NotLessTransitive(a[1..], b[1..], c[1..]);
    }
  }

  /** Byte by byte: a proper prefix comes first, otherwise the first difference decides. */
  ghost predicate Precedes(a: string, b: string) {
    a < b || exists n: nat :: n < |a| && n < |b| && a[..n] == b[..n] && a[n] < b[n]
  }

  lemma {:induction false} LessMeans(a: string, b: string)
    ensures Less(a, b) <==> Precedes(a, b)
  {
    if a != "" && b != "" {
      LessMeans(a[1..], b[1..]);
      if a[0] == b[0] { PrecedesNext(a, b); }
      if a[0] < b[0] { assert a[..0] == b[..0]; }
    }
  }

  lemma PrecedesNext(a: string, b: string)
    requires a != "" && b != "" && a[0] == b[0]
    ensures Precedes(a, b) <==> Precedes(a[1..], b[1..])
  {
    assert a == [a[0]] + a[1..] && b == [b[0]] + b[1..];
    if n: nat :| n < |a| && n < |b| && a[..n] == b[..n] && a[n] < b[n] {
      assert n > 0;
      assert a[1..][..n - 1] == a[..n][1..] && b[1..][..n - 1] == b[..n][1..];
    }
    if n: nat :| n < |a[1..]| && n < |b[1..]| && a[1..][..n] == b[1..][..n] && a[1..][n] < b[1..][n] {
      assert a[..n + 1] == [a[0]] + a[1..][..n] && b[..n + 1] == [b[0]] + b[1..][..n];
      assert a[n + 1] < b[n + 1];
    }
    assert a < b <==> a[1..] < b[1..];
  }

  lemma LessIsOrder()
    ensures WeakOrder(Less)
  {
    forall a, b | Less(a, b) ensures !Less(b, a) { LessTotal(a, b); }
    forall a, b, c | !Less(b, a) && !Less(c, b) ensures !Less(c, a) { NotLessTransitive(a, b, c); }
  }

  lemma LessSeparates(s: seq<string>)
    ensures Separates(Less, s)
  {
    forall x, y | x in s && y in s && x != y ensures Less(x, y) || Less(y, x) { LessTotal(x, y); }
  }

  /** The one sorted arrangement of a list of strings. */
  ghost function SortedStrings(s: seq<string>): (r: seq<string>)
    ensures Permutes(r, s) && Sorted(Less, r)
  {
    SortedStringsExist(s);
    var r :| Permutes(r, s) && Sorted(Less, r);
    r
  }

  lemma SortedStringsExist(s: seq<string>)
    ensures exists r :: Permutes(r, s) && Sorted(Less, r)
  {
    LessIsOrder();
    var r := SortExists(Less, s);
  }

  lemma SortedStringsUnique(s: seq<string>, r: seq<string>)
    requires Permutes(r, s) && Sorted(Less, r)
    ensures r == SortedStrings(s)
  {
    LessSeparates(r);
    SortedUnique(Less, r, SortedStrings(s));
  }

  lemma SortedStringsSame(a: seq<string>, b: seq<string>)
    ensures SortedStrings(a) == SortedStrings(b) <==> Permutes(a, b)
  {
    if Permutes(a, b) {
      SortedStringsUnique(b, SortedStrings(a));
    }
  }
}
