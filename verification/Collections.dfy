/** Sequences, orders and counting: the vocabulary the other modules share. */
module Collections {

  datatype Option<+T> = None | Some(value: T)

  datatype Result<+T, +E> = Ok(value: T) | Err(error: E)

  function Min(a: int, b: int): int { if a < b then a else b }

  ghost predicate Distinct<T>(s: seq<T>) {
    forall i, j :: 0 <= i < j < |s| ==> s[i] != s[j]
  }

  /** The elements of `s`, as a set. */
  ghost function Elements<T(!new)>(s: seq<T>): (r: set<T>)
    ensures forall x :: x in r <==> x in s
  {
    set x | x in s
  }

  /** Two sequences holding the same elements the same number of times. */
  ghost predicate Permutes<T>(a: seq<T>, b: seq<T>) {
    multiset(a) == multiset(b)
  }

  lemma PermutesMembers<T>(a: seq<T>, b: seq<T>, x: T)
    requires Permutes(a, b)
    ensures x in a <==> x in b
  {
    assert x in a <==> x in multiset(a);
    assert x in b <==> x in multiset(b);
  }

  lemma PermutesLength<T>(a: seq<T>, b: seq<T>)
    requires Permutes(a, b)
    ensures |a| == |b|
  {
    assert |multiset(a)| == |a|;
    assert |multiset(b)| == |b|;
  }

  /** Removing equal heads keeps two sequences permutations of each other. */
  lemma PermutesTail<T>(a: seq<T>, b: seq<T>)
    requires |a| > 0 && |b| > 0 && a[0] == b[0]
    ensures Permutes(a, b) <==> Permutes(a[1..], b[1..])
  {
    assert a == [a[0]] + a[1..];
    assert b == [b[0]] + b[1..];
    assert multiset(a) == multiset{a[0]} + multiset(a[1..]);
    assert multiset(b) == multiset{a[0]} + multiset(b[1..]);
    assert multiset(a[1..]) == multiset(a) - multiset{a[0]};
    assert multiset(b[1..]) == multiset(b) - multiset{a[0]};
  }

  /** A sequence without repetitions is no longer than any set that holds it. */
  lemma {:induction false} Pigeonhole<T>(s: seq<T>, universe: set<T>)
    requires Distinct(s)
    requires forall x :: x in s ==> x in universe
    ensures |s| <= |universe|
  {
    if s != [] {
      var rest := s[..|s| - 1];
      var last := s[|s| - 1];
      forall x | x in rest ensures x in universe - {last} {
        var i :| 0 <= i < |rest| && rest[i] == x;
        assert s[i] != s[|s| - 1];
      }
      Pigeonhole(rest, universe - {last});
      assert last in s;
    }
  }

  lemma {:induction false} DistinctCount<T>(s: seq<T>, x: T)
    requires Distinct(s)
    ensures multiset(s)[x] == if x in s then 1 else 0
  {
    if s != [] {
      var rest, last := s[..|s| - 1], s[|s| - 1];
      DistinctCount(rest, x);
      assert s == rest + [last];
      assert last !in rest;
    }
  }

  /** Without repetitions, the same elements already make a permutation. */
  lemma DistinctSameElements<T>(a: seq<T>, b: seq<T>)
    requires Distinct(a) && Distinct(b)
    requires forall x :: x in a <==> x in b
    ensures Permutes(a, b)
  {
    forall x ensures multiset(a)[x] == multiset(b)[x] {
      DistinctCount(a, x);
      DistinctCount(b, x);
    }
  }

  lemma PermutesDistinct<T>(a: seq<T>, b: seq<T>)
    requires Permutes(a, b) && Distinct(b)
    ensures Distinct(a)
  {
    forall i, j | 0 <= i < j < |a| ensures a[i] != a[j] {
      DistinctCount(b, a[i]);
      assert a == a[..i] + [a[i]] + a[i + 1..j] + [a[j]] + a[j + 1..];
      assert multiset(a)[a[i]] <= 1;
    }
  }

  ghost function Mapped<S, T>(f: S -> T, s: seq<S>): (r: seq<T>)
    ensures |r| == |s| && forall i :: 0 <= i < |r| ==> r[i] == f(s[i])
  {
    seq(|s|, i requires 0 <= i < |s| => f(s[i]))
  }

  lemma {:induction false} MappedPermutes<S, T>(f: S -> T, a: seq<S>, b: seq<S>)
    requires Permutes(a, b)
    ensures Permutes(Mapped(f, a), Mapped(f, b))
    decreases |a|
  {
    PermutesLength(a, b);
    if a != [] {
      PermutesMembers(a, b, a[0]);
      var j :| 0 <= j < |b| && b[j] == a[0];
      var p, q := b[..j], b[j + 1..];
      PermutesWithout(a, b, j);
      MappedPermutes(f, a[1..], p + q);
      MappedInsert(f, a[1..], p, q, a[0]);
      assert b == p + [a[0]] + q && a == [a[0]] + a[1..];
    }
  }

  lemma PermutesWithout<T>(a: seq<T>, b: seq<T>, j: nat)
    requires Permutes(a, b) && a != [] && j < |b| && b[j] == a[0]
    ensures Permutes(a[1..], b[..j] + b[j + 1..])
  {
    assert a == [a[0]] + a[1..];
    assert b == b[..j] + [a[0]] + b[j + 1..];
    assert multiset(a[1..]) == multiset(a) - multiset{a[0]};
    assert multiset(b[..j] + b[j + 1..]) == multiset(b) - multiset{a[0]};
  }

  lemma MappedInsert<S, T>(f: S -> T, rest: seq<S>, p: seq<S>, q: seq<S>, x: S)
    requires Permutes(Mapped(f, rest), Mapped(f, p + q))
    ensures Permutes(Mapped(f, [x] + rest), Mapped(f, p + [x] + q))
  {
    assert Mapped(f, [x] + rest) == [f(x)] + Mapped(f, rest);
    assert Mapped(f, p + q) == Mapped(f, p) + Mapped(f, q);
    assert Mapped(f, p + [x] + q) == Mapped(f, p) + [f(x)] + Mapped(f, q);
  }

  /** Some element of a set, as a loop over a Go map visits it: any order is possible. */
  method Take<T(==)>(s: set<T>) returns (x: T)
    requires s != {}
    ensures x in s
  {
    x :| x in s;
  }

  lemma {:induction false} SubsetSize<T>(small: set<T>, large: set<T>)
    requires small <= large
    ensures |small| <= |large|
  {
    if small != {} {
      var x :| x in small;
      SubsetSize(small - {x}, large - {x});
    }
  }

  lemma SubsetSmaller<T>(small: set<T>, large: set<T>, extra: T)
    requires small <= large - {extra} && extra in large
    ensures |small| < |large|
  {
    SubsetSize(small, large - {extra});
  }

  // ----- Orders and sorting -------------------------------------------------

  /** What Go's sort.Slice asks of the `less` it is given. */
  ghost predicate WeakOrder<T(!new)>(less: (T, T) -> bool) {
    && (forall x, y :: less(x, y) ==> !less(y, x))
    && (forall x, y, z :: !less(y, x) && !less(z, y) ==> !less(z, x))
  }

  /** No two different elements of `s` tie. */
  ghost predicate Separates<T>(less: (T, T) -> bool, s: seq<T>) {
    forall x, y :: x in s && y in s && x != y ==> less(x, y) || less(y, x)
  }

  /** What sort.Slice promises: no element is less than one before it. */
  ghost predicate Sorted<T>(less: (T, T) -> bool, s: seq<T>) {
    forall i, j :: 0 <= i < j < |s| ==> !less(s[j], s[i])
  }

  /** sort.Slice is unstable, but where no two elements tie its result is unique. */
  lemma {:induction false} SortedUnique<T>(less: (T, T) -> bool, a: seq<T>, b: seq<T>)
    requires Permutes(a, b)
    requires Sorted(less, a) && Sorted(less, b)
    requires Separates(less, a)
    ensures a == b
  {
    PermutesLength(a, b);
    if a != [] {
      PermutesMembers(a, b, a[0]);
      PermutesMembers(a, b, b[0]);
      var j :| 0 <= j < |b| && b[j] == a[0];
      var i :| 0 <= i < |a| && a[i] == b[0];
      assert a[0] == b[0];
      PermutesTail(a, b);
      forall x | x in a[1..] ensures x in a {}
      SortedUnique(less, a[1..], b[1..]);
      assert a == [a[0]] + a[1..];
      assert b == [b[0]] + b[1..];
    }
  }

  lemma {:induction false} SortExists<T(!new)>(less: (T, T) -> bool, s: seq<T>) returns (r: seq<T>)
    requires WeakOrder(less)
    ensures Permutes(r, s) && Sorted(less, r)
  {
    if s == [] {
      r := [];
    } else {
      var init, x := s[..|s| - 1], s[|s| - 1];
      var rest := SortExists(less, init);
      var k := 0;
      while k < |rest| && !less(x, rest[k])
        invariant k <= |rest| && forall i :: 0 <= i < k ==> !less(x, rest[i])
      {
        k := k + 1;
      }
      InsertAt(less, rest, x, k);
      assert s == init + [x];
      r := rest[..k] + [x] + rest[k..];
    }
  }

  lemma InsertAt<T(!new)>(less: (T, T) -> bool, r: seq<T>, x: T, k: nat)
    requires WeakOrder(less) && Sorted(less, r) && k <= |r|
    requires forall i :: 0 <= i < k ==> !less(x, r[i])
    requires k < |r| ==> less(x, r[k])
    ensures Sorted(less, r[..k] + [x] + r[k..])
    ensures multiset(r[..k] + [x] + r[k..]) == multiset(r) + multiset{x}
  {
    forall j | k <= j < |r| ensures !less(r[j], x) { AfterGreater(less, r, x, k, j); }
    SortedAround(less, r, x, k);
    CountAround(r, x, k);
  }

  lemma CountAround<T>(r: seq<T>, x: T, k: nat)
    requires k <= |r|
    ensures multiset(r[..k] + [x] + r[k..]) == multiset(r) + multiset{x}
  {
    assert r == r[..k] + r[k..];
  }

  lemma AfterGreater<T(!new)>(less: (T, T) -> bool, r: seq<T>, x: T, k: nat, j: nat)
    requires WeakOrder(less) && Sorted(less, r) && k <= j < |r| && less(x, r[k])
    ensures !less(r[j], x)
  {
    assert !less(r[k], x);
    assert k < j ==> !less(r[j], r[k]);
  }

  lemma SortedAround<T>(less: (T, T) -> bool, r: seq<T>, x: T, k: nat)
    requires Sorted(less, r) && k <= |r|
    requires forall i :: 0 <= i < k ==> !less(x, r[i])
    requires forall j :: k <= j < |r| ==> !less(r[j], x)
    ensures Sorted(less, r[..k] + [x] + r[k..])
  {
    var t := r[..k] + [x] + r[k..];
    forall i, j | 0 <= i < j < |t| ensures !less(t[j], t[i]) {
      assert t[i] == if i < k then r[i] else if i == k then x else r[i - 1];
      assert t[j] == if j < k then r[j] else if j == k then x else r[j - 1];
    }
  }

  /** Sorting, as the library call the source makes; only the contract is used. */
  method SortSlice<T(!new)>(s: seq<T>, less: (T, T) -> bool) returns (r: seq<T>)
    requires WeakOrder(less)
    ensures Permutes(r, s)
    ensures Sorted(less, r)
  {
    r := [];
    for n := 0 to |s|
      invariant multiset(r) == multiset(s[..n])
      invariant Sorted(less, r)
    {
      var k := 0;
      while k < |r| && !less(s[n], r[k])
        invariant 0 <= k <= |r|
        invariant forall i :: 0 <= i < k ==> !less(s[n], r[i])
      {
        k := k + 1;
      }
      InsertAt(less, r, s[n], k);
      assert s[..n + 1] == s[..n] + [s[n]];
      r := r[..k] + [s[n]] + r[k..];
    }
    assert s[..|s|] == s;
  }
}
