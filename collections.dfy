/**
 * Sequence helpers shared by the editors: optional values, mapping, filtering,
 * the stable comparator sort of JavaScript's Array.prototype.sort,
 * de-duplication in first-seen order (Array.from(new Set(...))),
 * subsequences and JavaScript's Array.prototype.slice.
 */
module Collections {

  datatype Option<T> = None | Some(value: T)

  // ---------------------------------------------------------------------
  // Mapping (Array.prototype.map)
  // ---------------------------------------------------------------------

  /** `Array.prototype.map`: applies `f` to every element, in order. */
  function Map<A, B>(s: seq<A>, f: A -> B): (r: seq<B>)
    ensures |r| == |s| && forall k :: 0 <= k < |s| ==> r[k] == f(s[k])
  {
    seq(|s|, k requires 0 <= k < |s| => f(s[k]))
  }

  // ---------------------------------------------------------------------
  // Filtering (Array.prototype.filter)
  // ---------------------------------------------------------------------

  function Filter<T(!new)>(s: seq<T>, p: T -> bool): (r: seq<T>)
    ensures |r| <= |s|
    ensures forall x :: x in r <==> x in s && p(x)
  {
    if s == [] then [] else (if p(s[0]) then [s[0]] else []) + Filter(s[1..], p)
  }

  /** Filtering keeps exactly the occurrences that satisfy the predicate. */
  lemma {:induction false} FilterCount<T(!new)>(s: seq<T>, p: T -> bool, x: T)
    ensures multiset(Filter(s, p))[x] == if p(x) then multiset(s)[x] else 0
  {
    if s != [] {
      FilterCount(s[1..], p, x);
      assert s == [s[0]] + s[1..];
    }
  }

  /** A filter that keeps everything is the identity. */
  lemma {:induction false} FilterAll<T(!new)>(s: seq<T>, p: T -> bool)
    requires forall x :: x in s ==> p(x)
    ensures Filter(s, p) == s
  {
    if s != [] {
      FilterAll(s[1..], p);
    }
  }

  /** Two filters in a row keep what satisfies both predicates. */
  lemma {:induction false} FilterCompose<T(!new)>(s: seq<T>, p: T -> bool, q: T -> bool, both: T -> bool)
    requires forall x :: both(x) == (p(x) && q(x))
    ensures Filter(Filter(s, p), q) == Filter(s, both)
  {
    if s != [] {
      FilterCompose(s[1..], p, q, both);
      if p(s[0]) {
        assert Filter(s, p) == [s[0]] + Filter(s[1..], p);
        assert Filter(s, p)[1..] == Filter(s[1..], p);
      } else {
        assert Filter(s, p) == Filter(s[1..], p);
      }
    }
  }

  lemma {:induction false} FilterAppend<T(!new)>(a: seq<T>, b: seq<T>, p: T -> bool)
    ensures Filter(a + b, p) == Filter(a, p) + Filter(b, p)
  {
    if a == [] {
      assert a + b == b;
    } else {
      assert (a + b)[1..] == a[1..] + b;
      FilterAppend(a[1..], b, p);
    }
  }

  /** A filter whose predicate agrees with another on `s` gives the same result. */
  lemma {:induction false} FilterCongruent<T(!new)>(s: seq<T>, p: T -> bool, q: T -> bool)
    requires forall x :: x in s ==> p(x) == q(x)
    ensures Filter(s, p) == Filter(s, q)
  {
    if s != [] {
      FilterCongruent(s[1..], p, q);
    }
  }

  /** `Array.prototype.find`: the first element satisfying `p`. */
  function Find<T>(s: seq<T>, p: T -> bool): (r: Option<T>)
    ensures r.None? <==> forall k :: 0 <= k < |s| ==> !p(s[k])
    ensures r.Some? ==> exists k :: 0 <= k < |s| && s[k] == r.value && p(s[k]) && forall m :: 0 <= m < k ==> !p(s[m])
  {
    if s == [] then None
    else if p(s[0]) then Some(s[0])
    else
      var r := Find(s[1..], p);
      assert forall k :: 0 < k < |s| ==> s[k] == s[1..][k - 1];
      r
  }

  // ---------------------------------------------------------------------
  // Subsequences
  // ---------------------------------------------------------------------

  /** `a` is obtained from `b` by deleting elements, keeping the order. */
  predicate IsSubsequence<T(==)>(a: seq<T>, b: seq<T>)
    decreases |b|
  {
    a == [] || (b != [] && ((a[0] == b[0] && IsSubsequence(a[1..], b[1..])) || IsSubsequence(a, b[1..])))
  }

  lemma {:induction false} SubsequenceRefl<T>(s: seq<T>)
    ensures IsSubsequence(s, s)
  {
    if s != [] {
      SubsequenceRefl(s[1..]);
    }
  }

  lemma {:induction false} FilterIsSubsequence<T(!new)>(s: seq<T>, p: T -> bool)
    ensures IsSubsequence(Filter(s, p), s)
  {
    if s != [] {
      FilterIsSubsequence(s[1..], p);
      if p(s[0]) {
        assert Filter(s, p) == [s[0]] + Filter(s[1..], p);
      } else {
        assert Filter(s, p) == Filter(s[1..], p);
      }
    }
  }

  /** Filtering is monotone with respect to the subsequence order. */
  lemma {:induction false} FilterMonotone<T(!new)>(a: seq<T>, b: seq<T>, p: T -> bool)
    requires IsSubsequence(a, b)
    ensures IsSubsequence(Filter(a, p), Filter(b, p))
    decreases |b|
  {
    if a == [] {
    } else if a[0] == b[0] && IsSubsequence(a[1..], b[1..]) {
      FilterMonotone(a[1..], b[1..], p);
      if p(a[0]) {
        assert Filter(a, p) == [a[0]] + Filter(a[1..], p);
        assert Filter(b, p) == [b[0]] + Filter(b[1..], p);
      } else {
        assert Filter(a, p) == Filter(a[1..], p);
        assert Filter(b, p) == Filter(b[1..], p);
      }
    } else {
      FilterMonotone(a, b[1..], p);
      SubsequenceDrop(Filter(a, p), Filter(b[1..], p), if p(b[0]) then [b[0]] else []);
    }
  }

  /** Prepending elements to the longer sequence keeps a subsequence. */
  lemma {:induction false} SubsequenceDrop<T>(a: seq<T>, b: seq<T>, pre: seq<T>)
    requires IsSubsequence(a, b)
    ensures IsSubsequence(a, pre + b)
    decreases |pre|
  {
    if pre == [] {
      assert pre + b == b;
    } else {
      SubsequenceDrop(a, b, pre[1..]);
      assert (pre + b)[1..] == pre[1..] + b;
    }
  }

  // ---------------------------------------------------------------------
  // Stable sort by a comparator (Array.prototype.sort)
  // ---------------------------------------------------------------------

  /** The comparator's "not after" relation is total and transitive. */
  ghost predicate TotalPreorder<T(!new)>(cmp: (T, T) -> int)
  {
    && (forall a, b :: cmp(a, b) <= 0 || cmp(b, a) <= 0)
    && (forall a, b, c :: cmp(a, b) <= 0 && cmp(b, c) <= 0 ==> cmp(a, c) <= 0)
  }

  ghost predicate SortedBy<T>(s: seq<T>, cmp: (T, T) -> int)
  {
    forall i, j :: 0 <= i < j < |s| ==> cmp(s[i], s[j]) <= 0
  }

  /** Places `x` after every leading element that does not compare after it. */
  function Insert<T>(x: T, s: seq<T>, cmp: (T, T) -> int): (r: seq<T>)
    ensures |r| == |s| + 1
  {
    if s == [] then [x]
    else if cmp(s[0], x) <= 0 then [s[0]] + Insert(x, s[1..], cmp)
    else [x] + s
  }

  /** Inserting adds `x` and keeps everything else. */
  lemma {:induction false} InsertPermutes<T>(x: T, s: seq<T>, cmp: (T, T) -> int)
    ensures multiset(Insert(x, s, cmp)) == multiset(s) + multiset{x}
  {
    if s != [] && cmp(s[0], x) <= 0 {
      assert s == [s[0]] + s[1..];
      InsertPermutes(x, s[1..], cmp);
    }
  }

  /**
   * Insertion sort that takes the input from left to right, so elements the
   * comparator calls equal keep their input order, as the stable sort of
   * ECMAScript 2019 does.
   */
  function Sort<T>(s: seq<T>, cmp: (T, T) -> int): (r: seq<T>)
    ensures multiset(r) == multiset(s)
    ensures |r| == |s|
  {
    if s == [] then []
    else
      assert s == s[..|s| - 1] + [s[|s| - 1]];
      InsertPermutes(s[|s| - 1], Sort(s[..|s| - 1], cmp), cmp);
      Insert(s[|s| - 1], Sort(s[..|s| - 1], cmp), cmp)
  }

  lemma {:induction false} InsertSorted<T(!new)>(x: T, s: seq<T>, cmp: (T, T) -> int)
    requires TotalPreorder(cmp)
    requires SortedBy(s, cmp)
    ensures SortedBy(Insert(x, s, cmp), cmp)
  {
    if s == [] {
    } else if cmp(s[0], x) <= 0 {
      var t := Insert(x, s[1..], cmp);
      assert SortedBy(s[1..], cmp) by {
        forall i, j | 0 <= i < j < |s| - 1 ensures cmp(s[1..][i], s[1..][j]) <= 0 {
          assert s[1..][i] == s[i + 1] && s[1..][j] == s[j + 1];
        }
      }
      InsertSorted(x, s[1..], cmp);
      HeadBeforeAll(s[0], x, s[1..], cmp);
      ConsSorted(s[0], t, cmp);
    } else {
      assert cmp(x, s[0]) <= 0;
      forall k | 0 <= k < |s| ensures cmp(x, s[k]) <= 0 {
        if k > 0 {
          assert cmp(s[0], s[k]) <= 0;
        }
      }
      ConsSorted(x, s, cmp);
    }
  }

  /** An element not after `x` nor after any of `s` is not after anything in Insert(x, s). */
  lemma HeadBeforeAll<T(!new)>(h: T, x: T, s: seq<T>, cmp: (T, T) -> int)
    requires cmp(h, x) <= 0
    requires forall k :: 0 <= k < |s| ==> cmp(h, s[k]) <= 0
    ensures forall k :: 0 <= k < |Insert(x, s, cmp)| ==> cmp(h, Insert(x, s, cmp)[k]) <= 0
  {
    var t := Insert(x, s, cmp);
    InsertPermutes(x, s, cmp);
    forall k | 0 <= k < |t| ensures cmp(h, t[k]) <= 0 {
      assert t[k] in multiset(t);
      assert t[k] == x || t[k] in s;
    }
  }

  lemma ConsSorted<T>(h: T, t: seq<T>, cmp: (T, T) -> int)
    requires SortedBy(t, cmp)
    requires forall k :: 0 <= k < |t| ==> cmp(h, t[k]) <= 0
    ensures SortedBy([h] + t, cmp)
  {
    var r := [h] + t;
    forall i, j | 0 <= i < j < |r| ensures cmp(r[i], r[j]) <= 0 {
      if i == 0 {
        assert r[j] == t[j - 1];
      } else {
        assert r[i] == t[i - 1] && r[j] == t[j - 1];
      }
    }
  }

  lemma {:induction false} SortSorted<T(!new)>(s: seq<T>, cmp: (T, T) -> int)
    requires TotalPreorder(cmp)
    ensures SortedBy(Sort(s, cmp), cmp)
  {
    if s != [] {
      SortSorted(s[..|s| - 1], cmp);
      InsertSorted(s[|s| - 1], Sort(s[..|s| - 1], cmp), cmp);
    }
  }

  /** Filtering a sorted sequence leaves it sorted. */
  lemma {:induction false} FilterSorted<T(!new)>(s: seq<T>, p: T -> bool, cmp: (T, T) -> int)
    requires SortedBy(s, cmp)
    ensures SortedBy(Filter(s, p), cmp)
  {
    if s != [] {
      assert SortedBy(s[1..], cmp) by {
        forall i, j | 0 <= i < j < |s| - 1 ensures cmp(s[1..][i], s[1..][j]) <= 0 {
          assert s[1..][i] == s[i + 1] && s[1..][j] == s[j + 1];
        }
      }
      FilterSorted(s[1..], p, cmp);
      var t := Filter(s[1..], p);
      if p(s[0]) {
        forall k | 0 <= k < |t| ensures cmp(s[0], t[k]) <= 0 {
          assert t[k] in s[1..];
          var m :| 0 <= m < |s[1..]| && s[1..][m] == t[k];
          assert s[m + 1] == t[k];
        }
        ConsSorted(s[0], t, cmp);
      }
    }
  }

  /** The elements that rank equal to `y` under `cmp`: one equivalence class. */
  function SameRank<T>(cmp: (T, T) -> int, y: T): T -> bool
  {
    (e: T) => cmp(e, y) <= 0 && cmp(y, e) <= 0
  }

  /** Inserting an element the predicate rejects leaves the filtered view as it was. */
  lemma {:induction false} FilterInsertRejected<T(!new)>(x: T, t: seq<T>, cmp: (T, T) -> int, p: T -> bool)
    requires !p(x)
    ensures Filter(Insert(x, t, cmp), p) == Filter(t, p)
  {
    if t != [] && cmp(t[0], x) <= 0 {
      assert ([t[0]] + Insert(x, t[1..], cmp))[1..] == Insert(x, t[1..], cmp);
      FilterInsertRejected(x, t[1..], cmp, p);
    } else if t != [] {
      assert ([x] + t)[1..] == t;
    }
  }

  /** Filtering out every element leaves nothing. */
  lemma {:induction false} FilterNone<T(!new)>(s: seq<T>, p: T -> bool)
    requires forall k :: 0 <= k < |s| ==> !p(s[k])
    ensures Filter(s, p) == []
  {
    if s != [] {
      forall k | 0 <= k < |s| - 1 ensures !p(s[1..][k]) {
        assert s[1..][k] == s[k + 1];
      }
      FilterNone(s[1..], p);
    }
  }

  /** In a sorted sequence whose head ranks above `x`, no element ranks equal to `x`. */
  lemma NoneOfRankAfter<T(!new)>(x: T, t: seq<T>, cmp: (T, T) -> int, y: T)
    requires TotalPreorder(cmp) && SortedBy(t, cmp)
    requires SameRank(cmp, y)(x)
    requires t != [] && cmp(t[0], x) > 0
    ensures Filter(t, SameRank(cmp, y)) == []
  {
    forall k | 0 <= k < |t| ensures !SameRank(cmp, y)(t[k]) {
      if k > 0 {
        assert cmp(t[0], t[k]) <= 0;
      }
    }
    FilterNone(t, SameRank(cmp, y));
  }

  /** `Insert` puts `x` between a prefix and a suffix whose first element ranks above `x`. */
  lemma {:induction false} InsertSplit<T>(x: T, t: seq<T>, cmp: (T, T) -> int) returns (before: seq<T>, after: seq<T>)
    ensures t == before + after
    ensures Insert(x, t, cmp) == before + [x] + after
    ensures after != [] ==> cmp(after[0], x) > 0
  {
    if t == [] {
      before, after := [], [];
      assert before + [x] + after == [x];
    } else if cmp(t[0], x) > 0 {
      before, after := [], t;
      assert before + [x] + after == [x] + t;
    } else {
      var b, a := InsertSplit(x, t[1..], cmp);
      before, after := [t[0]] + b, a;
      assert Insert(x, t, cmp) == [t[0]] + Insert(x, t[1..], cmp);
      assert [t[0]] + (b + [x] + a) == before + [x] + after;
      assert t == [t[0]] + t[1..];
      assert [t[0]] + (b + a) == before + after;
    }
  }

  /** A suffix of a sorted sequence is sorted. */
  lemma SortedSuffix<T>(before: seq<T>, after: seq<T>, cmp: (T, T) -> int)
    requires SortedBy(before + after, cmp)
    ensures SortedBy(after, cmp)
  {
    var t := before + after;
    forall a, b | 0 <= a < b < |after| ensures cmp(after[a], after[b]) <= 0 {
      assert after[a] == t[|before| + a] && after[b] == t[|before| + b];
    }
  }

  /** When nothing kept follows `x`, `x` comes last in the filtered view. */
  lemma FilterKeepsLast<T(!new)>(before: seq<T>, x: T, after: seq<T>, p: T -> bool)
    requires p(x)
    requires Filter(after, p) == []
    ensures Filter(before + [x] + after, p) == Filter(before + after, p) + [x]
  {
    FilterKeepsOne(x, p);
    FilterAppend(before + [x], after, p);
    FilterAppend(before, [x], p);
    FilterAppend(before, after, p);
    var head := Filter(before, p);
    assert Filter(before + [x] + after, p) == head + [x] + [];
    assert Filter(before + after, p) == head + [];
  }

  lemma FilterKeepsOne<T(!new)>(x: T, p: T -> bool)
    requires p(x)
    ensures Filter([x], p) == [x]
  {
    assert [x][1..] == [];
  }

  /** Inserting `x` into a sorted sequence places it after every element of its rank. */
  lemma FilterInsertSameRank<T(!new)>(x: T, t: seq<T>, cmp: (T, T) -> int, y: T)
    requires TotalPreorder(cmp) && SortedBy(t, cmp)
    requires SameRank(cmp, y)(x)
    ensures Filter(Insert(x, t, cmp), SameRank(cmp, y)) == Filter(t, SameRank(cmp, y)) + [x]
  {
    var before, after := InsertSplit(x, t, cmp);
    if after != [] {
      SortedSuffix(before, after, cmp);
      NoneOfRankAfter(x, after, cmp, y);
    }
    FilterKeepsLast(before, x, after, SameRank(cmp, y));
  }

  /**
   * The sort is stable: the elements of any one rank come out in the order
   * they went in, which is what a stable `Array.prototype.sort` promises.
   */
  lemma {:induction false} SortStable<T(!new)>(s: seq<T>, cmp: (T, T) -> int, y: T)
    requires TotalPreorder(cmp)
    ensures Filter(Sort(s, cmp), SameRank(cmp, y)) == Filter(s, SameRank(cmp, y))
  {
    if s != [] {
      var init, last := s[..|s| - 1], s[|s| - 1];
      assert s == init + [last];
      SortStable(init, cmp, y);
      SortSorted(init, cmp);
      FilterAppend(init, [last], SameRank(cmp, y));
      if SameRank(cmp, y)(last) {
        FilterInsertSameRank(last, Sort(init, cmp), cmp, y);
      } else {
        FilterInsertRejected(last, Sort(init, cmp), cmp, SameRank(cmp, y));
      }
    }
  }

  // ---------------------------------------------------------------------
  // De-duplication in first-seen order (Array.from(new Set(s)))
  // ---------------------------------------------------------------------

  predicate NoDuplicates<T(==)>(s: seq<T>)
  {
    forall i, j :: 0 <= i < j < |s| ==> s[i] != s[j]
  }

  function Distinct<T(==,!new)>(s: seq<T>): (r: seq<T>)
    ensures forall x :: x in r <==> x in s
    ensures NoDuplicates(r)
    ensures |r| <= |s|
  {
    if s == [] then []
    else
      var d := Distinct(s[..|s| - 1]);
      if s[|s| - 1] in d then d else d + [s[|s| - 1]]
  }

  /** Index of the first occurrence of `x` in `s`. */
  function FirstIndex<T(==)>(s: seq<T>, x: T): (i: nat)
    requires x in s
    ensures i < |s| && s[i] == x && x !in s[..i]
  {
    if s[0] == x then 0 else FirstIndex(s[1..], x) + 1
  }

  /** The first occurrence is the position before which `x` does not occur. */
  lemma {:induction false} FirstIndexAt<T>(s: seq<T>, x: T, k: nat)
    requires k < |s| && s[k] == x
    requires forall m :: 0 <= m < k ==> s[m] != x
    ensures FirstIndex(s, x) == k
  {
    if s[0] != x {
      FirstIndexAt(s[1..], x, k - 1);
    }
  }

  lemma {:induction false} FirstIndexPrefix<T>(s: seq<T>, n: nat, x: T)
    requires n <= |s| && x in s[..n]
    ensures FirstIndex(s, x) == FirstIndex(s[..n], x)
  {
    if s[0] != x {
      assert s[1..][..n - 1] == s[..n][1..];
      FirstIndexPrefix(s[1..], n - 1, x);
    }
  }

  /** The distinct values appear in the order of their first occurrences. */
  lemma {:induction false} DistinctFirstSeen<T(!new)>(s: seq<T>, i: nat, j: nat)
    requires i < j < |Distinct(s)|
    ensures FirstIndex(s, Distinct(s)[i]) < FirstIndex(s, Distinct(s)[j])
  {
    var init := s[..|s| - 1];
    var d := Distinct(init);
    var r := Distinct(s);
    assert s == init + [s[|s| - 1]];
    if j < |d| {
      assert r[i] == d[i] && r[j] == d[j];
      DistinctFirstSeen(init, i, j);
      FirstIndexPrefix(s, |s| - 1, d[i]);
      FirstIndexPrefix(s, |s| - 1, d[j]);
    } else {
      assert r == d + [s[|s| - 1]] && j == |d|;
      var x := s[|s| - 1];
      assert x !in init;
      assert r[i] in init;
      FirstIndexPrefix(s, |s| - 1, r[i]);
      var k := FirstIndex(s, x);
      assert forall m :: 0 <= m < |s| - 1 ==> s[m] == init[m];
      assert k == |s| - 1;
    }
  }

  /** How many elements of `s` equal some element of `d`, counted once per element of `d`. */
  function SumOccurrences<T(==)>(d: seq<T>, s: seq<T>): nat
  {
    if d == [] then 0 else multiset(s)[d[0]] + SumOccurrences(d[1..], s)
  }

  lemma {:induction false} SumOccurrencesAppend<T>(a: seq<T>, b: seq<T>, s: seq<T>)
    ensures SumOccurrences(a + b, s) == SumOccurrences(a, s) + SumOccurrences(b, s)
  {
    if a == [] {
      assert a + b == b;
    } else {
      assert (a + b)[1..] == a[1..] + b;
      SumOccurrencesAppend(a[1..], b, s);
    }
  }

  /** Appending `e` to `s` adds one to the sum when `e` is listed once in `d`, and nothing otherwise. */
  lemma {:induction false} SumOccurrencesSnoc<T>(d: seq<T>, s: seq<T>, e: T)
    requires NoDuplicates(d)
    ensures SumOccurrences(d, s + [e]) == SumOccurrences(d, s) + if e in d then 1 else 0
  {
    if d != [] {
      assert NoDuplicates(d[1..]) by {
        forall i, j | 0 <= i < j < |d| - 1 ensures d[1..][i] != d[1..][j] {
          assert d[1..][i] == d[i + 1] && d[1..][j] == d[j + 1];
        }
      }
      SumOccurrencesSnoc(d[1..], s, e);
      if e == d[0] {
        assert e !in d[1..] by {
          forall k | 0 <= k < |d| - 1 ensures d[1..][k] != e {
            assert d[1..][k] == d[k + 1];
          }
        }
      }
      assert e in d <==> e == d[0] || e in d[1..];
    }
  }

  /** Counting every element of `s` once per distinct value counts all of `s`. */
  lemma {:induction false} DistinctCoversCount<T(!new)>(s: seq<T>)
    ensures SumOccurrences(Distinct(s), s) == |s|
  {
    if s != [] {
      var init := s[..|s| - 1];
      var e := s[|s| - 1];
      var d := Distinct(init);
      assert s == init + [e];
      DistinctCoversCount(init);
      SumOccurrencesSnoc(d, init, e);
      if e !in d {
        SumOccurrencesAppend(d, [e], s);
        assert SumOccurrences([e], s) == multiset(s)[e];
        assert multiset(init)[e] == 0;
      }
    }
  }

  // ---------------------------------------------------------------------
  // Counting and JavaScript's slice
  // ---------------------------------------------------------------------

  /** JavaScript clamps a slice bound: negative counts from the end. */
  function ClampIndex(i: int, n: nat): (k: nat)
    ensures k <= n
    ensures 0 <= i ==> k == if i < n then i else n
  {
    if i < 0 then (if n + i < 0 then 0 else n + i) else if i < n then i else n
  }

  /**
   * Array.prototype.slice(start, end): the run of consecutive elements from
   * the clamped start up to the clamped end, empty when the end is not past
   * the start.
   */
  function JsSlice<T>(s: seq<T>, start: int, end: int): (r: seq<T>)
    ensures |r| <= |s|
    ensures var a := ClampIndex(start, |s|); var b := ClampIndex(end, |s|);
      |r| == (if a < b then b - a else 0)
      && forall k :: 0 <= k < |r| ==> a + k < |s| && r[k] == s[a + k]
    ensures 0 <= start <= end ==>
      r == s[(if start < |s| then start else |s|)..(if end < |s| then end else |s|)]
  {
    var a := ClampIndex(start, |s|);
    var b := ClampIndex(end, |s|);
    if a < b then s[a..b] else []
  }
}
