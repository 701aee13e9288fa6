/**
 * The array operations the source leans on (`filter`, `find`, `slice`, a stable `sort`,
 * `new Set(...)`) as functions on sequences, each with the property callers rely on.
 */
module Seqs {
  import opened Wrappers

  // ---------------------------------------------------------------------------
  // Order-preserving subsequences
  // ---------------------------------------------------------------------------

  /** `r` is `s` with some elements left out and the rest kept in their order. */
  predicate Subseq<T(==)>(r: seq<T>, s: seq<T>)
    decreases |s|
  {
    if r == [] then true
    else if s == [] then false
    else (r[0] == s[0] && Subseq(r[1..], s[1..])) || Subseq(r, s[1..])
  }

  lemma {:induction false} SubseqRefl<T(!new)>(s: seq<T>)
    ensures Subseq(s, s)
  {
    if s != [] {
      SubseqRefl(s[1..]);
    }
  }

  lemma {:induction false} SubseqTrans<T(!new)>(a: seq<T>, b: seq<T>, c: seq<T>)
    requires Subseq(a, b) && Subseq(b, c)
    ensures Subseq(a, c)
    decreases |c|
  {
    if a != [] {
      if b[0] == c[0] && Subseq(b[1..], c[1..]) {
        if a[0] == b[0] && Subseq(a[1..], b[1..]) {
          SubseqTrans(a[1..], b[1..], c[1..]);
        } else {
          SubseqTrans(a, b[1..], c[1..]);
        }
      } else {
        SubseqTrans(a, b, c[1..]);
      }
    }
  }

  // ---------------------------------------------------------------------------
  // filter
  // ---------------------------------------------------------------------------

  /** `Array.prototype.filter`: the elements of `s` that satisfy `p`, in order. */
  function Filter<T(==,!new)>(s: seq<T>, p: T -> bool): (r: seq<T>)
    ensures |r| <= |s|
    ensures forall i :: 0 <= i < |r| ==> p(r[i])
    ensures forall x :: multiset(r)[x] == if p(x) then multiset(s)[x] else 0
    ensures forall x :: x in r <==> x in s && p(x)
    ensures Subseq(r, s)
  {
    if s == [] then []
    else
      assert s == [s[0]] + s[1..];
      if p(s[0]) then [s[0]] + Filter(s[1..], p) else Filter(s[1..], p)
  }

  /**
   * One stage of a filter pipeline: if `before` holds the copies of the elements
   * of `s` that satisfy `P`, then filtering it by `p` when `active` (and keeping it
   * as it is otherwise) holds the copies of those that satisfy `Q`.
   */
  lemma FilterStage<T(!new)>(s: seq<T>, before: seq<T>, after: seq<T>, P: T -> bool, Q: T -> bool,
                             active: bool, p: T -> bool)
    requires forall x :: multiset(before)[x] == if P(x) then multiset(s)[x] else 0
    requires after == if active then Filter(before, p) else before
    requires forall x :: Q(x) == (P(x) && (active ==> p(x)))
    ensures forall x :: multiset(after)[x] == if Q(x) then multiset(s)[x] else 0
  {
  }

  /** `x => !p(x)`. */
  function Negate<T>(p: T -> bool): T -> bool {
    x => !p(x)
  }

  /** A filter whose predicate holds of every element keeps the whole sequence. */
  lemma {:induction false} FilterKeepsAll<T(!new)>(s: seq<T>, p: T -> bool)
    requires forall i :: 0 <= i < |s| ==> p(s[i])
    ensures Filter(s, p) == s
  {
    if s != [] {
      FilterKeepsAll(s[1..], p);
    }
  }

  /** A filter whose predicate holds of no element keeps nothing. */
  lemma {:induction false} FilterKeepsNone<T(!new)>(s: seq<T>, p: T -> bool)
    requires forall i :: 0 <= i < |s| ==> !p(s[i])
    ensures Filter(s, p) == []
  {
    if s != [] {
      FilterKeepsNone(s[1..], p);
    }
  }

  /** Every element is kept by exactly one of `p` and its negation. */
  lemma {:induction false} FilterPartition<T(!new)>(s: seq<T>, p: T -> bool)
    ensures |Filter(s, p)| + |Filter(s, Negate(p))| == |s|
  {
    if s != [] {
      FilterPartition(s[1..], p);
    }
  }

  /** Filtering commutes with concatenation. */
  lemma {:induction false} FilterAppend<T(!new)>(a: seq<T>, b: seq<T>, p: T -> bool)
    ensures Filter(a + b, p) == Filter(a, p) + Filter(b, p)
  {
    if a == [] {
      assert a + b == b;
    } else {
      assert (a + b)[1..] == a[1..] + b;
      FilterAppend(a[1..], b, p);
    }
  }

  /** The length of a filter counts the first element when it passes, then the rest. */
  lemma FilterConsLength<T(!new)>(s: seq<T>, p: T -> bool)
    requires s != []
    ensures |Filter(s, p)| == (if p(s[0]) then 1 else 0) + |Filter(s[1..], p)|
  {
    assert s == [s[0]] + s[1..];
  }

  /** Filtering a sequence with one more element in front keeps that element first when it passes. */
  lemma FilterCons<T(!new)>(x: T, s: seq<T>, p: T -> bool)
    ensures Filter([x] + s, p) == if p(x) then [x] + Filter(s, p) else Filter(s, p)
  {
    assert ([x] + s)[1..] == s;
  }

  /** Filtering a sequence with one more element at the end counts that element when it passes. */
  lemma FilterSnocLength<T(!new)>(s: seq<T>, x: T, p: T -> bool)
    ensures |Filter(s + [x], p)| == |Filter(s, p)| + if p(x) then 1 else 0
  {
    FilterAppend(s, [x], p);
    assert [x][1..] == [];
  }

  /** Filters that agree on every element of `s` give the same result. */
  lemma {:induction false} FilterExt<T(!new)>(s: seq<T>, p: T -> bool, q: T -> bool)
    requires forall i :: 0 <= i < |s| ==> p(s[i]) == q(s[i])
    ensures Filter(s, p) == Filter(s, q)
  {
    if s != [] {
      FilterExt(s[1..], p, q);
    }
  }

  /** Filtering by a stronger predicate after a weaker one is filtering by the stronger one alone. */
  lemma {:induction false} FilterNarrow<T(!new)>(s: seq<T>, p: T -> bool, q: T -> bool)
    requires forall i :: 0 <= i < |s| ==> p(s[i]) ==> q(s[i])
    ensures Filter(Filter(s, q), p) == Filter(s, p)
  {
    if s != [] {
      FilterNarrow(s[1..], p, q);
    }
  }

  /** Rearranging a sequence does not change how many of its elements pass a filter. */
  lemma FilterPermutationLength<T(!new)>(a: seq<T>, b: seq<T>, p: T -> bool)
    requires multiset(a) == multiset(b)
    ensures |Filter(a, p)| == |Filter(b, p)|
  {
    assert multiset(Filter(a, p)) == multiset(Filter(b, p));
    assert |multiset(Filter(a, p))| == |multiset(Filter(b, p))|;
  }

  // ---------------------------------------------------------------------------
  // map
  // ---------------------------------------------------------------------------

  /** `s.map(f)` */
  function Map<T, U>(s: seq<T>, f: T -> U): (r: seq<U>)
    ensures |r| == |s|
    ensures forall i :: 0 <= i < |s| ==> r[i] == f(s[i])
  {
    if s == [] then [] else [f(s[0])] + Map(s[1..], f)
  }

  // ---------------------------------------------------------------------------
  // map(x => p(x) ? v : x)
  // ---------------------------------------------------------------------------

  /** `s.map(x => p(x) ? v : x)`: every element satisfying `p` replaced by `v`. */
  function ReplaceWhere<T>(s: seq<T>, p: T -> bool, v: T): seq<T> {
    if s == [] then [] else [if p(s[0]) then v else s[0]] + ReplaceWhere(s[1..], p, v)
  }

  /** The length is kept, and each position holds `v` exactly where the old element satisfied `p`. */
  lemma {:induction false} ReplaceWhereSpec<T>(s: seq<T>, p: T -> bool, v: T)
    ensures |ReplaceWhere(s, p, v)| == |s|
    ensures forall i :: 0 <= i < |s| ==> ReplaceWhere(s, p, v)[i] == if p(s[i]) then v else s[i]
  {
    if s != [] {
      ReplaceWhereSpec(s[1..], p, v);
    }
  }

  /** With no element satisfying `p`, the sequence is unchanged. */
  lemma {:induction false} ReplaceWhereNoMatch<T>(s: seq<T>, p: T -> bool, v: T)
    requires forall i :: 0 <= i < |s| ==> !p(s[i])
    ensures ReplaceWhere(s, p, v) == s
  {
    if s != [] {
      ReplaceWhereNoMatch(s[1..], p, v);
    }
  }

  /** Filters that agree position by position on two sequences keep equally many elements. */
  lemma {:induction false} FilterLengthPointwise<T(!new)>(a: seq<T>, b: seq<T>, p: T -> bool, q: T -> bool)
    requires |a| == |b|
    requires forall i :: 0 <= i < |a| ==> p(a[i]) == q(b[i])
    ensures |Filter(a, p)| == |Filter(b, q)|
  {
    if a != [] {
      FilterLengthPointwise(a[1..], b[1..], p, q);
    }
  }

  // ---------------------------------------------------------------------------
  // find
  // ---------------------------------------------------------------------------

  /** `i` is the first index of `s` whose element satisfies `p`. */
  predicate FirstMatch<T(==,!new)>(s: seq<T>, p: T -> bool, i: int) {
    0 <= i < |s| && p(s[i]) && forall j :: 0 <= j < i ==> !p(s[j])
  }

  /** `Array.prototype.find`: the first element satisfying `p`, or `undefined`. */
  function Find<T(==,!new)>(s: seq<T>, p: T -> bool): (r: Option<T>)
    ensures r.None? <==> forall i :: 0 <= i < |s| ==> !p(s[i])
    ensures r.Some? ==> exists i :: FirstMatch(s, p, i) && s[i] == r.value
  {
    if s == [] then None
    else if p(s[0]) then
      assert FirstMatch(s, p, 0);
      Some(s[0])
    else
      var r := Find(s[1..], p);
      if r.Some? then
        var i :| FirstMatch(s[1..], p, i) && s[1..][i] == r.value;
        assert FirstMatch(s, p, i + 1);
        r
      else r
  }

  /** The first match is unique, so `Find` returns its element. */
  lemma FindFirst<T(!new)>(s: seq<T>, p: T -> bool, i: int)
    requires FirstMatch(s, p, i)
    ensures Find(s, p) == Some(s[i])
  {
    var r := Find(s, p);
    var k :| FirstMatch(s, p, k) && s[k] == r.value;
    assert !(k < i) && !(i < k);
  }

  // ---------------------------------------------------------------------------
  // slice(0, n)
  // ---------------------------------------------------------------------------

  /** `s.slice(0, n)`. */
  function Take<T>(s: seq<T>, n: nat): (r: seq<T>)
    ensures |r| == if |s| < n then |s| else n
    ensures r == s[..|r|]
  {
    if |s| < n then s else s[..n]
  }

  // ---------------------------------------------------------------------------
  // Stable sort
  // ---------------------------------------------------------------------------

  /**
   * `before(a, b)` is a strict weak order: "a sorts strictly before b", as a
   * comparator returning a negative number says.
   */
  ghost predicate StrictWeakOrder<T(!new)>(before: (T, T) -> bool) {
    && (forall a, b :: before(a, b) ==> !before(b, a))
    && (forall a, b, c {:trigger before(a, b), before(b, c)} {:trigger before(a, c), before(a, b)} {:trigger before(a, c), before(b, c)} ::
          before(a, c) ==> before(a, b) || before(b, c))
  }

  /** No element sorts strictly before an element to its left. */
  predicate SortedBy<T(==,!new)>(s: seq<T>, before: (T, T) -> bool) {
    forall i, j :: 0 <= i < j < |s| ==> !before(s[j], s[i])
  }

  /** Insert `x` in front of the first element that does not sort strictly before it. */
  function Insert<T(==,!new)>(x: T, s: seq<T>, before: (T, T) -> bool): (r: seq<T>)
    ensures multiset(r) == multiset(s) + multiset{x}
    ensures |r| == |s| + 1
  {
    if s == [] || !before(s[0], x) then [x] + s
    else
      assert s == [s[0]] + s[1..];
      [s[0]] + Insert(x, s[1..], before)
  }

  lemma {:induction false} InsertSorted<T(!new)>(x: T, s: seq<T>, before: (T, T) -> bool)
    requires StrictWeakOrder(before)
    requires SortedBy(s, before)
    ensures SortedBy(Insert(x, s, before), before)
  {
    var r := Insert(x, s, before);
    if s == [] || !before(s[0], x) {
    } else {
      var t := Insert(x, s[1..], before);
      InsertSorted(x, s[1..], before);
      forall j | 0 <= j < |t| ensures !before(t[j], s[0]) {
        assert t[j] in multiset(t);
        if t[j] != x {
          assert t[j] in multiset(s[1..]);
          assert t[j] in s[1..];
          var k :| 0 <= k < |s[1..]| && s[1..][k] == t[j];
          assert s[k + 1] == t[j];
        }
      }
      assert r == [s[0]] + t;
    }
  }

  /**
   * `Array.prototype.sort` with a comparator (stable, as ECMAScript 2019 requires):
   * a permutation of `s` in which nothing sorts strictly before an earlier element.
   */
  function SortBy<T(==,!new)>(s: seq<T>, before: (T, T) -> bool): (r: seq<T>)
    requires StrictWeakOrder(before)
    ensures multiset(r) == multiset(s)
    ensures |r| == |s|
    ensures SortedBy(r, before)
  {
    if s == [] then []
    else
      assert s == [s[0]] + s[1..];
      var t := SortBy(s[1..], before);
      InsertSorted(s[0], t, before);
      Insert(s[0], t, before)
  }

  /** `y` and `k` are tied under `before`: neither sorts strictly before the other. */
  function TiedWith<T>(before: (T, T) -> bool, k: T): T -> bool {
    y => !before(y, k) && !before(k, y)
  }

  lemma {:induction false} InsertStable<T(!new)>(x: T, s: seq<T>, before: (T, T) -> bool, k: T)
    requires StrictWeakOrder(before)
    ensures Filter(Insert(x, s, before), TiedWith(before, k))
         == if TiedWith(before, k)(x) then [x] + Filter(s, TiedWith(before, k))
            else Filter(s, TiedWith(before, k))
  {
    var tie := TiedWith(before, k);
    if s == [] || !before(s[0], x) {
    } else {
      InsertStable(x, s[1..], before, k);
      if tie(x) {
        // s[0] sorts strictly before x, and x is tied with k, so s[0] sorts before k
        assert before(s[0], k) || before(k, x);
        assert !tie(s[0]);
      }
    }
  }

  /**
   * Stability: the elements tied with any `k` keep their source order, so
   * sorting does not reorder elements that compare equal.
   */
  lemma {:induction false} SortStable<T(!new)>(s: seq<T>, before: (T, T) -> bool, k: T)
    requires StrictWeakOrder(before)
    ensures Filter(SortBy(s, before), TiedWith(before, k)) == Filter(s, TiedWith(before, k))
  {
    if s != [] {
      SortStable(s[1..], before, k);
      InsertStable(s[0], SortBy(s[1..], before), before, k);
    }
  }

  // ---------------------------------------------------------------------------
  // Array.from(new Set(s))
  // ---------------------------------------------------------------------------

  predicate NoDup<T(==,!new)>(s: seq<T>) {
    forall i, j :: 0 <= i < j < |s| ==> s[i] != s[j]
  }

  /** The index of the first occurrence of `x` in `s`. */
  function IndexOf<T(==,!new)>(s: seq<T>, x: T): (i: nat)
    requires x in s
    ensures i < |s| && s[i] == x
    ensures forall j :: 0 <= j < i ==> s[j] != x
  {
    if s[0] == x then 0 else 1 + IndexOf(s[1..], x)
  }

  lemma {:induction false} IndexOfPrefix<T(!new)>(s: seq<T>, n: nat, x: T)
    requires n <= |s| && x in s[..n]
    ensures IndexOf(s, x) == IndexOf(s[..n], x)
  {
    var i := IndexOf(s[..n], x);
    var k := IndexOf(s, x);
    assert s[i] == x;
    assert !(k < i) && !(i < k);
  }

  /**
   * `Array.from(new Set(s))`: the distinct elements of `s` in order of first
   * occurrence (a JavaScript Set iterates in insertion order).
   */
  function Dedup<T(==,!new)>(s: seq<T>): (r: seq<T>)
    ensures NoDup(r)
    ensures forall x :: x in r <==> x in s
    ensures forall i, j :: 0 <= i < j < |r| ==> IndexOf(s, r[i]) < IndexOf(s, r[j])
  {
    if s == [] then []
    else
      var n := |s| - 1;
      var d := Dedup(s[..n]);
      assert s == s[..n] + [s[n]];
      forall i, j | 0 <= i < j < |d| ensures IndexOf(s, d[i]) < IndexOf(s, d[j]) {
        IndexOfPrefix(s, n, d[i]);
        IndexOfPrefix(s, n, d[j]);
      }
      if s[n] in d then d
      else
        forall i | 0 <= i < |d| ensures IndexOf(s, d[i]) < IndexOf(s, s[n]) {
          IndexOfPrefix(s, n, d[i]);
        }
        d + [s[n]]
  }

  /** A duplicate-free sequence has as many elements as the set of its elements. */
  lemma {:induction false} NoDupCard<T(!new)>(s: seq<T>)
    requires NoDup(s)
    ensures |set x | x in s| == |s|
  {
    if s != [] {
      var n := |s| - 1;
      NoDupCard(s[..n]);
      assert s == s[..n] + [s[n]];
      assert (set x | x in s) == (set x | x in s[..n]) + {s[n]};
      assert s[n] !in s[..n];
    }
  }

  /** A sequence has at least as many elements as the set of its elements. */
  lemma {:induction false} SetCardBound<T(!new)>(s: seq<T>)
    ensures |set x | x in s| <= |s|
  {
    if s != [] {
      SetCardBound(s[1..]);
      assert (set x | x in s) == (set x | x in s[1..]) + {s[0]};
    }
  }

  /** `new Set(s).size`: the number of distinct elements, never more than the length. */
  lemma DedupCount<T(!new)>(s: seq<T>)
    ensures |Dedup(s)| == |set x | x in s|
    ensures |Dedup(s)| <= |s|
  {
    NoDupCard(Dedup(s));
    assert (set x | x in Dedup(s)) == (set x | x in s);
    SetCardBound(s);
  }

  // ---------------------------------------------------------------------------
  // Sums over the values of a map (the counts in a `Record<string, number>`)
  // ---------------------------------------------------------------------------

  ghost function SumValues<K>(m: map<K, nat>): nat
    decreases |m|
  {
    if m == map[] then 0
    else
      assert exists k :: k in m by {
        var k :| k in m.Keys;
      }
      var k :| k in m;
      assert |(m - {k}).Keys| < |m.Keys| by {
        assert (m - {k}).Keys == m.Keys - {k};
      }
      m[k] + SumValues(m - {k})
  }

  lemma {:induction false} SumValuesRemove<K>(m: map<K, nat>, k: K)
    requires k in m
    ensures SumValues(m) == m[k] + SumValues(m - {k})
    decreases |m|
  {
    assert exists j :: j in m by {
      assert k in m;
    }
    var j :| j in m && SumValues(m) == m[j] + SumValues(m - {j});
    if j != k {
      assert (m - {j}).Keys == m.Keys - {j};
      assert (m - {k}).Keys == m.Keys - {k};
      SumValuesRemove(m - {j}, k);
      SumValuesRemove(m - {k}, j);
      assert m - {j} - {k} == m - {k} - {j};
    }
  }

  /** Setting one key changes the sum by the difference at that key. */
  lemma SumValuesUpdate<K>(m: map<K, nat>, k: K, v: nat)
    ensures SumValues(m[k := v]) == SumValues(m) - (if k in m then m[k] else 0) + v
  {
    SumValuesRemove(m[k := v], k);
    assert m[k := v] - {k} == m - {k};
    if k in m {
      SumValuesRemove(m, k);
    } else {
      assert m - {k} == m;
    }
  }
}
