/**
 * Models of the PHP array built-ins the application composes: array_sum over a column,
 * array_filter on a date bound, usort by one key, array_reverse, array_unique with rsort,
 * max and min. PHP lists become sequences (array_values re-indexing is implicit).
 */
module PhpArray {

  // ---------------------------------------------------------------- array_sum(array_column(...))

  function Sum<T>(s: seq<T>, f: T -> int): int {
    if s == [] then 0 else f(s[0]) + Sum(s[1..], f)
  }

  function SumReal<T>(s: seq<T>, f: T -> real): real {
    if s == [] then 0.0 else f(s[0]) + SumReal(s[1..], f)
  }

  predicate NonNegative<T>(s: seq<T>, f: T -> int) {
    forall k :: 0 <= k < |s| ==> f(s[k]) >= 0
  }

  lemma {:induction false} SumConcat<T>(a: seq<T>, b: seq<T>, f: T -> int)
    ensures Sum(a + b, f) == Sum(a, f) + Sum(b, f)
  {
    if a == [] {
      assert a + b == b;
    } else {
      assert (a + b)[1..] == a[1..] + b;
      SumConcat(a[1..], b, f);
    }
  }

  lemma {:induction false} SumNonNegative<T>(s: seq<T>, f: T -> int)
    requires NonNegative(s, f)
    ensures Sum(s, f) >= 0
  {
    if s != [] {
      SumNonNegative(s[1..], f);
    }
  }

  /** The sum does not depend on the order of the elements. */
  lemma {:induction false} SumPermutation<T>(a: seq<T>, b: seq<T>, f: T -> int)
    requires multiset(a) == multiset(b)
    ensures Sum(a, f) == Sum(b, f)
    decreases |a|
  {
    if a == [] {
      assert |multiset(b)| == 0;
      assert b == [];
    } else {
      var left, right := MatchHead(a, b);
      SumPermutation(a[1..], left + right, f);
      SumRemove(left, a[0], right, f);
      SumCons(a[0], a[1..], f);
      assert a == [a[0]] + a[1..];
    }
  }

  /** Taking an element out of the middle takes its value out of the sum. */
  lemma SumRemove<T>(left: seq<T>, x: T, right: seq<T>, f: T -> int)
    ensures Sum(left + ([x] + right), f) == f(x) + Sum(left + right, f)
  {
    SumConcat(left, [x] + right, f);
    SumCons(x, right, f);
    SumConcat(left, right, f);
  }

  /** Taking an element out of the middle takes one copy of it out of the multiset. */
  lemma RemoveAtMultiset<T>(left: seq<T>, x: T, right: seq<T>)
    ensures multiset(left + right) == multiset(left + ([x] + right)) - multiset{x}
  {
    calc {
      multiset(left + ([x] + right));
      multiset(left) + multiset([x] + right);
      multiset(left) + (multiset{x} + multiset(right));
    }
  }

  lemma SumCons<T>(x: T, s: seq<T>, f: T -> int)
    ensures Sum([x] + s, f) == f(x) + Sum(s, f)
  {
    assert ([x] + s)[1..] == s;
  }

  // ---------------------------------------------------------------- array_filter on a key bound

  /** array_filter($s, fn($e) => key($e) >= lo), in the original order. */
  function AtLeast<T(!new)>(s: seq<T>, key: T -> int, lo: int): (r: seq<T>)
    ensures |r| <= |s|
    ensures forall x {:trigger x in r} :: x in r <==> x in s && key(x) >= lo
  {
    if s == [] then []
    else if key(s[0]) >= lo then [s[0]] + AtLeast(s[1..], key, lo)
    else AtLeast(s[1..], key, lo)
  }

  /** array_filter($s, fn($e) => lo <= key($e) && key($e) <= hi), in the original order. */
  function Within<T(!new)>(s: seq<T>, key: T -> int, lo: int, hi: int): (r: seq<T>)
    ensures |r| <= |s|
    ensures forall x {:trigger x in r} :: x in r <==> x in s && lo <= key(x) <= hi
  {
    if s == [] then []
    else if lo <= key(s[0]) <= hi then [s[0]] + Within(s[1..], key, lo, hi)
    else Within(s[1..], key, lo, hi)
  }

  lemma {:induction false} AtLeastMultiset<T(!new)>(a: seq<T>, b: seq<T>, key: T -> int, lo: int)
    requires multiset(a) == multiset(b)
    ensures multiset(AtLeast(a, key, lo)) == multiset(AtLeast(b, key, lo))
  {
    AtLeastCounts(a, key, lo);
    AtLeastCounts(b, key, lo);
  }

  lemma {:induction false} AtLeastCounts<T(!new)>(s: seq<T>, key: T -> int, lo: int)
    ensures forall x :: multiset(AtLeast(s, key, lo))[x] == if key(x) >= lo then multiset(s)[x] else 0
  {
    if s != [] {
      AtLeastCounts(s[1..], key, lo);
      assert s == [s[0]] + s[1..];
    }
  }

  lemma {:induction false} WithinMultiset<T(!new)>(a: seq<T>, b: seq<T>, key: T -> int, lo: int, hi: int)
    requires multiset(a) == multiset(b)
    ensures multiset(Within(a, key, lo, hi)) == multiset(Within(b, key, lo, hi))
  {
    WithinCounts(a, key, lo, hi);
    WithinCounts(b, key, lo, hi);
  }

  lemma {:induction false} WithinCounts<T(!new)>(s: seq<T>, key: T -> int, lo: int, hi: int)
    ensures forall x :: multiset(Within(s, key, lo, hi))[x] == if lo <= key(x) <= hi then multiset(s)[x] else 0
  {
    if s != [] {
      WithinCounts(s[1..], key, lo, hi);
      assert s == [s[0]] + s[1..];
    }
  }

  /** A later lower bound keeps fewer elements and, for a non-negative column, a smaller sum. */
  lemma {:induction false} AtLeastShrinks<T(!new)>(s: seq<T>, key: T -> int, lo1: int, lo2: int, f: T -> int)
    requires lo1 <= lo2
    requires NonNegative(s, f)
    ensures |AtLeast(s, key, lo2)| <= |AtLeast(s, key, lo1)|
    ensures Sum(AtLeast(s, key, lo2), f) <= Sum(AtLeast(s, key, lo1), f)
  {
    if s != [] {
      AtLeastShrinks(s[1..], key, lo1, lo2, f);
    }
  }

  /** Filtering never adds to a non-negative sum. */
  lemma {:induction false} AtLeastBelowTotal<T(!new)>(s: seq<T>, key: T -> int, lo: int, f: T -> int)
    requires NonNegative(s, f)
    ensures Sum(AtLeast(s, key, lo), f) <= Sum(s, f)
  {
    if s != [] {
      AtLeastBelowTotal(s[1..], key, lo, f);
    }
  }

  /** A window [lo, hi] that starts at or after `from` keeps a part of the elements AtLeast `from` keeps. */
  lemma {:induction false} WithinBelowAtLeast<T(!new)>(s: seq<T>, key: T -> int, from: int, lo: int, hi: int, f: T -> int)
    requires from <= lo
    requires NonNegative(s, f)
    ensures Sum(Within(s, key, lo, hi), f) <= Sum(AtLeast(s, key, from), f)
  {
    if s != [] {
      WithinBelowAtLeast(s[1..], key, from, lo, hi, f);
    }
  }

  lemma {:induction false} AtLeastSnoc<T(!new)>(s: seq<T>, x: T, key: T -> int, lo: int)
    ensures AtLeast(s + [x], key, lo) == AtLeast(s, key, lo) + (if key(x) >= lo then [x] else [])
  {
    if s == [] {
      assert s + [x] == [x];
    } else {
      assert (s + [x])[1..] == s[1..] + [x];
      AtLeastSnoc(s[1..], x, key, lo);
    }
  }

  lemma {:induction false} WithinSnoc<T(!new)>(s: seq<T>, x: T, key: T -> int, lo: int, hi: int)
    ensures Within(s + [x], key, lo, hi) == Within(s, key, lo, hi) + (if lo <= key(x) <= hi then [x] else [])
  {
    if s == [] {
      assert s + [x] == [x];
    } else {
      assert (s + [x])[1..] == s[1..] + [x];
      WithinSnoc(s[1..], x, key, lo, hi);
    }
  }

  /** One more element: the filtered sum and count grow by it exactly when it passes the filter. */
  lemma AtLeastSumSnoc<T(!new)>(s: seq<T>, x: T, key: T -> int, lo: int, f: T -> int)
    ensures Sum(AtLeast(s + [x], key, lo), f) == Sum(AtLeast(s, key, lo), f) + (if key(x) >= lo then f(x) else 0)
    ensures |AtLeast(s + [x], key, lo)| == |AtLeast(s, key, lo)| + (if key(x) >= lo then 1 else 0)
  {
    AtLeastSnoc(s, x, key, lo);
    if key(x) >= lo {
      SumConcat(AtLeast(s, key, lo), [x], f);
    } else {
      assert AtLeast(s + [x], key, lo) == AtLeast(s, key, lo);
    }
  }

  lemma WithinSumSnoc<T(!new)>(s: seq<T>, x: T, key: T -> int, lo: int, hi: int, f: T -> int)
    ensures Sum(Within(s + [x], key, lo, hi), f) == Sum(Within(s, key, lo, hi), f) + (if lo <= key(x) <= hi then f(x) else 0)
  {
    WithinSnoc(s, x, key, lo, hi);
    if lo <= key(x) <= hi {
      SumConcat(Within(s, key, lo, hi), [x], f);
    } else {
      assert Within(s + [x], key, lo, hi) == Within(s, key, lo, hi);
    }
  }

  lemma SumSnoc<T>(s: seq<T>, x: T, f: T -> int)
    ensures Sum(s + [x], f) == Sum(s, f) + f(x)
  {
    SumConcat(s, [x], f);
  }

  /** A window cut in two at `mid` sums to the sums of its halves. */
  lemma {:induction false} WithinSplit<T(!new)>(s: seq<T>, key: T -> int, lo: int, mid: int, hi: int, f: T -> int)
    requires lo - 1 <= mid <= hi
    ensures Sum(Within(s, key, lo, hi), f) == Sum(Within(s, key, lo, mid), f) + Sum(Within(s, key, mid + 1, hi), f)
  {
    if s != [] {
      WithinSplit(s[1..], key, lo, mid, hi, f);
    }
  }

  // ---------------------------------------------------------------- per-day bucket sums

  function Identity(x: int): int { x }

  /**
   * The sums of `f` over the elements dated on each of the `n` days from `from` on, oldest
   * first (one chart bucket per day).
   */
  function DaySums<T(!new)>(s: seq<T>, key: T -> int, from: int, n: nat, f: T -> int): (r: seq<int>)
    ensures |r| == n
  {
    if n == 0 then [] else DaySums(s, key, from, n - 1, f) + [Sum(Within(s, key, from + n - 1, from + n - 1), f)]
  }

  /** Bucket k holds the sum over the elements dated `from + k`. */
  lemma {:induction false} DaySumsAt<T(!new)>(s: seq<T>, key: T -> int, from: int, n: nat, f: T -> int)
    ensures forall k :: 0 <= k < n ==> DaySums(s, key, from, n, f)[k] == Sum(Within(s, key, from + k, from + k), f)
  {
    if n > 0 {
      DaySumsAt(s, key, from, n - 1, f);
      assert DaySums(s, key, from, n, f)
          == DaySums(s, key, from, n - 1, f) + [Sum(Within(s, key, from + n - 1, from + n - 1), f)];
    }
  }

  /** The day buckets together hold exactly the elements inside the window: nothing outside is counted. */
  lemma {:induction false} DaySumsTotal<T(!new)>(s: seq<T>, key: T -> int, from: int, n: nat, f: T -> int)
    ensures Sum(DaySums(s, key, from, n, f), Identity) == Sum(Within(s, key, from, from + n - 1), f)
  {
    if n == 0 {
      EmptyWindow(s, key, from, from - 1, f);
      assert DaySums(s, key, from, n, f) == [];
    } else {
      DaySumsTotal(s, key, from, n - 1, f);
      DaySumsExtend(s, key, from, n, f);
    }
  }

  lemma DaySumsExtend<T(!new)>(s: seq<T>, key: T -> int, from: int, n: nat, f: T -> int)
    requires n > 0
    requires Sum(DaySums(s, key, from, n - 1, f), Identity) == Sum(Within(s, key, from, from + (n - 1) - 1), f)
    ensures Sum(DaySums(s, key, from, n, f), Identity) == Sum(Within(s, key, from, from + n - 1), f)
  {
    var mid := from + (n - 1) - 1;
    DaySumsStep(s, key, from, n, mid, f);
    WithinSplit(s, key, from, mid, from + n - 1, f);
  }

  /** One more day adds that day's sum to the total of the buckets. */
  lemma DaySumsStep<T(!new)>(s: seq<T>, key: T -> int, from: int, n: nat, mid: int, f: T -> int)
    requires n > 0 && mid + 1 == from + n - 1
    ensures Sum(DaySums(s, key, from, n, f), Identity)
         == Sum(DaySums(s, key, from, n - 1, f), Identity) + Sum(Within(s, key, mid + 1, from + n - 1), f)
  {
    var prefix := DaySums(s, key, from, n - 1, f);
    var last := Sum(Within(s, key, from + n - 1, from + n - 1), f);
    assert DaySums(s, key, from, n, f) == prefix + [last];
    SumSnoc(prefix, last, Identity);
  }

  lemma {:induction false} EmptyWindow<T(!new)>(s: seq<T>, key: T -> int, lo: int, hi: int, f: T -> int)
    requires hi < lo
    ensures Sum(Within(s, key, lo, hi), f) == 0
  {
    if s != [] {
      EmptyWindow(s[1..], key, lo, hi, f);
    }
  }

  // ---------------------------------------------------------------- array_column, counting

  /** array_column($s, key): one value per element, in order. */
  function Column<T, U>(s: seq<T>, f: T -> U): (r: seq<U>)
    ensures |r| == |s|
    ensures forall k :: 0 <= k < |s| ==> r[k] == f(s[k])
  {
    if s == [] then [] else [f(s[0])] + Column(s[1..], f)
  }

  lemma ColumnSnoc<T, U>(s: seq<T>, x: T, f: T -> U)
    ensures Column(s + [x], f) == Column(s, f) + [f(x)]
  {
  }

  lemma ColumnConcat<T, U>(a: seq<T>, b: seq<T>, f: T -> U)
    ensures Column(a + b, f) == Column(a, f) + Column(b, f)
  {
  }

  /** Reordering the elements reorders the column: the same values occur equally often. */
  lemma {:induction false} ColumnPermutation<T, U>(a: seq<T>, b: seq<T>, f: T -> U)
    requires multiset(a) == multiset(b)
    ensures multiset(Column(a, f)) == multiset(Column(b, f))
    decreases |a|
  {
    if a == [] {
      assert |multiset(b)| == 0;
      assert b == [];
    } else {
      var left, right := MatchHead(a, b);
      ColumnPermutation(a[1..], left + right, f);
      ColumnMiddle(left, a[0], right, f);
      ColumnCons(a, f);
    }
  }

  /** Where the head of a sits in a permutation b of it; the tails match without it. */
  lemma MatchHead<T>(a: seq<T>, b: seq<T>) returns (left: seq<T>, right: seq<T>)
    requires multiset(a) == multiset(b) && a != []
    ensures b == left + ([a[0]] + right)
    ensures multiset(a[1..]) == multiset(left + right)
  {
    assert a[0] in multiset(a);
    assert a[0] in b;
    var j :| 0 <= j < |b| && b[j] == a[0];
    left, right := b[..j], b[j + 1..];
    assert b == left + ([a[0]] + right);
    RemoveAtMultiset(left, a[0], right);
    TailMultiset(a);
  }

  lemma TailMultiset<T>(a: seq<T>)
    requires a != []
    ensures multiset(a[1..]) == multiset(a) - multiset{a[0]}
  {
    assert a == [a[0]] + a[1..];
  }

  lemma ColumnCons<T, U>(a: seq<T>, f: T -> U)
    requires a != []
    ensures multiset(Column(a, f)) == multiset{f(a[0])} + multiset(Column(a[1..], f))
  {
    assert Column(a, f) == [f(a[0])] + Column(a[1..], f);
  }

  lemma ColumnMiddle<T, U>(left: seq<T>, x: T, right: seq<T>, f: T -> U)
    ensures multiset(Column(left + ([x] + right), f)) == multiset{f(x)} + multiset(Column(left + right, f))
  {
    ColumnConcat(left, [x] + right, f);
    ColumnConcat(left, right, f);
    assert Column([x] + right, f) == [f(x)] + Column(right, f);
    MiddleMultiset(Column(left, f), f(x), Column(right, f));
  }

  lemma MiddleMultiset<U>(left: seq<U>, y: U, right: seq<U>)
    ensures multiset(left + ([y] + right)) == multiset{y} + multiset(left + right)
  {
    calc {
      multiset(left + ([y] + right));
      multiset(left) + (multiset{y} + multiset(right));
      multiset{y} + (multiset(left) + multiset(right));
    }
  }

  /** A PHP array used as a counter: the count per key, and the keys in insertion order. */
  datatype Counter<K> = Counter(counts: map<K, int>, order: seq<K>)

  /** `$freq[$k] = ($freq[$k] ?? 0) + 1`: a new key goes to the end of the order. */
  function Bump<K(==)>(c: Counter<K>, k: K): Counter<K> {
    Counter(c.counts[k := (if k in c.counts then c.counts[k] else 0) + 1], if k in c.counts then c.order else c.order + [k])
  }

  /** The counter one Bump per value of `s`, in order, builds from the empty array. */
  function Frequencies<K(==)>(s: seq<K>): Counter<K> {
    if s == [] then Counter(map[], []) else Bump(Frequencies(s[..|s| - 1]), s[|s| - 1])
  }

  lemma FrequenciesSnoc<K>(s: seq<K>, y: K)
    ensures Frequencies(s + [y]) == Bump(Frequencies(s), y)
  {
    assert (s + [y])[..|s|] == s;
  }

  /**
   * The counter holds each value of `s` once, mapped to the number of its occurrences, and
   * its key order lists the same values, each once.
   */
  lemma {:induction false} FrequenciesCount<K(!new)>(s: seq<K>)
    ensures forall x :: x in Frequencies(s).counts <==> x in s
    ensures forall x :: x in Frequencies(s).counts ==> Frequencies(s).counts[x] == multiset(s)[x]
    ensures forall x :: x in Frequencies(s).order <==> x in s
    ensures forall i, j :: 0 <= i < j < |Frequencies(s).order| ==> Frequencies(s).order[i] != Frequencies(s).order[j]
  {
    if s != [] {
      var init, last := s[..|s| - 1], s[|s| - 1];
      FrequenciesCount(init);
      assert s == init + [last];
    }
  }

  /** The key order is the order of first occurrence: a key listed before another occurs before any occurrence of it. */
  lemma {:induction false} FrequenciesFirstSeen<K(!new)>(s: seq<K>)
    ensures forall i, j, q :: 0 <= i < j < |Frequencies(s).order| && 0 <= q < |s| && s[q] == Frequencies(s).order[j] ==>
      Frequencies(s).order[i] in s[..q]
  {
    if s != [] {
      var init, last := s[..|s| - 1], s[|s| - 1];
      FrequenciesFirstSeen(init);
      FrequenciesCount(init);
      var c := Frequencies(init);
      assert s == init + [last];
      var o := Frequencies(s).order;
      assert o == if last in c.counts then c.order else c.order + [last];
      forall i, j, q | 0 <= i < j < |o| && 0 <= q < |s| && s[q] == o[j]
        ensures o[i] in s[..q]
      {
        if q < |s| - 1 {
          assert s[q] == init[q] && s[..q] == init[..q];
        } else {
          assert i < |c.order| && o[i] == c.order[i];
          assert s[..q] == init;
        }
      }
    }
  }

  /** array_keys($freq, max($freq))[0]: the first key, in key order, with the largest count. */
  function FirstMax<K>(order: seq<K>, count: map<K, int>): (r: K)
    requires |order| > 0
    requires forall k :: 0 <= k < |order| ==> order[k] in count
    ensures r in order && r in count
    ensures forall k :: 0 <= k < |order| ==> count[order[k]] <= count[r]
    ensures exists k :: 0 <= k < |order| && order[k] == r && forall j :: 0 <= j < k ==> count[order[j]] < count[r]
  {
    if |order| == 1 then order[0]
    else
      var best := FirstMax(order[1..], count);
      assert forall k :: 1 <= k < |order| ==> order[k] == order[1..][k - 1];
      if count[order[0]] >= count[best] then order[0] else best
  }

  /** A key counted at least as often as FirstMax's pick but different from it comes later in the order. */
  lemma FirstMaxPrecedes<K>(order: seq<K>, count: map<K, int>, x: K) returns (kr: nat, jx: nat)
    requires |order| > 0
    requires forall k :: 0 <= k < |order| ==> order[k] in count
    requires x in order && x != FirstMax(order, count) && count[x] >= count[FirstMax(order, count)]
    ensures kr < jx < |order| && order[kr] == FirstMax(order, count) && order[jx] == x
  {
    var r := FirstMax(order, count);
    jx :| 0 <= jx < |order| && order[jx] == x;
    kr :| 0 <= kr < |order| && order[kr] == r && forall j :: 0 <= j < kr ==> count[order[j]] < count[r];
  }

  /**
   * A counter whose keys are the values of `s` in first-seen order, each with its number of
   * occurrences, resolves a tie for the largest count to the value that occurs first.
   */
  lemma TieGoesToFirstSeen<K>(s: seq<K>, order: seq<K>, count: map<K, int>, q: nat)
    requires q < |s| && |order| > 0
    requires forall k :: 0 <= k < |order| ==> order[k] in count
    requires forall x :: x in s ==> x in order
    requires forall x :: x in order ==> count[x] == multiset(s)[x]
    requires forall i, j, p :: 0 <= i < j < |order| && 0 <= p < |s| && s[p] == order[j] ==> order[i] in s[..p]
    ensures multiset(s)[s[q]] >= multiset(s)[FirstMax(order, count)] ==> FirstMax(order, count) in s[..q + 1]
  {
    var r := FirstMax(order, count);
    if multiset(s)[s[q]] >= multiset(s)[r] {
      if s[q] == r {
        assert s[..q + 1][q] == r;
      } else {
        assert s[q] in s;
        var kr, jx := FirstMaxPrecedes(order, count, s[q]);
        assert r in s[..q];
        assert s[..q] == s[..q + 1][..q];
      }
    }
  }

  // ---------------------------------------------------------------- usort by one key

  datatype Order = Ascending | Descending

  predicate InOrder(a: int, b: int, order: Order) {
    if order == Ascending then a <= b else a >= b
  }

  predicate SortedBy<T>(s: seq<T>, key: T -> int, order: Order) {
    forall i, j :: 0 <= i < j < |s| ==> InOrder(key(s[i]), key(s[j]), order)
  }

  function Insert<T>(x: T, s: seq<T>, key: T -> int, order: Order): (r: seq<T>)
    requires SortedBy(s, key, order)
    ensures |r| == |s| + 1
    ensures multiset(r) == multiset(s) + multiset{x}
    ensures r[0] == x || (s != [] && r[0] == s[0])
    ensures SortedBy(r, key, order)
  {
    if s == [] || InOrder(key(x), key(s[0]), order) then
      ConsSorted(x, s, key, order);
      [x] + s
    else
      assert s == [s[0]] + s[1..];
      var rest := Insert(x, s[1..], key, order);
      assert InOrder(key(s[0]), key(rest[0]), order);
      ConsSorted(s[0], rest, key, order);
      [s[0]] + rest
  }

  /** An element in order with the head of a sorted sequence can go in front of it. */
  lemma ConsSorted<T>(y: T, t: seq<T>, key: T -> int, order: Order)
    requires SortedBy(t, key, order)
    requires t != [] ==> InOrder(key(y), key(t[0]), order)
    ensures SortedBy([y] + t, key, order)
  {
    var r := [y] + t;
    forall i, j | 0 <= i < j < |r|
      ensures InOrder(key(r[i]), key(r[j]), order)
    {
      if i == 0 && j > 1 {
        assert InOrder(key(t[0]), key(t[j - 1]), order);
      }
    }
  }

  /**
   * usort($s, fn($a, $b) => key($a) - key($b)) (or the reverse for Descending). PHP 8's sort
   * is stable, and so is this insertion sort (SortStable): s[0] goes in front of the equal keys after it.
   */
  function Sort<T>(s: seq<T>, key: T -> int, order: Order): (r: seq<T>)
    ensures |r| == |s|
    ensures multiset(r) == multiset(s)
    ensures SortedBy(r, key, order)
  {
    if s == [] then []
    else
      assert s == [s[0]] + s[1..];
      Insert(s[0], Sort(s[1..], key, order), key, order)
  }

  /** Inserting x keeps the elements of each key in order, with x in front of those of its own key. */
  lemma {:induction false} InsertStable<T(!new)>(x: T, t: seq<T>, key: T -> int, order: Order, k: int)
    requires SortedBy(t, key, order)
    ensures Within(Insert(x, t, key, order), key, k, k) == (if key(x) == k then [x] else []) + Within(t, key, k, k)
  {
    if t == [] || InOrder(key(x), key(t[0]), order) {
      assert Insert(x, t, key, order) == [x] + t;
      assert ([x] + t)[1..] == t;
    } else {
      assert t == [t[0]] + t[1..];
      InsertStable(x, t[1..], key, order, k);
      var rest := Insert(x, t[1..], key, order);
      assert Insert(x, t, key, order) == [t[0]] + rest;
      assert ([t[0]] + rest)[1..] == rest;
    }
  }

  /** The sort is stable: the elements of any one key come out in the order they went in. */
  lemma {:induction false} SortStable<T(!new)>(s: seq<T>, key: T -> int, order: Order, k: int)
    ensures Within(Sort(s, key, order), key, k, k) == Within(s, key, k, k)
  {
    if s != [] {
      SortStable(s[1..], key, order, k);
      InsertStable(s[0], Sort(s[1..], key, order), key, order, k);
    }
  }

  lemma SortedAtLeast<T(!new)>(s: seq<T>, key: T -> int, lo: int, order: Order)
    requires SortedBy(s, key, order)
    ensures SortedBy(AtLeast(s, key, lo), key, order)
  {
    if s != [] {
      SortedAtLeast(s[1..], key, lo, order);
      var t := AtLeast(s[1..], key, lo);
      if key(s[0]) >= lo && t != [] {
        assert t[0] in t;
        var i :| 0 <= i < |s[1..]| && s[1..][i] == t[0];
        assert s[i + 1] == t[0];
        ConsSorted(s[0], t, key, order);
      }
    }
  }

  // ---------------------------------------------------------------- array_reverse

  function Reverse<T>(s: seq<T>): (r: seq<T>)
    ensures |r| == |s|
    ensures forall k :: 0 <= k < |s| ==> r[k] == s[|s| - 1 - k]
  {
    if s == [] then [] else Reverse(s[1..]) + [s[0]]
  }

  // ---------------------------------------------------------------- array_unique + rsort / sort

  predicate StrictlyDecreasing(s: seq<int>) {
    forall i, j :: 0 <= i < j < |s| ==> s[i] > s[j]
  }

  predicate StrictlyIncreasing(s: seq<int>) {
    forall i, j :: 0 <= i < j < |s| ==> s[i] < s[j]
  }

  function InsertDistinct(x: int, s: seq<int>): (r: seq<int>)
    requires StrictlyDecreasing(s)
    ensures StrictlyDecreasing(r)
    ensures forall y :: y in r <==> y == x || y in s
    ensures |r| <= |s| + 1
    ensures r != [] && (r[0] == x || (s != [] && r[0] == s[0]))
  {
    if s == [] || x > s[0] then [x] + s
    else if x == s[0] then s
    else [s[0]] + InsertDistinct(x, s[1..])
  }

  /** rsort(array_unique($s)): each value once, largest first. */
  function DistinctDesc(s: seq<int>): (r: seq<int>)
    ensures StrictlyDecreasing(r)
    ensures forall y :: y in r <==> y in s
    ensures |r| <= |s|
  {
    if s == [] then [] else InsertDistinct(s[0], DistinctDesc(s[1..]))
  }

  /** sort(array_unique($s)): each value once, smallest first. */
  function DistinctAsc(s: seq<int>): (r: seq<int>)
    ensures StrictlyIncreasing(r)
    ensures forall y :: y in r <==> y in s
    ensures |r| == |DistinctDesc(s)|
  {
    var d := DistinctDesc(s);
    var r := Reverse(d);
    assert forall y :: y in r <==> y in d by {
      forall y | y in d ensures y in r {
        var k :| 0 <= k < |d| && d[k] == y;
        assert r[|d| - 1 - k] == y;
      }
    }
    r
  }

  /** A sequence without repetitions has as many elements as its set of values. */
  lemma {:induction false} DistinctCardinality(s: seq<int>)
    requires StrictlyDecreasing(s)
    ensures |set x | x in s| == |s|
  {
    if s != [] {
      DistinctCardinality(s[1..]);
      assert (set x | x in s) == (set x | x in s[1..]) + {s[0]};
      assert s[0] !in (set x | x in s[1..]);
    }
  }

  // ---------------------------------------------------------------- max() and min()

  function MaxOf(s: seq<real>): (m: real)
    requires |s| > 0
    ensures m in s
    ensures forall k :: 0 <= k < |s| ==> s[k] <= m
  {
    if |s| == 1 then s[0]
    else
      var rest := MaxOf(s[1..]);
      if s[0] >= rest then s[0] else rest
  }

  function MinOf(s: seq<real>): (m: real)
    requires |s| > 0
    ensures m in s
    ensures forall k :: 0 <= k < |s| ==> m <= s[k]
  {
    if |s| == 1 then s[0]
    else
      var rest := MinOf(s[1..]);
      if s[0] <= rest then s[0] else rest
  }
}
