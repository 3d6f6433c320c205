/** percentile_disc: an observed value, and the least one that the given fraction of the data reaches. */
module Percentiles {
  import opened Common

  ghost predicate Sorted(s: seq<int>) {
    forall j, k | 0 <= j < k < |s| :: s[j] <= s[k]
  }

  function Insert(x: int, s: seq<int>): (r: seq<int>)
    requires Sorted(s)
    ensures Sorted(r) && multiset(r) == multiset(s) + multiset{x}
    ensures r != [] && (r[0] == x || (s != [] && r[0] == s[0]))
  {
    if s == [] || x <= s[0] then [x] + s
    else
      assert s == [s[0]] + s[1..];
      [s[0]] + Insert(x, s[1..])
  }

  /** ORDER BY. */
  function Sort(s: seq<int>): (r: seq<int>)
    ensures Sorted(r) && multiset(r) == multiset(s) && |r| == |s|
  {
    if s == [] then []
    else
      assert s == [s[0]] + s[1..];
      var r := Insert(s[0], Sort(s[1..]));
      assert |multiset(r)| == |r| && |multiset(s)| == |s|;
      r
  }

  function CeilDiv(a: nat, b: nat): nat
    requires b > 0
  {
    (a + b - 1) / b
  }

  lemma CeilDivBounds(a: nat, b: nat)
    requires a > 0 && b > 0
    ensures CeilDiv(a, b) >= 1 && (CeilDiv(a, b) - 1) * b < a <= CeilDiv(a, b) * b
  {
    var q := CeilDiv(a, b);
    assert a + b - 1 == q * b + (a + b - 1) % b;
    assert (q - 1) * b == q * b - b;
  }

  lemma MulOrder(a: nat, b: nat, c: nat)
    requires c > 0
    ensures a < b <==> a * c < b * c
  {
  }

  /** The row percentile_disc(num/den) picks of n sorted ones, counted from 0. */
  function RowOf(n: nat, num: nat, den: nat): nat
    requires n > 0 && 0 < num <= den
    ensures RowOf(n, num, den) < n
    ensures RowOf(n, num, den) * den < num * n <= (RowOf(n, num, den) + 1) * den
  {
    assert num * n > 0;
    assert num * n <= den * n;
    CeilDivBounds(num * n, den);
    MulOrder(CeilDiv(num * n, den) - 1, n, den);
    CeilDiv(num * n, den) - 1
  }

  function PercentileDisc(s: seq<int>, num: nat, den: nat): Option<int>
    requires 0 < num <= den
  {
    if s == [] then None else Some(Sort(s)[RowOf(|s|, num, den)])
  }

  // ---- What that row means ----

  /** How many of the values are at most v. */
  function CountUpTo(s: seq<int>, v: int): (c: nat)
    ensures c <= |s|
  {
    if s == [] then 0 else CountUpTo(s[1..], v) + if s[0] <= v then 1 else 0
  }

  /** v reaches the fraction num/den of the values. */
  predicate Reaches(s: seq<int>, v: int, num: nat, den: nat) {
    num * |s| <= CountUpTo(s, v) * den
  }

  lemma {:induction false} CountOfInsert(x: int, s: seq<int>, v: int)
    requires Sorted(s)
    ensures CountUpTo(Insert(x, s), v) == CountUpTo(s, v) + if x <= v then 1 else 0
  {
    if !(s == [] || x <= s[0]) {
      CountOfInsert(x, s[1..], v);
      assert Insert(x, s)[1..] == Insert(x, s[1..]);
    } else {
      assert Insert(x, s)[1..] == s;
    }
  }

  lemma {:induction false} CountOfSort(s: seq<int>, v: int)
    ensures CountUpTo(Sort(s), v) == CountUpTo(s, v)
  {
    if s != [] {
      CountOfSort(s[1..], v);
      CountOfInsert(s[0], Sort(s[1..]), v);
    }
  }

  lemma {:induction false} CountInSorted(s: seq<int>, i: nat, v: int)
    requires Sorted(s) && i < |s|
    ensures s[i] <= v ==> i + 1 <= CountUpTo(s, v)
    ensures v < s[i] ==> CountUpTo(s, v) <= i
  {
    if i == 0 {
      if v < s[0] { NoneUpTo(s, v); }
    } else {
      CountInSorted(s[1..], i - 1, v);
    }
  }

  lemma {:induction false} NoneUpTo(s: seq<int>, v: int)
    requires forall k | 0 <= k < |s| :: v < s[k]
    ensures CountUpTo(s, v) == 0
  {
    if s != [] { NoneUpTo(s[1..], v); }
  }

  /** The percentile is an observed value that reaches its fraction, and no smaller number does. */
  lemma PercentileIsLeastToReach(s: seq<int>, num: nat, den: nat)
    requires 0 < num <= den && s != []
    ensures var v := PercentileDisc(s, num, den).value;
      v in s && Reaches(s, v, num, den) && forall w | w < v :: !Reaches(s, w, num, den)
  {
    var sorted, row := Sort(s), RowOf(|s|, num, den);
    var v := sorted[row];
    assert v in multiset(sorted);
    CountOfSort(s, v);
    CountInSorted(sorted, row, v);
    MulOrder(CountUpTo(s, v), row + 1, den);
    forall w | w < v
      ensures !Reaches(s, w, num, den)
    {
      CountOfSort(s, w);
      CountInSorted(sorted, row, w);
      MulOrder(row, CountUpTo(s, w), den);
    }
  }

  lemma MulMonotone(a: nat, b: nat, c: nat)
    requires a <= b
    ensures a * c <= b * c
  {
  }

  lemma SwapFactors(x: nat, y: nat, z: nat)
    ensures (x * y) * z == (x * z) * y
  {
    assert (x * y) * z == x * (y * z) && (x * z) * y == x * (z * y);
  }

  /** a/b <= c/d and c/d <= k/n give a/b <= k/n. */
  lemma CrossMultiplied(a: nat, b: nat, c: nat, d: nat, k: nat, n: nat)
    requires d > 0 && a * d <= c * b && c * n <= k * d
    ensures a * n <= k * b
  {
    SwapFactors(a, n, d);
    MulMonotone(a * d, c * b, n);
    SwapFactors(c, b, n);
    MulMonotone(c * n, k * d, b);
    SwapFactors(k, d, b);
    MulOrder(k * b, a * n, d);
  }

  /** A higher percentile is never a smaller value (the fractions here compare as a/b <= c/d). */
  lemma PercentilesAscend(s: seq<int>, a: nat, b: nat, c: nat, d: nat)
    requires 0 < a <= b && 0 < c <= d && a * d <= c * b && s != []
    ensures PercentileDisc(s, a, b).value <= PercentileDisc(s, c, d).value
  {
    var v := PercentileDisc(s, c, d).value;
    PercentileIsLeastToReach(s, a, b);
    PercentileIsLeastToReach(s, c, d);
    CrossMultiplied(a, b, c, d, CountUpTo(s, v), |s|);
    assert Reaches(s, v, a, b);
  }

  lemma HeadIsLeast(s: seq<int>, x: int)
    requires Sorted(s) && x in multiset(s)
    ensures s != [] && s[0] <= x
  {
    var k :| 0 <= k < |s| && s[k] == x;
  }

  lemma MultisetOfTail(s: seq<int>)
    requires s != []
    ensures s[0] in multiset(s) && multiset(s[1..]) == multiset(s) - multiset{s[0]}
  {
    assert s == [s[0]] + s[1..];
  }

  lemma SameHead(s: seq<int>, t: seq<int>)
    requires Sorted(s) && Sorted(t) && multiset(s) == multiset(t) && s != []
    ensures t != [] && s[0] == t[0] && multiset(s[1..]) == multiset(t[1..])
  {
    MultisetOfTail(s);
    HeadIsLeast(t, s[0]);
    MultisetOfTail(t);
    HeadIsLeast(s, t[0]);
  }

  lemma {:induction false} SortedIsUnique(s: seq<int>, t: seq<int>)
    requires Sorted(s) && Sorted(t) && multiset(s) == multiset(t)
    ensures s == t
    decreases |s|
  {
    if s == [] {
      assert |multiset(t)| == |t|;
    } else {
      SameHead(s, t);
      var s', t' := s[1..], t[1..];
      SortedIsUnique(s', t');
      assert s == [s[0]] + s';
      assert t == [t[0]] + t';
    }
  }

  /** A percentile depends only on which values there are, not on the order of the rows. */
  lemma PercentileOfPermutation(s: seq<int>, t: seq<int>, num: nat, den: nat)
    requires 0 < num <= den && multiset(s) == multiset(t)
    ensures PercentileDisc(s, num, den) == PercentileDisc(t, num, den)
  {
    assert |multiset(s)| == |s| && |multiset(t)| == |t|;
    SortedIsUnique(Sort(s), Sort(t));
  }
}
