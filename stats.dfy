/** The statistical median of flow samples, computed exactly: the middle value
    of the sorted samples, or the mean of the two middle values. */
module Stats {

  predicate Sorted(s: seq<int>) {
    forall i, j :: 0 <= i < j < |s| ==> s[i] <= s[j]
  }

  function Insert(x: int, s: seq<int>): (r: seq<int>)
    requires Sorted(s)
    ensures Sorted(r)
    ensures |r| == |s| + 1
    ensures multiset(r) == multiset(s) + multiset{x}
    ensures r[0] == x || (s != [] && r[0] == s[0])
  {
    if s == [] || x <= s[0] then [x] + s
    else
      assert s == [s[0]] + s[1..];
      [s[0]] + Insert(x, s[1..])
  }

  /** Insertion sort: an ordered permutation of the samples. */
  function Sort(s: seq<int>): (r: seq<int>)
    ensures Sorted(r)
    ensures |r| == |s|
    ensures multiset(r) == multiset(s)
  {
    if s == [] then []
    else
      assert s == [s[0]] + s[1..];
      Insert(s[0], Sort(s[1..]))
  }

  function Median(s: seq<int>): real
    requires |s| > 0
  {
    var t := Sort(s);
    var n := |t|;
    if n % 2 == 1 then t[n / 2] as real
    else (t[n / 2 - 1] + t[n / 2]) as real / 2.0
  }

  /** How many samples are at most m, and at least m. */
  function CountAtMost(s: seq<int>, m: real): nat {
    if s == [] then 0 else (if s[0] as real <= m then 1 else 0) + CountAtMost(s[1..], m)
  }

  function CountAtLeast(s: seq<int>, m: real): nat {
    if s == [] then 0 else (if s[0] as real >= m then 1 else 0) + CountAtLeast(s[1..], m)
  }

  lemma {:induction false} CountsOfInsert(x: int, s: seq<int>, m: real)
    requires Sorted(s)
    ensures CountAtMost(Insert(x, s), m) == CountAtMost([x], m) + CountAtMost(s, m)
    ensures CountAtLeast(Insert(x, s), m) == CountAtLeast([x], m) + CountAtLeast(s, m)
  {
    if s == [] || x <= s[0] {
      assert ([x] + s)[1..] == s;
    } else {
      CountsOfInsert(x, s[1..], m);
      assert ([s[0]] + Insert(x, s[1..]))[1..] == Insert(x, s[1..]);
    }
  }

  /** Sorting does not change how many samples lie on either side of m. */
  lemma {:induction false} CountsOfSort(s: seq<int>, m: real)
    ensures CountAtMost(Sort(s), m) == CountAtMost(s, m)
    ensures CountAtLeast(Sort(s), m) == CountAtLeast(s, m)
  {
    if s != [] {
      CountsOfSort(s[1..], m);
      CountsOfInsert(s[0], Sort(s[1..]), m);
    }
  }

  /** A sorted sequence has at least k samples <= m when its k-th smallest is <= m. */
  lemma {:induction false} CountAtMostPrefix(t: seq<int>, k: nat, m: real)
    requires Sorted(t) && 0 < k <= |t| && t[k - 1] as real <= m
    ensures CountAtMost(t, m) >= k
  {
    if k > 1 {
      CountAtMostPrefix(t[1..], k - 1, m);
    }
  }

  /** A sorted sequence has at least |t| - k samples >= m when t[k] >= m. */
  lemma {:induction false} CountAtLeastSuffix(t: seq<int>, k: nat, m: real)
    requires Sorted(t) && k < |t| && t[k] as real >= m
    ensures CountAtLeast(t, m) >= |t| - k
  {
    if k > 0 {
      CountAtLeastSuffix(t[1..], k - 1, m);
    } else if |t| > 1 {
      CountAtLeastSuffix(t[1..], 0, m);
    }
  }

  /** The median splits the samples in halves: at least half of them are at
      most the median and at least half are at least the median. */
  lemma MedianSplitsSamples(s: seq<int>)
    requires |s| > 0
    ensures 2 * CountAtMost(s, Median(s)) >= |s|
    ensures 2 * CountAtLeast(s, Median(s)) >= |s|
  {
    var t := Sort(s);
    var n := |t|;
    var h := n / 2;
    var m := Median(s);
    CountsOfSort(s, m);
    if n % 2 == 1 {
      assert n == 2 * h + 1;
      assert m == t[h] as real;
      CountAtMostPrefix(t, h + 1, m);
      CountAtLeastSuffix(t, h, m);
    } else {
      assert n == 2 * h && h >= 1;
      assert m == (t[h - 1] + t[h]) as real / 2.0;
      assert t[h - 1] <= t[h];
      assert t[h - 1] as real <= m <= t[h] as real;
      CountAtMostPrefix(t, h, m);
      CountAtLeastSuffix(t, h, m);
    }
  }

  /** A single sample is its own median. */
  lemma MedianOfOne(x: int)
    ensures Median([x]) == x as real
  {
  }

  /** The three samples 2, 4, 6 have median 4. */
  lemma MedianOfThree()
    ensures Median([2, 4, 6]) == 4.0
  {
    assert Sort([6]) == [6];
    assert [2, 4, 6][1..] == [4, 6];
    assert [4, 6][1..] == [6];
    assert Sort([4, 6]) == [4, 6];
    assert Sort([2, 4, 6]) == [2, 4, 6];
  }
}
