/**
 The load generator's latency histogram: every sample is kept until the cap, then every other
 retained sample is dropped and the recording stride doubles. Percentiles are nearest-rank over
 the retained samples, with the fraction given as an exact rational.
 */
module Histograms {
  import opened Numbers

  const SAMPLE_CAP: nat := 4_000_000

  /** Every other element, from the first on. */
  function EveryOther(s: seq<nat>): (r: seq<nat>)
    ensures |r| == (|s| + 1) / 2
    ensures forall i :: 0 <= i < |r| ==> r[i] == s[2 * i]
  {
    if |s| < 2 then s else [s[0]] + EveryOther(s[2..])
  }

  /** The state of a histogram as a value. */
  datatype View = View(samples: seq<nat>, stride: nat, seen: nat)

  const FRESH := View([], 1, 0)

  /** Records one sample under retained-sample ceiling `cap`. */
  function Record(cap: nat, v: View, ns: nat): (r: View)
    requires v.stride > 0
    ensures r.stride > 0
  {
    var seen := v.seen + 1;
    if seen % v.stride != 0 then v.(seen := seen)
    else
      var pushed := v.samples + [ns];
      if |pushed| >= cap then View(EveryOther(pushed), 2 * v.stride, seen)
      else View(pushed, v.stride, seen)
  }

  /** The histogram after the samples `history`, in arrival order. */
  function Recorded(cap: nat, history: seq<nat>): (v: View)
    ensures v.stride > 0 && v.seen == |history|
  {
    if history == [] then FRESH
    else Record(cap, Recorded(cap, history[..|history| - 1]), history[|history| - 1])
  }

  // ---------- Stratified sampling ----------

  /** Arrival `p`, counted from 1, falls in block `i` of `stride` arrivals. */
  predicate InBlock(p: nat, i: nat, stride: nat) {
    i * stride < p <= (i + 1) * stride
  }

  /** The retained samples are those that arrived at `at`: one from each full block of `stride`
      arrivals. */
  predicate Strata(v: View, history: seq<nat>, at: seq<nat>) {
    && |at| == |v.samples|
    && (forall i :: 0 <= i < |at| ==> InBlock(at[i], i, v.stride))
    && (forall i :: 0 <= i < |at| ==> 0 < at[i] <= |history| && v.samples[i] == history[at[i] - 1])
  }

  lemma {:induction false} QuotientUnchanged(n: nat, d: nat)
    requires d > 0 && (n + 1) % d != 0
    ensures (n + 1) / d == n / d
  {
    var q, r := n / d, n % d;
    assert n == q * d + r;
    if r + 1 == d {
      assert n + 1 == (q + 1) * d;
      MultipleDivides(q + 1, d);
    } else {
      QuotientIs(n + 1, d, q, r + 1);
    }
  }

  lemma {:induction false} QuotientUp(n: nat, d: nat)
    requires d > 0 && (n + 1) % d == 0
    ensures (n + 1) / d == n / d + 1 && n + 1 == (n / d + 1) * d
  {
    var q, r := n / d, n % d;
    assert n == q * d + r;
    if r + 1 < d {
      QuotientIs(n + 1, d, q, r + 1);
    } else {
      assert n + 1 == (q + 1) * d;
      MultipleDivides(q + 1, d);
    }
  }

  lemma {:induction false} QuotientIs(n: nat, d: nat, q: nat, r: nat)
    requires d > 0 && n == q * d + r && r < d
    ensures n / d == q && n % d == r
  {
    var q', r' := n / d, n % d;
    assert n == q' * d + r';
    if q' < q {
      assert (q - q') * d == q * d - q' * d;
      MulAtLeast(q - q', d);
    } else if q' > q {
      assert (q' - q) * d == q' * d - q * d;
      MulAtLeast(q' - q, d);
    }
  }

  lemma {:induction false} MulAtLeast(k: nat, d: nat)
    requires k >= 1
    ensures k * d >= d
  {
    assert k * d == (k - 1) * d + d;
  }

  lemma {:induction false} MultipleDivides(q: nat, d: nat)
    requires d > 0
    ensures (q * d) / d == q && (q * d) % d == 0
  {
    QuotientIs(q * d, d, q, 0);
  }

  lemma {:induction false} BlocksMerge(p: nat, i: nat, stride: nat)
    requires InBlock(p, 2 * i, stride)
    ensures InBlock(p, i, 2 * stride)
  {
    assert i * (2 * stride) == (2 * i) * stride;
    assert (i + 1) * (2 * stride) == (2 * i + 1) * stride + stride;
  }

  lemma {:induction false} HalvingKeepsStrata(v: View, history: seq<nat>, at: seq<nat>)
    requires Strata(v, history, at)
    ensures Strata(View(EveryOther(v.samples), 2 * v.stride, v.seen), history, EveryOther(at))
  {
    var v' := View(EveryOther(v.samples), 2 * v.stride, v.seen);
    var at' := EveryOther(at);
    forall i | 0 <= i < |at'|
      ensures InBlock(at'[i], i, v'.stride)
      ensures 0 < at'[i] <= |history| && v'.samples[i] == history[at'[i] - 1]
    {
      assert at'[i] == at[2 * i] && v'.samples[i] == v.samples[2 * i];
      BlocksMerge(at[2 * i], i, v.stride);
    }
  }

  lemma {:induction false} PushKeepsStrata(v: View, history: seq<nat>, at: seq<nat>, ns: nat)
    requires Strata(v, history, at) && v.stride > 0
    requires |history| + 1 == (|v.samples| + 1) * v.stride
    ensures Strata(View(v.samples + [ns], v.stride, v.seen + 1), history + [ns], at + [|history| + 1])
  {
    var n := |v.samples|;
    assert (n + 1) * v.stride == n * v.stride + v.stride;
    assert InBlock(|history| + 1, n, v.stride);
  }

  /** What recording under an even ceiling keeps. */
  predicate Stratified(cap: nat, v: View, history: seq<nat>, k: nat, at: seq<nat>) {
    && v.seen == |history|
    && v.stride == Pow2(k) > 0
    && |v.samples| == v.seen / v.stride && |v.samples| < cap
    && Strata(v, history, at)
  }

  lemma {:induction false} HalvedLength(cap: nat, n: nat, stride: nat)
    requires cap % 2 == 0 && n == cap * stride && stride > 0
    ensures n / (2 * stride) == cap / 2
  {
    assert n == (cap / 2) * (2 * stride);
    MultipleDivides(cap / 2, 2 * stride);
  }

  lemma {:induction false} RecordStratifies(cap: nat, v: View, history: seq<nat>, k: nat, at: seq<nat>, ns: nat)
    returns (k': nat, at': seq<nat>)
    requires cap >= 2 && cap % 2 == 0 && Stratified(cap, v, history, k, at)
    ensures Stratified(cap, Record(cap, v, ns), history + [ns], k', at')
  {
    var n := |history|;
    k', at' := k, at;
    if (n + 1) % v.stride != 0 {
      QuotientUnchanged(n, v.stride);
    } else {
      QuotientUp(n, v.stride);
      PushKeepsStrata(v, history, at, ns);
      at' := at + [n + 1];
      var pushed := View(v.samples + [ns], v.stride, n + 1);
      if |pushed.samples| >= cap {
        HalvedLength(cap, n + 1, v.stride);
        HalvingKeepsStrata(pushed, history + [ns], at');
        at', k' := EveryOther(at'), k + 1;
      }
    }
  }

  /** Over any run of recordings under an even ceiling, the stride is a power of two, exactly one
      sample is retained per full block of `stride` arrivals, and the ceiling is never reached. */
  lemma {:induction false} RecordingStratifies(cap: nat, history: seq<nat>) returns (k: nat, at: seq<nat>)
    requires cap >= 2 && cap % 2 == 0
    ensures Stratified(cap, Recorded(cap, history), history, k, at)
  {
    if history == [] {
      k, at := 0, [];
    } else {
      var n := |history| - 1;
      k, at := RecordingStratifies(cap, history[..n]);
      k, at := RecordStratifies(cap, Recorded(cap, history[..n]), history[..n], k, at, history[n]);
      assert history == history[..n] + [history[n]];
    }
  }

  /** Below the ceiling everything is kept. */
  lemma {:induction false} AllKeptBelowCap(cap: nat, history: seq<nat>)
    requires |history| < cap
    ensures Recorded(cap, history) == View(history, 1, |history|)
  {
    if history != [] {
      var n := |history| - 1;
      AllKeptBelowCap(cap, history[..n]);
      assert history[..n] + [history[n]] == history;
    }
  }

  /** `len == seen / stride` is a property of even ceilings: every odd one breaks it at its first
      halving, whatever was recorded. */
  lemma {:induction false} StrataNeedEvenCap(cap: nat)
    requires cap >= 1
    ensures (forall history: seq<nat> :: LengthIsQuotient(cap, history)) <==> cap % 2 == 0
  {
    if cap % 2 == 0 {
      forall history: seq<nat> ensures LengthIsQuotient(cap, history) {
        var _, _ := RecordingStratifies(cap, history);
      }
    } else {
      var history: seq<nat> := seq(cap, _ => 0);
      AllKeptBelowCap(cap, history[..cap - 1]);
      var v := Recorded(cap, history);
      assert v == Record(cap, View(history[..cap - 1], 1, cap - 1), 0);
      assert |v.samples| == (cap + 1) / 2 && v.stride == 2 && v.seen == cap;
      assert !LengthIsQuotient(cap, history);
    }
  }

  predicate LengthIsQuotient(cap: nat, history: seq<nat>) {
    var v := Recorded(cap, history);
    |v.samples| == v.seen / v.stride
  }

  // ---------- Nearest rank ----------

  function Insert(x: nat, s: seq<nat>): (r: seq<nat>)
    ensures |r| == |s| + 1
  {
    if s == [] || x <= s[0] then [x] + s else [s[0]] + Insert(x, s[1..])
  }

  /** The samples in ascending order. */
  function Sort(s: seq<nat>): (r: seq<nat>)
    ensures |r| == |s|
  {
    if s == [] then [] else Insert(s[0], Sort(s[1..]))
  }

  predicate Ascending(s: seq<nat>) {
    forall i, j :: 0 <= i < j < |s| ==> s[i] <= s[j]
  }

  /** How many elements are at most `v`. */
  function AtMost(s: seq<nat>, v: nat): (n: nat)
    ensures n <= |s|
  {
    if s == [] then 0 else (if s[0] <= v then 1 else 0) + AtMost(s[1..], v)
  }

  /** How many elements are below `v`. */
  function Below(s: seq<nat>, v: nat): nat {
    if v == 0 then 0 else AtMost(s, v - 1)
  }

  lemma {:induction false} InsertPermutes(x: nat, s: seq<nat>)
    ensures multiset(Insert(x, s)) == multiset(s) + multiset{x}
  {
    if s != [] && x > s[0] {
      InsertPermutes(x, s[1..]);
      assert s == [s[0]] + s[1..];
    }
  }

  lemma {:induction false} InsertCounts(x: nat, s: seq<nat>, v: nat)
    ensures AtMost(Insert(x, s), v) == AtMost(s, v) + (if x <= v then 1 else 0)
  {
    if s != [] && x > s[0] {
      InsertCounts(x, s[1..], v);
      assert Insert(x, s)[1..] == Insert(x, s[1..]);
    } else {
      assert ([x] + s)[1..] == s;
    }
  }

  lemma {:induction false} InsertAscends(x: nat, s: seq<nat>)
    requires Ascending(s)
    ensures Ascending(Insert(x, s))
    ensures Insert(x, s)[0] == if s == [] || x <= s[0] then x else s[0]
  {
    if s != [] && x > s[0] {
      var rest := Insert(x, s[1..]);
      InsertAscends(x, s[1..]);
      assert forall j :: 0 <= j < |rest| ==> rest[0] <= rest[j];
    }
  }

  lemma {:induction false} SortAscends(s: seq<nat>)
    ensures Ascending(Sort(s)) && multiset(Sort(s)) == multiset(s)
  {
    if s != [] {
      SortAscends(s[1..]);
      InsertAscends(s[0], Sort(s[1..]));
      InsertPermutes(s[0], Sort(s[1..]));
      assert s == [s[0]] + s[1..];
    }
  }

  lemma {:induction false} SortCounts(s: seq<nat>, v: nat)
    ensures AtMost(Sort(s), v) == AtMost(s, v) && Below(Sort(s), v) == Below(s, v)
  {
    if s != [] {
      SortCounts(s[1..], v);
      InsertCounts(s[0], Sort(s[1..]), v);
      if v > 0 {
        InsertCounts(s[0], Sort(s[1..]), v - 1);
      }
    }
  }

  lemma {:induction false} SortedStays(s: seq<nat>)
    requires Ascending(s)
    ensures Sort(s) == s
  {
    if s != [] {
      SortedStays(s[1..]);
      assert s == [s[0]] + s[1..];
    }
  }

  /** In ascending order at least i + 1 elements are at most element i, and at most i are below. */
  lemma {:induction false} AscendingRanks(s: seq<nat>, i: nat)
    requires Ascending(s) && i < |s|
    ensures AtMost(s, s[i]) >= i + 1 && Below(s, s[i]) <= i
  {
    if i > 0 {
      AscendingRanks(s[1..], i - 1);
    } else if s[0] > 0 {
      NoneAtMost(s, s[0] - 1);
    }
  }

  lemma {:induction false} NoneAtMost(s: seq<nat>, v: nat)
    requires forall i :: 0 <= i < |s| ==> s[i] > v
    ensures AtMost(s, v) == 0
  {
    if s != [] {
      NoneAtMost(s[1..], v);
    }
  }

  lemma {:induction false} AtMostGrows(s: seq<nat>, v: nat, w: nat)
    requires v <= w
    ensures AtMost(s, v) <= AtMost(s, w)
  {
    if s != [] {
      AtMostGrows(s[1..], v, w);
    }
  }

  /** The rank of the fraction num/den among n samples: the fraction clamped to 0..1, times n,
      rounded up, clamped to 1..n. */
  function Rank(n: nat, num: int, den: nat): (r: nat)
    requires n > 0 && den > 0
    ensures 1 <= r <= n
  {
    if num <= 0 then 1
    else if num >= den then n
    else
      RankFits(n, num, den);
      (n * num + den - 1) / den
  }

  lemma {:induction false} RankFits(n: nat, num: nat, den: nat)
    requires 0 < n && 0 < num < den
    ensures 1 <= (n * num + den - 1) / den <= n
  {
    MulAtLeast(n, num);
    MulLe(n, num, den);
    CeilAtMost(n * num, den, n);
    CeilCovers(n * num, den);
  }

  lemma {:induction false} MulLe(a: nat, b: nat, c: nat)
    requires b <= c
    ensures a * b <= a * c
  {
  }

  /** The rounded-up quotient covers the dividend ... */
  lemma {:induction false} CeilCovers(a: nat, d: nat)
    requires d > 0
    ensures a <= (a + d - 1) / d * d
  {
    var q, r := (a + d - 1) / d, (a + d - 1) % d;
    assert a + d - 1 == q * d + r;
  }

  /** ... and is the least that does. */
  lemma {:induction false} CeilAtMost(a: nat, d: nat, q: nat)
    requires d > 0 && a <= q * d
    ensures (a + d - 1) / d <= q
  {
    var c, r := (a + d - 1) / d, (a + d - 1) % d;
    assert a + d - 1 == c * d + r;
    if c > q {
      assert c * d == (c - q) * d + q * d;
      MulAtLeast(c - q, d);
    }
  }

  /** A bound on n times a fraction bounds n times any smaller fraction. */
  lemma {:induction false} CrossBound(n: nat, num: nat, den: nat, num': nat, den': nat, q: nat)
    requires den' > 0 && num * den' <= num' * den && n * num' <= q * den'
    ensures n * num <= q * den
  {
    MulLe(n, num * den', num' * den);
    MulLe(den, n * num', q * den');
    assert n * (num * den') == (n * num) * den';
    assert n * (num' * den) == den * (n * num');
    assert den * (q * den') == (q * den) * den';
    if n * num > q * den {
      MulLt(q * den, n * num, den');
    }
  }

  /** A larger fraction never has a smaller rank. */
  lemma {:induction false} RankGrows(n: nat, num: int, den: nat, num': int, den': nat)
    requires n > 0 && den > 0 && den' > 0
    requires num * den' <= num' * den
    ensures Rank(n, num, den) <= Rank(n, num', den')
  {
    if 0 < num {
      if num' <= 0 {
      } else if num' < den' {
        MulLt(num', den', den);
        if den <= num {
          MulLe(den', den, num);
        } else {
          CeilCovers(n * num', den');
          CrossBound(n, num, den, num', den', Rank(n, num', den'));
          CeilAtMost(n * num, den, Rank(n, num', den'));
        }
      }
    }
  }

  lemma {:induction false} MulLt(a: nat, b: nat, c: nat)
    requires a < b && c > 0
    ensures a * c < b * c
  {
  }

  /** The nearest-rank percentile for the fraction num/den. */
  function PercentileOf(s: seq<nat>, num: int, den: nat): nat
    requires den > 0
  {
    if s == [] then 0 else Sort(s)[Rank(|s|, num, den) - 1]
  }

  /** `v` is the nearest-rank value: a sample that at least `rank` samples do not exceed, with
      fewer than `rank` samples below it. */
  predicate IsNearestRank(s: seq<nat>, rank: nat, v: nat) {
    v in s && AtMost(s, v) >= rank && Below(s, v) < rank
  }

  lemma {:induction false} PercentileIsNearestRank(s: seq<nat>, num: int, den: nat)
    requires s != [] && den > 0
    ensures IsNearestRank(s, Rank(|s|, num, den), PercentileOf(s, num, den))
  {
    var i := Rank(|s|, num, den) - 1;
    var v := Sort(s)[i];
    SortAscends(s);
    AscendingRanks(Sort(s), i);
    SortCounts(s, v);
    assert v in multiset(Sort(s));
  }

  /** The fraction clamped to 0..1 has the least rank, from one on, that covers its part of the samples. */
  lemma {:induction false} RankIsLeastCovering(n: nat, num: int, den: nat, r: nat)
    requires n > 0 && den > 0 && r >= 1
    ensures var part := n * (if num <= 0 then 0 else if num >= den then den else num);
            && Rank(n, num, den) * den >= part
            && (r * den >= part ==> Rank(n, num, den) <= r)
  {
    if 0 < num < den {
      CeilCovers(n * num, den);
      if r * den >= n * num {
        CeilAtMost(n * num, den, r);
      }
    } else if num >= den && r < n {
      MulLt(r, n, den);
    }
  }

  /**
   A percentile, without ranks: among n samples it is the one that at least the fraction num/den of
   them do not exceed and less than the fraction are below.
   */
  lemma {:induction false} PercentileSplitsSamples(s: seq<nat>, num: nat, den: nat)
    requires s != [] && 0 < num < den
    ensures var v := PercentileOf(s, num, den);
            && v in s
            && AtMost(s, v) * den >= |s| * num
            && Below(s, v) * den < |s| * num
  {
    var v, r := PercentileOf(s, num, den), Rank(|s|, num, den);
    PercentileIsNearestRank(s, num, den);
    RankIsLeastCovering(|s|, num, den, r);
    MulLe(den, r, AtMost(s, v));
    MulAtLeast(|s|, num);
    if Below(s, v) > 0 {
      RankIsLeastCovering(|s|, num, den, Below(s, v));
    }
  }

  /** Nothing else is. */
  lemma {:induction false} NearestRankIsUnique(s: seq<nat>, rank: nat, v: nat, w: nat)
    requires IsNearestRank(s, rank, v) && IsNearestRank(s, rank, w)
    ensures v == w
  {
    if v < w {
      AtMostGrows(s, v, w - 1);
    } else if w < v {
      AtMostGrows(s, w, v - 1);
    }
  }

  lemma {:induction false} PercentileGrows(s: seq<nat>, num: int, den: nat, num': int, den': nat)
    requires den > 0 && den' > 0 && num * den' <= num' * den
    ensures PercentileOf(s, num, den) <= PercentileOf(s, num', den')
  {
    if s != [] {
      RankGrows(|s|, num, den, num', den');
      SortAscends(s);
    }
  }

  /** Sorting the samples changes no percentile, and sorting again changes nothing. */
  lemma {:induction false} SortedSamplesAgree(s: seq<nat>, num: int, den: nat)
    requires den > 0
    ensures Sort(Sort(s)) == Sort(s) && PercentileOf(Sort(s), num, den) == PercentileOf(s, num, den)
  {
    SortAscends(s);
    SortedStays(Sort(s));
  }

  /** p50 <= p90 <= p99 <= p999, for every history. */
  lemma {:induction false} ReportAscends(s: seq<nat>)
    ensures PercentileOf(s, 50, 100) <= PercentileOf(s, 90, 100) <= PercentileOf(s, 99, 100)
            <= PercentileOf(s, 999, 1000)
  {
    PercentileGrows(s, 50, 100, 90, 100);
    PercentileGrows(s, 90, 100, 99, 100);
    PercentileGrows(s, 99, 100, 999, 1000);
  }

  // ---------- The histogram object ----------

  class Histogram {
    var samples: seq<nat>
    var stride: nat
    var seen: nat

    constructor ()
      ensures Value() == FRESH
    {
      samples, stride, seen := [], 1, 0;
    }

    function Value(): View
      reads this
    {
      View(samples, stride, seen)
    }

    /** Records one latency sample. */
    method RecordSample(ns: nat)
      requires stride > 0
      modifies this
      ensures Value() == Record(SAMPLE_CAP, old(Value()), ns)
    {
      seen := seen + 1;
      if seen % stride != 0 {
        return;
      }
      samples := samples + [ns];
      if |samples| >= SAMPLE_CAP {
        samples := EveryOther(samples);
        stride := stride * 2;
      }
    }

    /** The nearest-rank percentile; the retained samples end up in ascending order. */
    method Percentile(num: int, den: nat) returns (v: nat)
      requires den > 0
      modifies this`samples
      ensures v == PercentileOf(old(samples), num, den)
      ensures samples == Sort(old(samples)) && multiset(samples) == multiset(old(samples))
    {
      SortAscends(samples);
      if samples == [] {
        return 0;
      }
      samples := Sort(samples);
      v := samples[Rank(|samples|, num, den) - 1];
    }

    /** The four percentiles of the report, taken one after the other, are those of the samples
        as recorded, and ascend. */
    method Report() returns (p50: nat, p90: nat, p99: nat, p999: nat)
      modifies this`samples
      ensures p50 == PercentileOf(old(samples), 50, 100) && p90 == PercentileOf(old(samples), 90, 100)
      ensures p99 == PercentileOf(old(samples), 99, 100) && p999 == PercentileOf(old(samples), 999, 1000)
      ensures p50 <= p90 <= p99 <= p999
    {
      ghost var s := samples;
      ReportAscends(s);
      p50 := Percentile(50, 100);
      SortedSamplesAgree(s, 90, 100);
      p90 := Percentile(90, 100);
      SortedSamplesAgree(s, 99, 100);
      p99 := Percentile(99, 100);
      SortedSamplesAgree(s, 999, 1000);
      p999 := Percentile(999, 1000);
    }
  }
}
