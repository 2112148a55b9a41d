/** The fixed-size ring of latency samples, and the percentiles read off it. */
module Ring {
  import opened Wrappers
  import opened Windows
  import opened Modulo
  import opened Sorting

  /** A JavaScript number, as far as `Number.isFinite` tells. */
  datatype Number = Finite(value: real) | NotFinite

  datatype LatencySnapshot = LatencySnapshot(
    count: nat, window: nat, min: real, p50: real, p95: real, p99: real, max: real, mean: real, last: real)

  /** `ceil(p / 100 * n)`. */
  function Rank(p: nat, n: nat): nat { (p * n + 99) / 100 }

  function Percentile(sorted: seq<real>, p: nat): real
    requires |sorted| > 0
  {
    var rank := Rank(p, |sorted|);
    var rank := if rank < 1 then 1 else rank;
    sorted[(if rank > |sorted| then |sorted| else rank) - 1]
  }

  /** What a ring holds: the window, oldest first, and the totals of its lifetime. */
  datatype Held = Held(window: seq<real>, count: nat, total: real)

  function Added(capacity: nat, h: Held, ms: Number): Held {
    match ms
    case NotFinite => h
    case Finite(x) => Held(Pushed(capacity, h.window, x), h.count + 1, h.total + x)
  }

  function SnapshotOf(h: Held): Option<LatencySnapshot> {
    if |h.window| == 0 || h.count == 0 then None
    else
      SortedKeeps(h.window);
      var sorted := Sorted(h.window);
      Some(LatencySnapshot(
        h.count, |h.window|, sorted[0], Percentile(sorted, 50), Percentile(sorted, 95), Percentile(sorted, 99),
        sorted[|sorted| - 1], h.total / h.count as real, h.window[|h.window| - 1]))
  }

  /** The raw array read from its oldest sample on. */
  ghost function WindowOf(raw: seq<real>, next: nat, filled: nat): seq<real>
    requires next < |raw| && filled <= |raw|
  {
    if filled < |raw| then raw[..filled] else raw[next..] + raw[..next]
  }

  lemma Follows(i: nat, n: nat)
    requires i < n
    ensures (i + 1) % n == if i + 1 == n then 0 else i + 1
    ensures (i - 1 + n) % n == if i == 0 then n - 1 else i - 1
  {
    ModIs(i + 1, n, if i + 1 == n then 1 else 0, if i + 1 == n then 0 else i + 1);
    ModIs(i - 1 + n, n, if i == 0 then 0 else 1, if i == 0 then n - 1 else i - 1);
  }

  lemma WriteSlidesWindow(raw: seq<real>, next: nat, filled: nat, x: real)
    requires next < |raw| && filled <= |raw| && (filled < |raw| ==> next == filled)
    ensures var next' := if next + 1 == |raw| then 0 else next + 1;
            var filled' := if filled < |raw| then filled + 1 else filled;
            WindowOf(raw[next := x], next', filled') == Pushed(|raw|, WindowOf(raw, next, filled), x)
  {
    var raw' := raw[next := x];
    var w := WindowOf(raw, next, filled);
    if filled < |raw| {
      assert raw'[..filled] == raw[..filled];
      assert raw'[..filled + 1] == w + [x];
      if filled + 1 == |raw| { assert raw'[0..] + raw'[..0] == raw'[..filled + 1]; }
    } else {
      assert (w + [x])[1..] == raw[next + 1..] + raw[..next] + [x];
      assert raw'[next + 1..] == raw[next + 1..] && raw'[..next + 1] == raw[..next] + [x];
      if next + 1 == |raw| { assert raw'[0..] + raw'[..0] == raw'[..next + 1]; }
    }
  }

  class LatencyRing {
    const capacity: nat
    const samples: array<real>
    var next: nat
    var filled: nat
    var total: real
    var count: nat

    ghost predicate Valid()
      reads this, samples
    {
      && capacity == samples.Length >= 1
      && next < capacity && filled <= capacity && (filled < capacity ==> next == filled)
      && (count > 0 <==> filled > 0)
    }

    ghost function Window(): seq<real>
      reads this, samples
      requires Valid()
    {
      WindowOf(samples[..], next, filled)
    }

    ghost function Now(): Held
      reads this, samples
      requires Valid()
    {
      Held(Window(), count, total)
    }

    /** The source throws a ConfigError for a capacity below one. */
    constructor (capacity: nat)
      requires capacity >= 1
      ensures Valid() && fresh(samples) && this.capacity == capacity && Now() == Held([], 0, 0.0)
    {
      this.capacity := capacity;
      samples := new real[capacity](_ => 0.0);
      next, filled, total, count := 0, 0, 0.0, 0;
    }

    method Add(ms: Number)
      requires Valid()
      modifies this, samples
      ensures Valid() && Now() == Added(capacity, old(Now()), ms)
    {
      hide WindowOf, Pushed;
      if ms.NotFinite? { return; }
      Follows(next, capacity);
      WriteSlidesWindow(samples[..], next, filled, ms.value);
      samples[next] := ms.value;
      next := (next + 1) % capacity;
      if filled < capacity { filled := filled + 1; }
      count := count + 1;
      total := total + ms.value;
      assert samples[..] == old(samples[..])[old(next) := ms.value];
    }

    /** Read off a sorted copy of the raw array, whatever the ring's position. */
    method Snapshot() returns (s: Option<LatencySnapshot>)
      requires Valid()
      ensures s == SnapshotOf(Now())
    {
      hide Sorted, Percentile;
      assert samples[..filled] == samples[..][..filled];
      if filled == 0 { return None; }
      var raw := samples[..filled];
      RotationSortsAlike(samples[..], next, filled);
      SortedKeeps(raw);
      var sorted := Sorted(raw);
      Follows(next, capacity);
      return Some(LatencySnapshot(
        count, filled, sorted[0], Percentile(sorted, 50), Percentile(sorted, 95), Percentile(sorted, 99),
        sorted[|sorted| - 1], total / count as real, samples[(next - 1 + capacity) % capacity]));
    }
  }

  lemma RotationSortsAlike(a: seq<real>, next: nat, filled: nat)
    requires next < |a| && filled <= |a| && (filled < |a| ==> next == filled)
    ensures Sorted(a[..filled]) == Sorted(WindowOf(a, next, filled))
  {
    hide Sorted, IsSorted;
    if filled == |a| {
      assert a[..filled] == a == a[..next] + a[next..];
      var w := a[next..] + a[..next];
      assert multiset(w) == multiset(a);
      SortedSorts(a);
      SortedSorts(w);
      SortedIsUnique(Sorted(a), Sorted(w));
    }
  }

  // ------------------------------------------------------------ over a run

  ghost function After(capacity: nat, added: seq<Number>): Held {
    if |added| == 0 then Held([], 0, 0.0)
    else Added(capacity, After(capacity, added[..|added| - 1]), added[|added| - 1])
  }

  ghost function FiniteOf(added: seq<Number>): seq<real> {
    if |added| == 0 then []
    else FiniteOf(added[..|added| - 1]) + if added[|added| - 1].Finite? then [added[|added| - 1].value] else []
  }

  /** The window is exactly the last `capacity` finite samples; count and total are those
      of the ring's lifetime. */
  lemma {:induction false} WindowIsASuffix(capacity: nat, added: seq<Number>)
    requires capacity >= 1
    ensures var h := After(capacity, added);
            && h.window == Last(FiniteOf(added), capacity)
            && h.count == |FiniteOf(added)| && h.total == Sum(FiniteOf(added))
  {
    if |added| > 0 {
      hide Last;
      var init, last := added[..|added| - 1], added[|added| - 1];
      WindowIsASuffix(capacity, init);
      assert FiniteOf(init) + [] == FiniteOf(init);
      if last.Finite? {
        PushKeepsLast(FiniteOf(init), capacity, last.value);
        assert (FiniteOf(init) + [last.value])[..|FiniteOf(init)|] == FiniteOf(init);
      }
    }
  }

  // ------------------------------------------------------------ what the numbers mean

  /** The nearest-rank percentile: a sample such that at least p% of the samples are no
      greater, and fewer than p% are less. */
  lemma PercentileIsNearestRank(s: seq<real>, p: nat)
    requires |s| > 0 && 1 <= p <= 100
    ensures var v := Percentile(Sorted(s), p);
            && v in s && 100 * CountUpTo(s, v) >= p * |s| && 100 * CountBelow(s, v) < p * |s|
  {
    hide Sorted, IsSorted;
    var n := |s|;
    SortedKeeps(s);
    SortedSorts(s);
    var k := Rank(p, n) - 1;
    RankIsInside(p, n);
    var v := Sorted(s)[k];
    SortingCounts(s, v);
    CountsAtIndex(Sorted(s), k);
  }

  lemma RankIsInside(p: nat, n: nat)
    requires n > 0 && 1 <= p <= 100
    ensures 1 <= Rank(p, n) <= n && p * n <= 100 * Rank(p, n) < p * n + 100
  {
    assert p * n >= n && p * n <= 100 * n;
  }

  lemma RanksGrow(p: nat, q: nat, n: nat)
    requires p <= q
    ensures Rank(p, n) <= Rank(q, n)
  {
    assert p * n <= q * n;
  }

  /** A snapshot is in order, and bounds every sample of the window. */
  lemma SnapshotIsOrdered(h: Held)
    requires SnapshotOf(h).Some?
    ensures var s := SnapshotOf(h).value;
            && s.min <= s.p50 <= s.p95 <= s.p99 <= s.max
            && s.min in h.window && s.max in h.window && s.last in h.window
            && forall x | x in h.window :: s.min <= x <= s.max
  {
    hide Sorted, Rank;
    var n := |h.window|;
    SortedKeeps(h.window);
    SortedSorts(h.window);
    RankIsInside(50, n);
    RankIsInside(95, n);
    RankIsInside(99, n);
    RanksGrow(50, 95, n);
    RanksGrow(95, 99, n);
  }

  /** `v` is the p-th percentile of the samples by counting. */
  ghost predicate RanksAt(s: seq<real>, p: nat, v: real) {
    v in s && 100 * CountBelow(s, v) < p * |s| <= 100 * CountUpTo(s, v)
  }

  ghost predicate IsMean(mean: real, total: real, n: nat) { mean * n as real == total }

  /** What a snapshot says, on everything that was ever added: nothing before the first finite sample;
      then the three percentiles and the bounds of the last `capacity` of them, the last one, and the
      mean of all of them. */
  lemma SnapshotDescribesTheRun(capacity: nat, added: seq<Number>)
    requires capacity >= 1
    ensures var s, finite := SnapshotOf(After(capacity, added)), FiniteOf(added);
            var window := Last(finite, capacity);
            && (s.None? <==> finite == [])
            && (s.Some? ==>
                  var x := s.value;
                  && x.count == |finite| && x.window == |window| == (if |finite| < capacity then |finite| else capacity)
                  && RanksAt(window, 50, x.p50) && RanksAt(window, 95, x.p95) && RanksAt(window, 99, x.p99)
                  && x.min in window && x.max in window && (forall y | y in window :: x.min <= y <= x.max)
                  && x.last == finite[|finite| - 1] && IsMean(x.mean, Sum(finite), |finite|))
  {
    hide After, FiniteOf, Sum, RanksAt, IsMean, SnapshotOf;
    var h := After(capacity, added);
    WindowIsASuffix(capacity, added);
    SnapshotIff(h);
    if |h.window| > 0 {
      SnapshotRanks(h);
      SnapshotIsOrdered(h);
    }
  }

  lemma SnapshotIff(h: Held)
    ensures SnapshotOf(h).Some? <==> |h.window| > 0 && h.count > 0
  {
    hide Sorted, Percentile;
  }

  lemma SnapshotRanks(h: Held)
    requires SnapshotOf(h).Some?
    ensures var x := SnapshotOf(h).value;
            && RanksAt(h.window, 50, x.p50) && RanksAt(h.window, 95, x.p95) && RanksAt(h.window, 99, x.p99)
            && IsMean(x.mean, h.total, h.count)
            && x.count == h.count && x.window == |h.window| && x.last == h.window[|h.window| - 1]
  {
    hide Sorted, Percentile, CountUpTo, CountBelow;
    RanksAtPercentile(h.window, 50);
    RanksAtPercentile(h.window, 95);
    RanksAtPercentile(h.window, 99);
    hide RanksAt;
    assert h.total / h.count as real * h.count as real == h.total;
  }

  lemma RanksAtPercentile(s: seq<real>, p: nat)
    requires |s| > 0 && 1 <= p <= 100
    ensures RanksAt(s, p, Percentile(Sorted(s), p))
  {
    hide Sorted, Percentile, CountUpTo, CountBelow;
    PercentileIsNearestRank(s, p);
  }

  lemma {:induction false} SumIsBetween(s: seq<real>, low: real, high: real)
    requires forall x | x in s :: low <= x <= high
    ensures |s| as real * low <= Sum(s) <= |s| as real * high
  {
    if |s| > 0 {
      var init, last := s[..|s| - 1], s[|s| - 1];
      assert forall x | x in init :: x in s;
      SumIsBetween(init, low, high);
      assert last in s;
      assert |s| as real * low == |init| as real * low + low;
      assert |s| as real * high == |init| as real * high + high;
    }
  }

  lemma Between(n: int, total: real, low: real, high: real)
    requires n > 0 && n as real * low <= total <= n as real * high
    ensures low <= total / n as real <= high
  {
    assert total / n as real * n as real == total;
  }

  /** The mean is inside the window's range as long as nothing was overwritten. */
  lemma MeanIsInsideUntilOverwritten(capacity: nat, added: seq<Number>)
    requires capacity >= 1 && 0 < |FiniteOf(added)| <= capacity
    ensures var s := SnapshotOf(After(capacity, added));
            s.Some? && s.value.min <= s.value.mean <= s.value.max
  {
    hide After, FiniteOf, Sum, Sorted, Percentile;
    var h := After(capacity, added);
    WindowIsASuffix(capacity, added);
    SnapshotIsOrdered(h);
    var s := SnapshotOf(h).value;
    SumIsBetween(h.window, s.min, s.max);
    Between(h.count, h.total, s.min, s.max);
  }

  /** After that it may be outside, for a ring of any capacity and any longer history: the
      mean remembers what the window has forgotten. */
  lemma MeanLeavesTheWindow(capacity: nat, n: nat)
    requires 1 <= capacity <= n
    ensures |FiniteOf(ZeroThenTens(n))| == n + 1
    ensures var s := SnapshotOf(After(capacity, ZeroThenTens(n)));
            s.Some? && s.value.mean < s.value.min
  {
    hide After, FiniteOf, Sum, Sorted, Percentile, ZeroThenTens;
    WindowIsASuffix(capacity, ZeroThenTens(n));
    TensAreTens(n);
    var h := After(capacity, ZeroThenTens(n));
    assert forall x | x in h.window :: x == 10.0;
    SnapshotIsOrdered(h);
    var s := SnapshotOf(h).value;
    assert s.min == 10.0 && s.mean == h.total / h.count as real;
    BelowTen(n);
  }

  ghost predicate MeanIsInside(capacity: nat, added: seq<Number>) {
    var s := SnapshotOf(After(capacity, added));
    s.Some? && s.value.min <= s.value.mean <= s.value.max
  }

  /** The exact condition: `n` finite samples, whatever they are, leave the mean inside the
      window's range if and only if the ring holds them all. */
  lemma MeanIsInsideIff(capacity: nat, n: nat)
    requires capacity >= 1 && n >= 1
    ensures (forall added: seq<Number> | |FiniteOf(added)| == n :: MeanIsInside(capacity, added)) <==> n <= capacity
  {
    hide After, FiniteOf, Sorted, Percentile;
    if n <= capacity {
      forall added: seq<Number> | |FiniteOf(added)| == n ensures MeanIsInside(capacity, added) {
        MeanIsInsideUntilOverwritten(capacity, added);
      }
    } else {
      MeanLeavesTheWindow(capacity, n - 1);
      assert !MeanIsInside(capacity, ZeroThenTens(n - 1));
    }
  }

  /** One zero, then `n` tens. */
  ghost function ZeroThenTens(n: nat): seq<Number> {
    if n == 0 then [Finite(0.0)] else ZeroThenTens(n - 1) + [Finite(10.0)]
  }

  lemma {:induction false} TensAreTens(n: nat)
    ensures var f := FiniteOf(ZeroThenTens(n));
            && |f| == n + 1 && (forall i | 1 <= i <= n :: f[i] == 10.0)
            && Sum(f) == n as real * 10.0
  {
    if n == 0 {
      assert ZeroThenTens(0)[..0] == [];
      assert FiniteOf(ZeroThenTens(0)) == [0.0] && [0.0][..0] == [];
    } else {
      var init := ZeroThenTens(n - 1);
      TensAreTens(n - 1);
      var f := FiniteOf(init);
      assert (init + [Finite(10.0)])[..|init|] == init;
      assert FiniteOf(ZeroThenTens(n)) == f + [10.0];
      hide FiniteOf, ZeroThenTens;
      assert (f + [10.0])[..|f|] == f;
    }
  }

  lemma BelowTen(n: nat)
    ensures (n as real * 10.0) / (n + 1) as real < 10.0
  {
    var d := (n + 1) as real;
    assert n as real == d - 1.0;
    assert n as real * 10.0 < 10.0 * d;
    var q := (n as real * 10.0) / d;
    assert q * d == n as real * 10.0;
  }
}
