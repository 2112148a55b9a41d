/** What each alert is about, on the numbers of a snapshot; and with that, when it fires. */
module AlertRules {
  import opened Wrappers
  import opened Runs
  import opened Windows
  import opened Alerts
  import opened Sorting

  // ------------------------------------------------------------ what the rules look for

  /** The least of the `k` largest counts: fewer than `k` are above it, and `k` of them, or all if
      there are not so many, are not below it. */
  ghost predicate IsWeakest(seen: seq<real>, k: int, w: real) {
    if seen == [] then w == 0.0
    else
      && w in seen
      && |seen| - CountUpTo(seen, w) < k
      && (|seen| - CountBelow(seen, w) >= k || CountBelow(seen, w) == 0)
  }

  /** The weakest configured path saw too little of all that was seen. */
  ghost predicate OnePathIsSilent(t: Thresholds, seen: seq<real>) {
    var total := Sum(seen);
    && total >= t.minSamples
    && if total == 0.0 then 0.0 < t.missedEventRate
       else exists w :: IsWeakest(seen, t.racedSources, w) && w / total < t.missedEventRate
  }

  ghost predicate Observable(t: Thresholds, baseline: Option<real>, s: Snapshot, k: Kind) {
    match k
    case MissedEvents => s.seen.Some? && t.racedSources >= 2
    case FirstResponseRegression => s.send.Some? && baseline.Some?
    case LineTriggerReplyBudget => s.lineRoundTrip.Some?
    case _ => true
  }

  ghost predicate Breaches(t: Thresholds, baseline: Option<real>, s: Snapshot, k: Kind) {
    && Observable(t, baseline, s, k)
    && match k
       case ReadinessLoss => s.readiness in {Some(Degraded), Some(OtherState)}
       case MissedEvents => OnePathIsSilent(t, s.seen.value)
       case FirstResponseRegression =>
         s.send.value.window as real >= t.minSamples && s.send.value.p95 > t.regressionFactor * baseline.value
       case LineTriggerReplyBudget =>
         s.lineRoundTrip.value.window as real >= t.minSamples && s.lineRoundTrip.value.p95 > t.lineTriggerReplyP95Ms
       case FailureRate => Attempts(s) >= t.minSamples && FailsMoreThan(s, t.failureRate)
       case NoLaneAvailable => s.lanes != [] && Hot !in s.lanes && Standby !in s.lanes
  }

  ghost function Attempts(s: Snapshot): real { (s.dispatched + s.failed) as real }

  /** More than this share of the attempts failed; of no attempts none did. */
  ghost predicate FailsMoreThan(s: Snapshot, rate: real) {
    if s.dispatched + s.failed == 0 then 0.0 > rate else s.failed as real > rate * Attempts(s)
  }

  /** Whether it is critical or a warning. */
  ghost predicate IsCritical(t: Thresholds, s: Snapshot, k: Kind) {
    match k
    case ReadinessLoss => s.readiness == Some(Degraded)
    case LineTriggerReplyBudget =>
      s.lineRoundTrip.Some? && 2.0 * s.lineRoundTrip.value.p95 > 3.0 * t.lineTriggerReplyP95Ms
    case FailureRate => FailsMoreThan(s, 4.0 * t.failureRate)
    case NoLaneAvailable => true
    case _ => false
  }

  ghost function Required(t: Thresholds, k: Kind): real {
    match k case ReadinessLoss => t.readinessLossMs case _ => t.minDurationMs
  }

  // ------------------------------------------------------------ the rules look for that

  lemma WeakestIsThat(seen: seq<real>, k: int)
    requires k >= 1
    ensures IsWeakest(seen, k, Weakest(seen, k))
    ensures forall w | IsWeakest(seen, k, w) :: w == Weakest(seen, k)
  {
    WeakestRanks(seen, k);
    hide Weakest, IsWeakest;
    forall w | IsWeakest(seen, k, w) ensures w == Weakest(seen, k) {
      RankDecides(seen, w, Weakest(seen, k), k);
    }
  }

  lemma WeakestRanks(seen: seq<real>, k: int)
    requires k >= 1
    ensures IsWeakest(seen, k, Weakest(seen, k))
  {
    var n, sorted := |seen|, Sorted(seen);
    if n > 0 {
      SortedSorts(seen);
      SortedKeeps(seen);
      var i := n - (if k < n then k else n);
      hide Sorted, IsSorted, CountBelow, CountUpTo;
      CountsAtIndex(sorted, i);
      SortingCounts(seen, sorted[i]);
    }
  }

  lemma RankDecides(seen: seq<real>, v: real, w: real, k: int)
    requires k >= 1 && IsWeakest(seen, k, v) && IsWeakest(seen, k, w)
    ensures v == w
  {
    hide CountBelow, CountUpTo;
    if v < w { BelowCoversUpTo(seen, v, w); }
    if w < v { BelowCoversUpTo(seen, w, v); }
  }

  /** A rule finds nothing to look at, is fine or is not, exactly as said above; and how bad it is. */
  lemma RulesReadThat(t: Thresholds, baseline: Option<real>, s: Snapshot, k: Kind)
    ensures var r := Read(t, baseline, s, k);
            && (r.Unobserved? <==> !Observable(t, baseline, s, k))
            && (r.Bad? <==> Breaches(t, baseline, s, k))
            && (r.Bad? ==> (r.severity == Critical <==> IsCritical(t, s, k)))
    ensures Required(t, k) == HoldMs(t, k)
  {
    hide Weakest, IsWeakest, Rounded;
    if k.FailureRate? {
      RateIs(s, t.failureRate);
      RateIs(s, t.failureRate * 4.0);
    } else if k.MissedEvents? && s.seen.Some? && t.racedSources >= 2 {
      WeakestIsThat(s.seen.value, t.racedSources);
    } else if k.NoLaneAvailable? {
      UsableIff(s.lanes);
    }
    hide CountUsable, Sum, FailsMoreThan;
  }

  lemma RateIs(s: Snapshot, rate: real)
    ensures var attempted := s.dispatched + s.failed;
            (if attempted == 0 then 0.0 else s.failed as real / attempted as real) > rate <==> FailsMoreThan(s, rate)
  {
    var n, m := s.failed as real, (s.dispatched + s.failed) as real;
    if s.dispatched + s.failed != 0 {
      assert (n / m) * m == n;
      if n / m > rate { assert (n / m) * m > rate * m; } else { assert (n / m) * m <= rate * m; }
    }
  }

  lemma {:induction false} UsableIff(lanes: seq<Badge>)
    ensures CountUsable(lanes) == 0 <==> Hot !in lanes && Standby !in lanes
  {
    if |lanes| > 0 { UsableIff(lanes[1..]); }
  }

  // ------------------------------------------------------------ when an alert fires

  /** The condition has held at every look, and every unobserved one aside, since some time no later
      than `x`. A new baseline starts the regression's time anew. */
  ghost predicate BreachedSince(t: Thresholds, baseline: Option<real>, r: Run<Op>, k: Kind, x: real) {
    match r
    case Start => false
    case Then(before, Evaluate(s)) =>
      var current := BaselineAfter(baseline, before);
      if !Observable(t, current, s, k) then BreachedSince(t, baseline, before, k, x)
      else Breaches(t, current, s, k) && (s.at <= x || BreachedSince(t, baseline, before, k, x))
    case Then(before, SetBaseline(_)) => k != FirstResponseRegression && BreachedSince(t, baseline, before, k, x)
  }

  ghost function BaselineAfter(baseline: Option<real>, r: Run<Op>): Option<real> {
    match r
    case Start => baseline
    case Then(before, Evaluate(_)) => BaselineAfter(baseline, before)
    case Then(before, SetBaseline(ms)) => Some(ms)
  }

  lemma {:induction false} BaselineIsTheLast(t: Thresholds, baseline: Option<real>, r: Run<Op>)
    ensures After(t, baseline, r).baseline == BaselineAfter(baseline, r)
  {
    hide Evaluated;
    if r.Then? { BaselineIsTheLast(t, baseline, r.before); }
  }

  lemma {:induction false} BreachesAreHeld(t: Thresholds, baseline: Option<real>, r: Run<Op>, k: Kind, x: real)
    ensures BreachedSince(t, baseline, r, k, x) <==> HeldSince(t, baseline, r, k, x)
  {
    hide Read, Evaluated, Observable, Breaches, After;
    if r.Then? {
      BreachesAreHeld(t, baseline, r.before, k, x);
      BaselineIsTheLast(t, baseline, r.before);
      if r.last.Evaluate? { RulesReadThat(t, BaselineAfter(baseline, r.before), r.last.s, k); }
    }
  }

  /** An alert fires at a look if and only if its condition holds there and has held since the required
      time ago. */
  lemma AlertsExactlyWhen(t: Thresholds, baseline: Option<real>, r: Run<Op>, s: Snapshot, k: Kind)
    requires InOrder(r, s.at)
    ensures var (state, now) := (After(t, baseline, r), Then(r, Evaluate(s)));
            var alerts := Evaluated(t, state.baseline, s, RULES, state.pending).1;
            (exists a :: a in alerts && a.kind == k) <==>
              && Breaches(t, BaselineAfter(baseline, r), s, k)
              && BreachedSince(t, baseline, now, k, s.at - Required(t, k))
  {
    hide Read, Evaluated, Breaches, Observable, IsCritical;
    var (state, now) := (After(t, baseline, r), Then(r, Evaluate(s)));
    BaselineIsTheLast(t, baseline, r);
    AlertFiresIff(t, baseline, r, s, k);
    RulesReadThat(t, state.baseline, s, k);
    BreachesAreHeld(t, baseline, now, k, s.at - Required(t, k));
  }

  /** It says whether it is critical, and for how long the condition has held; of readiness loss that
      is also what is reported. */
  lemma AlertsSayHowLong(t: Thresholds, baseline: Option<real>, r: Run<Op>, s: Snapshot, a: Alert)
    requires InOrder(r, s.at)
    requires var state := After(t, baseline, r); a in Evaluated(t, state.baseline, s, RULES, state.pending).1
    ensures (a.severity == Critical <==> IsCritical(t, s, a.kind)) && a.forMs >= Required(t, a.kind)
    ensures BreachedSince(t, baseline, Then(r, Evaluate(s)), a.kind, s.at - a.forMs)
    ensures forall x | BreachedSince(t, baseline, Then(r, Evaluate(s)), a.kind, x) :: s.at - a.forMs <= x
    ensures var reading := Read(t, BaselineAfter(baseline, r), s, a.kind);
            && reading.Bad? && a.threshold == reading.threshold
            && a.observed == (if a.kind == ReadinessLoss then a.forMs else reading.observed)
  {
    hide Read, Evaluated, Breaches, Observable, IsCritical;
    var (state, now, k) := (After(t, baseline, r), Then(r, Evaluate(s)), a.kind);
    BaselineIsTheLast(t, baseline, r);
    RulesReadThat(t, state.baseline, s, k);
    EachRuleLooksOnce(t, state.baseline, s, state.pending, k);
    assert Since(After(t, baseline, now).pending, k) == Some(s.at - a.forMs);
    hide Since, After, Raised;
    PendingIsTheStreak(t, baseline, now, k, s.at, s.at - a.forMs);
    BreachesAreHeld(t, baseline, now, k, s.at - a.forMs);
    forall x | BreachedSince(t, baseline, now, k, x) ensures s.at - a.forMs <= x {
      PendingIsTheStreak(t, baseline, now, k, s.at, x);
      BreachesAreHeld(t, baseline, now, k, x);
    }
  }

  /** What an alert reports: the threshold, and the number it was compared with to three decimals. */
  lemma AlertsReport(t: Thresholds, baseline: Option<real>, s: Snapshot, k: Kind)
    requires Breaches(t, baseline, s, k)
    ensures var r := Read(t, baseline, s, k);
            r.Bad? &&
            match k
            case ReadinessLoss => r.threshold == t.readinessLossMs
            case MissedEvents =>
              && r.threshold == t.missedEventRate
              && forall w | IsWeakest(s.seen.value, t.racedSources, w) ::
                   Near(r.observed, if Sum(s.seen.value) == 0.0 then 0.0 else w / Sum(s.seen.value))
            case FirstResponseRegression =>
              Near(r.threshold, baseline.value * t.regressionFactor) && Near(r.observed, s.send.value.p95)
            case LineTriggerReplyBudget =>
              r.threshold == t.lineTriggerReplyP95Ms && Near(r.observed, s.lineRoundTrip.value.p95)
            case FailureRate =>
              && r.threshold == t.failureRate
              && Near(r.observed, if Attempts(s) == 0.0 then 0.0 else s.failed as real / Attempts(s))
            case NoLaneAvailable => r.threshold == 1.0 && r.observed == 0.0
  {
    RulesReadThat(t, baseline, s, k);
    forall x ensures Near(Rounded(x), x) { RoundsToThousandths(x); }
    if k.MissedEvents? { WeakestIsThat(s.seen.value, t.racedSources); }
    hide Weakest, IsWeakest, Rounded, Breaches, Sum, CountUsable, Near;
  }

  /** A whole number of thousandths, at most half of one away. */
  ghost predicate Near(y: real, x: real) {
    (y * 1000.0).Floor as real == y * 1000.0 && -0.0005 <= y - x <= 0.0005
  }

  lemma RoundsToThousandths(x: real)
    ensures Near(Rounded(x), x)
  {
    var n := (x * 1000.0 + 0.5).Floor;
    assert Rounded(x) * 1000.0 == n as real;
  }
}
