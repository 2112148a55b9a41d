/** The alert rules: a condition has to hold for a while, at every look, before it counts. */
module Alerts {
  import opened Wrappers
  import opened Runs
  import opened Windows
  import Sorting

  datatype Kind =
    | ReadinessLoss | MissedEvents | FirstResponseRegression
    | LineTriggerReplyBudget | FailureRate | NoLaneAvailable

  datatype Severity = Warning | Critical

  datatype Alert = Alert(kind: Kind, severity: Severity, observed: real, threshold: real, forMs: real)

  datatype Thresholds = Thresholds(
    readinessLossMs: real, missedEventRate: real, racedSources: int, regressionFactor: real,
    lineTriggerReplyP95Ms: real, failureRate: real, minDurationMs: real, minSamples: real)

  datatype Readiness = Armed | Degraded | OtherState

  datatype Badge = Hot | Standby | OtherBadge

  datatype Span = Span(window: nat, p95: real)

  /** What the rules read of a status snapshot. */
  datatype Snapshot = Snapshot(
    at: real, readiness: Option<Readiness>, seen: Option<seq<real>>, send: Option<Span>,
    lineRoundTrip: Option<Span>, dispatched: nat, failed: nat, lanes: seq<Badge>)

  // ------------------------------------------------------------ the conditions

  /** A rule may be unable to look at a snapshot at all. */
  datatype Reading = Unobserved | Fine | Bad(severity: Severity, observed: real, threshold: real)

  /** The least of the `k` largest counts. */
  function Weakest(seen: seq<real>, k: int): real
    requires k >= 1
  {
    var sorted := Sorting.Sorted(seen);
    if |sorted| == 0 then 0.0 else sorted[|sorted| - (if k < |sorted| then k else |sorted|)]
  }

  function CountUsable(lanes: seq<Badge>): nat {
    if |lanes| == 0 then 0
    else (if lanes[0].Hot? || lanes[0].Standby? then 1 else 0) + CountUsable(lanes[1..])
  }

  /** To three decimals, halves up. */
  function Rounded(v: real): real { (v * 1000.0 + 0.5).Floor as real / 1000.0 }

  function When(bad: bool, critical: bool, observed: real, threshold: real): Reading {
    if bad then Bad(if critical then Critical else Warning, observed, threshold) else Fine
  }

  function Read(t: Thresholds, baseline: Option<real>, s: Snapshot, k: Kind): Reading {
    match k
    case ReadinessLoss =>
      When(s.readiness.Some? && s.readiness.value != Armed, s.readiness == Some(Degraded), 0.0, t.readinessLossMs)
    case MissedEvents =>
      if s.seen.None? || t.racedSources < 2 then Unobserved
      else
        var total := Sum(s.seen.value);
        var share := if total == 0.0 then 0.0 else Weakest(s.seen.value, t.racedSources) / total;
        When(total >= t.minSamples && share < t.missedEventRate, false, Rounded(share), t.missedEventRate)
    case FirstResponseRegression =>
      if s.send.None? || baseline.None? then Unobserved
      else
        var p95, limit := s.send.value.p95, baseline.value * t.regressionFactor;
        When(s.send.value.window as real >= t.minSamples && p95 > limit, false, Rounded(p95), Rounded(limit))
    case LineTriggerReplyBudget =>
      if s.lineRoundTrip.None? then Unobserved
      else
        var p95 := s.lineRoundTrip.value.p95;
        When(s.lineRoundTrip.value.window as real >= t.minSamples && p95 > t.lineTriggerReplyP95Ms,
             p95 > t.lineTriggerReplyP95Ms * 1.5, Rounded(p95), t.lineTriggerReplyP95Ms)
    case FailureRate =>
      var attempted := s.dispatched + s.failed;
      var rate := if attempted == 0 then 0.0 else s.failed as real / attempted as real;
      When(attempted as real >= t.minSamples && rate > t.failureRate,
           rate > t.failureRate * 4.0, Rounded(rate), t.failureRate)
    case NoLaneAvailable =>
      var usable := CountUsable(s.lanes);
      When(|s.lanes| > 0 && usable == 0, true, usable as real, 1.0)
  }

  function HoldMs(t: Thresholds, k: Kind): real {
    if k == ReadinessLoss then t.readinessLossMs else t.minDurationMs
  }

  // ------------------------------------------------------------ the evaluator

  /** A condition being watched: since when, and what was last observed. */
  datatype Watch = Watch(sinceMs: real, observed: real)

  type Pending = map<Kind, Watch>

  function Watched(p: Pending, k: Kind, r: Reading, now: real): Pending {
    match r
    case Unobserved => p
    case Fine => p - {k}
    case Bad(_, observed, _) =>
      p[k := Watch(if k in p then p[k].sinceMs else now, if k == ReadinessLoss then 0.0 else observed)]
  }

  function Raised(t: Thresholds, p: Pending, k: Kind, r: Reading, now: real): seq<Alert> {
    if r.Bad? then
      var forMs := if k in p then now - p[k].sinceMs else 0.0;
      if forMs < HoldMs(t, k) then []
      else [Alert(k, r.severity, if k == ReadinessLoss then forMs else r.observed, r.threshold, forMs)]
    else []
  }

  /** The rules in the order in which they look. */
  const RULES: seq<Kind> :=
    [ReadinessLoss, MissedEvents, FirstResponseRegression, LineTriggerReplyBudget, FailureRate, NoLaneAvailable]

  function Evaluated(t: Thresholds, baseline: Option<real>, s: Snapshot, rules: seq<Kind>, p: Pending)
    : (Pending, seq<Alert>)
  {
    if |rules| == 0 then (p, [])
    else
      var (q, alerts) := Evaluated(t, baseline, s, rules[..|rules| - 1], p);
      var k := rules[|rules| - 1];
      var r := Read(t, baseline, s, k);
      (Watched(q, k, r, s.at), alerts + Raised(t, q, k, r, s.at))
  }

  class AlertEvaluator {
    const thresholds: Thresholds
    var pending: Pending
    var baseline: Option<real>

    constructor (thresholds: Thresholds, baseline: Option<real>)
      ensures this.thresholds == thresholds && this.baseline == baseline && pending == map[]
    {
      this.thresholds := thresholds;
      this.baseline := baseline;
      pending := map[];
    }

    method SetBaseline(sendP95Ms: real)
      modifies this
      ensures baseline == Some(sendP95Ms) && pending == old(pending) - {FirstResponseRegression}
    {
      baseline := Some(sendP95Ms);
      pending := pending - {FirstResponseRegression};
    }

    method Evaluate(s: Snapshot) returns (alerts: seq<Alert>)
      modifies this`pending
      ensures (pending, alerts) == Evaluated(thresholds, baseline, s, RULES, old(pending))
    {
      hide Read, Evaluated;
      NoRules(thresholds, baseline, s, pending);
      ghost var p := pending;
      alerts := Look(0, ReadinessLoss, s, [], p);
      alerts := Look(1, MissedEvents, s, alerts, p);
      alerts := Look(2, FirstResponseRegression, s, alerts, p);
      alerts := Look(3, LineTriggerReplyBudget, s, alerts, p);
      alerts := Look(4, FailureRate, s, alerts, p);
      alerts := Look(5, NoLaneAvailable, s, alerts, p);
      assert RULES[..6] == RULES;
    }

    method Look(ghost i: nat, k: Kind, s: Snapshot, alerts: seq<Alert>, ghost p: Pending) returns (more: seq<Alert>)
      requires i < |RULES| && RULES[i] == k
      requires (pending, alerts) == Evaluated(thresholds, baseline, s, RULES[..i], p)
      modifies this`pending
      ensures (pending, more) == Evaluated(thresholds, baseline, s, RULES[..i + 1], p)
    {
      hide Read, Watched, Raised;
      assert RULES[..i + 1][..i] == RULES[..i];
      var raised := Push(k, Read(thresholds, baseline, s, k), s.at);
      more := alerts + raised;
    }

    method Push(k: Kind, r: Reading, now: real) returns (raised: seq<Alert>)
      modifies this`pending
      ensures pending == Watched(old(pending), k, r, now)
      ensures raised == Raised(thresholds, old(pending), k, r, now)
    {
      if r.Unobserved? { return []; }
      if r.Fine? { pending := pending - {k}; return []; }
      var sinceMs := if k in pending then pending[k].sinceMs else now;
      pending := pending[k := Watch(sinceMs, if k == ReadinessLoss then 0.0 else r.observed)];
      var forMs := now - sinceMs;
      if forMs < HoldMs(thresholds, k) { return []; }
      return [Alert(k, r.severity, if k == ReadinessLoss then forMs else r.observed, r.threshold, forMs)];
    }
  }

  lemma NoRules(t: Thresholds, baseline: Option<real>, s: Snapshot, p: Pending)
    ensures RULES[..0] == [] && Evaluated(t, baseline, s, [], p) == (p, [])
  {
  }

  // ------------------------------------------------------------ runs

  datatype Op = Evaluate(s: Snapshot) | SetBaseline(sendP95Ms: real)

  datatype State = State(pending: Pending, baseline: Option<real>)

  ghost function After(t: Thresholds, baseline: Option<real>, r: Run<Op>): State {
    match r
    case Start => State(map[], baseline)
    case Then(before, Evaluate(s)) =>
      var x := After(t, baseline, before);
      x.(pending := Evaluated(t, x.baseline, s, RULES, x.pending).0)
    case Then(before, SetBaseline(ms)) =>
      State(After(t, baseline, before).pending - {FirstResponseRegression}, Some(ms))
  }

  ghost predicate InOrder(r: Run<Op>, now: real) {
    match r
    case Start => true
    case Then(before, Evaluate(s)) => s.at <= now && InOrder(before, s.at)
    case Then(before, SetBaseline(_)) => InOrder(before, now)
  }

  /** The condition has held at every look since some time no later than `x`. */
  ghost predicate HeldSince(t: Thresholds, baseline: Option<real>, r: Run<Op>, k: Kind, x: real) {
    match r
    case Start => false
    case Then(before, Evaluate(s)) =>
      (match Read(t, After(t, baseline, before).baseline, s, k)
       case Unobserved => HeldSince(t, baseline, before, k, x)
       case Fine => false
       case Bad(_, _, _) => s.at <= x || HeldSince(t, baseline, before, k, x))
    case Then(before, SetBaseline(_)) => k != FirstResponseRegression && HeldSince(t, baseline, before, k, x)
  }

  ghost function Since(p: Pending, k: Kind): Option<real> { if k in p then Some(p[k].sinceMs) else None }

  /** A rule touches only its own entry, and alerts only of its own kind. */
  lemma {:induction false} RulesAreApart(
      t: Thresholds, baseline: Option<real>, s: Snapshot, rules: seq<Kind>, p: Pending, k: Kind)
    requires forall i, j | 0 <= i < j < |rules| :: rules[i] != rules[j]
    ensures var (q, alerts) := Evaluated(t, baseline, s, rules, p);
            var r := Read(t, baseline, s, k);
            && Since(q, k) == Since(if k in rules then Watched(p, k, r, s.at) else p, k)
            && (forall a: Alert | a.kind == k :: a in alerts <==> k in rules && a in Raised(t, p, k, r, s.at))
  {
    hide Read, Watched, Raised, Since;
    if |rules| > 0 {
      var init, last := rules[..|rules| - 1], rules[|rules| - 1];
      RulesAreApart(t, baseline, s, init, p, k);
      assert k in rules <==> k in init || k == last;
      var q := Evaluated(t, baseline, s, init, p).0;
      RuleIsApart(t, p, q, k, last, Read(t, baseline, s, last), s.at);
    }
  }

  lemma RuleIsApart(t: Thresholds, p: Pending, q: Pending, k: Kind, rule: Kind, r: Reading, at: real)
    ensures k != rule ==> Since(Watched(q, rule, r, at), k) == Since(q, k)
    ensures forall a | a in Raised(t, q, rule, r, at) :: a.kind == rule
    ensures Since(p, rule) == Since(q, rule) ==>
              && Since(Watched(q, rule, r, at), rule) == Since(Watched(p, rule, r, at), rule)
              && Raised(t, q, rule, r, at) == Raised(t, p, rule, r, at)
  {
  }

  lemma EachRuleLooksOnce(t: Thresholds, baseline: Option<real>, s: Snapshot, p: Pending, k: Kind)
    ensures var (q, alerts) := Evaluated(t, baseline, s, RULES, p);
            var r := Read(t, baseline, s, k);
            && Since(q, k) == (match r case Unobserved => Since(p, k) case Fine => None
                               case Bad(_, _, _) => if k in p then Since(p, k) else Some(s.at))
            && (forall a: Alert | a.kind == k :: a in alerts <==> a in Raised(t, p, k, r, s.at))
  {
    hide Read, Evaluated, Raised;
    assert RULES[0] == ReadinessLoss && RULES[1] == MissedEvents && RULES[2] == FirstResponseRegression;
    assert RULES[3] == LineTriggerReplyBudget && RULES[4] == FailureRate && RULES[5] == NoLaneAvailable;
    assert |RULES| == 6;
    RulesAreApart(t, baseline, s, RULES, p, k);
  }

  /** The stored start is that of the streak. */
  lemma {:induction false} PendingIsTheStreak(
      t: Thresholds, baseline: Option<real>, r: Run<Op>, k: Kind, now: real, x: real)
    requires InOrder(r, now)
    ensures var p := After(t, baseline, r).pending;
            && (Since(p, k).Some? ==> Since(p, k).value <= now)
            && (HeldSince(t, baseline, r, k, x) <==> Since(p, k).Some? && Since(p, k).value <= x)
  {
    if r.Then? {
      hide Read, Evaluated;
      var before := r.before;
      match r.last {
        case Evaluate(s) =>
          PendingIsTheStreak(t, baseline, before, k, s.at, x);
          var state := After(t, baseline, before);
          EachRuleLooksOnce(t, state.baseline, s, state.pending, k);
        case SetBaseline(_) =>
          PendingIsTheStreak(t, baseline, before, k, now, x);
      }
    }
  }

  /** An alert fires at a look exactly when its condition holds there, and has held at every
      look of a streak that goes back at least the required time. */
  lemma AlertFiresIff(t: Thresholds, baseline: Option<real>, r: Run<Op>, s: Snapshot, k: Kind)
    requires InOrder(r, s.at)
    ensures var state := After(t, baseline, r);
            var alerts := Evaluated(t, state.baseline, s, RULES, state.pending).1;
            (exists a :: a in alerts && a.kind == k)
            <==> && Read(t, state.baseline, s, k).Bad?
                 && HeldSince(t, baseline, Then(r, Evaluate(s)), k, s.at - HoldMs(t, k))
  {
    hide Read, Evaluated;
    var state := After(t, baseline, r);
    var alerts := Evaluated(t, state.baseline, s, RULES, state.pending).1;
    var x := s.at - HoldMs(t, k);
    PendingIsTheStreak(t, baseline, r, k, s.at, x);
    EachRuleLooksOnce(t, state.baseline, s, state.pending, k);
    var reading := Read(t, state.baseline, s, k);
    var raised := Raised(t, state.pending, k, reading, s.at);
    assert forall a | a in raised :: a.kind == k;
    if |raised| > 0 { assert raised[0] in alerts; }
    assert |raised| > 0 <==> exists a :: a in raised;
  }

  /** A single bad look raises nothing, as long as some time is required. */
  lemma OneLookIsNoAlert(t: Thresholds, baseline: Option<real>, r: Run<Op>, s: Snapshot, k: Kind)
    requires InOrder(r, s.at) && HoldMs(t, k) > 0.0
    requires !HeldSince(t, baseline, r, k, s.at)
    ensures var state := After(t, baseline, r);
            forall a | a in Evaluated(t, state.baseline, s, RULES, state.pending).1 :: a.kind != k
  {
    AlertFiresIff(t, baseline, r, s, k);
    PendingIsTheStreak(t, baseline, r, k, s.at, s.at);
    PendingIsTheStreak(t, baseline, r, k, s.at, s.at - HoldMs(t, k));
    hide Read, Evaluated;
  }
}
