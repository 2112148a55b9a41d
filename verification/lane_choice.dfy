/** What a choice of the router guarantees: it is total, it keeps to its band, spares
    are for overflow only, and the margin-based folds stay near the fastest lane. */
module LaneChoice {
  import opened Wrappers
  import opened LanePool
  import L = Lane

  // ------------------------------------------------------------ totality and reservation

  lemma ChoiceIsFromThePool(o: Options, p: Pool, pool: Lanes, now: real)
    requires |pool| > 0
    ensures ChooseSend(o, p, pool, now).lane in pool
  {
    hide Passes, Beats, Keep, Reduce, Eligible, Spares, BestUntried, PinnedAmong, Primaries, HasFresh;
  }

  /** The lane of a successful pick. */
  ghost predicate Picks(o: Options, p: Pool, role: Role, m: L.Measurement, forced: Option<int>, now: real, l: L.View) {
    && l in Candidates(o, p, role, now)
    && Picked(o, p, role, m, forced, now).1 == Ok(l.id)
    && (forced.None? ==> l in Bounded(o, p, role, now))
  }

  /** Every successful pick names a ready lane among the candidates; and while some
      lane is ready, an unforced pick succeeds. */
  lemma PickIsTotal(o: Options, p: Pool, role: Role, m: L.Measurement, forced: Option<int>, now: real)
    ensures Picked(o, p, role, m, forced, now).1.Ok? ==> exists l :: Picks(o, p, role, m, forced, now, l)
    ensures forced.None? && (exists l | l in p.lanes :: l.state == L.Ready) ==>
              Picked(o, p, role, m, forced, now).1.Ok?
    ensures Picked(o, p, role, m, forced, now).0.lanes == p.lanes
  {
    CandidatesExist(o, p, role, now);
    hide Beats, Keep, Reduce, ChooseSend, Candidates, Bounded, Primaries, Picks, Passes;
    if Picked(o, p, role, m, forced, now).1.Ok? { PickedIsACandidate(o, p, role, m, forced, now); }
  }

  lemma CandidatesExist(o: Options, p: Pool, role: Role, now: real)
    ensures (exists l | l in p.lanes :: l.state == L.Ready) ==> |Candidates(o, p, role, now)| > 0
  {
    hide Keep;
    if l :| l in p.lanes && l.state == L.Ready {
      assert Passes(o, p, l, Routable, now);
      assert l in Keep(o, p, p.lanes, Routable, now);
    }
  }

  lemma PickedIsACandidate(o: Options, p: Pool, role: Role, m: L.Measurement, forced: Option<int>, now: real)
    requires Picked(o, p, role, m, forced, now).1.Ok?
    ensures exists l :: Picks(o, p, role, m, forced, now, l)
  {
    hide Beats, Keep, Reduce, ChooseSend, Candidates, Bounded, Primaries, Swept, Passes;
    var pool, bounded := Candidates(o, p, role, now), Bounded(o, p, role, now);
    if forced.Some? {
      assert Picks(o, p, role, m, forced, now, FindId(pool, forced.value).value);
    } else if m == L.Warm {
      var l := Reduce(o, OrElse(Keep(o, p, bounded, Idle, now), bounded), OldestSample(L.Warm));
      assert Picks(o, p, role, m, forced, now, l);
    } else if role == SendRole {
      ChoiceIsFromThePool(o, p, bounded, now);
      assert Picks(o, p, role, m, forced, now, ChooseSend(o, p, bounded, now).lane);
    } else {
      var unmeasured := Keep(o, p, bounded, Untimed(m), now);
      var l := if |unmeasured| > 0 then Reduce(o, unmeasured, ByLoadThenAge(m)) else Reduce(o, bounded, ByRtt(m));
      assert Picks(o, p, role, m, forced, now, l);
    }
  }

  /** The reservation: while a ready, unparked lane exists in the request's own band,
      the pick is ready, unparked and in that band. */
  lemma PickStaysInBand(
      o: Options, p: Pool, role: Role, m: L.Measurement, forced: Option<int>, now: real, l: L.View, free: L.View)
    requires Picks(o, p, role, m, forced, now, l)
    requires free in p.lanes && free.state == L.Ready && !Parked(p, free.id, now) && InBand(o, free.id, role)
    ensures l.state == L.Ready && !Parked(p, l.id, now) && InBand(o, l.id, role)
  {
    hide Keep, Picked, Bounded, Parked, InBand;
    var usable := Keep(o, p, p.lanes, Usable, now);
    assert Passes(o, p, free, Usable, now) && Passes(o, p, free, OfBand(role), now);
    assert free in usable && free in Keep(o, p, usable, OfBand(role), now);
    assert Passes(o, p, l, Usable, now) && Passes(o, p, l, OfBand(role), now);
  }

  /** Receive traffic goes over the cap only when every candidate is at the cap. */
  lemma OverCapOnlyWhenFull(
      o: Options, p: Pool, role: Role, m: L.Measurement, now: real, l: L.View, other: L.View)
    requires role != SendRole && Picks(o, p, role, m, None, now, l)
    requires l.inFlight >= o.maxPollInFlight && other in Candidates(o, p, role, now)
    ensures other.inFlight >= o.maxPollInFlight
  {
    hide Keep, Picked, Candidates;
    var under := Keep(o, p, Candidates(o, p, role, now), UnderCap, now);
    assert Passes(o, p, other, UnderCap, now) ==> other in under;
    assert l in under ==> Passes(o, p, l, UnderCap, now);
  }

  /** The lane chosen for a reply is an eligible primary, or every eligible primary is
      busy and it is a spare, which leaves the pin alone. */
  lemma ChoiceCases(o: Options, p: Pool, pool: Lanes, now: real)
    requires |pool| > 0
    ensures var (choice, eligible) := (ChooseSend(o, p, pool, now), Eligible(o, p, pool, now));
            || choice.lane in eligible
            || (choice.Stay? && choice.lane in Spares(o, p, pool, now) && |Keep(o, p, eligible, Idle, now)| == 0)
  {
    hide Passes, Beats, Keep, Reduce, Eligible, Spares, BestUntried, PinnedAmong, Primaries, HasFresh;
  }

  /** Spares are for overflow: when some primary lane is in the pool, a spare is chosen
      only if every eligible primary is busy, and the pin stays where it is. */
  lemma SparesAreForOverflow(o: Options, p: Pool, pool: Lanes, now: real, primary: L.View)
    requires primary in pool && o.sendSpare > 0 && primary.id < o.FirstSpare()
    requires ChooseSend(o, p, pool, now).lane.id >= o.FirstSpare()
    ensures ChooseSend(o, p, pool, now).Stay?
    ensures forall l | l in Eligible(o, p, pool, now) :: l.inFlight != 0 && l.id < o.FirstSpare()
  {
    hide ChooseSend, Keep, Eligible, Spares;
    EligibleIsPrimary(o, p, pool, now, primary);
    ChoiceCases(o, p, pool, now);
    var eligible := Eligible(o, p, pool, now);
    assert forall l | l in eligible && Passes(o, p, l, Idle, now) :: l in Keep(o, p, eligible, Idle, now);
  }

  lemma EligibleIsPrimary(o: Options, p: Pool, pool: Lanes, now: real, primary: L.View)
    requires primary in pool && o.sendSpare != 0 && primary.id < o.FirstSpare()
    ensures forall l | l in Eligible(o, p, pool, now) :: l.id < o.FirstSpare()
  {
    hide Keep, Eligible;
    assert Passes(o, p, primary, BeforeSpares, now);
    assert primary in Keep(o, p, pool, BeforeSpares, now);
    forall l | l in Eligible(o, p, pool, now) ensures l.id < o.FirstSpare() {
      assert Passes(o, p, l, BeforeSpares, now);
    }
  }

  /** A live reply is never spent exploring: while an idle eligible primary has a real
      reply measurement, the chosen lane is idle and has one too. */
  lemma EvidenceOutranksProbes(o: Options, p: Pool, pool: Lanes, now: real, known: L.View)
    requires known in Eligible(o, p, pool, now) && known.inFlight == 0 && HasFresh(o, known, L.Send, now)
    requires forall l | l in pool :: l.Predicted(L.Send).Some? ==> HasFresh(o, l, L.Send, now)
    requires |pool| > 0
    ensures var l := ChooseSend(o, p, pool, now).lane;
            l.inFlight == 0 && HasFresh(o, l, L.Send, now) && l in Eligible(o, p, pool, now)
  {
    hide ChooseSend, Keep, Eligible, HasFresh, IsFastLane;
    var eligible := Eligible(o, p, pool, now);
    var idle := Keep(o, p, eligible, Idle, now);
    var timedIdle := Keep(o, p, idle, Timed(L.Send), now);
    assert Passes(o, p, known, Idle, now) && Passes(o, p, known, Timed(L.Send), now);
    assert known in idle && known in timedIdle;
    ChoiceWithEvidence(o, p, pool, now);
    var l := ChooseSend(o, p, pool, now).lane;
    if l in timedIdle {
      assert Passes(o, p, l, Idle, now) && Passes(o, p, l, Timed(L.Send), now);
    } else {
      FastIsMeasured(o, p, eligible, l, now);
    }
  }

  lemma FastIsMeasured(o: Options, p: Pool, eligible: Lanes, l: L.View, now: real)
    requires l in Keep(o, p, Keep(o, p, eligible, Fast, now), Idle, now)
    ensures l in eligible && l.inFlight == 0 && l.Predicted(L.Send).Some?
  {
    hide Keep;
    assert Passes(o, p, l, Idle, now) && Passes(o, p, l, Fast, now);
  }

  lemma ChoiceWithEvidence(o: Options, p: Pool, pool: Lanes, now: real)
    requires |pool| > 0
    requires |Keep(o, p, Keep(o, p, Eligible(o, p, pool, now), Idle, now), Timed(L.Send), now)| > 0
    ensures var (l, eligible) := (ChooseSend(o, p, pool, now).lane, Eligible(o, p, pool, now));
            || l in Keep(o, p, Keep(o, p, eligible, Fast, now), Idle, now)
            || l in Keep(o, p, Keep(o, p, eligible, Idle, now), Timed(L.Send), now)
  {
    var idle := Keep(o, p, Eligible(o, p, pool, now), Idle, now);
    assert Keep(o, p, idle, Timed(L.Send), now)[0] in idle;
    hide Passes, Beats, Keep, Reduce, Eligible, Spares, BestUntried, PinnedAmong, Primaries, HasFresh;
  }

  // ------------------------------------------------------------ the non-transitive folds

  /** What the margin-based orders compare. */
  ghost function Measure(l: L.View, order: Order): Option<real>
    requires order.BySend? || order.ByRtt?
  {
    if order.BySend? then l.Predicted(L.Send) else Compared(l, order.m)
  }

  ghost predicate AllMeasured(ls: Lanes, order: Order)
    requires order.BySend? || order.ByRtt?
  {
    forall l | l in ls :: Measure(l, order).Some?
  }

  ghost function Slack(o: Options, n: nat): real { n as real * o.switchMarginMs }

  lemma SlackStep(o: Options, n: nat)
    requires o.switchMarginMs >= 0.0
    ensures Slack(o, n + 1) == Slack(o, n) + o.switchMarginMs
    ensures Slack(o, 0) == 0.0 && Slack(o, n) >= 0.0
  {
    assert (n + 1) as real * o.switchMarginMs == n as real * o.switchMarginMs + o.switchMarginMs;
  }

  /** Whoever wins a comparison is at most one margin behind the loser. */
  lemma WinnerIsClose(o: Options, a: L.View, b: L.View, order: Order)
    requires o.switchMarginMs >= 0.0 && (order.BySend? || order.ByRtt?)
    requires Measure(a, order).Some? && Measure(b, order).Some?
    ensures var (x, y) := (Measure(a, order).value, Measure(b, order).value);
            && (if Beats(o, a, b, order) then x <= y + o.switchMarginMs else y <= x + o.switchMarginMs)
            && (o.switchMarginMs > 0.0 ==>
                  if Beats(o, a, b, order) then x < y + o.switchMarginMs else y < x + o.switchMarginMs)
  {
  }

  lemma {:induction false} FoldDrift(o: Options, best: L.View, ls: Lanes, order: Order)
    requires o.switchMarginMs >= 0.0 && (order.BySend? || order.ByRtt?)
    requires Measure(best, order).Some? && AllMeasured(ls, order)
    ensures var r := ReduceFrom(o, best, ls, order);
            && Measure(r, order).Some?
            && (forall l | l == best || l in ls ::
                  Measure(r, order).value <= Measure(l, order).value + Slack(o, |ls|)
                  && (|ls| > 0 && o.switchMarginMs > 0.0 ==>
                        Measure(r, order).value < Measure(l, order).value + Slack(o, |ls|)))
    decreases |ls|
  {
    hide Measure, Beats, Slack;
    SlackStep(o, 0);
    if |ls| > 0 {
      var next := if Beats(o, ls[0], best, order) then ls[0] else best;
      assert ls[0] in ls;
      WinnerIsClose(o, ls[0], best, order);
      FoldDrift(o, next, ls[1..], order);
      SlackStep(o, |ls| - 1);
    }
  }

  /** The folds compare pairwise with a margin, so they do not find the minimum. But
      among `n` measured lanes in any order the winner is at most `n - 1` margins
      slower than the fastest, and strictly less for two lanes or more and a positive margin. */
  lemma FoldIsNearTheFastest(o: Options, ls: Lanes, order: Order, fastest: L.View)
    requires o.switchMarginMs >= 0.0 && (order.BySend? || order.ByRtt?)
    requires |ls| > 0 && AllMeasured(ls, order) && fastest in ls
    ensures var r := Reduce(o, ls, order);
            && Measure(r, order).Some?
            && Measure(r, order).value <= Measure(fastest, order).value + Slack(o, |ls| - 1)
            && (|ls| >= 2 && o.switchMarginMs > 0.0 ==>
                  Measure(r, order).value < Measure(fastest, order).value + Slack(o, |ls| - 1))
  {
    hide Measure, Beats, Slack;
    assert ls[0] in ls;
    FoldDrift(o, ls[0], ls[1..], order);
  }

  /** So a reply that finds fast idle primaries, the pinned lane not among them, goes to
      one that is within that bound of the fastest of them. */
  lemma ReplyIsNearTheFastest(o: Options, p: Pool, pool: Lanes, now: real, fastest: L.View)
    requires o.switchMarginMs >= 0.0 && |pool| > 0 && PinnedAmong(o, p, FastIdle(o, p, pool, now), now).None?
    requires fastest in FastIdle(o, p, pool, now)
    ensures var choice := ChooseSend(o, p, pool, now);
            && choice.lane in FastIdle(o, p, pool, now)
            && choice.lane.Predicted(L.Send).Some? && fastest.Predicted(L.Send).Some?
            && choice.lane.Predicted(L.Send).value
               <= fastest.Predicted(L.Send).value + Slack(o, |FastIdle(o, p, pool, now)| - 1)
  {
    UnpinnedChoice(o, p, pool, now);
    FastFold(o, p, pool, now, fastest);
    hide FastIdle, ChooseSend, Slack, Reduce;
  }

  ghost function FastIdle(o: Options, p: Pool, pool: Lanes, now: real): Lanes {
    Keep(o, p, Keep(o, p, Eligible(o, p, pool, now), Fast, now), Idle, now)
  }

  lemma FastFold(o: Options, p: Pool, pool: Lanes, now: real, fastest: L.View)
    requires o.switchMarginMs >= 0.0 && fastest in FastIdle(o, p, pool, now)
    ensures var l := Reduce(o, FastIdle(o, p, pool, now), BySend);
            && l.Predicted(L.Send).Some? && fastest.Predicted(L.Send).Some?
            && l.Predicted(L.Send).value
               <= fastest.Predicted(L.Send).value + Slack(o, |FastIdle(o, p, pool, now)| - 1)
  {
    hide FastIdle, Slack, Reduce;
    var ls := FastIdle(o, p, pool, now);
    FastIdleIsMeasured(o, p, pool, now);
    FoldIsNearTheFastest(o, ls, BySend, fastest);
  }

  lemma FastIdleIsMeasured(o: Options, p: Pool, pool: Lanes, now: real)
    ensures AllMeasured(FastIdle(o, p, pool, now), BySend)
  {
    hide Keep, Eligible;
    forall l | l in FastIdle(o, p, pool, now) ensures Measure(l, BySend).Some? {
      FastIsMeasured(o, p, Eligible(o, p, pool, now), l, now);
    }
  }

  lemma UnpinnedChoice(o: Options, p: Pool, pool: Lanes, now: real)
    requires |pool| > 0 && PinnedAmong(o, p, FastIdle(o, p, pool, now), now).None?
    ensures |FastIdle(o, p, pool, now)| > 0 ==>
              ChooseSend(o, p, pool, now).lane == Reduce(o, FastIdle(o, p, pool, now), BySend)
  {
    hide Keep, Eligible, Reduce, Passes, Spares, BestUntried, Primaries, PinnedAmong;
  }

  // The bound is the best possible: a ladder of lanes, each a little slower than the one
  // before but with a better record, is climbed to its end.

  ghost function Rung(i: nat, step: real): L.View {
    var x := i as real * step;
    L.Opened(i, 0.0).(
      score := L.Score(i, 0, 0),
      profiles := L.FRESH.(send := L.Profile([x], Some(x), Some(x), Some(x), Some(0.0), false)))
  }

  ghost function Ladder(from: nat, n: nat, step: real): Lanes
    decreases n
  {
    if n == 0 then [] else [Rung(from, step)] + Ladder(from + 1, n - 1, step)
  }

  lemma {:induction false} LadderIsClimbed(o: Options, from: nat, n: nat, step: real)
    requires 0.0 < step < o.switchMarginMs
    ensures ReduceFrom(o, Rung(from, step), Ladder(from + 1, n, step), BySend) == Rung(from + n, step)
    decreases n
  {
    if n > 0 {
      NextRungWins(o, from, step);
      LadderIsClimbed(o, from + 1, n - 1, step);
      hide Beats, Rung;
    }
  }

  lemma NextRungWins(o: Options, i: nat, step: real)
    requires 0.0 < step < o.switchMarginMs
    ensures Beats(o, Rung(i + 1, step), Rung(i, step), BySend)
    ensures Rung(i, step).Predicted(L.Send) == Some(i as real * step)
  {
    assert (i + 1) as real * step == i as real * step + step;
  }

  /** For any step below the margin, `n + 1` lanes can drift `n` such steps. */
  lemma FoldDriftIsTight(o: Options, n: nat, step: real)
    requires 0.0 < step < o.switchMarginMs
    ensures var ls := Ladder(0, n + 1, step);
            && ls[0].Predicted(L.Send) == Some(0.0)
            && Reduce(o, ls, BySend).Predicted(L.Send) == Some(n as real * step)
  {
    hide Rung, Beats, Ladder, ReduceFrom;
    NextRungWins(o, 0, step);
    NextRungWins(o, n, step);
    LadderIsClimbed(o, 0, n, step);
    LadderSplits(n, step);
    assert Ladder(0, n + 1, step)[1..] == Ladder(1, n, step);
  }

  lemma LadderSplits(n: nat, step: real)
    ensures Ladder(0, n + 1, step) == [Rung(0, step)] + Ladder(1, n, step)
    ensures 0 as real * step == 0.0
  {
  }
}
