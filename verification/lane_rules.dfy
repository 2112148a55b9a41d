/** The rules of routing, stated on the lanes' own numbers: ids, requests in flight, times and
    measurements. Nothing here mentions how the router goes through its lists. */
module LaneRules {
  import opened Wrappers
  import opened Runs
  import opened LanePool
  import C = LaneChoice
  import R = LaneRuns
  import L = Lane

  type Tier = set<L.View>

  // ------------------------------------------------------------ what the numbers say

  ghost predicate Serving(l: L.View) { l.state == L.Ready }

  ghost predicate Resting(p: Pool, l: L.View, now: real) {
    l.id in p.cooldown && (p.cooldown[l.id] == Forever || (p.cooldown[l.id].At? && now < p.cooldown[l.id].time))
  }

  ghost predicate Avoided(p: Pool, l: L.View, now: real) {
    l.id in p.bypass && now < p.bypass[l.id]
  }

  ghost predicate LosesRounds(o: Options, l: L.View) {
    l.profiles.send.tail.Some? && l.profiles.send.tail.value > o.maxSendTailMs
  }

  /** It has carried a reply since it was opened. */
  ghost predicate Answered(l: L.View) {
    l.profiles.send.median.Some? && l.profiles.send.lastAt.Some?
  }

  /** What a request of kind `m` is expected to take: replies and polls with part of the tail. */
  ghost function Expected(l: L.View, m: L.Measurement): Option<real> {
    var p := l.profiles.Of(m);
    if m != L.Send && m != L.Poll then p.median
    else if p.median.Some? && p.tail.Some? then Some(0.65 * p.median.value + 0.35 * p.tail.value)
    else None
  }

  ghost predicate Quick(o: Options, p: Pool, l: L.View, now: real) {
    && Expected(l, L.Send).Some? && Expected(l, L.Send).value <= o.lane.fastMs
    && !LosesRounds(o, l) && !Avoided(p, l, now)
  }

  /** Nothing is known of the lane, or, but for replies and preflights, it is known for too long. */
  ghost predicate Unknown(o: Options, l: L.View, m: L.Measurement, now: real) {
    var p := l.profiles.Of(m);
    p.median.None? || p.lastAt.None?
    || (m != L.Send && m != L.Preflight && now > p.lastAt.value + o.sampleMaxAgeMs)
  }

  // ------------------------------------------------------------ the lanes of each tier

  /** The reply lanes proper: all those below the spares, or all there are if none is. */
  ghost predicate IsPrimary(o: Options, pool: Lanes, l: L.View) {
    && l in pool
    && (|| o.sendSpare == 0 || l.id < o.sendReserved - o.sendSpare
        || forall k | k in pool :: k.id >= o.sendReserved - o.sendSpare)
  }

  ghost function Primary(o: Options, pool: Lanes): Tier {
    set l | l in pool && IsPrimary(o, pool, l)
  }

  /** Those not avoided, or all of them if each is. */
  ghost function Open(o: Options, p: Pool, pool: Lanes, now: real): Tier {
    set l | l in Primary(o, pool)
            && (Avoided(p, l, now) ==> forall k | k in Primary(o, pool) :: Avoided(p, k, now))
  }

  /** Of these, those without a losing tail, or all of them if each has one. */
  ghost function Worthy(o: Options, p: Pool, pool: Lanes, now: real): Tier {
    set l | l in Open(o, p, pool, now)
            && (LosesRounds(o, l) ==> forall k | k in Open(o, p, pool, now) :: LosesRounds(o, k))
  }

  ghost function IdleOf(t: Tier): Tier { set l | l in t && l.inFlight == 0 }
  ghost function AnsweredOf(t: Tier): Tier { set l | l in t && Answered(l) }
  ghost function QuickOf(o: Options, p: Pool, t: Tier, now: real): Tier { set l | l in t && Quick(o, p, l, now) }
  ghost function PinnedOf(p: Pool, t: Tier): Tier { set l | l in t && Answered(l) && p.pin == Some(l.id) }

  /** The lanes kept for overflow, if there is a primary they are kept beside. */
  ghost function Spare(o: Options, pool: Lanes): Tier {
    set l | l in pool && o.sendSpare != 0 && l.id >= o.sendReserved - o.sendSpare
            && exists k | k in pool :: k.id < o.sendReserved - o.sendSpare
  }

  // ------------------------------------------------------------ the best of a tier

  /** `l` is at most `n` margins behind every lane of the tier, and less than that if there are any. */
  ghost predicate NearTheFastest(o: Options, n: nat, t: Tier, m: L.Measurement, l: L.View) {
    && l in t && Expected(l, m).Some?
    && forall k | k in t ::
         && Expected(k, m).Some?
         && Expected(l, m).value <= Expected(k, m).value + C.Slack(o, n)
         && (n > 0 && o.switchMarginMs > 0.0 ==> Expected(l, m).value < Expected(k, m).value + C.Slack(o, n))
  }

  ghost predicate LeastLoaded(t: Tier, l: L.View) {
    l in t && forall k | k in t :: l.inFlight <= k.inFlight
  }

  ghost function KnownBy(o: Options, t: Tier, m: L.Measurement, now: real): Tier {
    set l | l in t && !Unknown(o, l, m, now)
  }

  /** Without any reply to go by: the preflight decides, else what warming showed of late, else
      the load. */
  ghost predicate BestByProbes(o: Options, n: nat, t: Tier, now: real, l: L.View) {
    if KnownBy(o, t, L.Preflight, now) != {} then
      NearTheFastest(o, n, KnownBy(o, t, L.Preflight, now), L.Preflight, l)
    else if KnownBy(o, t, L.Warm, now) != {} then
      NearTheFastest(o, n, KnownBy(o, t, L.Warm, now), L.Warm, l)
    else LeastLoaded(t, l)
  }

  /** A reply takes the first of these that exists:
      the pinned lane, quick and idle; a quick idle primary; an idle spare, if every primary is
      busy; an idle primary that has answered before; an idle primary; a primary that has
      answered before; a primary. */
  ghost predicate ServesReply(o: Options, p: Pool, pool: Lanes, now: real, l: L.View)
    requires |pool| > 0
  {
    var n, worthy, idleSpare := |pool| - 1, Worthy(o, p, pool, now), IdleOf(Spare(o, pool));
    var idle, quick := IdleOf(worthy), QuickOf(o, p, worthy, now);
    if PinnedOf(p, IdleOf(quick)) != {} then PinnedOf(p, IdleOf(quick)) == {l}
    else if IdleOf(quick) != {} then NearTheFastest(o, n, IdleOf(quick), L.Send, l)
    else if idle == {} && idleSpare != {} then
      if AnsweredOf(idleSpare) != {} then NearTheFastest(o, n, AnsweredOf(idleSpare), L.Send, l)
      else BestByProbes(o, n, idleSpare, now, l)
    else if AnsweredOf(idle) != {} then NearTheFastest(o, n, AnsweredOf(idle), L.Send, l)
    else if idle != {} then BestByProbes(o, n, idle, now, l)
    else if AnsweredOf(worthy) != {} then NearTheFastest(o, n, AnsweredOf(worthy), L.Send, l)
    else BestByProbes(o, n, worthy, now, l)
  }

  /** The reply takes the pin along unless it is overflow or the pinned lane, quick but maybe
      busy, is worth coming back to. */
  ghost predicate MovesThePin(o: Options, p: Pool, pool: Lanes, now: real) {
    var worthy := Worthy(o, p, pool, now);
    && PinnedOf(p, QuickOf(o, p, worthy, now)) == {}
    && (IdleOf(worthy) == {} ==> IdleOf(Spare(o, pool)) == {})
  }

  // ------------------------------------------------------------ the router keeps to the rules

  ghost predicate Same(ls: Lanes, t: Tier) {
    && (forall l | l in ls :: l in t)
    && (forall l | l in t :: l in ls)
  }

  /** A number is known together with when it was measured, and the median with the tail. */
  ghost predicate Measured(pool: Lanes) {
    forall l, m | l in pool ::
      var p := l.profiles.Of(m);
      (p.median.Some? <==> p.tail.Some?) && (p.median.Some? <==> p.lastAt.Some?)
  }

  ghost predicate DistinctIds(pool: Lanes) {
    forall k, l | k in pool && l in pool && k.id == l.id :: k == l
  }

  lemma TestsAreTheNumbers(o: Options, p: Pool, l: L.View, now: real)
    ensures Passes(o, p, l, Unbypassed, now) <==> !Avoided(p, l, now)
    ensures Passes(o, p, l, SafeTail, now) <==> !LosesRounds(o, l)
    ensures Passes(o, p, l, Fast, now) <==> Quick(o, p, l, now)
    ensures Passes(o, p, l, Timed(L.Send), now) <==> Answered(l)
    ensures forall m :: Passes(o, p, l, Timed(m), now) <==> !Unknown(o, l, m, now)
    ensures forall m :: Passes(o, p, l, Untimed(m), now) <==> Unknown(o, l, m, now)
    ensures Passes(o, p, l, Usable, now) <==> Serving(l) && !Resting(p, l, now)
    ensures forall m | l.profiles.Of(m).median.Some? <==> l.profiles.Of(m).tail.Some? ::
              Expected(l, m) == Compared(l, m)
  {
  }

  lemma PrimariesAreThose(o: Options, p: Pool, pool: Lanes, now: real)
    ensures Same(Primaries(o, p, pool, now), Primary(o, pool))
    ensures Same(Spares(o, p, pool, now), Spare(o, pool))
  {
    hide Keep;
    assert forall l :: Passes(o, p, l, BeforeSpares, now) <==> l.id < o.sendReserved - o.sendSpare;
    assert forall l :: Passes(o, p, l, FromSpares, now) <==> l.id >= o.sendReserved - o.sendSpare;
    hide Passes;
    var before := Keep(o, p, pool, BeforeSpares, now);
    if before != [] { assert before[0] in before; }
    assert before == [] <==> forall k | k in pool :: k.id >= o.sendReserved - o.sendSpare;
    assert before == [] <==> !exists k | k in pool :: k.id < o.sendReserved - o.sendSpare;
    var primaries, spares := Primaries(o, p, pool, now), Spares(o, p, pool, now);
    assert forall l :: l in primaries <==> l in pool && IsPrimary(o, pool, l);
    assert forall l :: l in spares <==> l in Spare(o, pool);
  }

  lemma EligibleAreWorthy(o: Options, p: Pool, pool: Lanes, now: real)
    ensures Same(Eligible(o, p, pool, now), Worthy(o, p, pool, now))
  {
    hide Keep, Primaries, Primary, Avoided, LosesRounds;
    PrimariesAreThose(o, p, pool, now);
    forall l ensures Passes(o, p, l, Unbypassed, now) <==> !Avoided(p, l, now)
             ensures Passes(o, p, l, SafeTail, now) <==> !LosesRounds(o, l) {
      TestsAreTheNumbers(o, p, l, now);
    }
    hide Passes;
    var all, primary := Primaries(o, p, pool, now), Primary(o, pool);
    var kept := Keep(o, p, all, Unbypassed, now);
    var open := OrElse(kept, all);
    if kept != [] { assert kept[0] in kept; }
    assert kept == [] <==> forall k | k in primary :: Avoided(p, k, now);
    assert Same(open, Open(o, p, pool, now));
    hide Open;
    var safe := Keep(o, p, open, SafeTail, now);
    if safe != [] { assert safe[0] in safe; }
    assert safe == [] <==> forall k | k in Open(o, p, pool, now) :: LosesRounds(o, k);
  }

  lemma Sifted(o: Options, p: Pool, ls: Lanes, t: Tier, now: real)
    requires Same(ls, t)
    ensures Same(Keep(o, p, ls, Idle, now), IdleOf(t))
    ensures Same(Keep(o, p, ls, Fast, now), QuickOf(o, p, t, now))
    ensures Same(Keep(o, p, ls, Timed(L.Send), now), AnsweredOf(t))
    ensures forall m :: Same(Keep(o, p, ls, Timed(m), now), KnownBy(o, t, m, now))
  {
    hide Keep, Quick, Answered, Unknown;
    forall l ensures Passes(o, p, l, Fast, now) <==> Quick(o, p, l, now)
             ensures Passes(o, p, l, Timed(L.Send), now) <==> Answered(l)
             ensures forall m :: Passes(o, p, l, Timed(m), now) <==> !Unknown(o, l, m, now) {
      TestsAreTheNumbers(o, p, l, now);
    }
    assert forall l :: Passes(o, p, l, Idle, now) <==> l.inFlight == 0;
    hide Passes;
  }

  /** The idle lanes that have not answered, when none has. */
  lemma NoneAnswered(o: Options, p: Pool, ls: Lanes, t: Tier, now: real)
    requires Same(ls, t) && AnsweredOf(t) == {}
    ensures Same(Keep(o, p, ls, Untimed(L.Send), now), t)
  {
    hide Keep, Answered;
    forall l ensures Passes(o, p, l, Untimed(L.Send), now) <==> !Answered(l) {
      TestsAreTheNumbers(o, p, l, now);
    }
    hide Passes;
    assert forall l | l in t :: l !in AnsweredOf(t);
  }

  lemma {:induction false} KeepIsShorter(o: Options, p: Pool, ls: Lanes, t: Test, now: real)
    ensures |Keep(o, p, ls, t, now)| <= |ls|
  {
    hide Passes;
    if |ls| > 0 { KeepIsShorter(o, p, ls[1..], t, now); }
  }

  /** Both margin-based folds stay near the fastest. */
  lemma FoldsStayNear(o: Options, n: nat, ls: Lanes, t: Tier, order: Order, m: L.Measurement)
    requires o.switchMarginMs >= 0.0 && 0 < |ls| <= n + 1 && Same(ls, t) && Measured(ls)
    requires order == ByRtt(m) || (order == BySend && m == L.Send)
    requires forall l | l in ls :: Expected(l, m).Some?
    ensures NearTheFastest(o, n, t, m, Reduce(o, ls, order))
  {
    hide Reduce, C.Slack;
    forall l | l in ls ensures C.Measure(l, order) == Expected(l, m) {
      MeasuresAreExpected(ls, l, m);
    }
    hide Expected, C.Measure, Measured;
    var r := Reduce(o, ls, order);
    forall k | k in t
      ensures Expected(r, m).value <= Expected(k, m).value + C.Slack(o, n)
      ensures n > 0 && o.switchMarginMs > 0.0 ==> Expected(r, m).value < Expected(k, m).value + C.Slack(o, n)
    {
      C.FoldIsNearTheFastest(o, ls, order, k);
      SlackGrows(o, |ls| - 1, n);
    }
  }

  lemma MeasuresAreExpected(ls: Lanes, l: L.View, m: L.Measurement)
    requires Measured(ls) && l in ls
    ensures Compared(l, m) == Expected(l, m)
    ensures C.Measure(l, ByRtt(m)) == Expected(l, m)
    ensures C.Measure(l, BySend) == Expected(l, L.Send)
  {
    assert l.profiles.Of(m).median.Some? <==> l.profiles.Of(m).tail.Some?;
    assert l.profiles.Of(L.Send).median.Some? <==> l.profiles.Of(L.Send).tail.Some?;
  }

  lemma SlackGrows(o: Options, k: nat, n: nat)
    requires o.switchMarginMs >= 0.0 && k <= n
    ensures C.Slack(o, k) <= C.Slack(o, n)
    ensures k < n && o.switchMarginMs > 0.0 ==> C.Slack(o, k) < C.Slack(o, n)
    ensures k == 0 ==> C.Slack(o, k) == 0.0
  {
    assert n as real * o.switchMarginMs == k as real * o.switchMarginMs + (n - k) as real * o.switchMarginMs;
  }

  /** The orders without a margin: the fold ends at a lane that no other beats. */
  lemma {:induction false} FoldIsLeast(o: Options, best: L.View, ls: Lanes, order: Order)
    requires !order.BySend? && !order.ByRtt?
    ensures forall l | l == best || l in ls :: !Beats(o, l, ReduceFrom(o, best, ls, order), order)
    decreases |ls|
  {
    if |ls| > 0 {
      var next := if Beats(o, ls[0], best, order) then ls[0] else best;
      FoldIsLeast(o, next, ls[1..], order);
      BeatenStaysBeaten(o, ls[0], best, ReduceFrom(o, next, ls[1..], order), order);
    }
  }

  lemma BeatenStaysBeaten(o: Options, a: L.View, b: L.View, c: L.View, order: Order)
    requires !order.BySend? && !order.ByRtt?
    ensures Beats(o, a, b, order) && !Beats(o, a, c, order) ==> !Beats(o, b, c, order)
    ensures !Beats(o, a, b, order) && !Beats(o, b, c, order) ==> !Beats(o, a, c, order)
  {
  }

  lemma LeastOf(o: Options, ls: Lanes, order: Order)
    requires !order.BySend? && !order.ByRtt? && |ls| > 0
    ensures forall l | l in ls :: !Beats(o, l, Reduce(o, ls, order), order)
  {
    hide Beats;
    FoldIsLeast(o, ls[0], ls[1..], order);
  }

  lemma UntriedIsBestByProbes(o: Options, p: Pool, n: nat, ls: Lanes, t: Tier, now: real)
    requires o.switchMarginMs >= 0.0 && 0 < |ls| <= n + 1 && Same(ls, t) && Measured(ls)
    ensures BestByProbes(o, n, t, now, BestUntried(o, p, ls, now))
  {
    hide Keep, Reduce, NearTheFastest, Unknown, Measured;
    Sifted(o, p, ls, t, now);
    LeastOf(o, ls, ByLoad);
    hide KnownBy;
    var preflight, warm := Keep(o, p, ls, Timed(L.Preflight), now), Keep(o, p, ls, Timed(L.Warm), now);
    if |preflight| > 0 {
      assert preflight[0] in preflight;
      ProbesStayNear(o, p, n, ls, t, L.Preflight, now);
    } else if |warm| > 0 {
      assert warm[0] in warm;
      ProbesStayNear(o, p, n, ls, t, L.Warm, now);
    }
  }

  lemma ProbesStayNear(o: Options, p: Pool, n: nat, ls: Lanes, t: Tier, m: L.Measurement, now: real)
    requires o.switchMarginMs >= 0.0 && |ls| <= n + 1 && Same(ls, t) && Measured(ls)
    requires |Keep(o, p, ls, Timed(m), now)| > 0
    ensures NearTheFastest(o, n, KnownBy(o, t, m, now), m, Reduce(o, Keep(o, p, ls, Timed(m), now), ByRtt(m)))
  {
    hide Keep, Reduce, NearTheFastest;
    Sifted(o, p, ls, t, now);
    KeepIsShorter(o, p, ls, Timed(m), now);
    var known := Keep(o, p, ls, Timed(m), now);
    assert Measured(known);
    forall l | l in known ensures Expected(l, m).Some? {
      assert l in KnownBy(o, t, m, now);
      assert l.profiles.Of(m).median.Some? <==> l.profiles.Of(m).tail.Some?;
    }
    FoldsStayNear(o, n, known, KnownBy(o, t, m, now), ByRtt(m), m);
  }

  lemma AnswersStayNear(o: Options, p: Pool, n: nat, ls: Lanes, t: Tier, now: real)
    requires o.switchMarginMs >= 0.0 && |ls| <= n + 1 && Same(ls, t) && Measured(ls)
    ensures var known := Keep(o, p, ls, Timed(L.Send), now);
            && (known == [] <==> AnsweredOf(t) == {})
            && (known != [] ==> NearTheFastest(o, n, AnsweredOf(t), L.Send, Reduce(o, known, BySend)))
  {
    hide Keep, Reduce, NearTheFastest;
    Sifted(o, p, ls, t, now);
    KeepIsShorter(o, p, ls, Timed(L.Send), now);
    var known := Keep(o, p, ls, Timed(L.Send), now);
    assert Measured(known);
    forall l | l in known ensures Expected(l, L.Send).Some? {
      assert l in AnsweredOf(t);
      assert l.profiles.Of(L.Send).median.Some? <==> l.profiles.Of(L.Send).tail.Some?;
    }
    if known != [] {
      assert known[0] in AnsweredOf(t);
      FoldsStayNear(o, n, known, AnsweredOf(t), BySend, L.Send);
    }
  }

  lemma QuickStayNear(o: Options, p: Pool, n: nat, ls: Lanes, t: Tier, now: real)
    requires o.switchMarginMs >= 0.0 && |ls| <= n + 1 && Same(ls, t) && Measured(ls)
    ensures var known := Keep(o, p, Keep(o, p, ls, Fast, now), Idle, now);
            && Same(known, IdleOf(QuickOf(o, p, t, now)))
            && (known == [] <==> IdleOf(QuickOf(o, p, t, now)) == {})
            && (known != [] ==>
                  NearTheFastest(o, n, IdleOf(QuickOf(o, p, t, now)), L.Send, Reduce(o, known, BySend)))
  {
    hide Keep, Reduce, NearTheFastest;
    var fast := Keep(o, p, ls, Fast, now);
    Sifted(o, p, ls, t, now);
    Sifted(o, p, fast, QuickOf(o, p, t, now), now);
    KeepIsShorter(o, p, ls, Fast, now);
    KeepIsShorter(o, p, fast, Idle, now);
    var known := Keep(o, p, fast, Idle, now);
    assert Measured(known);
    forall l | l in known ensures Expected(l, L.Send).Some? {
      assert l in QuickOf(o, p, t, now);
    }
    if known != [] {
      assert known[0] in IdleOf(QuickOf(o, p, t, now));
      FoldsStayNear(o, n, known, IdleOf(QuickOf(o, p, t, now)), BySend, L.Send);
    }
  }

  lemma {:induction false} PinFound(o: Options, p: Pool, ls: Lanes, t: Tier, now: real)
    requires Same(ls, t) && DistinctIds(ls)
    ensures var found := PinnedAmong(o, p, ls, now);
            PinnedOf(p, t) == if found.Some? then {found.value} else {}
  {
    hide FindId, Answered;
    var found := PinnedAmong(o, p, ls, now);
    forall l ensures HasFresh(o, l, L.Send, now) <==> Answered(l) { TestsAreTheNumbers(o, p, l, now); }
    hide HasFresh;
    forall l | l in PinnedOf(p, t) ensures found == Some(l) {
      assert FindId(ls, p.pin.value).Some?;
    }
  }

  lemma TiersAreShort(o: Options, p: Pool, pool: Lanes, now: real)
    ensures |Eligible(o, p, pool, now)| <= |pool| && |Spares(o, p, pool, now)| <= |pool|
  {
    hide Keep;
    forall ls, t ensures |Keep(o, p, ls, t, now)| <= |ls| { KeepIsShorter(o, p, ls, t, now); }
  }

  /** What the router's lists stand for. */
  lemma ListsAreTiers(o: Options, p: Pool, ls: Lanes, t: Tier, pool: Lanes, now: real)
    requires Same(ls, t) && (forall l | l in ls :: l in pool) && Measured(pool) && DistinctIds(pool)
    requires o.switchMarginMs >= 0.0 && 0 < |pool| && |ls| <= |pool|
    ensures Measured(ls) && DistinctIds(ls)
    ensures var (idle, fast) := (Keep(o, p, ls, Idle, now), Keep(o, p, ls, Fast, now));
            && (idle == [] <==> IdleOf(t) == {})
            && Same(idle, IdleOf(t)) && |idle| <= |pool| && Measured(idle)
            && Same(fast, QuickOf(o, p, t, now)) && DistinctIds(fast)
            && Same(Keep(o, p, fast, Idle, now), IdleOf(QuickOf(o, p, t, now)))
            && DistinctIds(Keep(o, p, fast, Idle, now))
  {
    hide Keep, IdleOf, QuickOf;
    Sifted(o, p, ls, t, now);
    KeepIsShorter(o, p, ls, Idle, now);
    Sifted(o, p, Keep(o, p, ls, Fast, now), QuickOf(o, p, t, now), now);
    var idle := Keep(o, p, ls, Idle, now);
    if idle != [] { assert idle[0] in idle; }
  }

  lemma UntriedIdle(o: Options, p: Pool, pool: Lanes, n: nat, ls: Lanes, t: Tier, now: real)
    requires o.switchMarginMs >= 0.0 && 0 < |ls| <= n + 1 && Same(ls, t) && Measured(ls) && AnsweredOf(t) == {}
    ensures var untried := Keep(o, p, ls, Untimed(L.Send), now);
            untried != [] && BestByProbes(o, n, t, now, BestUntried(o, p, untried, now))
  {
    hide Keep, AnsweredOf, BestUntried, BestByProbes;
    NoneAnswered(o, p, ls, t, now);
    var untried := Keep(o, p, ls, Untimed(L.Send), now);
    KeepIsShorter(o, p, ls, Untimed(L.Send), now);
    assert ls[0] in untried;
    UntriedIsBestByProbes(o, p, n, untried, t, now);
  }

  /** The choice for a reply keeps to the rules. */
  lemma ReplyKeepsToTheRules(o: Options, p: Pool, pool: Lanes, now: real)
    requires o.switchMarginMs >= 0.0 && |pool| > 0 && Measured(pool) && DistinctIds(pool)
    ensures ServesReply(o, p, pool, now, ChooseSend(o, p, pool, now).lane)
    ensures ChooseSend(o, p, pool, now).Repin? <==> MovesThePin(o, p, pool, now)
  {
    hide Keep, Reduce, Eligible, Spares, BestUntried, PinnedAmong, Primaries, HasFresh, Worthy, Spare, IdleOf, QuickOf,
      AnsweredOf, PinnedOf, BestByProbes, NearTheFastest, Same, Measured, DistinctIds;
    var primary, spare := Eligible(o, p, pool, now), Spares(o, p, pool, now);
    var worthy, spares, n := Worthy(o, p, pool, now), Spare(o, pool), |pool| - 1;
    PrimariesAreThose(o, p, pool, now);
    EligibleAreWorthy(o, p, pool, now);
    TiersAreShort(o, p, pool, now);
    TiersAreFromThePool(o, p, pool, now);
    ListsAreTiers(o, p, primary, worthy, pool, now);
    ListsAreTiers(o, p, spare, spares, pool, now);
    var idle, idleSpare := Keep(o, p, primary, Idle, now), Keep(o, p, spare, Idle, now);
    var fast := Keep(o, p, primary, Fast, now);
    TiersNest(o, p, worthy, now);
    PinFound(o, p, fast, QuickOf(o, p, worthy, now), now);
    PinFound(o, p, Keep(o, p, fast, Idle, now), IdleOf(QuickOf(o, p, worthy, now)), now);
    QuickStayNear(o, p, n, primary, worthy, now);
    AnswersStayNear(o, p, n, idleSpare, IdleOf(spares), now);
    AnswersStayNear(o, p, n, idle, IdleOf(worthy), now);
    AnswersStayNear(o, p, n, primary, worthy, now);
    UntriedIsBestByProbes(o, p, n, primary, worthy, now);
    if idleSpare != [] { UntriedIsBestByProbes(o, p, n, idleSpare, IdleOf(spares), now); }
    if idle != [] && AnsweredOf(IdleOf(worthy)) == {} { UntriedIdle(o, p, pool, n, idle, IdleOf(worthy), now); }
  }

  lemma TiersNest(o: Options, p: Pool, t: Tier, now: real)
    ensures var quick := QuickOf(o, p, t, now);
            PinnedOf(p, IdleOf(quick)) <= PinnedOf(p, quick) && IdleOf(quick) <= IdleOf(t)
  {
    hide Quick, Answered;
  }

  lemma TiersAreFromThePool(o: Options, p: Pool, pool: Lanes, now: real)
    ensures forall l | l in Eligible(o, p, pool, now) :: l in pool
    ensures forall l | l in Spares(o, p, pool, now) :: l in pool
    ensures |pool| > 0 ==> |Eligible(o, p, pool, now)| > 0
  {
    hide Eligible, Spares;
  }

  // ------------------------------------------------------------ what the rules come to

  /** When a reply overflows. With a primary in the pool a spare is taken if and only if every
      worthy primary is busy and some spare is idle; it is then an idle one, and the pin stays. */
  lemma OverflowsIff(o: Options, p: Pool, pool: Lanes, now: real, primary: L.View)
    requires primary in pool && o.sendSpare != 0 && primary.id < o.sendReserved - o.sendSpare
    ensures var choice := ChooseSend(o, p, pool, now);
            && (choice.lane.id >= o.sendReserved - o.sendSpare <==>
                  && (forall l | l in Worthy(o, p, pool, now) :: l.inFlight != 0)
                  && (exists l | l in pool :: l.id >= o.sendReserved - o.sendSpare && l.inFlight == 0))
            && (choice.lane.id >= o.sendReserved - o.sendSpare ==> choice.lane.inFlight == 0 && choice.Stay?)
  {
    hide Keep, Eligible, Spares, Worthy, ChooseSend;
    PrimariesAreThose(o, p, pool, now);
    EligibleAreWorthy(o, p, pool, now);
    var spare := Spares(o, p, pool, now);
    var idle, idleSpare := Keep(o, p, Eligible(o, p, pool, now), Idle, now), Keep(o, p, spare, Idle, now);
    assert forall l :: Passes(o, p, l, Idle, now) <==> l.inFlight == 0;
    hide Passes;
    C.EligibleIsPrimary(o, p, pool, now, primary);
    OverflowOfLists(o, p, pool, now);
    if idle != [] { assert idle[0] in idle; }
    if idleSpare != [] { assert idleSpare[0] in idleSpare; }
    assert idle == [] <==> forall l | l in Worthy(o, p, pool, now) :: l.inFlight != 0;
    assert forall l :: l in spare <==> l in pool && l.id >= o.sendReserved - o.sendSpare;
    assert idleSpare == [] <==> !exists l | l in pool :: l.id >= o.sendReserved - o.sendSpare && l.inFlight == 0;
  }

  lemma OverflowOfLists(o: Options, p: Pool, pool: Lanes, now: real)
    requires |pool| > 0
    ensures var eligible := Eligible(o, p, pool, now);
            var (idle, choice) := (Keep(o, p, eligible, Idle, now), ChooseSend(o, p, pool, now));
            var idleSpare := Keep(o, p, Spares(o, p, pool, now), Idle, now);
            if idle == [] && idleSpare != [] then choice.Stay? && choice.lane in idleSpare
            else choice.lane in eligible
  {
    var eligible := Eligible(o, p, pool, now);
    FastIdleIsIdle(o, p, eligible, now);
    hide Passes, Keep, Reduce, Eligible, Spares, BestUntried, PinnedAmong, Primaries, HasFresh;
  }

  lemma FastIdleIsIdle(o: Options, p: Pool, ls: Lanes, now: real)
    ensures forall l | l in Keep(o, p, Keep(o, p, ls, Fast, now), Idle, now) :: l in Keep(o, p, ls, Idle, now)
    ensures Keep(o, p, ls, Idle, now) == [] ==> Keep(o, p, Keep(o, p, ls, Fast, now), Idle, now) == []
  {
    hide Keep, IsFastLane;
    var fastIdle := Keep(o, p, Keep(o, p, ls, Fast, now), Idle, now);
    if fastIdle != [] { assert fastIdle[0] in fastIdle; }
  }

  /** A primary that is avoided, or loses rounds, gets a reply only if each one that is not
      avoided does; an avoided one only if all are. */
  lemma AvoidedOnlyIfAll(o: Options, p: Pool, pool: Lanes, now: real, k: L.View)
    requires k in Primary(o, pool)
    ensures var l := ChooseSend(o, p, pool, now).lane;
            l in Primary(o, pool) ==>
              && (Avoided(p, l, now) ==> Avoided(p, k, now))
              && (LosesRounds(o, l) && !Avoided(p, k, now) ==> LosesRounds(o, k))
  {
    hide Keep, Eligible, Spares, ChooseSend, Avoided, LosesRounds;
    PrimariesAreThose(o, p, pool, now);
    EligibleAreWorthy(o, p, pool, now);
    C.ChoiceCases(o, p, pool, now);
    var l := ChooseSend(o, p, pool, now).lane;
    if l in Spare(o, pool) { assert l !in Primary(o, pool); }
  }

  /** Two lanes by themselves, in either order: the one expected to be faster by a margin wins;
      within the margin the better record decides a reply, then the lighter load. */
  lemma TwoLanes(o: Options, a: L.View, b: L.View)
    requires o.switchMarginMs > 0.0 && Measured([a, b])
    requires Expected(a, L.Send).Some? && Expected(b, L.Send).Some?
    ensures var (x, y) := (Expected(a, L.Send).value, Expected(b, L.Send).value);
            || y - x >= o.switchMarginMs
            || (&& y - x > -o.switchMarginMs
                && (|| a.score.rabbits - a.score.turtles > b.score.rabbits - b.score.turtles
                    || (&& a.score.rabbits - a.score.turtles == b.score.rabbits - b.score.turtles
                        && a.inFlight < b.inFlight)))
            ==> Reduce(o, [a, b], BySend) == a && Reduce(o, [b, a], BySend) == a
    ensures var (x, y) := (Expected(a, L.Send).value, Expected(b, L.Send).value);
            && (y - x > -o.switchMarginMs && y - x < o.switchMarginMs
                && a.score.Net() == b.score.Net() && a.inFlight == b.inFlight
                ==> Reduce(o, [a, b], BySend) == a)
  {
    assert a in [a, b] && b in [a, b];
    assert a.profiles.Of(L.Send).median.Some? <==> a.profiles.Of(L.Send).tail.Some?;
    assert b.profiles.Of(L.Send).median.Some? <==> b.profiles.Of(L.Send).tail.Some?;
    assert [a, b][1..] == [b] && [b, a][1..] == [a];
  }

  /** Probes and polls have no record: within the margin the load decides. */
  lemma TwoProbed(o: Options, a: L.View, b: L.View, m: L.Measurement)
    requires o.switchMarginMs > 0.0 && Measured([a, b])
    requires Expected(a, m).Some? && Expected(b, m).Some?
    ensures var (x, y) := (Expected(a, m).value, Expected(b, m).value);
            || y - x >= o.switchMarginMs
            || (y - x > -o.switchMarginMs && a.inFlight < b.inFlight)
            ==> Reduce(o, [a, b], ByRtt(m)) == a && Reduce(o, [b, a], ByRtt(m)) == a
  {
    assert a in [a, b] && b in [a, b];
    assert a.profiles.Of(m).median.Some? <==> a.profiles.Of(m).tail.Some?;
    assert b.profiles.Of(m).median.Some? <==> b.profiles.Of(m).tail.Some?;
    assert [a, b][1..] == [b] && [b, a][1..] == [a];
  }

  // ------------------------------------------------------------ who may be asked

  /** The lanes on offer to a request: the ready, unparked ones, or all ready ones if each is
      parked; of these its own band, or all if the band has none. */
  ghost function OnOffer(o: Options, p: Pool, role: Role, now: real): Tier {
    var routable := Awake(p, now);
    set l | l in routable
            && (OwnBand(o, l, role) || forall k | k in routable :: !OwnBand(o, k, role))
  }

  ghost function Awake(p: Pool, now: real): Tier {
    set l | l in p.lanes && Serving(l)
            && (Resting(p, l, now) ==> forall k | k in p.lanes && Serving(k) :: Resting(p, k, now))
  }

  /** With a reservation the first lanes carry replies, and all others the rest. */
  ghost predicate OwnBand(o: Options, l: L.View, role: Role) {
    o.sendReserved == 0 || (role == SendRole <==> l.id < o.sendReserved)
  }

  /** Whoever receives avoids the lanes at their cap, unless each of them is. */
  ghost function Uncapped(o: Options, p: Pool, role: Role, now: real): Tier {
    set l | l in OnOffer(o, p, role, now)
            && (role == SendRole || l.inFlight < o.maxPollInFlight
                || forall k | k in OnOffer(o, p, role, now) :: k.inFlight >= o.maxPollInFlight)
  }

  lemma CandidatesAreOnOffer(o: Options, p: Pool, role: Role, now: real)
    ensures Same(Candidates(o, p, role, now), OnOffer(o, p, role, now))
  {
    hide Keep, Resting;
    AwakeAreRoutable(o, p, now);
    var routable := OrElse(Keep(o, p, p.lanes, Usable, now), Keep(o, p, p.lanes, Routable, now));
    var banded := Keep(o, p, routable, OfBand(role), now);
    assert forall l :: Passes(o, p, l, OfBand(role), now) <==> OwnBand(o, l, role);
    hide Passes, Awake, OwnBand;
    if banded != [] { assert banded[0] in banded; }
    assert banded == [] <==> forall k | k in Awake(p, now) :: !OwnBand(o, k, role);
  }

  lemma AwakeAreRoutable(o: Options, p: Pool, now: real)
    ensures Same(OrElse(Keep(o, p, p.lanes, Usable, now), Keep(o, p, p.lanes, Routable, now)), Awake(p, now))
  {
    hide Keep, Resting;
    forall l ensures Passes(o, p, l, Usable, now) <==> Serving(l) && !Resting(p, l, now) {
      TestsAreTheNumbers(o, p, l, now);
    }
    assert forall l :: Passes(o, p, l, Routable, now) <==> Serving(l);
    hide Passes, Serving;
    var usable := Keep(o, p, p.lanes, Usable, now);
    if usable != [] { assert usable[0] in usable; }
    assert usable == [] <==> forall k | k in p.lanes && Serving(k) :: Resting(p, k, now);
  }

  lemma BoundedAreUncapped(o: Options, p: Pool, role: Role, now: real)
    ensures Same(Bounded(o, p, role, now), Uncapped(o, p, role, now))
  {
    hide Keep, OnOffer, Candidates;
    CandidatesAreOnOffer(o, p, role, now);
    assert forall l :: Passes(o, p, l, UnderCap, now) <==> l.inFlight < o.maxPollInFlight;
    hide Passes;
    var under := Keep(o, p, Candidates(o, p, role, now), UnderCap, now);
    if under != [] { assert under[0] in under; }
    assert under == [] <==> forall k | k in OnOffer(o, p, role, now) :: k.inFlight >= o.maxPollInFlight;
  }

  // ------------------------------------------------------------ every request

  /** No sample is older than any. */
  ghost predicate NoLater(a: Option<real>, b: Option<real>) {
    a.None? || (b.Some? && a.value <= b.value)
  }

  /** Warming goes to the idle lane that was warmed longest ago, or to such a busy one. */
  ghost predicate ServesWarming(t: Tier, l: L.View) {
    var asked := if IdleOf(t) == {} then t else IdleOf(t);
    l in asked && forall k | k in asked :: NoLater(l.profiles.warm.lastAt, k.profiles.warm.lastAt)
  }

  /** Other traffic measures first: a lane not known of late, by load, then by age. When all are
      known it goes to one near the fastest. */
  ghost predicate ServesOther(o: Options, n: nat, t: Tier, m: L.Measurement, now: real, l: L.View) {
    var unknown := t - KnownBy(o, t, m, now);
    if unknown == {} then NearTheFastest(o, n, t, m, l)
    else
      && l in unknown
      && forall k | k in unknown ::
           l.inFlight < k.inFlight
           || (l.inFlight == k.inFlight && NoLater(l.profiles.Of(m).lastAt, k.profiles.Of(m).lastAt))
  }

  /** Which lane a request is answered with. */
  ghost predicate Serves(o: Options, p: Pool, role: Role, m: L.Measurement, now: real, l: L.View)
    requires |Bounded(o, p, role, now)| > 0
  {
    var n, t := |Bounded(o, p, role, now)| - 1, Uncapped(o, p, role, now);
    if m == L.Warm then ServesWarming(t, l)
    else if role == SendRole then ServesReply(o, p, Bounded(o, p, role, now), now, l)
    else ServesOther(o, n, t, m, now, l)
  }

  lemma WarmingKeepsToTheRules(o: Options, p: Pool, ls: Lanes, t: Tier, now: real)
    requires |ls| > 0 && Same(ls, t)
    ensures ServesWarming(t, Reduce(o, OrElse(Keep(o, p, ls, Idle, now), ls), OldestSample(L.Warm)))
  {
    hide Keep, Reduce;
    Sifted(o, p, ls, t, now);
    var idle := Keep(o, p, ls, Idle, now);
    hide IdleOf;
    if idle != [] { assert idle[0] in idle; }
    LeastOf(o, OrElse(idle, ls), OldestSample(L.Warm));
  }

  lemma OthersKeepToTheRules(o: Options, p: Pool, ls: Lanes, t: Tier, m: L.Measurement, now: real)
    requires o.switchMarginMs >= 0.0 && |ls| > 0 && Same(ls, t) && Measured(ls)
    ensures var unmeasured := Keep(o, p, ls, Untimed(m), now);
            var l := if |unmeasured| > 0 then Reduce(o, unmeasured, ByLoadThenAge(m)) else Reduce(o, ls, ByRtt(m));
            ServesOther(o, |ls| - 1, t, m, now, l)
  {
    hide Keep, Reduce, NearTheFastest, Unknown;
    var unmeasured, unknown := Keep(o, p, ls, Untimed(m), now), t - KnownBy(o, t, m, now);
    forall l ensures Passes(o, p, l, Untimed(m), now) <==> Unknown(o, l, m, now) { TestsAreTheNumbers(o, p, l, now); }
    hide Passes;
    assert Same(unmeasured, unknown);
    if |unmeasured| > 0 {
      assert unmeasured[0] in unknown;
      LeastOf(o, unmeasured, ByLoadThenAge(m));
    } else {
      assert unknown == {};
      forall l | l in ls ensures Expected(l, m).Some? {
        assert l !in unknown;
        KnownIsExpected(o, ls, l, m, now);
      }
      FoldsStayNear(o, |ls| - 1, ls, t, ByRtt(m), m);
    }
  }

  lemma KnownIsExpected(o: Options, ls: Lanes, l: L.View, m: L.Measurement, now: real)
    requires Measured(ls) && l in ls && !Unknown(o, l, m, now)
    ensures Expected(l, m).Some?
  {
    assert l.profiles.Of(m).median.Some? <==> l.profiles.Of(m).tail.Some?;
  }

  /** A request for a named lane is a preflight of a reply lane on offer, or an error. */
  lemma ForcedPickIff(o: Options, p: Pool, role: Role, m: L.Measurement, id: int, now: real)
    ensures var (p', r) := Picked(o, p, role, m, Some(id), now);
            && p' == p
            && (r == Ok(id) <==> role == SendRole && exists l | l in OnOffer(o, p, role, now) :: l.id == id)
            && (r == Err(ForcedOnlyForSend) <==> role != SendRole && OnOffer(o, p, role, now) != {})
            && (r == Err(NoRoutableLane) <==> forall l | l in p.lanes :: !Serving(l))
  {
    hide Candidates, OnOffer, Serving;
    CandidatesAreOnOffer(o, p, role, now);
    NoneOnOfferIff(o, p, role, now);
    var pool := Candidates(o, p, role, now);
    if pool != [] { assert pool[0] in pool; }
    if FindId(pool, id).Some? { assert FindId(pool, id).value in OnOffer(o, p, role, now); }
  }

  lemma NoneOnOfferIff(o: Options, p: Pool, role: Role, now: real)
    ensures OnOffer(o, p, role, now) == {} <==> forall l | l in p.lanes :: !Serving(l)
  {
    hide Candidates, OnOffer;
    CandidatesAreOnOffer(o, p, role, now);
    C.CandidatesExist(o, p, role, now);
    var pool := Candidates(o, p, role, now);
    if pool != [] { assert pool[0] in pool && Serving(pool[0]); }
    if l :| l in p.lanes && Serving(l) { assert pool != []; }
  }

  /** Any other request gets a lane that its rules allow, if there is a ready one; only a reply
      can move the pin, and it does exactly by the rule for that. Bypasses that have not run out stay. */
  lemma PickKeepsToTheRules(o: Options, p: Pool, role: Role, m: L.Measurement, now: real)
    requires o.switchMarginMs >= 0.0 && Measured(p.lanes) && DistinctIds(p.lanes)
    requires exists l :: l in p.lanes && Serving(l)
    ensures |Bounded(o, p, role, now)| > 0
    ensures var (p', r) := Picked(o, p, role, m, None, now);
            && (exists l | l in Uncapped(o, p, role, now) :: Serves(o, p, role, m, now, l) && r == Ok(l.id))
            && (if role == SendRole && m != L.Warm && MovesThePin(o, p, Bounded(o, p, role, now), now)
                then r.Ok? && p'.pin == Some(r.value) && p'.unpin == None
                else p'.pin == p.pin && p'.unpin == p.unpin)
            && p' == p.(pin := p'.pin, unpin := p'.unpin, bypass := p'.bypass)
            && (forall id | id in p'.bypass :: id in p.bypass && p'.bypass[id] == p.bypass[id])
            && (forall id | id in p.bypass && id !in p'.bypass :: p.bypass[id] <= now)
  {
    hide Candidates, Bounded, Uncapped, OnOffer, Serving, ServesOther, ServesReply, ServesWarming, MovesThePin,
      Keep, Reduce, ChooseSend, Measured, DistinctIds, Primaries, FindId;
    NoneOnOfferIff(o, p, role, now);
    CandidatesAreOnOffer(o, p, role, now);
    BoundedAreUncapped(o, p, role, now);
    BoundedIsMeasured(o, p, role, now);
    var ls, t := Bounded(o, p, role, now), Uncapped(o, p, role, now);
    R.PickKeepsShape(o, p, role, m, None, now);
    R.PickOnlyLiftsBypasses(o, p, role, m, None, now);
    WarmingKeepsToTheRules(o, p, ls, t, now);
    OthersKeepToTheRules(o, p, ls, t, m, now);
    ReplyKeepsToTheRules(o, p, ls, now);
    C.ChoiceIsFromThePool(o, p, ls, now);
    var (p', r) := Picked(o, p, role, m, None, now);
    var l := Pick(o, p, role, m, now);
    assert r == Ok(l.id) && l in ls;
    assert Serves(o, p, role, m, now, l);
  }

  /** The lane an unforced pick names. */
  ghost function Pick(o: Options, p: Pool, role: Role, m: L.Measurement, now: real): L.View
    requires |Bounded(o, p, role, now)| > 0
  {
    var ls := Bounded(o, p, role, now);
    if m == L.Warm then Reduce(o, OrElse(Keep(o, p, ls, Idle, now), ls), OldestSample(L.Warm))
    else if role == SendRole then ChooseSend(o, p, ls, now).lane
    else
      var unmeasured := Keep(o, p, ls, Untimed(m), now);
      if |unmeasured| > 0 then Reduce(o, unmeasured, ByLoadThenAge(m)) else Reduce(o, ls, ByRtt(m))
  }

  lemma BoundedIsMeasured(o: Options, p: Pool, role: Role, now: real)
    requires Measured(p.lanes) && DistinctIds(p.lanes)
    ensures Measured(Bounded(o, p, role, now)) && DistinctIds(Bounded(o, p, role, now))
  {
    hide Bounded, Candidates;
  }

  // ------------------------------------------------------------ over every run

  lemma RunsAreMeasured(o: Options, birth: real, r: Run<R.Op>)
    requires o.Accepted() && o.lane.window >= 1
    ensures Measured(R.After(o, birth, r).pool.lanes) && DistinctIds(R.After(o, birth, r).pool.lanes)
  {
    hide R.After;
    R.RunsAreWell(o, birth, r);
    var lanes := R.After(o, birth, r).pool.lanes;
    forall l, m | l in lanes
      ensures l.profiles.Of(m).median.Some? <==> l.profiles.Of(m).tail.Some?
      ensures l.profiles.Of(m).median.Some? <==> l.profiles.Of(m).lastAt.Some?
    {
      var i :| 0 <= i < |lanes| && lanes[i] == l;
      assert R.LaneIsWell(R.After(o, birth, r).pool, i);
      SettledIsMeasured(l.profiles.Of(m));
    }
    forall k, l | k in lanes && l in lanes && k.id == l.id ensures k == l {
      var i :| 0 <= i < |lanes| && lanes[i] == k;
      var j :| 0 <= j < |lanes| && lanes[j] == l;
      assert R.LaneIsWell(R.After(o, birth, r).pool, i) && R.LaneIsWell(R.After(o, birth, r).pool, j);
    }
  }

  lemma SettledIsMeasured(p: L.Profile)
    requires L.Settled(p)
    ensures (p.median.Some? <==> p.tail.Some?) && (p.median.Some? <==> p.lastAt.Some?)
  {
    if p.samples != [] { L.RanksAreOrdered(p.samples); } else { L.NoRanks(); }
  }

  /** In every state a pool can reach before it is closed, each request, of any kind, is given a
      lane that its rules allow, and moves the pin exactly by its rule. */
  lemma RequestsKeepToTheRules(o: Options, birth: real, r: Run<R.Op>, role: Role, m: L.Measurement, now: real)
    requires o.Accepted() && o.lane.window >= 1 && o.switchMarginMs >= 0.0 && !R.After(o, birth, r).pool.closed
    ensures var p := R.After(o, birth, r).pool;
            var (p', answer) := Picked(o, p, role, m, None, now);
            && answer.Ok? && 0 <= answer.value < |p.lanes| && |Bounded(o, p, role, now)| > 0
            && p.lanes[answer.value] in Uncapped(o, p, role, now)
            && Serves(o, p, role, m, now, p.lanes[answer.value])
            && (if role == SendRole && m != L.Warm && MovesThePin(o, p, Bounded(o, p, role, now), now)
                then p'.pin == Some(answer.value) else p'.pin == p.pin)
  {
    hide R.After, Picked, Bounded, Uncapped, Serves, MovesThePin, Measured, DistinctIds;
    R.RoutingIsTotal(o, birth, r, role, m, now);
    R.RunsAreWell(o, birth, r);
    RunsAreMeasured(o, birth, r);
    var p := R.After(o, birth, r).pool;
    assert p.lanes[0] in p.lanes && Serving(p.lanes[0]);
    PickKeepsToTheRules(o, p, role, m, now);
    var l :| l in Uncapped(o, p, role, now) && Serves(o, p, role, m, now, l)
             && Picked(o, p, role, m, None, now).1 == Ok(l.id);
    UncappedIsALane(o, p, role, now, l);
    var i :| 0 <= i < |p.lanes| && p.lanes[i] == l;
  }

  lemma UncappedIsALane(o: Options, p: Pool, role: Role, now: real, l: L.View)
    requires l in Uncapped(o, p, role, now)
    ensures l in p.lanes
  {
  }

  /** Overflow in every reachable state. If there is a primary among the lanes on offer, a reply
      is given a spare if and only if each worthy primary carries a request already and an idle
      spare is on offer; the lane is then idle, and the pin stays. */
  lemma RepliesOverflowIff(o: Options, birth: real, r: Run<R.Op>, m: L.Measurement, now: real, primary: L.View)
    requires o.Accepted() && o.lane.window >= 1 && o.sendSpare > 0 && !R.After(o, birth, r).pool.closed
    requires m != L.Warm && primary.id < o.sendReserved - o.sendSpare
    requires primary in OnOffer(o, R.After(o, birth, r).pool, SendRole, now)
    ensures var p := R.After(o, birth, r).pool;
            var (p', answer) := Picked(o, p, SendRole, m, None, now);
            && answer.Ok? && 0 <= answer.value < |p.lanes|
            && (answer.value >= o.sendReserved - o.sendSpare <==>
                  && (forall l | l in Worthy(o, p, Bounded(o, p, SendRole, now), now) :: l.inFlight != 0)
                  && (exists l | l in OnOffer(o, p, SendRole, now) ::
                        l.id >= o.sendReserved - o.sendSpare && l.inFlight == 0))
            && (answer.value >= o.sendReserved - o.sendSpare ==>
                  p.lanes[answer.value].inFlight == 0 && p'.pin == p.pin)
  {
    hide R.After, Candidates, Bounded, OnOffer, Worthy, ChooseSend, Primaries, FindId, Swept;
    R.RoutingIsTotal(o, birth, r, SendRole, m, now);
    var p := R.After(o, birth, r).pool;
    var pool := Bounded(o, p, SendRole, now);
    CandidatesAreOnOffer(o, p, SendRole, now);
    ReplyPool(o, p, now);
    OverflowsIff(o, p, pool, now, primary);
    C.ChoiceIsFromThePool(o, p, pool, now);
    var l := ChooseSend(o, p, pool, now).lane;
    var i :| 0 <= i < |p.lanes| && p.lanes[i] == l;
    assert Picked(o, p, SendRole, m, None, now).1 == Ok(l.id);
    PinAfterPick(o, p, m, now);
  }

  lemma ReplyPool(o: Options, p: Pool, now: real)
    ensures Bounded(o, p, SendRole, now) == Candidates(o, p, SendRole, now)
  {
  }

  lemma PinAfterPick(o: Options, p: Pool, m: L.Measurement, now: real)
    requires m != L.Warm && |Bounded(o, p, SendRole, now)| > 0
    ensures var choice := ChooseSend(o, p, Bounded(o, p, SendRole, now), now);
            choice.Stay? ==> Picked(o, p, SendRole, m, None, now).0.pin == p.pin
  {
    hide Candidates, Bounded, ChooseSend, Primaries, FindId;
  }

  /** And no reply goes to a primary that is avoided, or loses rounds, while one is on offer that
      is not. */
  lemma RepliesShunTheAvoided(
      o: Options, birth: real, r: Run<R.Op>, m: L.Measurement, now: real, k: L.View)
    requires o.Accepted() && o.lane.window >= 1 && !R.After(o, birth, r).pool.closed && m != L.Warm
    requires k in Primary(o, Bounded(o, R.After(o, birth, r).pool, SendRole, now))
    ensures var p := R.After(o, birth, r).pool;
            var answer := Picked(o, p, SendRole, m, None, now).1;
            && answer.Ok? && 0 <= answer.value < |p.lanes|
            && (p.lanes[answer.value] in Primary(o, Bounded(o, p, SendRole, now)) && !Avoided(p, k, now) ==>
                  && !Avoided(p, p.lanes[answer.value], now)
                  && (!LosesRounds(o, k) ==> !LosesRounds(o, p.lanes[answer.value])))
  {
    hide R.After, Candidates, Bounded, Primary, ChooseSend, Primaries, FindId, Swept, Avoided, LosesRounds;
    R.RoutingIsTotal(o, birth, r, SendRole, m, now);
    var p := R.After(o, birth, r).pool;
    var pool := Bounded(o, p, SendRole, now);
    assert pool != [] by { InPool(o, pool, k); }
    AvoidedOnlyIfAll(o, p, pool, now, k);
    C.ChoiceIsFromThePool(o, p, pool, now);
    var l := ChooseSend(o, p, pool, now).lane;
    var i :| 0 <= i < |p.lanes| && p.lanes[i] == l;
    assert Picked(o, p, SendRole, m, None, now).1 == Ok(l.id);
  }

  lemma InPool(o: Options, pool: Lanes, k: L.View)
    requires k in Primary(o, pool)
    ensures k in pool
  {
  }
}
