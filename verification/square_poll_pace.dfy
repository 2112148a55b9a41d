/** How fast the poll asks: what a failure, a hit and a finished round hold back, when exactly the
    next fetch may go, what it carries, and that stopping is final. */
module SquarePollPace {
  import opened Wrappers
  import opened Runs
  import opened Sets
  import opened SquarePoll
  import opened SquarePollRuns

  // ------------------------------------------------------------ failures in a row

  /** A round that nobody won, or a staggered fetch without a page, ends; after a stop the latter
      is no failure. */
  ghost predicate Fails(o: Options, p: Poll, op: Op)
    requires o.Accepted()
  {
    && Enabled(o, p, op)
    && (|| (op.EndRound? && !p.round.value.won)
        || (op.Release? && p.fetches[op.f].slot == Failed && !p.stopped))
  }

  ghost predicate Succeeds(o: Options, p: Poll, op: Op)
    requires o.Accepted()
  {
    && Enabled(o, p, op)
    && ((op.EndRound? && p.round.value.won) || (op.Release? && p.fetches[op.f].slot != Failed))
  }

  ghost function FailuresInARow(o: Options, r: Run<Op>): nat
    requires o.Accepted()
  {
    match r
    case Start => 0
    case Then(before, op) =>
      var p := After(o, before);
      if Succeeds(o, p, op) then 0 else FailuresInARow(o, before) + if Fails(o, p, op) then 1 else 0
  }

  ghost function Doubled(x: real, n: nat): real { if n == 0 then x else 2.0 * Doubled(x, n - 1) }

  /** What the next failure costs after `n` of them in a row: the least backoff, doubled for each,
      up to the greatest. */
  ghost function Backoff(o: Options, n: nat): real {
    var b := Doubled(o.minBackoffMs, n);
    if n > 0 && b > o.maxBackoffMs then o.maxBackoffMs else b
  }

  lemma {:induction false} RunsBackOff(o: Options, r: Run<Op>)
    requires o.Accepted() && o.maxBackoffMs >= 0.0
    ensures After(o, r).backoff == Backoff(o, FailuresInARow(o, r))
  {
    if r.Then? {
      hide Step, Enabled, Backoff;
      var p, n := After(o, r.before), FailuresInARow(o, r.before);
      RunsBackOff(o, r.before);
      NextBackoff(o, n);
      if Enabled(o, p, r.last) { StepBacksOff(o, p, r.last); }
    }
  }

  lemma NextBackoff(o: Options, n: nat)
    requires o.maxBackoffMs >= 0.0
    ensures Backoff(o, 0) == o.minBackoffMs
    ensures Backoff(o, n + 1) ==
            if 2.0 * Backoff(o, n) > o.maxBackoffMs then o.maxBackoffMs else 2.0 * Backoff(o, n)
  {
    assert Doubled(o.minBackoffMs, 0) == o.minBackoffMs;
  }

  lemma StepBacksOff(o: Options, p: Poll, op: Op)
    requires o.Accepted() && Enabled(o, p, op)
    ensures var doubled := 2.0 * p.backoff;
            Step(o, p, op).backoff ==
            if Succeeds(o, p, op) then o.minBackoffMs
            else if Fails(o, p, op) then (if doubled > o.maxBackoffMs then o.maxBackoffMs else doubled)
            else p.backoff
  {
    hide Smoothed, SightedAll, Spacing, Due, Later;
  }

  // ------------------------------------------------------------ what holds back the next fetch

  /** Until when an operation holds back the next fetch, if it does. A round holds back the next
      for its pause: the interval, or the quiet window after a hit if that is longer, or the
      backoff. A staggered fetch does so after a hit or a failure. */
  ghost function Hold(o: Options, p: Poll, op: Op, backoff: real): Option<real>
    requires o.Accepted()
  {
    if Fails(o, p, op) then Some(op.at + backoff)
    else if !Succeeds(o, p, op) then None
    else if op.EndRound? then
      Some(op.at + if p.round.value.hits && op.quietMs > o.intervalMs then op.quietMs else o.intervalMs)
    else if p.fetches[op.f].slot == Done(true) && op.quietMs > 0.0 then Some(op.at + op.quietMs)
    else None
  }

  ghost function Holds(o: Options, r: Run<Op>): seq<real>
    requires o.Accepted()
  {
    match r
    case Start => []
    case Then(before, op) =>
      var h := Hold(o, After(o, before), op, Backoff(o, FailuresInARow(o, before)));
      Holds(o, before) + if h.Some? then [h.value] else []
  }

  /** The poll waits for the latest of the holds. */
  ghost predicate WaitsForAll(p: Poll, holds: seq<real>) {
    && (p.holdUntil.None? <==> holds == [])
    && (p.holdUntil.Some? ==> p.holdUntil.value in holds && forall x | x in holds :: x <= p.holdUntil.value)
  }

  ghost predicate Sane(o: Options) {
    o.Accepted() && 0.0 <= o.intervalMs && 0.0 <= o.minBackoffMs && 0.0 <= o.maxBackoffMs
  }

  /** While a round is on, all earlier holds are over. */
  ghost predicate RoundWaited(p: Poll, holds: seq<real>, now: real) {
    p.round.Some? ==> forall x | x in holds :: x <= now
  }

  lemma {:induction false} RunsWaitForAll(o: Options, r: Run<Op>, now: real)
    requires Sane(o) && InOrder(r, now)
    ensures WaitsForAll(After(o, r), Holds(o, r)) && RoundWaited(After(o, r), Holds(o, r), now)
  {
    if r.Then? {
      hide Step, Enabled, WaitsForAll, RoundWaited, Hold, Bounded, Backoff;
      var p, holds := After(o, r.before), Holds(o, r.before);
      RunsWaitForAll(o, r.before, r.last.at);
      RunsAreBounded(o, r.before);
      RunsBackOff(o, r.before);
      BackoffIsPositive(o, FailuresInARow(o, r.before));
      if Enabled(o, p, r.last) {
        StepHolds(o, p, r.last, holds, now);
      } else {
        NothingHolds(o, p, r.last, p.backoff);
        LaterStill(p, holds, r.last.at, now);
        assert holds + [] == holds;
      }
    }
  }

  lemma NothingHolds(o: Options, p: Poll, op: Op, backoff: real)
    requires o.Accepted() && !Enabled(o, p, op)
    ensures Hold(o, p, op, backoff).None?
  {
  }

  lemma LaterStill(p: Poll, holds: seq<real>, before: real, now: real)
    requires RoundWaited(p, holds, before) && before <= now
    ensures RoundWaited(p, holds, now)
  {
  }

  lemma BackoffIsPositive(o: Options, n: nat)
    requires Sane(o)
    ensures Backoff(o, n) >= 0.0
  {
    DoubledIsPositive(o.minBackoffMs, n);
  }

  lemma {:induction false} DoubledIsPositive(x: real, n: nat)
    requires x >= 0.0
    ensures Doubled(x, n) >= 0.0
  {
    if n > 0 { DoubledIsPositive(x, n - 1); }
  }

  lemma StepHolds(o: Options, p: Poll, op: Op, holds: seq<real>, now: real)
    requires Sane(o) && Bounded(o, p) && Enabled(o, p, op) && op.at <= now && p.backoff >= 0.0
    requires WaitsForAll(p, holds) && RoundWaited(p, holds, op.at)
    ensures var h := Hold(o, p, op, p.backoff);
            var all := holds + if h.Some? then [h.value] else [];
            WaitsForAll(Step(o, p, op), all) && RoundWaited(Step(o, p, op), all, now)
  {
    StepSetsHold(o, p, op);
    StepStartsRound(o, p, op);
    HoldsAfter(o, p, op);
    hide Step, Hold, Enabled, Bounded;
    var h := Hold(o, p, op, p.backoff);
    var all := holds + if h.Some? then [h.value] else [];
    if h.Some? {
      assert h.value in all && forall x | x in all :: x in holds || x == h.value;
      assert forall x | x in holds :: x in all;
    } else {
      assert all == holds;
    }
  }

  lemma HoldsAfter(o: Options, p: Poll, op: Op)
    requires o.Accepted()
    ensures Hold(o, p, op, p.backoff).Some? ==> op.Release? || op.EndRound?
  {
  }

  /** A round that ends sets the hold; a staggered fetch can only put it off. */
  lemma StepSetsHold(o: Options, p: Poll, op: Op)
    requires Sane(o) && Enabled(o, p, op) && p.backoff >= 0.0
    ensures var (h, next) := (Hold(o, p, op, p.backoff), Step(o, p, op).holdUntil);
            && (h.None? ==> next == p.holdUntil)
            && (h.Some? && op.EndRound? ==> next == h && h.value >= op.at)
            && (h.Some? && !op.EndRound? ==>
                  next == if p.holdUntil.Some? && p.holdUntil.value > h.value then p.holdUntil else h)
            && (op.EndRound? ==> h.Some? && p.round.Some?)
  {
    if op.EndRound? {
      EndRoundHolds(o, p, op.quietMs, op.at);
    } else if op.Release? {
      ReleaseHolds(o, p, op.f, op.quietMs, op.at);
    } else {
      HoldsAfter(o, p, op);
      OthersKeepHold(o, p, op);
    }
    hide Step, Hold, Enabled;
  }

  lemma EndRoundHolds(o: Options, p: Poll, quietMs: real, at: real)
    requires Sane(o) && p.backoff >= 0.0 && MayEndRound(p)
    ensures var h := Hold(o, p, EndRound(quietMs, at), p.backoff);
            RoundEnded(o, p, quietMs, at).holdUntil == h && h.Some? && h.value >= at
  {
  }

  lemma ReleaseHolds(o: Options, p: Poll, f: nat, quietMs: real, at: real)
    requires Sane(o) && p.backoff >= 0.0 && MayRelease(p, f)
    ensures var h := Hold(o, p, Release(f, quietMs, at), p.backoff);
            Released(o, p, f, quietMs, at).holdUntil
            == if h.None? || (p.holdUntil.Some? && p.holdUntil.value > h.value) then p.holdUntil else h
  {
  }

  lemma OthersKeepHold(o: Options, p: Poll, op: Op)
    requires o.Accepted() && Enabled(o, p, op) && !op.EndRound? && !op.Release?
    ensures Step(o, p, op).holdUntil == p.holdUntil
  {
    hide Smoothed, SightedAll, Spacing, Due, MayStartRound;
  }

  lemma StepStartsRound(o: Options, p: Poll, op: Op)
    requires o.Accepted() && Bounded(o, p) && Enabled(o, p, op)
    ensures var q := Step(o, p, op);
            && (q.round.Some? && p.round.None? ==> op.StartRound? && (p.holdUntil.Some? ==> p.holdUntil.value <= op.at))
            && (op.Release? || op.EndRound? ==> q.round.None?)
  {
    hide Smoothed, SightedAll, Spacing, Later, Min, Max;
  }

  // ------------------------------------------------------------ what was asked, and when

  /** A call to the fetcher: when, and for which cursor. */
  datatype Call = Call(at: real, token: Option<string>)

  /** The staggered fetches, in the order of their launches. */
  ghost function Launches(o: Options, r: Run<Op>): seq<Call>
    requires o.Accepted()
  {
    match r
    case Start => []
    case Then(before, op) => Launches(o, before) + NewLaunch(o, After(o, before), op)
  }

  ghost function NewLaunch(o: Options, p: Poll, op: Op): seq<Call>
    requires o.Accepted()
  {
    if op.Launch? && Enabled(o, p, op) then [Call(op.at, p.token)] else []
  }

  /** The latest round. */
  ghost function LatestRound(o: Options, r: Run<Op>): Option<Call>
    requires o.Accepted()
  {
    match r
    case Start => None
    case Then(before, op) =>
      var p := After(o, before);
      if op.StartRound? && Enabled(o, p, op) then Some(Call(op.at, p.token)) else LatestRound(o, before)
  }

  /** How long the answers took that the poll learnt from. */
  ghost function RoundTrips(o: Options, r: Run<Op>): seq<real>
    requires o.Accepted()
  {
    match r
    case Start => []
    case Then(before, op) => RoundTrips(o, before) + NewRoundTrip(o, After(o, before), op)
  }

  ghost function NewRoundTrip(o: Options, p: Poll, op: Op): seq<real>
    requires o.Accepted()
  {
    if op.Answer? && Enabled(o, p, op) then [op.at - p.fetches[op.f].startedAt]
    else if Wins(o, p, op) then [op.at - p.round.value.startedAt]
    else []
  }

  /** Each answer counts a fifth, and what was known four. */
  ghost function Smooth(s: seq<real>): Option<real> {
    if |s| == 0 then None
    else
      var before := Smooth(s[..|s| - 1]);
      Some(if before.None? then s[|s| - 1] else 0.8 * before.value + 0.2 * s[|s| - 1])
  }

  /** What the poll remembers of its calls is what happened. */
  ghost predicate Remembers(p: Poll, s: seq<Call>, latest: Option<Call>, trips: seq<real>) {
    && p.next == |s|
    && (forall f | f in p.fetches :: f < |s| && Call(p.fetches[f].startedAt, p.fetches[f].token) == s[f])
    && p.lastLaunch == (if s == [] then None else Some(s[|s| - 1].at))
    && (p.round.Some? ==> latest == Some(Call(p.round.value.startedAt, p.round.value.token)))
    && p.rtt == Smooth(trips)
  }

  lemma {:induction false} RunsRemember(o: Options, r: Run<Op>)
    requires o.Accepted()
    ensures Remembers(After(o, r), Launches(o, r), LatestRound(o, r), RoundTrips(o, r))
  {
    if r.Then? {
      hide Step, Enabled, Smooth, Bounded, Remembers, NewLaunch, NewRoundTrip;
      var p := After(o, r.before);
      RunsRemember(o, r.before);
      RunsAreBounded(o, r.before);
      if Enabled(o, p, r.last) {
        StepRemembers(o, p, r.last, Launches(o, r.before), LatestRound(o, r.before), RoundTrips(o, r.before));
      } else {
        NothingNew(o, p, r.last);
        assert RoundTrips(o, r.before) + [] == RoundTrips(o, r.before);
        assert Launches(o, r.before) + [] == Launches(o, r.before);
      }
    }
  }

  lemma NothingNew(o: Options, p: Poll, op: Op)
    requires o.Accepted() && !Enabled(o, p, op)
    ensures NewLaunch(o, p, op) == [] && NewRoundTrip(o, p, op) == []
  {
  }

  lemma SmoothOneMore(s: seq<real>, x: real)
    ensures Smooth(s + [x]) == Some(if Smooth(s).None? then x else 0.8 * Smooth(s).value + 0.2 * x)
  {
    assert (s + [x])[..|s + [x]| - 1] == s;
  }

  lemma StepRemembers(o: Options, p: Poll, op: Op, s: seq<Call>, latest: Option<Call>, trips: seq<real>)
    requires o.Accepted() && Bounded(o, p) && Enabled(o, p, op) && Remembers(p, s, latest, trips)
    ensures Remembers(
              Step(o, p, op), s + NewLaunch(o, p, op), if op.StartRound? then Some(Call(op.at, p.token)) else latest,
              trips + NewRoundTrip(o, p, op))
  {
    hide Bounded;
    if op.Launch? {
      LaunchRemembers(o, p, op.at);
      hide Launched, MayLaunch, NewLaunch, NewRoundTrip, Remembers, Smooth;
      LaunchedRemembers(p, Launched(p, op.at), op.at, s, latest, trips);
      assert trips + [] == trips;
    } else if op.Answer? {
      hide Answered, Remembers, Smooth;
      AnswerRemembers(p, op.f, op.page, op.at);
      assert NewLaunch(o, p, op) == [] && NewRoundTrip(o, p, op) == [op.at - p.fetches[op.f].startedAt];
      SameCallsRemember(p, Step(o, p, op), s, latest, latest, trips, [op.at - p.fetches[op.f].startedAt]);
    } else if op.RacerAnswers? {
      hide RacerAnswered, Remembers, Smooth;
      RacerRemembers(p, op.page, op.at);
      assert NewLaunch(o, p, op) == [];
      SameCallsRemember(p, Step(o, p, op), s, latest, latest, trips, NewRoundTrip(o, p, op));
    } else {
      OthersRemember(o, p, op);
      hide Step, Enabled, Remembers, Smooth, NewLaunch, NewRoundTrip;
      var round := if op.StartRound? then Some(Call(op.at, p.token)) else latest;
      RoundIsLatest(p, Step(o, p, op), op.StartRound?, op.at, s, latest, trips);
      SameCallsRemember(p, Step(o, p, op), s, latest, round, trips, []);
    }
  }

  lemma RoundIsLatest(
      p: Poll, q: Poll, started: bool, at: real, s: seq<Call>, latest: Option<Call>, trips: seq<real>)
    requires Remembers(p, s, latest, trips)
    requires q.round.Some? ==>
               if started then q.round.value.startedAt == at && q.round.value.token == p.token
               else p.round.Some? && q.round.value.startedAt == p.round.value.startedAt
                    && q.round.value.token == p.round.value.token
    ensures q.round.Some? ==>
              (if started then Some(Call(at, p.token)) else latest)
              == Some(Call(q.round.value.startedAt, q.round.value.token))
  {
  }

  /** A step that launches nothing. */
  lemma SameCallsRemember(
      p: Poll, q: Poll, s: seq<Call>, latest: Option<Call>, round: Option<Call>, trips: seq<real>, more: seq<real>)
    requires Remembers(p, s, latest, trips) && |more| <= 1
    requires q.next == p.next && q.lastLaunch == p.lastLaunch
    requires forall k | k in q.fetches ::
               k in p.fetches && q.fetches[k].startedAt == p.fetches[k].startedAt
               && q.fetches[k].token == p.fetches[k].token
    requires q.round.Some? ==>
               || (round == Some(Call(q.round.value.startedAt, q.round.value.token)))
               || (round == latest && p.round.Some? && q.round.value.startedAt == p.round.value.startedAt
                   && q.round.value.token == p.round.value.token)
    requires q.rtt == if more == [] then p.rtt
                      else Some(if p.rtt.None? then more[0] else 0.8 * p.rtt.value + 0.2 * more[0])
    ensures Remembers(q, s + [], round, trips + more)
  {
    hide Smooth;
    assert s + [] == s;
    if more == [] {
      assert trips + [] == trips;
    } else {
      assert more == [more[0]];
      SmoothOneMore(trips, more[0]);
    }
  }

  lemma LaunchedRemembers(p: Poll, q: Poll, at: real, s: seq<Call>, latest: Option<Call>, trips: seq<real>)
    requires Remembers(p, s, latest, trips)
    requires q.next == p.next + 1 && q.lastLaunch == Some(at) && q.round.None? && q.rtt == p.rtt
    requires forall k | k in q.fetches ::
               if k == p.next then q.fetches[k].startedAt == at && q.fetches[k].token == p.token
               else k in p.fetches && q.fetches[k] == p.fetches[k]
    ensures Remembers(q, s + [Call(at, p.token)], latest, trips)
  {
    hide Smooth;
  }

  lemma LaunchRemembers(o: Options, p: Poll, at: real)
    requires o.Accepted() && MayLaunch(o, p, at)
    ensures NewLaunch(o, p, Launch(at)) == [Call(at, p.token)] && NewRoundTrip(o, p, Launch(at)) == []
    ensures var q := Launched(p, at);
            && q.next == p.next + 1 && q.lastLaunch == Some(at) && q.round.None? && q.rtt == p.rtt
            && (forall k | k in q.fetches ::
                  if k == p.next then q.fetches[k].startedAt == at && q.fetches[k].token == p.token
                  else k in p.fetches && q.fetches[k] == p.fetches[k])
  {
    hide Spacing;
  }

  lemma AnswerRemembers(p: Poll, f: nat, page: Page, at: real)
    requires f in p.fetches
    ensures var q, x := Answered(p, f, page, at), at - p.fetches[f].startedAt;
            && q.next == p.next && q.lastLaunch == p.lastLaunch && q.round == p.round
            && q.rtt == Some(if p.rtt.None? then x else 0.8 * p.rtt.value + 0.2 * x)
            && (forall k | k in q.fetches ::
                  k in p.fetches && q.fetches[k].startedAt == p.fetches[k].startedAt
                  && q.fetches[k].token == p.fetches[k].token)
  {
    hide SightedAll;
  }

  lemma RacerRemembers(p: Poll, page: Page, at: real)
    requires Waiting(p)
    ensures var q, r, x := RacerAnswered(p, page, at), p.round.value, at - p.round.value.startedAt;
            && q.next == p.next && q.lastLaunch == p.lastLaunch && q.fetches == p.fetches
            && q.round.Some? && q.round.value.startedAt == r.startedAt && q.round.value.token == r.token
            && q.rtt == if r.over then p.rtt else Some(if p.rtt.None? then x else 0.8 * p.rtt.value + 0.2 * x)
  {
  }

  lemma OthersRemember(o: Options, p: Poll, op: Op)
    requires o.Accepted() && Enabled(o, p, op) && !op.Launch? && !op.Answer? && !op.RacerAnswers?
    ensures NewLaunch(o, p, op) == [] && NewRoundTrip(o, p, op) == []
    ensures var q := Step(o, p, op);
            && q.next == p.next && q.lastLaunch == p.lastLaunch && q.rtt == p.rtt
            && (forall k | k in q.fetches ::
                  k in p.fetches && q.fetches[k].startedAt == p.fetches[k].startedAt
                  && q.fetches[k].token == p.fetches[k].token)
            && (q.round.Some? ==>
                  if op.StartRound? then q.round.value.startedAt == op.at && q.round.value.token == p.token
                  else p.round.Some? && q.round.value.startedAt == p.round.value.startedAt
                       && q.round.value.token == p.round.value.token)
  {
    hide SightedAll, Spacing, Later, Min, Max, Due;
  }

  // ------------------------------------------------------------ when the next may go

  /** The calls whose slots are taken: launched, and not yet released. */
  ghost function Taken(o: Options, r: Run<Op>): int
    requires o.Accepted()
  {
    match r
    case Start => 0
    case Then(before, op) =>
      Taken(o, before)
      + if !Enabled(o, After(o, before), op) then 0 else if op.Launch? then 1 else if op.Release? then -1 else 0
  }

  lemma {:induction false} RunsTakeSlots(o: Options, r: Run<Op>)
    requires o.Accepted()
    ensures |After(o, r).fetches| == Taken(o, r)
  {
    if r.Then? {
      hide Step, Enabled, Bounded;
      RunsTakeSlots(o, r.before);
      RunsAreBounded(o, r.before);
      if Enabled(o, After(o, r.before), r.last) { StepTakesSlots(o, After(o, r.before), r.last); }
    }
  }

  lemma StepTakesSlots(o: Options, p: Poll, op: Op)
    requires o.Accepted() && Bounded(o, p) && Enabled(o, p, op)
    ensures |Step(o, p, op).fetches| == |p.fetches| + if op.Launch? then 1 else if op.Release? then -1 else 0
  {
    StepTakesKeys(o, p, op);
    hide Step, Enabled, Bounded;
    var q := Step(o, p, op);
    assert |q.fetches.Keys| == |q.fetches| && |p.fetches.Keys| == |p.fetches|;
  }

  lemma StepTakesKeys(o: Options, p: Poll, op: Op)
    requires o.Accepted() && Bounded(o, p) && Enabled(o, p, op)
    ensures var (before, after) := (p.fetches.Keys, Step(o, p, op).fetches.Keys);
            if op.Launch? then after == before + {p.next} && p.next !in before
            else if op.Release? then before == after + {op.f} && op.f !in after
            else after == before
  {
    if op.Launch? {
      assert Launched(p, op.at).fetches.Keys == p.fetches.Keys + {p.next};
    } else if op.Release? {
      hide Later, Min, Bounded;
      assert Released(o, p, op.f, op.quietMs, op.at).fetches == p.fetches - {op.f};
    } else {
      hide Bounded;
      OthersTakeNoSlot(o, p, op);
    }
  }

  lemma OthersTakeNoSlot(o: Options, p: Poll, op: Op)
    requires o.Accepted() && Enabled(o, p, op) && !op.Launch? && !op.Release?
    ensures Step(o, p, op).fetches.Keys == p.fetches.Keys
  {
    hide SightedAll, Spacing, Later, Min, Max, Due, Smoothed;
  }

  ghost predicate WasStopped(r: Run<Op>) { r.Then? && (r.last.Stop? || WasStopped(r.before)) }

  lemma {:induction false} RunsStop(o: Options, r: Run<Op>)
    requires o.Accepted()
    ensures After(o, r).stopped <==> WasStopped(r)
  {
    if r.Then? {
      hide SightedAll, Spacing, Later, Min, Max, Due, Smoothed;
      RunsStop(o, r.before);
    }
  }

  /** When the next staggered fetch may go, on the history of the run: the backlog is drained and
      no round is on; a slot is free; the last launch is a share of the smoothed round trip and the
      interval ago; and every failure, hit and round before has been waited for. */
  lemma LaunchesIff(o: Options, r: Run<Op>, at: real)
    requires Sane(o) && InOrder(r, at)
    ensures var (s, rtt) := (Launches(o, r), Smooth(RoundTrips(o, r)));
            Enabled(o, After(o, r), Launch(at)) <==>
              && !WasStopped(r) && Emptied(o, r) && After(o, r).round.None?
              && o.stagger > 1 && Taken(o, r) < o.stagger
              && (s != [] ==> (at - s[|s| - 1].at) * o.stagger as real
                              >= (if rtt.Some? then rtt.value else 0.0) + o.intervalMs)
              && forall x | x in Holds(o, r) :: x <= at
  {
    hide After, MayLaunch, Holds, Launches, RoundTrips, Smooth, WasStopped, Taken, Emptied, Backlog, Sightings;
    RunsWaitForAll(o, r, at);
    RunsRemember(o, r);
    RunsTakeSlots(o, r);
    RunsStop(o, r);
    BacklogIsSilent(o, r);
    LaunchesWhen(o, After(o, r), at);
  }

  lemma LaunchesWhen(o: Options, p: Poll, at: real)
    requires o.Accepted()
    ensures MayLaunch(o, p, at) <==>
              && !p.stopped && p.drained && p.round.None? && o.stagger > 1 && |p.fetches| < o.stagger
              && (p.lastLaunch.Some? ==> (at - p.lastLaunch.value) * o.stagger as real
                                         >= (if p.rtt.Some? then p.rtt.value else 0.0) + o.intervalMs)
              && (p.holdUntil.Some? ==> p.holdUntil.value <= at)
  {
    if p.lastLaunch.Some? { SpacingIsShare(o, p, at); }
    hide Spacing;
  }

  lemma SpacingIsShare(o: Options, p: Poll, at: real)
    requires o.Accepted() && p.lastLaunch.Some?
    ensures p.lastLaunch.value + Spacing(o, p) - at <= 0.0 <==>
              (at - p.lastLaunch.value) * o.stagger as real >= (if p.rtt.Some? then p.rtt.value else 0.0) + o.intervalMs
  {
    var n, d := o.stagger as real, at - p.lastLaunch.value;
    var x := (if p.rtt.Some? then p.rtt.value else 0.0) + o.intervalMs;
    assert n > 0.0 && (x / n) * n == x;
    if x / n <= d { assert (x / n) * n <= d * n; } else { assert d * n < (x / n) * n; }
  }

  /** When the next round may start. */
  lemma RoundStartsIff(o: Options, r: Run<Op>, at: real)
    requires Sane(o) && InOrder(r, at)
    ensures Enabled(o, After(o, r), StartRound(at)) <==>
              && !WasStopped(r) && After(o, r).round.None? && !(Emptied(o, r) && o.stagger > 1)
              && forall x | x in Holds(o, r) :: x <= at
  {
    RunsWaitForAll(o, r, at);
    RunsStop(o, r);
    BacklogIsSilent(o, r);
  }

  ghost predicate AsksAgain(op: Op) { op.Launch? || op.StartRound? }

  /** Whatever is held back, by a failure, a hit or a round, nothing is asked before it is over. */
  lemma NothingIsAskedBefore(o: Options, r0: Run<Op>, r: Run<Op>, op: Op, x: real)
    requires Sane(o) && InOrder(r, op.at) && Extends(r, r0) && x in Holds(o, r0)
    requires AsksAgain(op) && Enabled(o, After(o, r), op)
    ensures op.at >= x
  {
    hide Enabled;
    HoldsStay(o, r0, r, x);
    if op.Launch? { LaunchesIff(o, r, op.at); } else { RoundStartsIff(o, r, op.at); }
  }

  lemma {:induction false} HoldsStay(o: Options, r0: Run<Op>, r: Run<Op>, x: real)
    requires o.Accepted() && Extends(r, r0) && x in Holds(o, r0)
    ensures x in Holds(o, r)
  {
    hide Hold;
    if r != r0 { HoldsStay(o, r0, r.before, x); }
  }

  lemma LastHolds(o: Options, r: Run<Op>)
    requires o.Accepted() && r.Then?
    ensures var h := Hold(o, After(o, r.before), r.last, Backoff(o, FailuresInARow(o, r.before)));
            h.Some? ==> h.value in Holds(o, r)
  {
    hide Hold, After, Backoff;
  }

  /** A staggered fetch that failed, in a poll that is not stopped: nothing more is asked before
      the backoff is over. It is the least one doubled for each failure since the last success. */
  lemma FailureHoldsBack(o: Options, r0: Run<Op>, r: Run<Op>, op: Op)
    requires Sane(o) && InOrder(r, op.at) && Extends(r, r0) && AsksAgain(op) && Enabled(o, After(o, r), op)
    requires r0.Then? && r0.last.Release? && !WasStopped(r0.before)
    requires var p, f := After(o, r0.before), r0.last.f; f in p.fetches && p.fetches[f].slot == Failed
    ensures op.at >= r0.last.at + Backoff(o, FailuresInARow(o, r0.before))
    ensures FailuresInARow(o, r0) == FailuresInARow(o, r0.before) + 1
  {
    hide Backoff, InOrder, Extends, Holds;
    RunsStop(o, r0.before);
    assert Fails(o, After(o, r0.before), r0.last) && !Succeeds(o, After(o, r0.before), r0.last);
    LastHolds(o, r0);
    hide Enabled, After, Succeeds, Fails;
    NothingIsAskedBefore(o, r0, r, op, r0.last.at + Backoff(o, FailuresInARow(o, r0.before)));
  }

  /** One that brought something new: nothing more is asked in the quiet window after it, and the
      failures before it are forgotten. */
  lemma HitHoldsBack(o: Options, r0: Run<Op>, r: Run<Op>, op: Op)
    requires Sane(o) && InOrder(r, op.at) && Extends(r, r0) && AsksAgain(op) && Enabled(o, After(o, r), op)
    requires r0.Then? && r0.last.Release?
    requires var p, f := After(o, r0.before), r0.last.f; f in p.fetches && p.fetches[f].slot == Done(true)
    ensures r0.last.quietMs > 0.0 ==> op.at >= r0.last.at + r0.last.quietMs
    ensures FailuresInARow(o, r0) == 0
  {
    var p := After(o, r0.before);
    assert Enabled(o, p, r0.last) && Succeeds(o, p, r0.last) && !Fails(o, p, r0.last);
    hide Backoff, Enabled, After, Succeeds, Fails;
    if r0.last.quietMs > 0.0 { NothingIsAskedBefore(o, r0, r, op, r0.last.at + r0.last.quietMs); }
  }

  /** And the pause after a round: the backoff if it was lost, else the interval, and the quiet
      window too if it brought something. */
  lemma RoundHoldsBack(o: Options, r0: Run<Op>, r: Run<Op>, op: Op)
    requires Sane(o) && InOrder(r, op.at) && Extends(r, r0) && AsksAgain(op) && Enabled(o, After(o, r), op)
    requires r0.Then? && r0.last.EndRound? && Enabled(o, After(o, r0.before), r0.last)
    ensures var won, hits := After(o, r0.before).round.value.won, After(o, r0.before).round.value.hits;
            && (!won ==> op.at >= r0.last.at + Backoff(o, FailuresInARow(o, r0.before)))
            && (won ==> op.at >= r0.last.at + o.intervalMs)
            && (won && hits ==> op.at >= r0.last.at + r0.last.quietMs)
  {
    hide Backoff;
    var p := After(o, r0.before);
    var h := Hold(o, p, r0.last, Backoff(o, FailuresInARow(o, r0.before)));
    assert Holds(o, r0) == Holds(o, r0.before) + [h.value];
    NothingIsAskedBefore(o, r0, r, op, h.value);
  }

  // ------------------------------------------------------------ rounds, calls and stopping

  /** A round that somebody won brought something exactly if its page did and the backlog had been
      drained before; the winner's page moves the cursor, and nothing else in a round does. */
  lemma OnlyTheWinnerMoves(o: Options, p: Poll, op: Op)
    requires o.Accepted() && Bounded(o, p) && Enabled(o, p, op) && !op.Answer?
    ensures var q := Step(o, p, op);
            if Wins(o, p, op)
            then && q.adopted == Some(p.round.value.startedAt)
                 && q.token == (if op.page.token.Some? then op.page.token else p.token)
                 && q.round.Some? && q.round.value.won
                 && (q.round.value.hits <==> p.drained && op.page.messages != [])
            else && q.adopted == p.adopted && q.token == p.token
                 && (q.round.Some? && p.round.Some? ==>
                       q.round.value.won == p.round.value.won && q.round.value.hits == p.round.value.hits)
                 && (q.round.Some? && p.round.None? ==> !q.round.value.won)
  {
    hide Smoothed, SightedAll, Spacing, Later, Min, Max, Due;
  }

  /** A round goes on until somebody has won or nobody is left to wait for: the loss of a racer does not
      end it for the others. */
  lemma {:induction false} RoundsWaitForAWinner(o: Options, r: Run<Op>)
    requires o.Accepted()
    ensures var round := After(o, r).round;
            round.Some? ==> (round.value.over <==> round.value.won || round.value.waiting == 0)
  {
    if r.Then? {
      hide Step, Enabled, Bounded;
      RoundsWaitForAWinner(o, r.before);
      RunsAreBounded(o, r.before);
      if Enabled(o, After(o, r.before), r.last) { StepWaitsForAWinner(o, After(o, r.before), r.last); }
    }
  }

  lemma StepWaitsForAWinner(o: Options, p: Poll, op: Op)
    requires o.Accepted() && Bounded(o, p) && Enabled(o, p, op)
    requires p.round.Some? ==> (p.round.value.over <==> p.round.value.won || p.round.value.waiting == 0)
    ensures var round := Step(o, p, op).round;
            round.Some? ==> (round.value.over <==> round.value.won || round.value.waiting == 0)
  {
    hide Smoothed, SightedAll, Spacing, Later, Min, Max, Due;
  }

  /** The calls to the fetcher that were made, less those that have settled. */
  ghost function Calls(o: Options, r: Run<Op>): int
    requires o.Accepted()
  {
    match r
    case Start => 0
    case Then(before, op) =>
      Calls(o, before) + if Enabled(o, After(o, before), op) then CallsOf(o, op) else 0
  }

  ghost function CallsOf(o: Options, op: Op): int {
    match op
    case StartRound(_) => o.raceWidth
    case Launch(_) => 1
    case RacerAnswers(_, _) => -1
    case LoseRacer(settled, _) => if settled then -1 else 0
    case SettleStraggler(_) => -1
    case Answer(_, _, _) => -1
    case Settle(_, _) => -1
    case _ => 0
  }

  /** So none is forgotten, and never are more on their way than the options allow. */
  lemma {:induction false} CallsAreBounded(o: Options, r: Run<Op>)
    requires o.Accepted()
    ensures Calls(o, r) == Unsettled(After(o, r))
    ensures 0 <= Calls(o, r) <= (if After(o, r).round.Some? then o.raceWidth else o.stagger)
  {
    OpenCallsAreBounded(o, r);
    if r.Then? {
      hide Step, Enabled, Bounded, Unsettled, CallsOf;
      CallsAreBounded(o, r.before);
      RunsAreBounded(o, r.before);
      if Enabled(o, After(o, r.before), r.last) { StepCalls(o, After(o, r.before), r.last); }
    } else {
      assert OpenSet(After(o, r)) == {};
    }
  }

  ghost function OpenSet(p: Poll): set<nat> { set f | f in p.fetches && Open(p, f) }

  lemma StepCalls(o: Options, p: Poll, op: Op)
    requires o.Accepted() && Bounded(o, p) && Enabled(o, p, op)
    ensures Unsettled(Step(o, p, op)) == Unsettled(p) + CallsOf(o, op)
  {
    StepOpens(o, p, op);
    StepUnsettles(o, p, op);
    hide Step, Enabled, Bounded, Open;
    var q := Step(o, p, op);
    assert Unsettled(q) == |OpenSet(q)| + if q.round.Some? then q.round.value.unsettled else 0;
    assert Unsettled(p) == |OpenSet(p)| + if p.round.Some? then p.round.value.unsettled else 0;
  }

  lemma StepOpens(o: Options, p: Poll, op: Op)
    requires o.Accepted() && Bounded(o, p) && Enabled(o, p, op)
    ensures var (before, after) := (OpenSet(p), OpenSet(Step(o, p, op)));
            if op.Launch? then after == before + {p.next} && p.next !in before
            else if op.Answer? || op.Settle? then before == after + {op.f} && op.f !in after
            else after == before
  {
    hide SightedAll, Spacing, Later, Min, Max, Due, Smoothed;
  }

  lemma StepUnsettles(o: Options, p: Poll, op: Op)
    requires o.Accepted() && Bounded(o, p) && Enabled(o, p, op)
    ensures var (before, after) := (p.round, Step(o, p, op).round);
            var (b, a) := (if before.Some? then before.value.unsettled else 0,
                           if after.Some? then after.value.unsettled else 0);
            a - b == if op.Launch? || op.Answer? || op.Settle? then 0 else CallsOf(o, op)
  {
    hide SightedAll, Spacing, Later, Min, Max, Due, Smoothed;
  }

  /** Stopping is final: nothing more is asked and nothing more goes out, whatever comes back. */
  lemma {:induction false} StopIsFinal(o: Options, r0: Run<Op>, r: Run<Op>)
    requires o.Accepted() && Extends(r, r0) && r0.Then? && r0.last.Stop?
    ensures var p0, p := After(o, r0), After(o, r);
            Quiet(p) && p.rounds == p0.rounds && p.next == p0.next && p.emitted == p0.emitted
            && p.token == p0.token
  {
    if r == r0 {
    } else {
      hide Step, Enabled, Quiet;
      StopIsFinal(o, r0, r.before);
      if Enabled(o, After(o, r.before), r.last) { QuietStays(o, After(o, r.before), r.last); }
    }
  }

  ghost predicate Quiet(p: Poll) {
    && p.stopped && (forall f | f in p.fetches :: p.fetches[f].slot != Fetching)
    && (p.round.Some? ==> p.round.value.waiting == 0)
  }

  lemma QuietStays(o: Options, p: Poll, op: Op)
    requires o.Accepted() && Quiet(p) && Enabled(o, p, op)
    ensures var q := Step(o, p, op);
            Quiet(q) && q.rounds == p.rounds && q.next == p.next && q.emitted == p.emitted && q.token == p.token
  {
    hide Smoothed, SightedAll, Spacing, Later, Min, Max, Due;
  }
}
