/** What a result does to a lane, stated on round trips, tails, streaks and times: when it is
    bypassed, when it is parked, when it loses the pin, and when it is replaced. */
module LaneResults {
  import opened Wrappers
  import opened Runs
  import opened LanePool
  import opened LaneRules
  import opened LaneRuns
  import LaneWire
  import L = Lane
  import Windows

  /** Every lane has its number and its streak. */
  ghost predicate Complete(p: Pool) {
    |p.lanes| == |p.streak| && Numbered(p)
  }

  ghost predicate OthersServe(p: Pool, i: int) {
    exists j :: 0 <= j < |p.lanes| && j != i && Serving(p.lanes[j])
  }

  lemma {:induction false} NoneRoutableIff(ls: Lanes)
    ensures RoutableCount(ls) == 0 <==> forall j | 0 <= j < |ls| :: !Serving(ls[j])
  {
    if |ls| > 0 {
      NoneRoutableIff(ls[1..]);
      assert forall j | 0 < j < |ls| :: ls[j] == ls[1..][j - 1];
    }
  }

  lemma {:induction false} OneMoreRoutable(ls: Lanes, i: int)
    requires 0 <= i < |ls| && Serving(ls[i])
    ensures RoutableCount(ls) > 1 <==> exists j :: 0 <= j < |ls| && j != i && Serving(ls[j])
  {
    var rest := ls[1..];
    NoneRoutableIff(rest);
    assert forall j | 0 < j < |ls| :: ls[j] == rest[j - 1];
    if i > 0 {
      OneMoreRoutable(rest, i - 1);
      if Serving(ls[0]) {
        assert rest[i - 1] == ls[i];
      } else if j :| 0 <= j < |ls| && j != i && Serving(ls[j]) {
        assert rest[j - 1] == ls[j];
      }
    }
  }

  // ------------------------------------------------------------ a reply's result

  /** The request had company when it began, or has some now. */
  ghost predicate Contended(p: Pool, q: Request)
    requires 0 <= q.lane < |p.lanes|
  {
    q.shared || p.lanes[q.lane].inFlight > 1
  }

  ghost predicate IsReply(q: Request) { q.m == L.Send }

  /** A result after which the lane sits out: slow, alone, and the last of enough in a row, while
      another lane serves. The streak is kept in a byte. */
  ghost predicate SitsOut(o: Options, p: Pool, q: Request, rtt: real)
    requires Complete(p) && 0 <= q.lane < |p.lanes|
  {
    && IsReply(q) && !Contended(p, q) && rtt > o.slowThresholdMs
    && o.slowSamplesBeforeCooldown <= 255 && p.streak[q.lane] + 1 >= o.slowSamplesBeforeCooldown
    && OthersServe(p, q.lane)
  }

  /** The parts of a result: the sample is recorded, and the pool reacts. */
  lemma FinishedParts(o: Options, p: Pool, q: Request, now: real)
    requires Complete(p) && 0 <= q.lane < |p.lanes|
    ensures var p', recorded := Finished(o, p, q, now),
              L.Recorded(o.lane, p.lanes[q.lane], q.m, now - q.started, Contended(p, q), now);
            var measured := p.(lanes := p.lanes[q.lane := recorded]);
            var reacted :=
              if IsReply(q) then AfterSend(o, measured, q.lane, now - q.started, Contended(p, q), now) else measured;
            && Complete(p') && |p'.lanes| == |p.lanes| && p'.closed == p.closed && p'.lastRecycle == p.lastRecycle
            && p'.lanes[q.lane] == recorded.(inFlight := p.lanes[q.lane].inFlight - 1)
            && (forall i | 0 <= i < |p.lanes| && i != q.lane :: p'.lanes[i] == p.lanes[i])
            && p' == reacted.(lanes := p'.lanes)
            && recorded.state == p.lanes[q.lane].state
  {
    hide L.Recorded, AfterSend;
    RecordedKeepsIdentity(o.lane, p.lanes[q.lane], q.m, now - q.started, Contended(p, q), now);
    AfterSendKeeps(o, p.(lanes := p.lanes[q.lane :=
      L.Recorded(o.lane, p.lanes[q.lane], q.m, now - q.started, Contended(p, q), now)]),
      q.lane, now - q.started, Contended(p, q), now);
  }

  lemma AfterSendKeeps(o: Options, p: Pool, id: int, rtt: real, contended: bool, now: real)
    requires 0 <= id < |p.lanes| == |p.streak|
    ensures var p' := AfterSend(o, p, id, rtt, contended, now);
            p'.lanes == p.lanes && p'.closed == p.closed && p'.lastRecycle == p.lastRecycle && |p'.streak| == |p.streak|
  {
    hide TailSafe, RoutableCount;
  }

  /** When a lane is bypassed after a result, at any time `t`. A reply that is at most 3 ms over the
      threshold and leaves no losing tail lifts the bypass; one that is not, on a lane it had to
      itself, sets it for the cooldown; anything else, and what happens to other lanes, leaves it. */
  lemma BypassedIff(o: Options, p: Pool, q: Request, now: real, t: real, i: int)
    requires Complete(p) && 0 <= q.lane < |p.lanes| && 0 <= i < |p.lanes|
    ensures var p' := Finished(o, p, q, now);
            |p'.lanes| == |p.lanes| && |p.lanes| == |p'.streak|
    ensures var p' := Finished(o, p, q, now);
            var breach := now - q.started > o.lane.fastMs + 3.0 || LosesRounds(o, p'.lanes[q.lane]);
            Avoided(p', p'.lanes[i], t) <==>
              if i != q.lane || !IsReply(q) then Avoided(p, p.lanes[i], t)
              else if !breach then false
              else if !Contended(p, q) then t < now + o.slowCooldownMs
              else Avoided(p, p.lanes[i], t)
  {
    hide L.Recorded, AfterStreak, Finished;
    FinishedParts(o, p, q, now);
    var p' := Finished(o, p, q, now);
    var l := L.Recorded(o.lane, p.lanes[q.lane], q.m, now - q.started, Contended(p, q), now);
    var measured := p.(lanes := p.lanes[q.lane := l]);
    assert TailSafe(o, l) <==> !LosesRounds(o, p'.lanes[q.lane]);
    assert p'.lanes[i].id == i && p.lanes[i].id == i;
    StreakKeepsBypass(
      o, AfterBreach(o, measured, q.lane, now - q.started, Contended(p, q), now), q.lane, now - q.started, now);
  }

  lemma StreakKeepsBypass(o: Options, p: Pool, id: int, rtt: real, now: real)
    requires 0 <= id < |p.streak|
    ensures AfterStreak(o, p, id, rtt, now).bypass == p.bypass
  {
    hide RoutableCount;
  }

  /** When a lane sits out after a result, and what becomes of the streak of each. */
  lemma RestsIff(o: Options, p: Pool, q: Request, now: real, t: real, i: int)
    requires Complete(p) && 0 <= q.lane < |p.lanes| && 0 <= i < |p.lanes| && Serving(p.lanes[q.lane])
    ensures var p', rtt := Finished(o, p, q, now), now - q.started;
            && |p'.lanes| == |p.lanes| && |p.lanes| == |p'.streak|
            && (Resting(p', p'.lanes[i], t) <==>
                  if i == q.lane && SitsOut(o, p, q, rtt) then t < now + o.slowCooldownMs
                  else Resting(p, p.lanes[i], t))
            && p'.streak[i] ==
               if i != q.lane || !IsReply(q) || Contended(p, q) then p.streak[i]
               else if rtt <= o.slowThresholdMs || SitsOut(o, p, q, rtt) then 0
               else if p.streak[i] < 255 then p.streak[i] + 1 else 255
  {
    hide L.Recorded, AfterBreach, RoutableCount, Finished, AfterStreak, OthersServe;
    FinishedParts(o, p, q, now);
    var p' := Finished(o, p, q, now);
    var l := L.Recorded(o.lane, p.lanes[q.lane], q.m, now - q.started, Contended(p, q), now);
    var measured := p.(lanes := p.lanes[q.lane := l]);
    OthersStillServe(p, q.lane, l);
    assert p'.lanes[i].id == i && p.lanes[i].id == i;
    BreachKeepsCooldown(o, measured, q.lane, now - q.started, Contended(p, q), now);
    StreakCounts(o, AfterBreach(o, measured, q.lane, now - q.started, Contended(p, q), now), q.lane,
                 now - q.started, now);
  }

  lemma OthersStillServe(p: Pool, i: int, l: L.View)
    requires 0 <= i < |p.lanes| && Serving(l)
    ensures RoutableCount(p.lanes[i := l]) > 1 <==> OthersServe(p, i)
  {
    OneMoreRoutable(p.lanes[i := l], i);
    assert forall j | 0 <= j < |p.lanes| && j != i :: p.lanes[i := l][j] == p.lanes[j];
  }

  lemma StreakCounts(o: Options, p: Pool, id: int, rtt: real, now: real)
    requires 0 <= id < |p.lanes| == |p.streak|
    ensures var p', n := AfterStreak(o, p, id, rtt, now), p.streak[id] + 1;
            var full := && rtt > o.slowThresholdMs && RoutableCount(p.lanes) > 1
                        && o.slowSamplesBeforeCooldown <= 255 && n >= o.slowSamplesBeforeCooldown;
            && p'.streak == p.streak[id := if rtt <= o.slowThresholdMs || full then 0 else if n < 255 then n else 255]
            && p'.cooldown == if full then p.cooldown[id := At(now + o.slowCooldownMs)] else p.cooldown
  {
    hide RoutableCount;
  }

  lemma BreachKeepsCooldown(o: Options, p: Pool, id: int, rtt: real, contended: bool, now: real)
    requires 0 <= id < |p.lanes|
    ensures AfterBreach(o, p, id, rtt, contended, now).cooldown == p.cooldown
  {
  }

  /** When the pin goes: a reply over the threshold, one that leaves a losing tail, or one that
      makes the lane sit out, on the pinned lane, which it had to itself. */
  lemma PinGoesIff(o: Options, p: Pool, q: Request, now: real)
    requires Complete(p) && 0 <= q.lane < |p.lanes| && Serving(p.lanes[q.lane])
    ensures var p', rtt := Finished(o, p, q, now), now - q.started;
            && |p'.lanes| == |p.lanes|
            && p'.pin ==
               if && IsReply(q) && !Contended(p, q) && p.pin == Some(q.lane)
                  && (rtt > o.lane.fastMs || LosesRounds(o, p'.lanes[q.lane]) || SitsOut(o, p, q, rtt))
               then None else p.pin
  {
    hide L.Recorded, RoutableCount, OthersServe;
    FinishedParts(o, p, q, now);
    OthersStillServe(
      p, q.lane, L.Recorded(o.lane, p.lanes[q.lane], q.m, now - q.started, Contended(p, q), now));
  }

  /** In every reachable state contention is company on the wire: the request shared the lane when
      it began, or another is on the lane now. The sample says so. */
  lemma ContendedIsCompany(o: Options, birth: real, r: Run<Op>, q: nat, at: real)
    requires o.Accepted() && o.lane.window >= 1 && OnTheWire(After(o, birth, r), q)
    ensures var s := After(o, birth, r);
            var i, s' := s.requests[q].lane, Step(o, s, Finish(q, at));
            && (Contended(s.pool, s.requests[q]) <==>
                  s.requests[q].shared || exists k :: k != q && k in LaneWire.OnLane(s, i))
            && |s'.pool.lanes| == |s.pool.lanes|
            && (s'.pool.lanes[i].profiles.Of(s.requests[q].m).lastContended <==> Contended(s.pool, s.requests[q]))
  {
    hide After, Finished;
    RunsAreWell(o, birth, r);
    var s := After(o, birth, r);
    var i := s.requests[q].lane;
    LaneWire.InFlightIsOnTheWire(o, birth, r, i);
    CompanyIff(LaneWire.OnLane(s, i), q);
    forall j | 0 <= j < |s.pool.lanes| ensures s.pool.lanes[j].id == j { assert LaneIsWell(s.pool, j); }
    FinishedParts(o, s.pool, s.requests[q], at);
    hide L.MedianOf, L.TailOf, Windows.Pushed, L.Scored;
  }

  lemma CompanyIff(s: set<nat>, q: nat)
    requires q in s
    ensures |s| > 1 <==> exists k :: k != q && k in s
  {
    var rest := s - {q};
    assert s == rest + {q} && |s| == |rest| + 1;
    if |rest| > 0 {
      var k :| k in rest;
    }
  }

  /** A request shares its lane from the start exactly if another is on it when it is launched. */
  lemma SharedIsCompany(
      o: Options, birth: real, r: Run<Op>, p: Pool, i: int, m: L.Measurement, origin: Origin, at: real)
    requires o.Accepted() && var s := After(o, birth, r); 0 <= i < |s.pool.lanes| && p.lanes == s.pool.lanes
    ensures var s := After(o, birth, r);
            var s' := Launch(s, p, i, m, origin, at);
            && s'.requests == s.requests[s.next := s'.requests[s.next]] && s.next !in s.requests
            && var q := s'.requests[s.next];
               q.lane == i && q.m == m && q.origin == origin && q.started == at
               && (q.shared <==> LaneWire.OnLane(s, i) != {})
  {
    hide After;
    LaneWire.InFlightIsOnTheWire(o, birth, r, i);
    LaneWire.RunsAreCounted(o, birth, r);
  }

  // ------------------------------------------------------------ failures and age

  /** A lane with a new connection: nothing measured, nothing scored. */
  ghost predicate Renewed(l: L.View, l': L.View, now: real) {
    && Serving(l') && l'.id == l.id && l'.inFlight == l.inFlight && l'.openedAt == now
    && l'.failures == 0 && !l'.connected
    && l'.score.rabbits == 0 && l'.score.turtles == 0 && l'.score.contendedSlow == 0
    && forall m :: l'.profiles.Of(m).samples == [] && l'.profiles.Of(m).median.None?
                   && l'.profiles.Of(m).tail.None? && l'.profiles.Of(m).lastAt.None?
  }

  lemma RecycledIsRenewed(l: L.View, now: real)
    ensures Renewed(l, L.Recycled(l, now), now)
  {
    forall m ensures L.Recycled(l, now).profiles.Of(m) == L.EMPTY {
    }
  }

  /** A failure of the connection gives its lane a new one at once, unless the pool is closed: not
      bypassed, not parked, without a streak, and not pinned. Any other error changes nothing. */
  lemma FailureRenewsIff(o: Options, p: Pool, q: Request, error: Option<bool>, now: real)
    requires Complete(p) && 0 <= q.lane < |p.lanes|
    ensures var p', i := Reacted(p, q, error, now), q.lane;
            && Complete(p') && |p'.lanes| == |p.lanes|
            && p'.pin == (if error == Some(true) && p.pin == Some(i) then None else p.pin)
            && (if error == Some(true) && !p.closed
                then && Renewed(p.lanes[i], p'.lanes[i], now) && p'.streak[i] == 0
                     && forall t :: !Avoided(p', p'.lanes[i], t) && !Resting(p', p'.lanes[i], t)
                else && p'.lanes[i] == p.lanes[i].(state := p'.lanes[i].state) && p'.streak == p.streak
                     && (error == Some(true) ==> !Serving(p'.lanes[i]))
                     && (error != Some(true) ==> p'.lanes == p.lanes)
                     && forall t :: Avoided(p', p'.lanes[i], t) <==> Avoided(p, p.lanes[i], t))
            && (q.origin.Maintenance? ==> forall t :: !Resting(p', p'.lanes[i], t))
  {
    hide L.Recycled;
    var i := q.lane;
    assert forall j | 0 <= j < |p.lanes| :: p.lanes[j].id == j;
    RecycledIsRenewed(L.Drained(p.lanes[i]), now);
  }

  /** What is known of the other lanes stays. */
  lemma FailureIsLocal(o: Options, p: Pool, q: Request, error: Option<bool>, now: real, k: int, t: real)
    requires Complete(p) && 0 <= q.lane < |p.lanes| && 0 <= k < |p.lanes| && k != q.lane
    ensures var p' := Reacted(p, q, error, now);
            && |p'.lanes| == |p.lanes| == |p'.streak| && p'.lanes[k] == p.lanes[k] && p'.streak[k] == p.streak[k]
            && (Avoided(p', p.lanes[k], t) <==> Avoided(p, p.lanes[k], t))
            && (Resting(p', p.lanes[k], t) <==> Resting(p, p.lanes[k], t))
  {
    hide L.Recycled;
    assert p.lanes[k].id == k;
  }

  /** Too old, with nothing on it, not kept for replies, and not the fast pinned lane. */
  ghost predicate Replaceable(o: Options, p: Pool, l: L.View, now: real) {
    && Serving(l) && l.inFlight == 0 && now >= l.openedAt + o.maxAgeMs && l.id >= o.sendReserved
    && !(p.pin == Some(l.id) && Answered(l) && Quick(o, p, l, now))
  }

  ghost predicate GapIsOver(o: Options, p: Pool, now: real) {
    p.lastRecycle.None? || now >= p.lastRecycle.value + o.recycleGapMs
  }

  /** Maintenance replaces a lane exactly when the gap since the last time is over, a lane can be
      replaced, and another one serves. It takes the one that was opened first. */
  lemma MaintainsIff(o: Options, p: Pool, now: real)
    requires Complete(p)
    ensures var (p', victim) := RecycleOldest(o, p, now);
            && (victim.Some? <==>
                  && GapIsOver(o, p, now)
                  && exists i :: 0 <= i < |p.lanes| && Replaceable(o, p, p.lanes[i], now) && OthersServe(p, i))
            && (victim.Some? ==>
                  var i := victim.value;
                  && 0 <= i < |p.lanes| && Replaceable(o, p, p.lanes[i], now)
                  && (forall j | 0 <= j < |p.lanes| && Replaceable(o, p, p.lanes[j], now) ::
                        p.lanes[i].openedAt <= p.lanes[j].openedAt))
  {
    hide SweptByAge, RoutableCount, Reduce, Replaceable, StaleAmong, OthersServe;
    var stale := StaleAmong(o, p, p.lanes, now);
    StaleAreReplaceable(o, p, now);
    if |stale| > 0 {
      var l := Reduce(o, stale, OldestOpened);
      LeastOf(o, stale, OldestOpened);
      assert stale[0] in stale;
      assert p.lanes[l.id] == l;
    }
    hide Numbered;
  }

  /** The lanes maintenance chooses from; and while there is one, whether another serves. */
  lemma StaleAreReplaceable(o: Options, p: Pool, now: real)
    requires Complete(p)
    ensures var stale := StaleAmong(o, p, p.lanes, now);
            && (forall l | l in stale :: 0 <= l.id < |p.lanes| && p.lanes[l.id] == l && Replaceable(o, p, l, now))
            && (forall i | 0 <= i < |p.lanes| && Replaceable(o, p, p.lanes[i], now) ::
                  p.lanes[i] in stale && (RoutableCount(p.lanes) > 1 <==> OthersServe(p, i)))
  {
    hide RoutableCount, Stale, Replaceable;
    forall l ensures Stale(o, p, l, now) <==> Replaceable(o, p, l, now) { StaleIsReplaceable(o, p, l, now); }
    StaleAreAll(o, p, p.lanes, now);
    forall i | 0 <= i < |p.lanes| && Replaceable(o, p, p.lanes[i], now)
      ensures RoutableCount(p.lanes) > 1 <==> OthersServe(p, i)
    {
      ReplaceableServes(o, p, p.lanes[i], now);
      OneMoreRoutable(p.lanes, i);
    }
    forall l | l in StaleAmong(o, p, p.lanes, now) ensures 0 <= l.id < |p.lanes| && p.lanes[l.id] == l {
      var i :| 0 <= i < |p.lanes| && p.lanes[i] == l;
    }
  }

  lemma StaleIsReplaceable(o: Options, p: Pool, l: L.View, now: real)
    ensures Stale(o, p, l, now) <==> Replaceable(o, p, l, now)
  {
    hide Quick, Answered;
    TestsAreTheNumbers(o, p, l, now);
  }

  lemma ReplaceableServes(o: Options, p: Pool, l: L.View, now: real)
    requires Replaceable(o, p, l, now)
    ensures Serving(l)
  {
  }

  lemma {:induction false} StaleAreAll(o: Options, p: Pool, ls: Lanes, now: real)
    ensures forall l | l in ls && Stale(o, p, l, now) :: l in StaleAmong(o, p, ls, now)
  {
    hide Stale;
    if |ls| > 0 { StaleAreAll(o, p, ls[1..], now); }
  }

  /** The replaced lane gets a new connection and is kept from other traffic until the request
      that primes it is over; the others, and the bypasses that still run, stay. */
  lemma MaintenancePrimes(o: Options, s: System, now: real)
    requires Complete(s.pool) && RecycleOldest(o, s.pool, now).1.Some?
    ensures var i, p, s' := RecycleOldest(o, s.pool, now).1.value, s.pool, Maintained(o, s, now);
            var p' := s'.pool;
            && 0 <= i < |p.lanes| == |p'.lanes|
            && p'.lanes[i].inFlight == p.lanes[i].inFlight + 1
            && Renewed(p.lanes[i], p'.lanes[i].(inFlight := p.lanes[i].inFlight), now)
            && (forall t :: Resting(p', p'.lanes[i], t) && !Avoided(p', p'.lanes[i], t))
            && p'.lastRecycle == Some(now) && p'.pin == (if p.pin == Some(i) then None else p.pin)
            && (forall j | 0 <= j < |p.lanes| && j != i :: p'.lanes[j] == p.lanes[j])
            && s'.requests == s.requests[s.next := s'.requests[s.next]]
            && s'.requests[s.next].lane == i && s'.requests[s.next].origin == Maintenance
            && s'.requests[s.next].m == L.Warm
  {
    hide StaleAmong, SweptByAge, RoutableCount, Reduce, L.Recycled;
    var i := RecycleOldest(o, s.pool, now).1.value;
    RecycledIsRenewed(s.pool.lanes[i], now);
  }

  // ------------------------------------------------------------ closing

  ghost predicate AllDead(p: Pool) {
    p.closed && forall i | 0 <= i < |p.lanes| :: p.lanes[i].state == L.Dead
  }

  /** Closing is final: from then on no lane serves, whatever comes back, and every request is refused. */
  lemma {:induction false} ClosedIsFinal(o: Options, birth: real, r0: Run<Op>, r: Run<Op>)
    requires o.Accepted() && Extends(r, r0) && r0.Then? && r0.last.Close?
    ensures AllDead(After(o, birth, r).pool)
    ensures forall role, m, now ::
              Picked(o, After(o, birth, r).pool, role, m, None, now).1 == Err(NoRoutableLane)
  {
    hide Picked, Step, AllDead;
    if r == r0 {
      ClosedAreDead(o, After(o, birth, r.before), r.last);
    } else {
      ClosedIsFinal(o, birth, r0, r.before);
      DeadStay(o, After(o, birth, r.before), r.last);
    }
    var p := After(o, birth, r).pool;
    forall role, m, now ensures Picked(o, p, role, m, None, now).1 == Err(NoRoutableLane) {
      DeadAreRefused(o, p, role, m, now);
    }
  }

  lemma ClosedAreDead(o: Options, s: System, op: Op)
    requires op.Close?
    ensures AllDead(Step(o, s, op).pool)
  {
  }

  lemma DeadAreRefused(o: Options, p: Pool, role: Role, m: L.Measurement, now: real)
    requires AllDead(p)
    ensures Picked(o, p, role, m, None, now) == (p, Err(NoRoutableLane))
  {
    hide Candidates;
    assert forall l | l in p.lanes :: l.state == L.Dead;
    SomeMember(Candidates(o, p, role, now));
  }

  lemma SomeMember(ls: Lanes)
    ensures ls != [] ==> exists l :: l in ls
  {
    if ls != [] { assert ls[0] in ls; }
  }

  lemma DeadStay(o: Options, s: System, op: Op)
    requires AllDead(s.pool)
    ensures AllDead(Step(o, s, op).pool)
  {
    hide Picked, RecycleOldest, Finished, Failed, Reacted, Launch, AllDead;
    match op {
      case Fetch(role, forced, at) =>
        var m := if forced.Some? then L.Preflight else role.Measured();
        var (p, r) := Picked(o, s.pool, role, m, forced, at);
        PickKeepsShape(o, s.pool, role, m, forced, at);
        SameLanesStayDead(s.pool, p);
        if r.Ok? { LaunchKeepsDead(s, p, r.value, m, Caller, at); }
      case WarmFetch(role, at) =>
        var (p, r) := Picked(o, s.pool, role, L.Warm, None, at);
        PickKeepsShape(o, s.pool, role, L.Warm, None, at);
        SameLanesStayDead(s.pool, p);
        if r.Ok? { LaunchKeepsDead(s, p, r.value, L.Warm, Caller, at); }
      case Prime(lane, at) => LaunchKeepsDead(s, s.pool, lane, L.Warm, Priming, at);
      case Maintain(at) =>
        if Numbered(s.pool) {
          NoneIsReplaced(o, s.pool, at);
          SameLanesStayDead(s.pool, RecycleOldest(o, s.pool, at).0);
        }
      case Finish(q, at) => if OnTheWire(s, q) { FinishKeepsDead(o, s.pool, s.requests[q], at); }
      case Fail(q, _, _) => if OnTheWire(s, q) { FailKeepsDead(s.pool, s.requests[q]); }
      case React(q, cancelError, at) =>
        if Awaited(s, q) { ReactKeepsDead(s.pool, s.ended[q].q, ErrorOf(s.ended[q], cancelError), at); }
      case Close(_) => ClosedAreDead(o, s, op);
    }
  }

  lemma SameLanesStayDead(p: Pool, p': Pool)
    requires AllDead(p) && p'.lanes == p.lanes && p'.closed == p.closed
    ensures AllDead(p')
  {
  }

  lemma LaunchKeepsDead(s: System, p: Pool, id: int, m: L.Measurement, origin: Origin, now: real)
    requires AllDead(p)
    ensures AllDead(Launch(s, p, id, m, origin, now).pool)
  {
  }

  lemma FailKeepsDead(p: Pool, q: Request)
    requires AllDead(p) && 0 <= q.lane < |p.lanes|
    ensures AllDead(Failed(p, q))
  {
  }

  lemma ReactKeepsDead(p: Pool, q: Request, error: Option<bool>, now: real)
    requires AllDead(p) && 0 <= q.lane < |p.lanes| == |p.streak|
    ensures AllDead(Reacted(p, q, error, now))
  {
  }

  lemma NoneIsReplaced(o: Options, p: Pool, now: real)
    requires AllDead(p) && Numbered(p)
    ensures RecycleOldest(o, p, now).1.None? && RecycleOldest(o, p, now).0.lanes == p.lanes
    ensures RecycleOldest(o, p, now).0.closed == p.closed
  {
    hide SweptByAge, RoutableCount, Reduce;
    assert forall l | l in p.lanes :: l.state == L.Dead;
    SomeMember(StaleAmong(o, p, p.lanes, now));
  }

  lemma FinishKeepsDead(o: Options, p: Pool, q: Request, now: real)
    requires AllDead(p) && 0 <= q.lane < |p.lanes| == |p.streak|
    ensures AllDead(Finished(o, p, q, now))
  {
    hide L.Recorded, AfterSend;
    RecordedKeepsIdentity(o.lane, p.lanes[q.lane], q.m, now - q.started, Contended(p, q), now);
  }
}
