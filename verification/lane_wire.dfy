/** The requests on the wire: the counters of the lanes are theirs, what a recycled lane may
    still record of the time before, and what parks a lane. */
module LaneWire {
  import opened Wrappers
  import opened Runs
  import opened LanePool
  import opened LaneRuns
  import L = Lane
  import LaneChoice
  import Windows

  // ------------------------------------------------------------ in flight means on the wire

  ghost function OnLane(s: System, i: int): set<nat> {
    set q | q in s.requests && s.requests[q].lane == i
  }

  ghost predicate CountedLane(s: System, i: int)
    requires 0 <= i < |s.pool.lanes|
  {
    s.pool.lanes[i].inFlight == |OnLane(s, i)|
  }

  ghost predicate Counted(s: System) {
    && (forall q | q in s.requests :: q < s.next)
    && (forall q | q in s.ended :: q < s.next && q !in s.requests)
    && forall i | 0 <= i < |s.pool.lanes| :: CountedLane(s, i)
  }

  /** Two pools whose lanes carry as much. */
  ghost predicate SameLoad(p: Pool, p': Pool) {
    |p'.lanes| == |p.lanes| && forall i | 0 <= i < |p.lanes| :: p'.lanes[i].inFlight == p.lanes[i].inFlight
  }

  lemma LaunchCounts(s: System, p: Pool, id: int, m: L.Measurement, origin: Origin, now: real, i: int)
    requires Counted(s) && SameLoad(s.pool, p) && 0 <= id < |p.lanes| && 0 <= i < |p.lanes|
    ensures var s' := Launch(s, p, id, m, origin, now); |s'.pool.lanes| == |p.lanes| && CountedLane(s', i)
  {
    assert CountedLane(s, i);
    var s' := Launch(s, p, id, m, origin, now);
    if i == id { assert OnLane(s', i) == OnLane(s, i) + {s.next}; } else { assert OnLane(s', i) == OnLane(s, i); }
  }

  lemma LaunchKeepsCounted(s: System, p: Pool, id: int, m: L.Measurement, origin: Origin, now: real)
    requires Counted(s) && SameLoad(s.pool, p)
    ensures Counted(Launch(s, p, id, m, origin, now))
  {
    if 0 <= id < |p.lanes| {
      var s' := Launch(s, p, id, m, origin, now);
      forall i | 0 <= i < |p.lanes| ensures |s'.pool.lanes| == |p.lanes| && CountedLane(s', i) {
        LaunchCounts(s, p, id, m, origin, now, i);
      }
      assert s'.requests.Keys == s.requests.Keys + {s.next} && s'.ended == s.ended && s'.next == s.next + 1;
      assert |p.lanes| > 0 && |s'.pool.lanes| == |p.lanes|;
      hide CountedLane, SameLoad, Launch;
    } else {
      SameLoadKeepsCounted(s, p, s.ended);
    }
  }

  /** The end of request `q`, however it ends. */
  lemma EndKeepsCounted(s: System, q: nat, p': Pool, ended: map<nat, Aftermath>)
    requires Counted(s) && OnTheWire(s, q) && |p'.lanes| == |s.pool.lanes|
    requires forall i | 0 <= i < |p'.lanes| ::
               p'.lanes[i].inFlight == s.pool.lanes[i].inFlight - if i == s.requests[q].lane then 1 else 0
    requires ended == s.ended || (q in ended && ended == s.ended[q := ended[q]])
    ensures Counted(s.(pool := p', requests := s.requests - {q}, ended := ended))
  {
    var s' := s.(pool := p', requests := s.requests - {q}, ended := ended);
    forall i | 0 <= i < |s'.pool.lanes| ensures CountedLane(s', i) {
      assert CountedLane(s, i);
      assert OnLane(s', i) == if i == s.requests[q].lane then OnLane(s, i) - {q} else OnLane(s, i);
    }
  }

  lemma SameLoadKeepsCounted(s: System, p': Pool, ended: map<nat, Aftermath>)
    requires Counted(s) && SameLoad(s.pool, p') && ended.Keys <= s.ended.Keys
    ensures Counted(s.(pool := p', ended := ended))
  {
    var s' := s.(pool := p', ended := ended);
    forall i | 0 <= i < |s'.pool.lanes| ensures CountedLane(s', i) {
      assert CountedLane(s, i) && OnLane(s', i) == OnLane(s, i);
    }
  }

  lemma FinishCountsOut(o: Options, p: Pool, q: Request, now: real)
    requires 0 <= q.lane < |p.lanes| == |p.streak|
    ensures var p' := Finished(o, p, q, now);
            && |p'.lanes| == |p.lanes|
            && (forall i | 0 <= i < |p.lanes| ::
                  && p'.lanes[i].inFlight == p.lanes[i].inFlight - (if i == q.lane then 1 else 0)
                  && p'.lanes[i].openedAt == p.lanes[i].openedAt)
  {
    hide AfterSend, L.MedianOf, L.TailOf, L.Scored, Windows.Pushed;
  }

  lemma FailCountsOut(p: Pool, q: Request)
    requires 0 <= q.lane < |p.lanes|
    ensures var p' := Failed(p, q);
            && |p'.lanes| == |p.lanes|
            && (forall i | 0 <= i < |p.lanes| ::
                  && p'.lanes[i].inFlight == p.lanes[i].inFlight - (if i == q.lane then 1 else 0)
                  && p'.lanes[i].openedAt == p.lanes[i].openedAt)
  {
  }

  lemma ReactKeepsLoad(p: Pool, q: Request, error: Option<bool>, now: real)
    requires 0 <= q.lane < |p.lanes| == |p.streak|
    ensures var p' := Reacted(p, q, error, now);
            && SameLoad(p, p')
            && (forall i | 0 <= i < |p.lanes| ::
                  p'.lanes[i].openedAt
                  == if i == q.lane && error == Some(true) && !p.closed then now else p.lanes[i].openedAt)
  {
  }

  lemma RecycleKeepsLoad(o: Options, p: Pool, now: real)
    requires Numbered(p)
    ensures var (p', victim) := RecycleOldest(o, p, now);
            && SameLoad(p, p')
            && (victim.Some? ==> 0 <= victim.value < |p.lanes| && p.lanes[victim.value].inFlight == 0)
            && (forall i | 0 <= i < |p.lanes| ::
                  p'.lanes[i].openedAt == if victim == Some(i) then now else p.lanes[i].openedAt)
  {
    hide StaleAmong, Reduce, RoutableCount, FindId, HasFresh, IsFastLane, TailSafe, Swept, L.Settled;
  }

  lemma StepKeepsCounted(o: Options, s: System, op: Op)
    requires Counted(s)
    ensures Counted(Step(o, s, op))
  {
    hide Counted, Picked, Launch, Finished, Failed, Reacted, RecycleOldest;
    match op {
      case Fetch(role, forced, at) =>
        RequestKeepsCounted(o, s, role, if forced.Some? then L.Preflight else role.Measured(), forced, at);
      case WarmFetch(role, at) => RequestKeepsCounted(o, s, role, L.Warm, None, at);
      case Prime(lane, at) => LaunchKeepsCounted(s, s.pool, lane, L.Warm, Priming, at);
      case Maintain(at) =>
        if Numbered(s.pool) {
          RecycleKeepsLoad(o, s.pool, at);
          var (p, victim) := RecycleOldest(o, s.pool, at);
          if victim.None? {
            SameLoadKeepsCounted(s, p, s.ended);
          } else {
            var parked := p.(cooldown := p.cooldown[victim.value := Forever]);
            LaunchKeepsCounted(s, parked, victim.value, L.Warm, Maintenance, at);
          }
        }
      case Finish(q, at) =>
        if OnTheWire(s, q) {
          FinishCountsOut(o, s.pool, s.requests[q], at);
          EndKeepsCounted(s, q, Finished(o, s.pool, s.requests[q], at), Step(o, s, op).ended);
        }
      case Fail(q, transient, at) =>
        if OnTheWire(s, q) {
          FailCountsOut(s.pool, s.requests[q]);
          EndKeepsCounted(s, q, Failed(s.pool, s.requests[q]), Step(o, s, op).ended);
        }
      case React(q, cancelError, at) =>
        if Awaited(s, q) {
          ReactKeepsLoad(s.pool, s.ended[q].q, ErrorOf(s.ended[q], cancelError), at);
          SameLoadKeepsCounted(
            s, Reacted(s.pool, s.ended[q].q, ErrorOf(s.ended[q], cancelError), at), s.ended - {q});
        }
      case Close(_) => SameLoadKeepsCounted(s, Closed(s.pool), s.ended);
    }
  }

  lemma RequestKeepsCounted(o: Options, s: System, role: Role, m: L.Measurement, forced: Option<int>, now: real)
    requires Counted(s)
    ensures Counted(Requested(o, s, role, m, forced, now))
  {
    hide Counted, Picked, Launch;
    PickKeepsShape(o, s.pool, role, m, forced, now);
    var (p, r) := Picked(o, s.pool, role, m, forced, now);
    SameLoadKeepsCounted(s, p, s.ended);
    if r.Ok? { LaunchKeepsCounted(s, p, r.value, m, Caller, now); }
  }

  lemma {:induction false} RunsAreCounted(o: Options, birth: real, r: Run<Op>)
    requires o.Accepted()
    ensures Counted(After(o, birth, r))
  {
    if r.Then? {
      hide Step, Counted;
      RunsAreCounted(o, birth, r.before);
      StepKeepsCounted(o, After(o, birth, r.before), r.last);
    } else {
      var s := After(o, birth, r);
      forall i | 0 <= i < |s.pool.lanes| ensures CountedLane(s, i) {
        assert OnLane(s, i) == {};
      }
    }
  }

  /** In every reachable state a lane's `inFlight` is the number of requests on the wire on
      it: across recycles, failures, maintenance and close. */
  lemma InFlightIsOnTheWire(o: Options, birth: real, r: Run<Op>, i: int)
    requires o.Accepted() && 0 <= i < |After(o, birth, r).pool.lanes|
    ensures After(o, birth, r).pool.lanes[i].inFlight == |OnLane(After(o, birth, r), i)|
  {
    RunsAreCounted(o, birth, r);
    assert CountedLane(After(o, birth, r), i);
  }

  // ------------------------------------------------------------ what a recycle leaves behind

  /** The step replaces lane `i`'s transport: for its age, or after a failure on it. */
  ghost predicate Recycles(o: Options, s: System, op: Op, i: int) {
    match op
    case Maintain(at) => Numbered(s.pool) && RecycleOldest(o, s.pool, at).1 == Some(i)
    case React(q, cancelError, _) =>
      && Awaited(s, q) && s.ended[q].q.lane == i
      && ErrorOf(s.ended[q], cancelError) == Some(true) && !s.pool.closed
    case _ => false
  }

  /** `r` goes on from `r0` without another recycle of `i`. */
  ghost predicate SameTransport(o: Options, birth: real, r0: Run<Op>, r: Run<Op>, i: int)
    requires o.Accepted()
  {
    || r == r0
    || (r.Then? && !Recycles(o, After(o, birth, r.before), r.last, i) && SameTransport(o, birth, r0, r.before, i))
  }

  /** The run ends with the response to `q`, recorded on lane `i`. */
  ghost predicate Records(o: Options, birth: real, r: Run<Op>, q: nat, i: int)
    requires o.Accepted()
  {
    && r.Then? && r.last.Finish? && r.last.request == q
    && OnTheWire(After(o, birth, r.before), q) && After(o, birth, r.before).requests[q].lane == i
  }

  /** Requests keep their numbers, and new ones get new numbers. */
  lemma StepNumbersRequests(o: Options, s: System, op: Op, q: nat)
    requires q in Step(o, s, op).requests
    ensures q == s.next || (q in s.requests && Step(o, s, op).requests[q] == s.requests[q])
    ensures q == s.next && q !in s.requests ==> Step(o, s, op).requests[q].started == op.at
    ensures Step(o, s, op).next >= s.next
  {
    hide Picked, Finished, Failed, Reacted, RecycleOldest, Closed;
  }

  ghost predicate AllSince(s: System, i: int, n: nat) {
    s.next >= n && forall q | q in OnLane(s, i) :: q >= n
  }

  lemma StepKeepsSince(o: Options, s: System, op: Op, i: int, n: nat)
    requires AllSince(s, i, n)
    ensures AllSince(Step(o, s, op), i, n)
  {
    var s' := Step(o, s, op);
    hide Step;
    forall q | q in OnLane(s', i) ensures q >= n {
      StepNumbersRequests(o, s, op, q);
      assert q == s.next || q in OnLane(s, i);
    }
    StepNextGrows(o, s, op);
  }

  lemma StepNextGrows(o: Options, s: System, op: Op)
    ensures Step(o, s, op).next >= s.next
  {
    hide Picked, Finished, Failed, Reacted, RecycleOldest, Closed;
  }

  lemma {:induction false} TransportKeepsSince(o: Options, birth: real, r0: Run<Op>, r: Run<Op>, i: int, n: nat)
    requires o.Accepted() && SameTransport(o, birth, r0, r, i) && AllSince(After(o, birth, r0), i, n)
    ensures AllSince(After(o, birth, r), i, n)
  {
    if r != r0 {
      hide Step, AllSince;
      TransportKeepsSince(o, birth, r0, r.before, i, n);
      StepKeepsSince(o, After(o, birth, r.before), r.last, i, n);
    }
  }

  lemma RecycleRequests(o: Options, s: System, op: Op, i: int)
    requires Counted(s) && Recycles(o, s, op, i)
    ensures forall q | q in OnLane(s, i) ::
              q < s.next && q in Step(o, s, op).requests && Step(o, s, op).requests[q] == s.requests[q]
    ensures OnLane(s, i) == {} ==> AllSince(Step(o, s, op), i, s.next)
  {
    hide Finished, Failed, Reacted, RecycleOldest, CountedLane;
    var s' := Step(o, s, op);
    assert forall q | q in OnLane(s', i) :: q in OnLane(s, i) || q == s.next;
  }

  /** What a recycled lane records until it is recycled again: only requests that were launched
      after the recycle, in every continuation, if and only if it left none on the wire. */
  lemma RecordsOnlyNewIff(o: Options, birth: real, r0: Run<Op>, i: int)
    requires o.Accepted() && o.lane.window >= 1 && r0.Then? && Recycles(o, After(o, birth, r0.before), r0.last, i)
    ensures (forall r, q: nat | SameTransport(o, birth, r0, r, i) && Records(o, birth, r, q, i) ::
               q >= After(o, birth, r0.before).next)
       <==> OnLane(After(o, birth, r0.before), i) == {}
  {
    var s := After(o, birth, r0.before);
    RunsAreCounted(o, birth, r0.before);
    RecycleRequests(o, s, r0.last, i);
    assert OnLane(s, i) == {} ==> AllSince(After(o, birth, r0), i, s.next);
    hide After, Recycles, SameTransport, Records, AllSince, OnLane;
    if OnLane(s, i) == {} {
      forall r, q: nat | SameTransport(o, birth, r0, r, i) && Records(o, birth, r, q, i) ensures q >= s.next {
        NewOnly(o, birth, r0, r, q, i, s.next);
      }
    } else {
      var q :| q in OnLane(s, i);
      StraddlerIsRecorded(o, birth, r0, q, i);
    }
  }

  lemma NewOnly(o: Options, birth: real, r0: Run<Op>, r: Run<Op>, q: nat, i: int, n: nat)
    requires o.Accepted() && r0.Then? && Recycles(o, After(o, birth, r0.before), r0.last, i)
    requires SameTransport(o, birth, r0, r, i) && Records(o, birth, r, q, i) && AllSince(After(o, birth, r0), i, n)
    ensures r != r0 && q >= n
  {
    hide After;
    TransportKeepsSince(o, birth, r0, r.before, i, n);
    assert q in OnLane(After(o, birth, r.before), i);
  }

  lemma StraddlerIsRecorded(o: Options, birth: real, r0: Run<Op>, q: nat, i: int)
    requires o.Accepted() && o.lane.window >= 1 && r0.Then? && Recycles(o, After(o, birth, r0.before), r0.last, i)
    requires q in OnLane(After(o, birth, r0.before), i)
    ensures var r := Then(r0, Finish(q, r0.last.at));
            && SameTransport(o, birth, r0, r, i) && Records(o, birth, r, q, i)
            && q < After(o, birth, r0.before).next
  {
    RunsAreCounted(o, birth, r0.before);
    RecycleRequests(o, After(o, birth, r0.before), r0.last, i);
    RunsAreWell(o, birth, r0);
    assert SameTransport(o, birth, r0, r0, i);
    hide Step, Recycles;
    hide LaneIsWell;
  }

  /** A lane recycled for its age has nothing on the wire. */
  lemma MaintenanceLeavesNone(o: Options, birth: real, r0: Run<Op>, i: int)
    requires o.Accepted() && r0.Then? && r0.last.Maintain? && Recycles(o, After(o, birth, r0.before), r0.last, i)
    ensures OnLane(After(o, birth, r0.before), i) == {}
  {
    var s := After(o, birth, r0.before);
    RecycleKeepsLoad(o, s.pool, r0.last.at);
    InFlightIsOnTheWire(o, birth, r0.before, i);
  }

  /** A lane recycled after a failure leaves one exactly when it carries a request by the time the
      pool reacts: one that failed with the first, and earlier than that, is gone too. */
  lemma FailureLeavesSomeIff(o: Options, birth: real, r0: Run<Op>, i: int)
    requires o.Accepted() && r0.Then? && r0.last.React? && Recycles(o, After(o, birth, r0.before), r0.last, i)
    ensures OnLane(After(o, birth, r0.before), i) != {} <==> After(o, birth, r0.before).pool.lanes[i].inFlight > 0
  {
    InFlightIsOnTheWire(o, birth, r0.before, i);
  }

  /** Every operation since `r0` happened at `t` or later. */
  ghost predicate NotBefore(r0: Run<Op>, r: Run<Op>, t: real) {
    r == r0 || (r.Then? && t <= r.last.at && NotBefore(r0, r.before, t))
  }

  /** Lane `i` was opened at `t`, and what is on the wire on it began at `t` or later. */
  ghost predicate Dated(s: System, i: int, t: real) {
    && 0 <= i < |s.pool.lanes| && s.pool.lanes[i].openedAt == t
    && forall q | q in OnLane(s, i) :: s.requests[q].started >= t
  }

  lemma StepKeepsDated(o: Options, s: System, op: Op, i: int, t: real)
    requires Counted(s) && Dated(s, i, t) && t <= op.at && !Recycles(o, s, op, i)
    ensures Dated(Step(o, s, op), i, t)
  {
    var s' := Step(o, s, op);
    forall q | q in OnLane(s', i) ensures s'.requests[q].started >= t {
      StepNumbersRequests(o, s, op, q);
      hide Step;
    }
    StepKeepsOpenedAt(o, s, op, i);
    hide Step;
  }

  lemma StepKeepsOpenedAt(o: Options, s: System, op: Op, i: int)
    requires 0 <= i < |s.pool.lanes| && !Recycles(o, s, op, i)
    ensures |Step(o, s, op).pool.lanes| == |s.pool.lanes|
    ensures Step(o, s, op).pool.lanes[i].openedAt == s.pool.lanes[i].openedAt
  {
    hide Picked, Finished, Failed, Reacted, RecycleOldest;
    match op {
      case Fetch(role, forced, at) =>
        PickKeepsShape(o, s.pool, role, if forced.Some? then L.Preflight else role.Measured(), forced, at);
      case WarmFetch(role, at) => PickKeepsShape(o, s.pool, role, L.Warm, None, at);
      case Maintain(at) => if Numbered(s.pool) { RecycleKeepsLoad(o, s.pool, at); }
      case Finish(q, at) => if OnTheWire(s, q) { FinishCountsOut(o, s.pool, s.requests[q], at); }
      case Fail(q, transient, at) => if OnTheWire(s, q) { FailCountsOut(s.pool, s.requests[q]); }
      case React(q, cancelError, at) =>
        if Awaited(s, q) { ReactKeepsLoad(s.pool, s.ended[q].q, ErrorOf(s.ended[q], cancelError), at); }
      case _ =>
    }
  }

  /** Whatever the recycle leaves on the wire on `i` began at that very time. */
  ghost predicate NoneEarlier(s: System, op: Op, i: int) {
    forall q | q in OnLane(s, i) :: s.requests[q].started >= op.at
  }

  lemma RecycleIsDated(o: Options, s: System, op: Op, i: int)
    requires Counted(s) && Recycles(o, s, op, i) && NoneEarlier(s, op, i)
    ensures Dated(Step(o, s, op), i, op.at)
  {
    hide Failed, Reacted, RecycleOldest, CountedLane;
    RecycleRequests(o, s, op, i);
    var s' := Step(o, s, op);
    forall q | q in OnLane(s', i) ensures s'.requests[q].started >= op.at {
      StepNumbersRequests(o, s, op, q);
      assert q in OnLane(s, i) || q == s.next;
    }
    if op.React? {
      var a := s.ended[op.request];
      ReactKeepsLoad(s.pool, a.q, ErrorOf(a, op.cancelError), op.at);
    } else {
      RecycleKeepsLoad(o, s.pool, op.at);
    }
  }

  lemma {:induction false} TransportIsDated(o: Options, birth: real, r0: Run<Op>, r: Run<Op>, i: int, t: real)
    requires o.Accepted() && Dated(After(o, birth, r0), i, t)
    requires SameTransport(o, birth, r0, r, i) && NotBefore(r0, r, t)
    ensures Dated(After(o, birth, r), i, t)
  {
    if r != r0 {
      hide Step, Dated;
      TransportIsDated(o, birth, r0, r.before, i, t);
      RunsAreCounted(o, birth, r.before);
      StepKeepsDated(o, After(o, birth, r.before), r.last, i, t);
    }
  }

  /** The recorded request began at or after its lane's `openedAt`. */
  ghost predicate BeganOnTransport(o: Options, birth: real, r: Run<Op>, q: nat, i: int)
    requires o.Accepted() && Records(o, birth, r, q, i)
  {
    After(o, birth, r.before).requests[q].started >= After(o, birth, r.before).pool.lanes[i].openedAt
  }

  /** In terms of the clock: whatever a recycled lane records until it is recycled again began
      at or after its `openedAt`, in every continuation, if and only if nothing that it left
      on the wire had begun earlier. */
  lemma RecordsOnlyLaterIff(o: Options, birth: real, r0: Run<Op>, i: int)
    requires o.Accepted() && o.lane.window >= 1 && r0.Then? && Recycles(o, After(o, birth, r0.before), r0.last, i)
    ensures (forall r, q: nat |
               SameTransport(o, birth, r0, r, i) && NotBefore(r0, r, r0.last.at) && Records(o, birth, r, q, i) ::
               BeganOnTransport(o, birth, r, q, i))
       <==> NoneEarlier(After(o, birth, r0.before), r0.last, i)
  {
    var s, t := After(o, birth, r0.before), r0.last.at;
    RunsAreCounted(o, birth, r0.before);
    if NoneEarlier(s, r0.last, i) {
      RecycleIsDated(o, s, r0.last, i);
      assert Dated(After(o, birth, r0), i, t);
      hide After, Recycles, SameTransport, NotBefore, Records, Dated, NoneEarlier, BeganOnTransport;
      forall r, q: nat | SameTransport(o, birth, r0, r, i) && NotBefore(r0, r, t) && Records(o, birth, r, q, i)
        ensures BeganOnTransport(o, birth, r, q, i)
      {
        DatedIsBegan(o, birth, r0, r, q, i, t);
      }
    } else {
      var q :| q in OnLane(s, i) && s.requests[q].started < t;
      StraddlerIsRecorded(o, birth, r0, q, i);
      StraddlerIsEarlier(o, birth, r0, q, i);
    }
  }

  lemma DatedIsBegan(o: Options, birth: real, r0: Run<Op>, r: Run<Op>, q: nat, i: int, t: real)
    requires o.Accepted() && Dated(After(o, birth, r0), i, t) && r0.Then? && !r0.last.Finish?
    requires SameTransport(o, birth, r0, r, i) && NotBefore(r0, r, t) && Records(o, birth, r, q, i)
    ensures BeganOnTransport(o, birth, r, q, i)
  {
    hide After;
    TransportIsDated(o, birth, r0, r.before, i, t);
    assert q in OnLane(After(o, birth, r.before), i);
  }

  lemma StraddlerIsEarlier(o: Options, birth: real, r0: Run<Op>, q: nat, i: int)
    requires o.Accepted() && r0.Then? && Recycles(o, After(o, birth, r0.before), r0.last, i)
    requires q in OnLane(After(o, birth, r0.before), i)
    requires After(o, birth, r0.before).requests[q].started < r0.last.at
    requires Records(o, birth, Then(r0, Finish(q, r0.last.at)), q, i)
    ensures NotBefore(r0, Then(r0, Finish(q, r0.last.at)), r0.last.at)
    ensures !BeganOnTransport(o, birth, Then(r0, Finish(q, r0.last.at)), q, i)
  {
    var s, op := After(o, birth, r0.before), r0.last;
    RunsAreCounted(o, birth, r0.before);
    RecycleRequests(o, s, op, i);
    hide Failed, Reacted, RecycleOldest, Counted;
    if op.React? {
      var a := s.ended[op.request];
      ReactKeepsLoad(s.pool, a.q, ErrorOf(a, op.cancelError), op.at);
    } else {
      RecycleKeepsLoad(o, s.pool, op.at);
    }
  }

  /** An input that leaves one: a single lane carries two requests, the first fails, and the
      lane that replaces it records the second, which began before it was opened. */
  ghost function Straddle(began: real, failed: real, ended: real): Run<Op> {
    var two := Then(Then(Start, Fetch(GeneralRole, None, began)), Fetch(GeneralRole, None, began));
    Then(Then(Then(two, Op.Fail(0, true, failed)), Op.React(0, None, failed)), Op.Finish(1, ended))
  }

  lemma StraddlerExists(o: Options, birth: real, began: real, failed: real, ended: real)
    requires o.Accepted() && o.lane.window >= 1 && o.lanes == 1 && began < failed <= ended
    ensures var r := Straddle(began, failed, ended);
            && Recycles(o, After(o, birth, r.before.before), r.before.last, 0)
            && Records(o, birth, r, 1, 0) && !BeganOnTransport(o, birth, r, 1, 0)
            && After(o, birth, r).pool.lanes[0].profiles.general.samples == [ended - began]
  {
    var r := Straddle(began, failed, ended);
    var two := r.before.before.before;
    TwoAsked(o, birth, began);
    AfterThen(o, birth, two, Op.Fail(0, true, failed));
    AfterThen(o, birth, r.before.before, Op.React(0, None, failed));
    AfterThen(o, birth, r.before, Op.Finish(1, ended));
    hide Step, After, L.MedianOf, L.TailOf, Recycles;
    SecondIsRecorded(o, After(o, birth, two), began, failed, ended);
  }

  lemma TwoAsked(o: Options, birth: real, began: real)
    requires o.Accepted() && o.lane.window >= 1 && o.lanes == 1
    ensures var one := Then(Start, Fetch(GeneralRole, None, began));
            var s := After(o, birth, Then(one, Fetch(GeneralRole, None, began)));
            && |s.pool.lanes| == |s.pool.streak| == 1 && !s.pool.closed
            && 0 in s.requests && 1 in s.requests && s.requests[0].lane == 0 == s.requests[1].lane
            && s.requests[1].m == L.General && s.requests[1].started == began
  {
    assert After(o, birth, Start) == System(Created(o, birth), map[], map[], 0);
    OnlyLaneIsPicked(o, birth, Start, began);
    OnlyLaneIsPicked(o, birth, Then(Start, Fetch(GeneralRole, None, began)), began);
    hide After;
  }

  /** One more request, numbered next, on the only lane. */
  ghost predicate Asked(s: System, s': System, now: real)
    requires |s.pool.lanes| == 1
  {
    && s'.pool.lanes == [s.pool.lanes[0].(inFlight := s.pool.lanes[0].inFlight + 1)]
    && s'.pool.closed == s.pool.closed && s'.next == s.next + 1 && s'.pool.streak == s.pool.streak
    && s'.requests == s.requests[s.next := Request(0, L.General, s.pool.lanes[0].inFlight > 0, now, Caller)]
  }

  lemma OnlyLaneIsPicked(o: Options, birth: real, r: Run<Op>, now: real)
    requires o.Accepted() && o.lane.window >= 1 && o.lanes == 1 && !After(o, birth, r).pool.closed
    ensures var s, s' := After(o, birth, r), After(o, birth, Then(r, Fetch(GeneralRole, None, now)));
            |s.pool.lanes| == |s.pool.streak| == 1 && Asked(s, s', now)
  {
    AfterThen(o, birth, r, Fetch(GeneralRole, None, now));
    hide After, Picked, Step, Asked;
    OnlyLaneIsZero(o, birth, r, now);
    OnlyLaneLaunches(o, After(o, birth, r), now);
  }

  lemma OnlyLaneIsZero(o: Options, birth: real, r: Run<Op>, now: real)
    requires o.Accepted() && o.lane.window >= 1 && o.lanes == 1 && !After(o, birth, r).pool.closed
    ensures var p := After(o, birth, r).pool;
            |p.lanes| == |p.streak| == 1 && Picked(o, p, GeneralRole, L.General, None, now).1 == Ok(0)
  {
    hide After, Picked, LaneIsWell;
    RoutingIsTotal(o, birth, r, GeneralRole, L.General, now);
    RunsAreWell(o, birth, r);
  }

  lemma OnlyLaneLaunches(o: Options, s: System, now: real)
    requires |s.pool.lanes| == 1 && Picked(o, s.pool, GeneralRole, L.General, None, now).1 == Ok(0)
    ensures Asked(s, Step(o, s, Fetch(GeneralRole, None, now)), now)
  {
    hide Picked;
    PickKeepsShape(o, s.pool, GeneralRole, L.General, None, now);
  }

  lemma SecondIsRecorded(o: Options, s: System, began: real, failed: real, ended: real)
    requires o.lane.window >= 1 && began < failed <= ended
    requires |s.pool.lanes| == |s.pool.streak| == 1 && !s.pool.closed
    requires 0 in s.requests && 1 in s.requests && s.requests[0].lane == 0 == s.requests[1].lane
    requires s.requests[1].m == L.General && s.requests[1].started == began
    ensures var s1 := Step(o, s, Op.Fail(0, true, failed));
            var s2 := Step(o, s1, Op.React(0, None, failed));
            && Recycles(o, s1, Op.React(0, None, failed), 0)
            && OnTheWire(s2, 1) && s2.requests[1] == s.requests[1]
            && s2.pool.lanes[0].openedAt == failed > began
            && Step(o, s2, Op.Finish(1, ended)).pool.lanes[0].profiles.general.samples == [ended - began]
  {
    hide L.MedianOf, L.TailOf, L.Scored, AfterSend;
  }

  // ------------------------------------------------------------ what parks a lane

  /** A reply's result parks its lane exactly when the lane had it to itself, it was slow, it
      completed the streak, and another lane is routable. The streak is kept in a byte that
      stops at 255, so a longer one is never completed. */
  lemma ParkedIff(o: Options, p: Pool, id: int, rtt: real, contended: bool, now: real)
    requires 0 <= id < |p.lanes| == |p.streak| && o.slowCooldownMs > 0.0 && !Parked(p, id, now)
    ensures Parked(AfterSend(o, p, id, rtt, contended, now), id, now) <==>
              && !contended && rtt > o.slowThresholdMs && RoutableCount(p.lanes) > 1
              && o.slowSamplesBeforeCooldown <= 255 && p.streak[id] + 1 >= o.slowSamplesBeforeCooldown
  {
    hide TailSafe, RoutableCount;
  }

  /** Request `q` primes lane `i` for maintenance: it is on the wire, or not yet reacted to. */
  ghost predicate Primes(s: System, i: int, q: nat) {
    || (q in s.requests && s.requests[q].lane == i && s.requests[q].origin.Maintenance?)
    || (q in s.ended && s.ended[q].q.lane == i && s.ended[q].q.origin.Maintenance?)
  }

  /** The lanes that are parked are those being primed after a recycle. */
  ghost predicate OnlyPrimingParks(s: System) {
    forall i | i in s.pool.cooldown :: s.pool.cooldown[i].Forever? && exists q :: Primes(s, i, q)
  }

  lemma LongStreakNeverParks(o: Options, p: Pool, id: int, rtt: real, contended: bool, now: real)
    requires 0 <= id < |p.lanes| && id < |p.streak| && o.slowSamplesBeforeCooldown > 255
    ensures AfterSend(o, p, id, rtt, contended, now).cooldown == p.cooldown
  {
    hide TailSafe, RoutableCount;
  }

  lemma FinishParksNone(o: Options, p: Pool, q: Request, now: real)
    requires 0 <= q.lane < |p.lanes| == |p.streak| && o.slowSamplesBeforeCooldown > 255
    ensures Finished(o, p, q, now).cooldown == p.cooldown
  {
    hide AfterSend, L.Recorded;
    var contended := q.shared || p.lanes[q.lane].inFlight > 1;
    var p1 := p.(lanes := p.lanes[q.lane := L.Recorded(o.lane, p.lanes[q.lane], q.m, now - q.started, contended, now)]);
    LongStreakNeverParks(o, p1, q.lane, now - q.started, contended, now);
  }

  lemma ReactParksNone(p: Pool, q: Request, error: Option<bool>, now: real)
    requires 0 <= q.lane < |p.lanes| == |p.streak|
    ensures var p' := Reacted(p, q, error, now);
            && (forall i | i in p'.cooldown :: i in p.cooldown && p'.cooldown[i] == p.cooldown[i])
            && (q.origin.Maintenance? ==> q.lane !in p'.cooldown)
  {
  }

  lemma RecycleParksNone(o: Options, p: Pool, now: real)
    requires Numbered(p)
    ensures RecycleOldest(o, p, now).0.cooldown == p.cooldown
  {
    hide StaleAmong, Reduce, RoutableCount, FindId, Swept;
  }

  /** `i` was parked already, or is parked for the priming request that this step launches. */
  ghost predicate ParkedForPriming(s: System, s': System, i: int)
    requires i in s'.pool.cooldown
  {
    || (i in s.pool.cooldown && s'.pool.cooldown[i] == s.pool.cooldown[i])
    || (s'.pool.cooldown[i].Forever? && Primes(s', i, s.next))
  }

  lemma StepParks(o: Options, s: System, op: Op)
    requires o.slowSamplesBeforeCooldown > 255 && Counted(s)
    ensures var s' := Step(o, s, op);
            && (forall i | i in s'.pool.cooldown :: ParkedForPriming(s, s', i))
            && (forall i, q | Primes(s, i, q) :: Primes(s', i, q) || i !in s'.pool.cooldown)
  {
    hide CountedLane, Picked, Finished, Failed, Reacted, RecycleOldest, Closed;
    match op {
      case Fetch(role, forced, at) =>
        PickKeepsShape(o, s.pool, role, if forced.Some? then L.Preflight else role.Measured(), forced, at);
      case WarmFetch(role, at) => PickKeepsShape(o, s.pool, role, L.Warm, None, at);
      case Prime(_, _) =>
      case Maintain(at) =>
        if Numbered(s.pool) {
          RecycleParksNone(o, s.pool, at);
          RecycleKeepsLoad(o, s.pool, at);
        }
      case Finish(q, at) => if OnTheWire(s, q) { FinishParksNone(o, s.pool, s.requests[q], at); }
      case Fail(q, _, _) => if OnTheWire(s, q) { FailParksNone(s.pool, s.requests[q]); }
      case React(q, cancelError, at) =>
        if Awaited(s, q) { ReactParksNone(s.pool, s.ended[q].q, ErrorOf(s.ended[q], cancelError), at); }
      case Close(_) => CloseParksNone(s.pool);
    }
  }

  lemma FailParksNone(p: Pool, q: Request)
    requires 0 <= q.lane < |p.lanes|
    ensures Failed(p, q).cooldown == p.cooldown
  {
  }

  lemma CloseParksNone(p: Pool)
    ensures Closed(p).cooldown == p.cooldown
  {
  }

  lemma StepParksForPriming(o: Options, s: System, op: Op)
    requires o.slowSamplesBeforeCooldown > 255 && Counted(s) && OnlyPrimingParks(s)
    ensures OnlyPrimingParks(Step(o, s, op))
  {
    StepParks(o, s, op);
    hide Step, CountedLane, Primes;
    var s' := Step(o, s, op);
    forall i | i in s'.pool.cooldown ensures s'.pool.cooldown[i].Forever? && exists q :: Primes(s', i, q) {
      assert ParkedForPriming(s, s', i);
      if i in s.pool.cooldown && s'.pool.cooldown[i] == s.pool.cooldown[i] {
        var q :| Primes(s, i, q);
        assert Primes(s', i, q);
      } else {
        assert Primes(s', i, s.next);
      }
    }
  }

  /** Over every run: with more than 255 slow samples asked for, no reply ever parks a lane,
      however slow. A lane is parked only while it is primed after a recycle. */
  lemma {:induction false} LongStreaksNeverPark(o: Options, birth: real, r: Run<Op>)
    requires o.Accepted() && o.slowSamplesBeforeCooldown > 255
    ensures OnlyPrimingParks(After(o, birth, r))
  {
    if r.Then? {
      hide Step, OnlyPrimingParks;
      LongStreaksNeverPark(o, birth, r.before);
      RunsAreCounted(o, birth, r.before);
      StepParksForPriming(o, After(o, birth, r.before), r.last);
    }
  }

  // An input: a pool with one reply lane, and slow replies one after another.

  ghost function SlowReplies(rtt: real, n: nat): Run<Op> {
    if n == 0 then Start
    else Then(Then(SlowReplies(rtt, n - 1), Fetch(SendRole, None, Time(rtt, n - 1))), Op.Finish(n - 1, Time(rtt, n)))
  }

  ghost function Time(rtt: real, n: nat): real { n as real * rtt }

  lemma TimePasses(rtt: real, n: nat)
    ensures Time(rtt, n + 1) - Time(rtt, n) == rtt
  {
  }

  /** One reply lane, and slow replies that are slow. */
  ghost predicate OneReplyLane(o: Options, rtt: real) {
    o.Accepted() && o.lane.window >= 1 && o.sendReserved == 1 && o.slowCooldownMs > 0.0 && rtt > o.slowThresholdMs
  }

  ghost function Capped(n: nat): nat { if n < 255 then n else 255 }

  /** Nothing on the wire, nothing parked, and `n` slow replies counted. */
  ghost predicate SlowSoFar(o: Options, s: System, n: nat) {
    && |s.pool.lanes| == |s.pool.streak| == o.lanes >= 1 && !s.pool.closed
    && s.requests == map[] && s.next == n && s.pool.cooldown == map[] && s.pool.streak[0] == Capped(n)
  }

  lemma AllRoutable(ls: Lanes)
    requires forall i | 0 <= i < |ls| :: ls[i].state == L.Ready
    ensures RoutableCount(ls) == |ls|
  {
    if |ls| > 0 { AllRoutable(ls[1..]); }
  }

  /** The reply goes to lane 0, which has it to itself. */
  lemma ReplyTakesLaneZero(o: Options, birth: real, r: Run<Op>, n: nat, rtt: real, now: real)
    requires OneReplyLane(o, rtt) && SlowSoFar(o, After(o, birth, r), n)
    ensures var s, s' := After(o, birth, r), After(o, birth, Then(r, Fetch(SendRole, None, now)));
            && s'.requests == map[n := Request(0, L.Send, false, now, Caller)] && s'.next == n + 1
            && s'.pool.lanes == s.pool.lanes[0 := s.pool.lanes[0].(inFlight := 1)]
            && s'.pool.streak == s.pool.streak && s'.pool.cooldown == map[] && !s'.pool.closed
  {
    var s := After(o, birth, r);
    assert After(o, birth, Then(r, Fetch(SendRole, None, now))) == Step(o, s, Fetch(SendRole, None, now));
    RunsAreWell(o, birth, r);
    InFlightIsOnTheWire(o, birth, r, 0);
    hide After;
    PickedIsZero(o, s.pool, now);
    assert OnLane(s, 0) == {};
    hide PoolIsWell;
    LaneZeroLaunches(o, s, now);
  }

  lemma LaneZeroLaunches(o: Options, s: System, now: real)
    requires |s.pool.lanes| > 0 && s.pool.lanes[0].inFlight == 0
    requires Picked(o, s.pool, SendRole, L.Send, None, now).1 == Ok(0)
    ensures var s' := Step(o, s, Fetch(SendRole, None, now));
            && s'.requests == s.requests[s.next := Request(0, L.Send, false, now, Caller)] && s'.next == s.next + 1
            && s'.pool.lanes == s.pool.lanes[0 := s.pool.lanes[0].(inFlight := 1)]
            && s'.pool.streak == s.pool.streak && s'.pool.cooldown == s.pool.cooldown && s'.pool.closed == s.pool.closed
  {
    hide Picked;
    PickKeepsShape(o, s.pool, SendRole, L.Send, None, now);
  }

  lemma PickedIsZero(o: Options, p: Pool, now: real)
    requires o.sendReserved == 1 && PoolIsWell(o, p) && o.lanes >= 1 && !p.closed && p.cooldown == map[]
    ensures Picked(o, p, SendRole, L.Send, None, now).1 == Ok(0)
  {
    hide Picked, Candidates, Bounded, L.Settled;
    assert LaneIsWell(p, 0) && p.lanes[0] in p.lanes;
    LaneChoice.PickIsTotal(o, p, SendRole, L.Send, None, now);
    var l :| LaneChoice.Picks(o, p, SendRole, L.Send, None, now, l);
    LaneChoice.PickStaysInBand(o, p, SendRole, L.Send, None, now, l, p.lanes[0]);
    var i :| 0 <= i < |p.lanes| && p.lanes[i] == l;
    assert LaneIsWell(p, i);
  }

  /** Its result counts, and parks the lane if it completes the streak. */
  lemma SlowResult(o: Options, p: Pool, n: nat, q: Request, rtt: real, now: real)
    requires OneReplyLane(o, rtt) && |p.lanes| == |p.streak| == o.lanes && now - q.started == rtt
    requires q.lane == 0 && q.m == L.Send && !q.shared && q.origin.Caller?
    requires p.lanes[0].inFlight == 1 && p.cooldown == map[] && p.streak[0] == Capped(n)
    requires forall i | 0 <= i < |p.lanes| :: p.lanes[i].state == L.Ready
    ensures var p' := Finished(o, p, q, now);
            && |p'.lanes| == |p'.streak| == o.lanes && p'.closed == p.closed
            && if Capped(n + 1) >= o.slowSamplesBeforeCooldown
               then p'.cooldown == map[0 := At(now + o.slowCooldownMs)]
               else p'.cooldown == map[] && p'.streak[0] == Capped(n + 1)
  {
    hide L.MedianOf, L.TailOf, L.Scored, Windows.Pushed, RoutableCount, TailSafe;
    var recorded := L.Recorded(o.lane, p.lanes[0], q.m, rtt, false, now);
    RecordedKeepsIdentity(o.lane, p.lanes[0], q.m, rtt, false, now);
    AllRoutable(p.lanes[0 := recorded]);
  }

  lemma ReplyIsCounted(o: Options, birth: real, r: Run<Op>, n: nat, rtt: real, asked: real, answered: real)
    requires OneReplyLane(o, rtt) && SlowSoFar(o, After(o, birth, r), n) && answered - asked == rtt
    ensures var s := After(o, birth, Then(Then(r, Fetch(SendRole, None, asked)), Op.Finish(n, answered)));
            if Capped(n + 1) >= o.slowSamplesBeforeCooldown
            then s.pool.cooldown == map[0 := At(answered + o.slowCooldownMs)]
            else SlowSoFar(o, s, n + 1)
  {
    var r1 := Then(r, Fetch(SendRole, None, asked));
    var s1 := After(o, birth, r1);
    ReplyTakesLaneZero(o, birth, r, n, rtt, asked);
    RunsAreWell(o, birth, r1);
    AfterThen(o, birth, r1, Op.Finish(n, answered));
    hide After;
    ResultIsCounted(o, s1, n, rtt, asked, answered);
  }

  lemma AfterThen(o: Options, birth: real, r: Run<Op>, op: Op)
    requires o.Accepted()
    ensures After(o, birth, Then(r, op)) == Step(o, After(o, birth, r), op)
  {
  }

  lemma ResultIsCounted(o: Options, s1: System, n: nat, rtt: real, asked: real, answered: real)
    requires OneReplyLane(o, rtt) && Well(o, s1) && !s1.pool.closed && answered - asked == rtt
    requires s1.requests == map[n := Request(0, L.Send, false, asked, Caller)] && s1.next == n + 1
    requires |s1.pool.lanes| > 0 && s1.pool.lanes[0].inFlight == 1 && s1.pool.cooldown == map[]
    requires |s1.pool.streak| > 0 && s1.pool.streak[0] == Capped(n)
    ensures var s := Step(o, s1, Op.Finish(n, answered));
            if Capped(n + 1) >= o.slowSamplesBeforeCooldown
            then s.pool.cooldown == map[0 := At(answered + o.slowCooldownMs)]
            else SlowSoFar(o, s, n + 1)
  {
    AllReady(o, s1);
    hide Well;
    SlowResult(o, s1.pool, n, s1.requests[n], rtt, answered);
    hide Finished, OneReplyLane;
    assert s1.requests - {n} == map[];
  }

  lemma AllReady(o: Options, s: System)
    requires Well(o, s) && !s.pool.closed
    ensures |s.pool.lanes| == |s.pool.streak| == o.lanes
    ensures forall i | 0 <= i < |s.pool.lanes| :: s.pool.lanes[i].state == L.Ready
  {
    forall i | 0 <= i < |s.pool.lanes| ensures s.pool.lanes[i].state == L.Ready { assert LaneIsWell(s.pool, i); }
  }

  lemma {:induction false} SlowRepliesAreCounted(o: Options, birth: real, rtt: real, n: nat)
    requires OneReplyLane(o, rtt) && (n == 0 || Capped(n) < o.slowSamplesBeforeCooldown)
    ensures SlowSoFar(o, After(o, birth, SlowReplies(rtt, n)), n)
  {
    if n > 0 {
      SlowRepliesAreCounted(o, birth, rtt, n - 1);
      TimePasses(rtt, n - 1);
      hide After, SlowSoFar, OneReplyLane, Time;
      ReplyIsCounted(o, birth, SlowReplies(rtt, n - 1), n - 1, rtt, Time(rtt, n - 1), Time(rtt, n));
    }
  }

  /** On the only reply lane, as many slow replies in a row as the option asks for park the lane
      if and only if the option is at most 255. */
  lemma SlowRepliesParkIff(o: Options, birth: real, rtt: real)
    requires OneReplyLane(o, rtt)
    ensures var n := o.slowSamplesBeforeCooldown;
            Parked(After(o, birth, SlowReplies(rtt, n)).pool, 0, Time(rtt, n)) <==> n <= 255
  {
    var n := o.slowSamplesBeforeCooldown;
    hide After, Time;
    if n <= 255 {
      SlowRepliesAreCounted(o, birth, rtt, n - 1);
      TimePasses(rtt, n - 1);
      assert SlowReplies(rtt, n)
          == Then(Then(SlowReplies(rtt, n - 1), Fetch(SendRole, None, Time(rtt, n - 1))),
                  Op.Finish(n - 1, Time(rtt, n)));
      hide SlowReplies, SlowSoFar;
      ReplyIsCounted(o, birth, SlowReplies(rtt, n - 1), n - 1, rtt, Time(rtt, n - 1), Time(rtt, n));
    } else {
      SlowRepliesAreCounted(o, birth, rtt, n);
    }
  }
}
