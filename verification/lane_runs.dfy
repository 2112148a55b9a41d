/** Runs of the lane pool: requests, results, failures and maintenance in any order.
    Every lane stays usable, and a pin on a lane that keeps answering fast stays. */
module LaneRuns {
  import opened Wrappers
  import opened Runs
  import opened LanePool
  import opened LaneChoice
  import L = Lane
  import Windows

  /** A request that is off the wire while whoever awaits it has yet to go on: it was rejected,
      or it was answered and its body is being cancelled. */
  datatype Aftermath = Rejected(q: Request, transient: bool) | Cancelling(q: Request)

  /** The pool, the requests on the wire, and those that ended but are not yet reacted to. */
  datatype System = System(pool: Pool, requests: map<nat, Request>, ended: map<nat, Aftermath>, next: nat)

  datatype Op =
    | Fetch(role: Role, forced: Option<int>, at: real)
    | WarmFetch(role: Role, at: real)
    | Prime(lane: int, at: real)
    | Maintain(at: real)
    | Finish(request: nat, at: real)
    | Fail(request: nat, transient: bool, at: real)
    | React(request: nat, cancelError: Option<bool>, at: real)
    | Close(at: real)

  ghost function Launch(s: System, p: Pool, id: int, m: L.Measurement, origin: Origin, now: real): System {
    if !(0 <= id < |p.lanes|) then s.(pool := p) else
    var (p, q) := Began(p, id, m, origin, now);
    s.(pool := p, requests := s.requests[s.next := q], next := s.next + 1)
  }

  ghost function Requested(o: Options, s: System, role: Role, m: L.Measurement, forced: Option<int>, now: real): System
  {
    var (p, r) := Picked(o, s.pool, role, m, forced, now);
    if r.Err? then s.(pool := p) else Launch(s, p, r.value, m, Caller, now)
  }

  ghost function Maintained(o: Options, s: System, now: real): System
    requires Numbered(s.pool)
  {
    var (p, victim) := RecycleOldest(o, s.pool, now);
    if victim.None? then s.(pool := p)
    else Launch(s, p.(cooldown := p.cooldown[victim.value := Forever]), victim.value, L.Warm, Maintenance, now)
  }

  ghost predicate OnTheWire(s: System, request: nat) {
    && request in s.requests
    && 0 <= s.requests[request].lane < |s.pool.lanes| == |s.pool.streak|
  }

  ghost predicate Awaited(s: System, request: nat) {
    && request in s.ended
    && 0 <= s.ended[request].q.lane < |s.pool.lanes| == |s.pool.streak|
  }

  /** The error to react to, if there is one. */
  ghost function ErrorOf(a: Aftermath, cancelError: Option<bool>): Option<bool> {
    match a
    case Rejected(_, transient) => Some(transient)
    case Cancelling(_) => cancelError
  }

  ghost function Step(o: Options, s: System, op: Op): System {
    match op
    case Fetch(role, forced, at) =>
      Requested(o, s, role, if forced.Some? then L.Preflight else role.Measured(), forced, at)
    case WarmFetch(role, at) => Requested(o, s, role, L.Warm, None, at)
    case Prime(lane, at) => if lane < o.sendReserved then Launch(s, s.pool, lane, L.Warm, Priming, at) else s
    case Maintain(at) => if Numbered(s.pool) then Maintained(o, s, at) else s
    case Finish(request, at) =>
      if OnTheWire(s, request)
      then s.(pool := Finished(o, s.pool, s.requests[request], at), requests := s.requests - {request},
              ended := if s.requests[request].origin.Caller? then s.ended
                       else s.ended[request := Cancelling(s.requests[request])])
      else s
    case Fail(request, transient, at) =>
      if OnTheWire(s, request)
      then s.(pool := Failed(s.pool, s.requests[request]), requests := s.requests - {request},
              ended := s.ended[request := Rejected(s.requests[request], transient)])
      else s
    case React(request, cancelError, at) =>
      if Awaited(s, request)
      then s.(pool := Reacted(s.pool, s.ended[request].q, ErrorOf(s.ended[request], cancelError), at),
              ended := s.ended - {request})
      else s
    case Close(_) => s.(pool := Closed(s.pool))
  }

  ghost function After(o: Options, birth: real, r: Run<Op>): System
    requires o.Accepted()
  {
    match r
    case Start => System(Created(o, birth), map[], map[], 0)
    case Then(before, op) => Step(o, After(o, birth, before), op)
  }

  // ------------------------------------------------------------ every lane stays usable

  /** Lanes keep their numbers and settled profiles, and until the pool is closed each
      of them is ready: a drained lane is replaced within the same step. */
  ghost predicate LaneIsWell(p: Pool, i: int)
    requires 0 <= i < |p.lanes|
  {
    && p.lanes[i].id == i
    && (!p.closed ==> p.lanes[i].state == L.Ready)
    && (forall m :: L.Settled(p.lanes[i].profiles.Of(m)))
  }

  ghost predicate PoolIsWell(o: Options, p: Pool) {
    && |p.lanes| == o.lanes == |p.streak|
    && forall i | 0 <= i < |p.lanes| :: LaneIsWell(p, i)
  }

  ghost predicate Well(o: Options, s: System) {
    && PoolIsWell(o, s.pool)
    && forall q | q in s.requests :: 0 <= s.requests[q].lane < o.lanes
  }

  /** Replacing one lane by a well one. */
  lemma ReplaceKeepsWell(o: Options, p: Pool, i: int, l: L.View, p': Pool)
    requires PoolIsWell(o, p) && 0 <= i < |p.lanes|
    requires p'.lanes == p.lanes[i := l] && |p'.streak| == |p.streak| && p'.closed == p.closed
    requires l.id == i && (!p.closed ==> l.state == L.Ready) && forall m :: L.Settled(l.profiles.Of(m))
    ensures PoolIsWell(o, p')
  {
    forall j | 0 <= j < |p'.lanes| ensures LaneIsWell(p', j) {
      assert LaneIsWell(p, j);
    }
  }

  lemma SameLanesKeepWell(o: Options, p: Pool, p': Pool)
    requires PoolIsWell(o, p) && p'.lanes == p.lanes && |p'.streak| == |p.streak| && p'.closed == p.closed
    ensures PoolIsWell(o, p')
  {
    forall j | 0 <= j < |p'.lanes| ensures LaneIsWell(p', j) {
      assert LaneIsWell(p, j);
    }
  }

  lemma RecordedIsSettled(o: L.Options, l: L.View, m: L.Measurement, rtt: real, contended: bool, now: real)
    requires o.window >= 1 && forall k :: L.Settled(l.profiles.Of(k))
    ensures forall k :: L.Settled(L.Recorded(o, l, m, rtt, contended, now).profiles.Of(k))
  {
    hide L.MedianOf, L.TailOf;
    var l' := L.Recorded(o, l, m, rtt, contended, now);
    forall k ensures L.Settled(l'.profiles.Of(k)) {
      if k != m { assert l'.profiles.Of(k) == l.profiles.Of(k); }
    }
  }

  lemma RecycledIsSettled(l: L.View, now: real)
    ensures forall k :: L.Settled(L.Recycled(l, now).profiles.Of(k))
  {
    forall k ensures L.Settled(L.Recycled(l, now).profiles.Of(k)) {
      L.EmptyIsSettled(0);
      assert L.Recycled(l, now).profiles.Of(k) == L.EMPTY;
    }
  }

  lemma LaunchKeepsWell(o: Options, s: System, p: Pool, id: int, m: L.Measurement, origin: Origin, now: real)
    requires Well(o, s) && PoolIsWell(o, p)
    ensures Well(o, Launch(s, p, id, m, origin, now))
  {
    hide L.Settled;
    if 0 <= id < |p.lanes| {
      assert LaneIsWell(p, id);
      ReplaceKeepsWell(o, p, id, p.lanes[id].(inFlight := p.lanes[id].inFlight + 1), Began(p, id, m, origin, now).0);
    }
  }

  lemma FinishKeepsWell(o: Options, p: Pool, q: Request, now: real)
    requires o.lane.window >= 1 && PoolIsWell(o, p) && 0 <= q.lane < |p.lanes|
    ensures PoolIsWell(o, Finished(o, p, q, now))
  {
    hide L.Settled, L.Recorded, AfterSend;
    assert LaneIsWell(p, q.lane);
    var l := p.lanes[q.lane];
    var recorded := L.Recorded(o.lane, l, q.m, now - q.started, q.shared || l.inFlight > 1, now);
    RecordedIsSettled(o.lane, l, q.m, now - q.started, q.shared || l.inFlight > 1, now);
    RecordedKeepsIdentity(o.lane, l, q.m, now - q.started, q.shared || l.inFlight > 1, now);
    ReplaceKeepsWell(o, p, q.lane, recorded.(inFlight := l.inFlight - 1), Finished(o, p, q, now));
  }

  lemma RecordedKeepsIdentity(o: L.Options, l: L.View, m: L.Measurement, rtt: real, contended: bool, now: real)
    ensures var r := L.Recorded(o, l, m, rtt, contended, now);
            r.id == l.id && r.state == l.state && r.inFlight == l.inFlight
  {
    hide L.MedianOf, L.TailOf, Windows.Pushed, L.Scored;
  }

  lemma FailKeepsWell(o: Options, p: Pool, q: Request)
    requires PoolIsWell(o, p) && 0 <= q.lane < |p.lanes|
    ensures PoolIsWell(o, Failed(p, q))
  {
    hide L.Settled;
    assert LaneIsWell(p, q.lane);
    var l := p.lanes[q.lane];
    ReplaceKeepsWell(o, p, q.lane, l.(failures := l.failures + 1, inFlight := l.inFlight - 1), Failed(p, q));
  }

  lemma ReactKeepsWell(o: Options, p: Pool, q: Request, error: Option<bool>, now: real)
    requires PoolIsWell(o, p) && 0 <= q.lane < |p.lanes|
    ensures PoolIsWell(o, Reacted(p, q, error, now))
  {
    hide L.Settled;
    assert LaneIsWell(p, q.lane);
    var l := p.lanes[q.lane];
    RecycledIsSettled(L.Drained(l), now);
    var p' := Reacted(p, q, error, now);
    if error != Some(true) {
      SameLanesKeepWell(o, p, p');
    } else if p.closed {
      ReplaceKeepsWell(o, p, q.lane, L.Drained(l), p');
    } else {
      ReplaceKeepsWell(o, p, q.lane, L.Recycled(L.Drained(l), now), p');
    }
  }

  lemma MaintainKeepsWell(o: Options, s: System, now: real)
    requires Well(o, s) && Numbered(s.pool)
    ensures Well(o, Maintained(o, s, now))
  {
    hide L.Settled, SweptByAge, StaleAmong, Reduce, Launch;
    var p := s.pool;
    var (p', victim) := RecycleOldest(o, p, now);
    if victim.None? {
      SameLanesKeepWell(o, p, p');
    } else {
      var id := victim.value;
      assert LaneIsWell(p, id);
      RecycledIsSettled(p.lanes[id], now);
      ReplaceKeepsWell(o, p, id, L.Recycled(p.lanes[id], now), p');
      SameLanesKeepWell(o, p', p'.(cooldown := p'.cooldown[id := Forever]));
      LaunchKeepsWell(o, s, p'.(cooldown := p'.cooldown[id := Forever]), id, L.Warm, Maintenance, now);
    }
  }

  lemma RequestKeepsWell(o: Options, s: System, role: Role, m: L.Measurement, forced: Option<int>, now: real)
    requires Well(o, s)
    ensures Well(o, Requested(o, s, role, m, forced, now))
  {
    PickKeepsShape(o, s.pool, role, m, forced, now);
    hide Picked, Launch, PoolIsWell;
    var (p, r) := Picked(o, s.pool, role, m, forced, now);
    SameLanesKeepWell(o, s.pool, p);
    if r.Ok? { LaunchKeepsWell(o, s, p, r.value, m, Caller, now); }
  }

  lemma PickKeepsShape(o: Options, p: Pool, role: Role, m: L.Measurement, forced: Option<int>, now: real)
    ensures var p' := Picked(o, p, role, m, forced, now).0;
            p' == p.(pin := p'.pin, unpin := p'.unpin, bypass := p'.bypass)
  {
    hide Keep, Reduce, ChooseSend, Candidates, Bounded, Primaries, FindId;
  }

  lemma CloseKeepsWell(o: Options, p: Pool)
    requires PoolIsWell(o, p)
    ensures PoolIsWell(o, Closed(p))
  {
    forall i | 0 <= i < |p.lanes| ensures LaneIsWell(Closed(p), i) {
      assert LaneIsWell(p, i);
    }
  }

  lemma StepKeepsWell(o: Options, s: System, op: Op)
    requires o.lane.window >= 1 && Well(o, s)
    ensures Well(o, Step(o, s, op))
  {
    hide PoolIsWell, Requested, Maintained, Finished, Failed, Reacted, Launch;
    match op {
      case Fetch(role, forced, at) =>
        RequestKeepsWell(o, s, role, if forced.Some? then L.Preflight else role.Measured(), forced, at);
      case WarmFetch(role, at) => RequestKeepsWell(o, s, role, L.Warm, None, at);
      case Prime(lane, at) => LaunchKeepsWell(o, s, s.pool, lane, L.Warm, Priming, at);
      case Maintain(at) => if Numbered(s.pool) { MaintainKeepsWell(o, s, at); }
      case Finish(request, at) =>
        if OnTheWire(s, request) { FinishKeepsWell(o, s.pool, s.requests[request], at); }
      case Fail(request, transient, at) =>
        if OnTheWire(s, request) { FailKeepsWell(o, s.pool, s.requests[request]); }
      case React(request, cancelError, at) =>
        if Awaited(s, request) {
          ReactKeepsWell(o, s.pool, s.ended[request].q, ErrorOf(s.ended[request], cancelError), at);
        }
      case Close(_) => CloseKeepsWell(o, s.pool);
    }
  }

  lemma CreatedIsWell(o: Options, birth: real)
    requires o.Accepted()
    ensures PoolIsWell(o, Created(o, birth))
  {
    forall i | 0 <= i < o.lanes ensures LaneIsWell(Created(o, birth), i) {
      RecycledIsSettled(L.Opened(i, birth), birth);
      assert L.Recycled(L.Opened(i, birth), birth).profiles == Created(o, birth).lanes[i].profiles;
    }
  }

  lemma {:induction false} RunsAreWell(o: Options, birth: real, r: Run<Op>)
    requires o.Accepted() && o.lane.window >= 1
    ensures Well(o, After(o, birth, r))
  {
    if r.Then? {
      hide Well, Step;
      RunsAreWell(o, birth, r.before);
      StepKeepsWell(o, After(o, birth, r.before), r.last);
    } else {
      hide PoolIsWell, Created;
      CreatedIsWell(o, birth);
    }
  }

  /** Routing is total. After any run in which the pool was not closed, every lane is
      ready and every unforced request gets one: the picker never throws, and never
      folds over an empty list. */
  lemma RoutingIsTotal(o: Options, birth: real, r: Run<Op>, role: Role, m: L.Measurement, now: real)
    requires o.Accepted() && o.lane.window >= 1
    requires !After(o, birth, r).pool.closed
    ensures var p := After(o, birth, r).pool;
            && (forall i | 0 <= i < |p.lanes| :: p.lanes[i].state == L.Ready && p.lanes[i].id == i)
            && Picked(o, p, role, m, None, now).1.Ok?
            && 0 <= Picked(o, p, role, m, None, now).1.value < o.lanes
  {
    hide After, Picked, Candidates, Bounded, L.Settled;
    RunsAreWell(o, birth, r);
    var p := After(o, birth, r).pool;
    forall i | 0 <= i < |p.lanes| ensures p.lanes[i].state == L.Ready && p.lanes[i].id == i {
      assert LaneIsWell(p, i);
    }
    assert LaneIsWell(p, 0) && p.lanes[0] in p.lanes && p.lanes[0].state == L.Ready;
    PickIsTotal(o, p, role, m, None, now);
    assert Picked(o, p, role, m, None, now).1.Ok?;
    var l :| Picks(o, p, role, m, None, now, l);
  }

  /** A live reply is never spent exploring, in any reachable state: while an idle
      eligible primary has a real reply measurement, the reply goes to an idle lane that
      has one too. */
  lemma ReplyUsesEvidence(o: Options, birth: real, r: Run<Op>, now: real, known: L.View)
    requires o.Accepted() && o.lane.window >= 1
    requires var p := After(o, birth, r).pool;
             && known in Eligible(o, p, Bounded(o, p, SendRole, now), now)
             && known.inFlight == 0 && HasFresh(o, known, L.Send, now)
    ensures var p := After(o, birth, r).pool;
            var pool := Bounded(o, p, SendRole, now);
            && |pool| > 0
            && ChooseSend(o, p, pool, now).lane.inFlight == 0
            && HasFresh(o, ChooseSend(o, p, pool, now).lane, L.Send, now)
  {
    hide After, Eligible, Bounded, Candidates, ChooseSend, Primaries;
    RunsAreWell(o, birth, r);
    var p := After(o, birth, r).pool;
    var pool := Bounded(o, p, SendRole, now);
    forall l | l in pool && l.Predicted(L.Send).Some? ensures HasFresh(o, l, L.Send, now) {
      var i :| 0 <= i < |p.lanes| && p.lanes[i] == l;
      assert LaneIsWell(p, i) && L.Settled(l.profiles.Of(L.Send));
      MeasuredIsFresh(o, l, now);
    }
    EvidenceOutranksProbes(o, p, pool, now, known);
  }

  lemma MeasuredIsFresh(o: Options, l: L.View, now: real)
    requires L.Settled(l.profiles.Of(L.Send)) && l.Predicted(L.Send).Some?
    ensures HasFresh(o, l, L.Send, now)
  {
  }

  // ------------------------------------------------------------ the sticky pin

  /** What keeps a pin in place: the pinned lane is a ready primary, neither parked
      nor bypassed, and everything in its reply window was within the threshold. */
  ghost predicate Holds(o: Options, p: Pool, id: int, now: real) {
    && 0 <= id < |p.lanes| && p.pin == Some(id)
    && InBand(o, id, SendRole) && (o.sendSpare > 0 ==> id < o.FirstSpare())
    && !Parked(p, id, now) && !Bypassed(p, id, now)
    && StaysFast(o, p.lanes[id])
  }

  ghost predicate StaysFast(o: Options, l: L.View) {
    && l.state == L.Ready
    && l.profiles.send.samples != []
    && forall x | x in l.profiles.send.samples :: x <= o.lane.fastMs
  }

  /** The thresholds are in order, as they are by default. */
  ghost predicate InTune(o: Options) {
    o.Accepted() && o.lane.window >= 1
    && o.lane.fastMs <= o.slowThresholdMs && o.lane.fastMs <= o.maxSendTailMs
  }

  lemma FastLaneIsFast(o: Options, p: Pool, id: int, now: real)
    requires InTune(o) && PoolIsWell(o, p) && Holds(o, p, id, now)
    ensures var l := p.lanes[id];
            TailSafe(o, l) && IsFastLane(o, p, l, now) && HasFresh(o, l, L.Send, now) && l.id == id
  {
    var l := p.lanes[id];
    assert LaneIsWell(p, id);
    assert L.Settled(l.profiles.Of(L.Send));
    hide L.MedianOf, L.TailOf;
    L.RanksAreOrdered(l.profiles.send.samples);
  }

  lemma {:induction false} FoundById(p: Pool, ls: Lanes, id: int)
    requires 0 <= id < |p.lanes| && p.lanes[id] in ls && p.lanes[id].id == id
    requires forall l | l in ls :: l in p.lanes
    requires forall i | 0 <= i < |p.lanes| :: p.lanes[i].id == i
    ensures FindId(ls, id) == Some(p.lanes[id])
  {
  }

  /** The pinned lane is among the eligible primaries and is one of the fast ones. */
  lemma PinIsEligible(o: Options, p: Pool, id: int, now: real)
    requires InTune(o) && PoolIsWell(o, p) && Holds(o, p, id, now)
    ensures var pool := Bounded(o, p, SendRole, now);
            p.lanes[id] in Keep(o, p, Eligible(o, p, pool, now), Fast, now)
  {
    var l := p.lanes[id];
    FastLaneIsFast(o, p, id, now);
    hide Keep, HasFresh, TailSafe, IsFastLane;
    assert Passes(o, p, l, Usable, now) && Passes(o, p, l, OfBand(SendRole), now);
    assert Passes(o, p, l, BeforeSpares, now) || o.sendSpare == 0;
    assert Passes(o, p, l, Unbypassed, now) && Passes(o, p, l, SafeTail, now) && Passes(o, p, l, Fast, now);
    hide Passes, Holds;
  }

  /** While the pin holds, an idle pinned lane gets the next reply, and no pick moves
      the pin: what goes elsewhere is overflow. */
  lemma PickHonoursThePin(o: Options, p: Pool, id: int, role: Role, m: L.Measurement, forced: Option<int>, now: real)
    requires InTune(o) && PoolIsWell(o, p) && Holds(o, p, id, now)
    ensures Picked(o, p, role, m, forced, now).0.pin == Some(id)
    ensures role == SendRole && m != L.Warm && forced.None? && p.lanes[id].inFlight == 0 ==>
              Picked(o, p, role, m, forced, now).1 == Ok(id)
  {
    FastLaneIsFast(o, p, id, now);
    hide Picked, ChooseSend, Bounded, PoolIsWell, StaysFast, HasFresh, TailSafe, IsFastLane;
    if role == SendRole && m != L.Warm && forced.None? {
      PinIsChosen(o, p, id, now);
      ReplyPick(o, p, m, now);
    } else {
      OtherPick(o, p, role, m, forced, now);
    }
  }

  lemma ReplyPick(o: Options, p: Pool, m: L.Measurement, now: real)
    requires m != L.Warm && |Bounded(o, p, SendRole, now)| > 0
    requires ChooseSend(o, p, Bounded(o, p, SendRole, now), now).Stay?
    ensures var (p', r) := Picked(o, p, SendRole, m, None, now);
            p'.pin == p.pin && r == Ok(ChooseSend(o, p, Bounded(o, p, SendRole, now), now).lane.id)
  {
    hide ChooseSend, Candidates, Bounded, Primaries;
  }

  lemma OtherPick(o: Options, p: Pool, role: Role, m: L.Measurement, forced: Option<int>, now: real)
    requires !(role == SendRole && m != L.Warm && forced.None?)
    ensures Picked(o, p, role, m, forced, now).0 == p
  {
    hide Keep, Reduce, ChooseSend, Candidates, Bounded, Primaries, FindId;
  }

  lemma PinIsChosen(o: Options, p: Pool, id: int, now: real)
    requires InTune(o) && PoolIsWell(o, p) && Holds(o, p, id, now)
    ensures var pool := Bounded(o, p, SendRole, now);
            && |pool| > 0
            && ChooseSend(o, p, pool, now).Stay?
            && (p.lanes[id].inFlight == 0 ==> ChooseSend(o, p, pool, now).lane == p.lanes[id])
  {
    hide ChooseSend, Keep, Eligible, Bounded, HasFresh, PoolIsWell, PinnedAmong;
    PinIsEligible(o, p, id, now);
    FastLaneIsFast(o, p, id, now);
    PinFound(o, p, Bounded(o, p, SendRole, now), id, now);
    ChoiceWhenPinned(o, p, Bounded(o, p, SendRole, now), now);
  }

  lemma ChoiceWhenPinned(o: Options, p: Pool, pool: Lanes, now: real)
    requires |pool| > 0 && PinnedAmong(o, p, Keep(o, p, Eligible(o, p, pool, now), Fast, now), now).Some?
    ensures ChooseSend(o, p, pool, now).Stay?
    ensures var fast := Keep(o, p, Eligible(o, p, pool, now), Fast, now);
            var pinned := PinnedAmong(o, p, Keep(o, p, fast, Idle, now), now);
            pinned.Some? ==> ChooseSend(o, p, pool, now).lane == pinned.value
  {
    hide Keep, Reduce, Eligible, Spares, BestUntried, PinnedAmong;
  }

  lemma PinFound(o: Options, p: Pool, pool: Lanes, id: int, now: real)
    requires PoolIsWell(o, p) && 0 <= id < |p.lanes| && p.pin == Some(id)
    requires HasFresh(o, p.lanes[id], L.Send, now) && pool == Bounded(o, p, SendRole, now)
    requires p.lanes[id] in Keep(o, p, Eligible(o, p, pool, now), Fast, now)
    ensures var fast := Keep(o, p, Eligible(o, p, pool, now), Fast, now);
            var fastIdle := Keep(o, p, fast, Idle, now);
            && |pool| > 0
            && PinnedAmong(o, p, fast, now) == Some(p.lanes[id])
            && (p.lanes[id].inFlight == 0 ==> PinnedAmong(o, p, fastIdle, now) == Some(p.lanes[id]))
  {
    hide Keep, Eligible, Primaries, FindId, Candidates, Bounded, HasFresh, L.Settled;
    var l := p.lanes[id];
    var fast := Keep(o, p, Eligible(o, p, pool, now), Fast, now);
    var fastIdle := Keep(o, p, fast, Idle, now);
    forall i | 0 <= i < |p.lanes| ensures p.lanes[i].id == i { assert LaneIsWell(p, i); }
    FoundById(p, fast, id);
    if l.inFlight == 0 {
      assert Passes(o, p, l, Idle, now);
      FoundById(p, fastIdle, id);
    }
  }

  // ------------------------------------------------------------ over a run

  /** Whatever happens elsewhere: on the pinned lane, replies come back within the
      threshold and no connection is lost. The pool is not closed. */
  ghost predicate Calm(o: Options, s: System, op: Op, id: int) {
    match op
    case Finish(request, at) =>
      OnTheWire(s, request) && s.requests[request].lane == id && s.requests[request].m == L.Send ==>
        at - s.requests[request].started <= o.lane.fastMs
    case React(request, cancelError, _) =>
      Awaited(s, request) && s.ended[request].q.lane == id ==> ErrorOf(s.ended[request], cancelError) != Some(true)
    case Close(_) => false
    case _ => true
  }

  /** A lane that keeps what Holds asks of it. */
  lemma HoldsStill(o: Options, p: Pool, id: int, now: real, p': Pool, later: real)
    requires Holds(o, p, id, now) && now <= later && |p'.lanes| == |p.lanes|
    requires p'.pin == p.pin && StaysFast(o, p'.lanes[id])
    requires id in p'.cooldown ==> id in p.cooldown && p'.cooldown[id] == p.cooldown[id]
    requires id in p'.bypass ==> id in p.bypass && p'.bypass[id] == p.bypass[id]
    ensures Holds(o, p', id, later)
  {
  }

  lemma FinishHolds(o: Options, p: Pool, q: Request, now: real, id: int, before: real)
    requires InTune(o) && PoolIsWell(o, p) && Holds(o, p, id, before) && before <= now
    requires 0 <= q.lane < |p.lanes|
    requires q.lane == id && q.m == L.Send ==> now - q.started <= o.lane.fastMs
    ensures Holds(o, Finished(o, p, q, now), id, now)
  {
    hide StaysFast, L.Recorded, AfterSend, TailSafe, LaneIsWell;
    var l := p.lanes[q.lane];
    var contended := q.shared || l.inFlight > 1;
    var recorded := L.Recorded(o.lane, l, q.m, now - q.started, contended, now);
    RecordedKeepsIdentity(o.lane, l, q.m, now - q.started, contended, now);
    if q.lane == id {
      FastFinish(o, l, q.m, now - q.started, contended, now);
    }
    var p1 := p.(lanes := p.lanes[q.lane := recorded]);
    if q.m == L.Send { SendHolds(o, p1, q.lane, now - q.started, contended, now, id); }
    var p' := Finished(o, p, q, now);
    HoldsStill(o, p, id, before, p', now);
  }

  lemma FastFinish(o: Options, l: L.View, m: L.Measurement, rtt: real, contended: bool, now: real)
    requires InTune(o) && StaysFast(o, l) && (m == L.Send ==> rtt <= o.lane.fastMs)
    ensures var l' := L.Recorded(o.lane, l, m, rtt, contended, now);
            && StaysFast(o, l') && StaysFast(o, l'.(inFlight := l.inFlight - 1))
            && (m == L.Send ==> TailSafe(o, l'))
  {
    hide L.MedianOf, L.Scored;
    var l' := L.Recorded(o.lane, l, m, rtt, contended, now);
    if m == L.Send {
      var pushed := l.profiles.send.samples + [rtt];
      assert forall x | x in pushed :: x <= o.lane.fastMs;
      assert forall x | x in pushed[1..] :: x in pushed;
      L.RanksAreOrdered(l'.profiles.send.samples);
      hide L.TailOf;
    }
  }

  /** A fast result never unpins, parks or bypasses; a result elsewhere concerns only
      the lane it came from. */
  lemma SendHolds(o: Options, p: Pool, lane: int, rtt: real, contended: bool, now: real, id: int)
    requires InTune(o) && 0 <= lane < |p.lanes| == |p.streak| && p.pin == Some(id)
    requires lane == id ==> rtt <= o.lane.fastMs && TailSafe(o, p.lanes[id])
    ensures var p' := AfterSend(o, p, lane, rtt, contended, now);
            && p'.pin == Some(id)
            && (id in p'.cooldown ==> id in p.cooldown && p'.cooldown[id] == p.cooldown[id])
            && (id in p'.bypass ==> id in p.bypass && p'.bypass[id] == p.bypass[id])
  {
    hide TailSafe, RoutableCount;
  }

  lemma FailHolds(o: Options, p: Pool, q: Request, id: int, before: real, now: real)
    requires PoolIsWell(o, p) && Holds(o, p, id, before) && before <= now && 0 <= q.lane < |p.lanes|
    ensures Holds(o, Failed(p, q), id, now)
  {
    hide LaneIsWell;
    HoldsStill(o, p, id, before, Failed(p, q), now);
  }

  /** A failure elsewhere, or one that is not the connection's. */
  lemma ReactHolds(o: Options, p: Pool, q: Request, error: Option<bool>, now: real, id: int, before: real)
    requires PoolIsWell(o, p) && Holds(o, p, id, before) && before <= now
    requires 0 <= q.lane < |p.lanes| && (q.lane == id ==> error != Some(true))
    ensures Holds(o, Reacted(p, q, error, now), id, now)
  {
    hide LaneIsWell, L.Recycled, L.Drained;
    HoldsStill(o, p, id, before, Reacted(p, q, error, now), now);
  }

  lemma LaunchHolds(o: Options, s: System, p: Pool, lane: int, m: L.Measurement, origin: Origin, id: int, now: real)
    requires Holds(o, p, id, now)
    ensures Holds(o, Launch(s, p, lane, m, origin, now).pool, id, now)
  {
  }

  lemma RequestHolds(
      o: Options, s: System, role: Role, m: L.Measurement, forced: Option<int>, now: real, id: int, before: real)
    requires InTune(o) && PoolIsWell(o, s.pool) && Holds(o, s.pool, id, before) && before <= now
    ensures Holds(o, Requested(o, s, role, m, forced, now).pool, id, now)
  {
    hide PoolIsWell, StaysFast, InTune, Picked, Launch;
    var (p, r) := Picked(o, s.pool, role, m, forced, now);
    HoldsStill(o, s.pool, id, before, s.pool, now);
    PickHonoursThePin(o, s.pool, id, role, m, forced, now);
    PickKeepsShape(o, s.pool, role, m, forced, now);
    PickOnlyLiftsBypasses(o, s.pool, role, m, forced, now);
    HoldsStill(o, s.pool, id, now, p, now);
    if r.Ok? { LaunchHolds(o, s, p, r.value, m, Caller, id, now); }
  }

  lemma PickOnlyLiftsBypasses(o: Options, p: Pool, role: Role, m: L.Measurement, forced: Option<int>, now: real)
    ensures var p' := Picked(o, p, role, m, forced, now).0;
            forall k | k in p'.bypass :: k in p.bypass && p'.bypass[k] == p.bypass[k]
  {
    hide Keep, Reduce, ChooseSend, Candidates, Bounded, Primaries, FindId;
  }

  /** A pinned fast lane is never the one that is replaced for its age. */
  lemma MaintainHolds(o: Options, s: System, now: real, id: int, before: real)
    requires InTune(o) && PoolIsWell(o, s.pool) && Holds(o, s.pool, id, before) && before <= now
    requires Numbered(s.pool)
    ensures Holds(o, Maintained(o, s, now).pool, id, now)
  {
    hide StaysFast, L.Recycled, L.Settled, Launch, TailSafe, HasFresh, IsFastLane;
    var p := s.pool;
    HoldsStill(o, p, id, before, p, now);
    FastLaneIsFast(o, p, id, now);
    SpareThePin(o, p, now, id);
    var (p', victim) := RecycleOldest(o, p, now);
    if victim.None? {
      HoldsStill(o, p, id, now, p', now);
    } else {
      var q := p'.(cooldown := p'.cooldown[victim.value := Forever]);
      HoldsStill(o, p, id, now, q, now);
      LaunchHolds(o, s, q, victim.value, L.Warm, Maintenance, id, now);
    }
  }

  lemma SpareThePin(o: Options, p: Pool, now: real, id: int)
    requires Numbered(p) && 0 <= id < |p.lanes| && p.pin == Some(id) && InBand(o, id, SendRole)
    requires HasFresh(o, p.lanes[id], L.Send, now) && IsFastLane(o, p, p.lanes[id], now)
    ensures var (p', victim) := RecycleOldest(o, p, now);
            && victim != Some(id) && p'.pin == p.pin && |p'.lanes| == |p.lanes| && p'.lanes[id] == p.lanes[id]
            && p'.cooldown == p.cooldown
            && (forall k | k in p'.bypass :: k in p.bypass && p'.bypass[k] == p.bypass[k])
  {
    hide Reduce, StaleAmong, IsFastLane, HasFresh, TailSafe, FindId, L.Recycled, RoutableCount;
  }

  lemma StepHolds(o: Options, s: System, op: Op, id: int, before: real)
    requires InTune(o) && Well(o, s) && Holds(o, s.pool, id, before) && before <= op.at
    requires Calm(o, s, op, id)
    ensures Holds(o, Step(o, s, op).pool, id, op.at)
  {
    hide PoolIsWell, StaysFast, InTune, Requested, Maintained, Finished, Failed, Reacted, Launch;
    HoldsStill(o, s.pool, id, before, s.pool, op.at);
    match op {
      case Fetch(role, forced, at) =>
        RequestHolds(o, s, role, if forced.Some? then L.Preflight else role.Measured(), forced, at, id, before);
      case WarmFetch(role, at) => RequestHolds(o, s, role, L.Warm, None, at, id, before);
      case Prime(lane, at) => LaunchHolds(o, s, s.pool, lane, L.Warm, Priming, id, at);
      case Maintain(at) => if Numbered(s.pool) { MaintainHolds(o, s, at, id, before); }
      case Finish(request, at) =>
        if OnTheWire(s, request) { FinishHolds(o, s.pool, s.requests[request], at, id, before); }
      case Fail(request, transient, at) =>
        if OnTheWire(s, request) { FailHolds(o, s.pool, s.requests[request], id, before, at); }
      case React(request, cancelError, at) =>
        if Awaited(s, request) {
          ReactHolds(o, s.pool, s.ended[request].q, ErrorOf(s.ended[request], cancelError), at, id, before);
        }
    }
  }

  /** `r` goes on from `r0` calmly, between the times `since` and `now`. */
  ghost predicate StaysCalm(o: Options, birth: real, r0: Run<Op>, r: Run<Op>, id: int, since: real, now: real)
    requires o.Accepted()
  {
    if r == r0 then since <= now
    else
      && r.Then? && r.last.at <= now && Calm(o, After(o, birth, r.before), r.last, id)
      && StaysCalm(o, birth, r0, r.before, id, since, r.last.at)
  }

  /** Sticky routing over whole runs: once held, the pin stays, whatever happens on the
      other lanes. Each reply asked for while the pinned lane is idle goes to it, and
      no pick of any kind moves the pin. */
  lemma {:induction false} PinStays(o: Options, birth: real, r0: Run<Op>, r: Run<Op>, id: int, since: real, now: real)
    requires InTune(o) && Holds(o, After(o, birth, r0).pool, id, since)
    requires StaysCalm(o, birth, r0, r, id, since, now)
    ensures var p := After(o, birth, r).pool;
            && Holds(o, p, id, now)
            && (p.lanes[id].inFlight == 0 ==> Picked(o, p, SendRole, L.Send, None, now).1 == Ok(id))
            && (forall role, m, forced :: Picked(o, p, role, m, forced, now).0.pin == Some(id))
  {
    hide Picked, Step, PoolIsWell, StaysFast, Calm;
    RunsAreWell(o, birth, r);
    if r == r0 {
      HoldsStill(o, After(o, birth, r).pool, id, since, After(o, birth, r).pool, now);
    } else {
      PinStays(o, birth, r0, r.before, id, since, r.last.at);
      RunsAreWell(o, birth, r.before);
      StepHolds(o, After(o, birth, r.before), r.last, id, r.last.at);
      HoldsStill(o, After(o, birth, r).pool, id, r.last.at, After(o, birth, r).pool, now);
    }
    var p := After(o, birth, r).pool;
    hide After, Holds;
    PickHonoursThePin(o, p, id, SendRole, L.Send, None, now);
    forall role, m, forced ensures Picked(o, p, role, m, forced, now).0.pin == Some(id) {
      PickHonoursThePin(o, p, id, role, m, forced, now);
    }
  }

  /** How the pin comes to hold: a fast reply on a pinned primary whose window has
      nothing slow in it. A bypass the lane was under is lifted. */
  lemma FastReplyHolds(o: Options, p: Pool, q: Request, now: real)
    requires InTune(o) && PoolIsWell(o, p) && !p.closed && 0 <= q.lane < |p.lanes|
    requires q.m == L.Send && now - q.started <= o.lane.fastMs
    requires p.pin == Some(q.lane) && !Parked(p, q.lane, now)
    requires InBand(o, q.lane, SendRole) && (o.sendSpare > 0 ==> q.lane < o.FirstSpare())
    requires forall x | x in p.lanes[q.lane].profiles.send.samples :: x <= o.lane.fastMs
    ensures Holds(o, Finished(o, p, q, now), q.lane, now)
  {
    hide L.Recorded, TailSafe, RoutableCount, L.Settled;
    var l := p.lanes[q.lane];
    assert LaneIsWell(p, q.lane);
    var contended := q.shared || l.inFlight > 1;
    RecordedKeepsIdentity(o.lane, l, q.m, now - q.started, contended, now);
    FirstFastFinish(o, l, now - q.started, contended, now);
  }

  lemma FirstFastFinish(o: Options, l: L.View, rtt: real, contended: bool, now: real)
    requires InTune(o) && l.state == L.Ready && rtt <= o.lane.fastMs
    requires forall x | x in l.profiles.send.samples :: x <= o.lane.fastMs
    ensures var l' := L.Recorded(o.lane, l, L.Send, rtt, contended, now);
            && StaysFast(o, l') && StaysFast(o, l'.(inFlight := l'.inFlight - 1)) && TailSafe(o, l')
  {
    hide L.MedianOf, L.Scored;
    var l' := L.Recorded(o.lane, l, L.Send, rtt, contended, now);
    var pushed := l.profiles.send.samples + [rtt];
    assert forall x | x in pushed :: x <= o.lane.fastMs;
    assert forall x | x in pushed[1..] :: x in pushed;
    L.RanksAreOrdered(l'.profiles.send.samples);
    hide L.TailOf;
  }

  /** When a reply's result drops the pin: exactly when the lane had it to itself and it
      was over the threshold, left a losing tail, or completed a slow streak. */
  lemma UnpinnedExactlyBy(o: Options, p: Pool, id: int, rtt: real, contended: bool, now: real)
    requires 0 <= id < |p.lanes| == |p.streak| && p.pin == Some(id)
    ensures AfterSend(o, p, id, rtt, contended, now).pin != Some(id) <==>
              && !contended
              && (|| rtt > o.lane.fastMs || !TailSafe(o, p.lanes[id])
                  || (&& rtt > o.slowThresholdMs && RoutableCount(p.lanes) > 1
                      && o.slowSamplesBeforeCooldown <= 255 && p.streak[id] + 1 >= o.slowSamplesBeforeCooldown))
    ensures AfterSend(o, p, id, rtt, contended, now).pin in {None, Some(id)}
  {
    hide TailSafe, RoutableCount;
  }

  /** With nothing pinned and an eligible primary idle, a reply pins the primary it takes. */
  lemma IdleChoicePins(o: Options, p: Pool, pool: Lanes, now: real, idle: L.View)
    requires |pool| > 0 && p.pin.None?
    requires idle in Eligible(o, p, pool, now) && idle.inFlight == 0
    ensures ChooseSend(o, p, pool, now).Repin? && ChooseSend(o, p, pool, now).lane in Eligible(o, p, pool, now)
  {
    hide ChooseSend, Keep, Eligible, Spares;
    assert Passes(o, p, idle, Idle, now);
    hide Passes;
    assert idle in Keep(o, p, Eligible(o, p, pool, now), Idle, now);
    ChoiceCases(o, p, pool, now);
    UnpinnedRepins(o, p, pool, now);
  }

  lemma UnpinnedRepins(o: Options, p: Pool, pool: Lanes, now: real)
    requires |pool| > 0 && p.pin.None? && |Keep(o, p, Eligible(o, p, pool, now), Idle, now)| > 0
    ensures ChooseSend(o, p, pool, now).Repin?
  {
    hide Keep, Eligible, Reduce, Passes, Spares, BestUntried, Primaries, FindId, PinnedAmong, HasFresh, OrElse;
  }

  /** The first reply a new pool carries, if it is fast, makes the pin hold. */
  lemma FirstReplyPins(o: Options, birth: real, asked: real, answered: real)
    requires InTune(o) && answered - asked <= o.lane.fastMs
    ensures exists id :: Holds(o, After(o, birth, FirstReply(asked, answered)).pool, id, answered)
  {
    hide Finished, Picked, L.Settled;
    var p := Created(o, birth);
    var (p1, r) := Picked(o, p, SendRole, L.Send, None, asked);
    var id := FirstPick(o, birth, asked);
    var run := Then(Start, Fetch(SendRole, None, asked));
    assert After(o, birth, Start) == System(p, map[], map[], 0);
    var s := After(o, birth, run);
    assert s == Launch(System(p, map[], map[], 0), p1, id, L.Send, Caller, asked);
    RunsAreWell(o, birth, run);
    assert After(o, birth, FirstReply(asked, answered)) == Step(o, s, Finish(0, answered));
    hide After;
    FastReplyHolds(o, s.pool, s.requests[0], answered);
  }

  ghost function FirstReply(asked: real, answered: real): Run<Op> {
    Then(Then(Start, Fetch(SendRole, None, asked)), Finish(0, answered))
  }

  lemma FirstPick(o: Options, birth: real, now: real) returns (id: int)
    requires InTune(o)
    ensures var (p, (p1, r)) := (Created(o, birth), Picked(o, Created(o, birth), SendRole, L.Send, None, now));
            && r == Ok(id) && 0 <= id < |p.lanes|
            && InBand(o, id, SendRole) && (o.sendSpare > 0 ==> id < o.FirstSpare())
            && p1 == p.(pin := Some(id), bypass := p1.bypass)
  {
    hide Keep, Reduce, Eligible, Primaries, ChooseSend, Bounded;
    var p := Created(o, birth);
    var pool := Bounded(o, p, SendRole, now);
    PrimariesOfANewPool(o, birth, now);
    assert |Eligible(o, p, pool, now)| > 0;
    var idle := Eligible(o, p, pool, now)[0];
    assert idle in Primaries(o, p, pool, now);
    IdleChoicePins(o, p, pool, now, idle);
    var lane := ChooseSend(o, p, pool, now).lane;
    assert lane in Primaries(o, p, pool, now);
    id := lane.id;
    hide InTune, FindId, Candidates;
  }

  lemma PrimariesOfANewPool(o: Options, birth: real, now: real)
    requires InTune(o)
    ensures var p := Created(o, birth);
            var pool := Bounded(o, p, SendRole, now);
            && |pool| > 0
            && forall l | l in Primaries(o, p, pool, now) ::
                 && 0 <= l.id < |p.lanes| && l == p.lanes[l.id] && l.inFlight == 0
                 && InBand(o, l.id, SendRole) && (o.sendSpare > 0 ==> l.id < o.FirstSpare())
  {
    hide Keep;
    var p := Created(o, birth);
    var first := p.lanes[0];
    assert first in p.lanes;
    assert Passes(o, p, first, Usable, now) && Passes(o, p, first, OfBand(SendRole), now);
    assert o.sendSpare > 0 ==> Passes(o, p, first, BeforeSpares, now);
  }
}
