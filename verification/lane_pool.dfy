/** The reply-lane router: which lane a request takes, and what each result does to
    later choices. */
module LanePool {
  import opened Wrappers
  import L = Lane

  datatype Role = SendRole | PollRole | GeneralRole {
    function Measured(): L.Measurement {
      match this case SendRole => L.Send case PollRole => L.Poll case GeneralRole => L.General
    }
  }

  datatype Options = Options(
    lanes: int, sendReserved: int, sendSpare: int,
    sampleMaxAgeMs: real, switchMarginMs: real, maxSendTailMs: real,
    slowThresholdMs: real, slowSamplesBeforeCooldown: int, slowCooldownMs: real,
    maxAgeMs: real, recycleGapMs: real, maxPollInFlight: int, lane: L.Options)
  {
    /** What the constructor accepts; it throws a ConfigError otherwise. */
    predicate Accepted() {
      && lanes >= 1
      && 0 <= sendReserved < lanes
      && 0 <= sendSpare < (if sendReserved > 1 then sendReserved else 1)
      && slowSamplesBeforeCooldown >= 1
      && maxPollInFlight >= 1
      && maxSendTailMs > 0.0
    }

    function FirstSpare(): int { sendReserved - sendSpare }
  }

  datatype Until = At(time: real) | Forever

  /** The state of the pool. */
  datatype Pool = Pool(
    lanes: seq<L.View>, cooldown: map<int, Until>, bypass: map<int, real>, streak: seq<int>,
    lastRecycle: Option<real>, closed: bool, pin: Option<int>, unpin: Option<(int, real)>)

  predicate Parked(p: Pool, id: int, now: real) {
    id in p.cooldown && (p.cooldown[id].Forever? || p.cooldown[id].time > now)
  }

  predicate Bypassed(p: Pool, id: int, now: real) {
    id in p.bypass && p.bypass[id] > now
  }

  predicate HasFresh(o: Options, l: L.View, m: L.Measurement, now: real) {
    && l.Median(m).Some? && l.LastAt(m).Some?
    && (m in {L.Send, L.Preflight} || now - l.LastAt(m).value <= o.sampleMaxAgeMs)
  }

  predicate TailSafe(o: Options, l: L.View) {
    l.Tail(L.Send).None? || l.Tail(L.Send).value <= o.maxSendTailMs
  }

  predicate IsFastLane(o: Options, p: Pool, l: L.View, now: real) {
    && l.Predicted(L.Send).Some? && l.Predicted(L.Send).value <= o.lane.fastMs
    && TailSafe(o, l) && !Bypassed(p, l.id, now)
  }

  predicate InBand(o: Options, id: int, role: Role) {
    o.sendReserved == 0 || (if role == SendRole then id < o.sendReserved else id >= o.sendReserved)
  }

  // ------------------------------------------------------------ filters and folds

  /** The lane filters of the source. */
  datatype Test =
    | Routable | Usable | OfBand(role: Role) | UnderCap | Idle
    | Timed(m: L.Measurement) | Untimed(m: L.Measurement)
    | Unbypassed | SafeTail | Fast | BeforeSpares | FromSpares

  predicate Passes(o: Options, p: Pool, l: L.View, t: Test, now: real) {
    match t
    case Routable => l.state == L.Ready
    case Usable => l.state == L.Ready && !Parked(p, l.id, now)
    case OfBand(role) => InBand(o, l.id, role)
    case UnderCap => l.inFlight < o.maxPollInFlight
    case Idle => l.inFlight == 0
    case Timed(m) => HasFresh(o, l, m, now)
    case Untimed(m) => !HasFresh(o, l, m, now)
    case Unbypassed => !Bypassed(p, l.id, now)
    case SafeTail => TailSafe(o, l)
    case Fast => IsFastLane(o, p, l, now)
    case BeforeSpares => l.id < o.FirstSpare()
    case FromSpares => l.id >= o.FirstSpare()
  }

  type Lanes = seq<L.View>

  function Keep(o: Options, p: Pool, ls: Lanes, t: Test, now: real): (r: Lanes)
    ensures forall l | l in r :: l in ls && Passes(o, p, l, t, now)
    ensures forall l | l in ls && Passes(o, p, l, t, now) :: l in r
  {
    if |ls| == 0 then []
    else (if Passes(o, p, ls[0], t, now) then [ls[0]] else []) + Keep(o, p, ls[1..], t, now)
  }

  /** `ls`, unless it is empty. */
  function OrElse(ls: Lanes, fallback: Lanes): (r: Lanes)
    ensures |r| > 0 <==> |ls| > 0 || |fallback| > 0
  {
    if |ls| > 0 then ls else fallback
  }

  /** The comparisons the source folds with. */
  datatype Order =
    | BySend | ByRtt(m: L.Measurement) | ByLoad
    | ByLoadThenAge(m: L.Measurement) | OldestSample(m: L.Measurement) | OldestOpened

  predicate Earlier(a: Option<real>, b: Option<real>) {
    b.Some? && (a.None? || a.value < b.value)
  }

  function Compared(l: L.View, m: L.Measurement): Option<real> {
    if m in {L.Send, L.Poll} then l.Predicted(m) else l.Median(m)
  }

  function Abs(x: real): real { if x < 0.0 then -x else x }

  predicate Beats(o: Options, a: L.View, b: L.View, order: Order) {
    match order
    case BySend =>
      var x, y := a.Predicted(L.Send), b.Predicted(L.Send);
      if x.None? then false
      else if y.None? then true
      else if y.value - x.value >= o.switchMarginMs then true
      else if Abs(x.value - y.value) >= o.switchMarginMs then false
      else if a.score.Net() != b.score.Net() then a.score.Net() > b.score.Net()
      else a.inFlight < b.inFlight
    case ByRtt(m) =>
      var x, y := Compared(a, m), Compared(b, m);
      if x.None? then false
      else if y.None? then true
      else if y.value - x.value >= o.switchMarginMs then true
      else if Abs(x.value - y.value) < o.switchMarginMs then a.inFlight < b.inFlight
      else false
    case ByLoad => a.inFlight < b.inFlight
    case ByLoadThenAge(m) =>
      if a.inFlight != b.inFlight then a.inFlight < b.inFlight else Earlier(a.LastAt(m), b.LastAt(m))
    case OldestSample(m) => Earlier(a.LastAt(m), b.LastAt(m))
    case OldestOpened => a.openedAt < b.openedAt
  }

  function ReduceFrom(o: Options, best: L.View, ls: Lanes, order: Order): (r: L.View)
    ensures r == best || r in ls
    decreases |ls|
  {
    if |ls| == 0 then best
    else ReduceFrom(o, if Beats(o, ls[0], best, order) then ls[0] else best, ls[1..], order)
  }

  function Reduce(o: Options, ls: Lanes, order: Order): (r: L.View)
    requires |ls| > 0
    ensures r in ls
  {
    ReduceFrom(o, ls[0], ls[1..], order)
  }

  function FindId(ls: Lanes, id: int): (r: Option<L.View>)
    ensures r.Some? ==> r.value in ls && r.value.id == id
    ensures r.None? ==> forall l | l in ls :: l.id != id
  {
    if |ls| == 0 then None else if ls[0].id == id then Some(ls[0]) else FindId(ls[1..], id)
  }

  // ------------------------------------------------------------ picking

  datatype PickError = NoRoutableLane | ForcedOnlyForSend | ForcedNotRoutable

  /** The lanes a request may be given, best band first. */
  function Candidates(o: Options, p: Pool, role: Role, now: real): (r: Lanes)
    ensures forall l | l in r :: l in p.lanes && l.state == L.Ready
  {
    var routable := OrElse(Keep(o, p, p.lanes, Usable, now), Keep(o, p, p.lanes, Routable, now));
    OrElse(Keep(o, p, routable, OfBand(role), now), routable)
  }

  /** Receive traffic prefers lanes under the cap, and multiplexes if there are none. */
  function Bounded(o: Options, p: Pool, role: Role, now: real): (r: Lanes)
    ensures |r| > 0 <==> |Candidates(o, p, role, now)| > 0
    ensures forall l | l in r :: l in Candidates(o, p, role, now)
  {
    var pool := Candidates(o, p, role, now);
    if role == SendRole then pool else OrElse(Keep(o, p, pool, UnderCap, now), pool)
  }

  function Primaries(o: Options, p: Pool, pool: Lanes, now: real): (r: Lanes)
    ensures forall l | l in r :: l in pool
    ensures |pool| > 0 ==> |r| > 0
  {
    if o.sendSpare == 0 then pool else OrElse(Keep(o, p, pool, BeforeSpares, now), pool)
  }

  function Spares(o: Options, p: Pool, pool: Lanes, now: real): (r: Lanes)
    ensures forall l | l in r :: l in pool
  {
    if o.sendSpare == 0 || Keep(o, p, pool, BeforeSpares, now) == [] then []
    else Keep(o, p, pool, FromSpares, now)
  }

  /** The primary reply lanes still worth choosing from. */
  function Eligible(o: Options, p: Pool, pool: Lanes, now: real): (r: Lanes)
    ensures forall l | l in r :: l in Primaries(o, p, pool, now)
    ensures |pool| > 0 ==> |r| > 0
  {
    var all := Primaries(o, p, pool, now);
    var unbypassed := OrElse(Keep(o, p, all, Unbypassed, now), all);
    OrElse(Keep(o, p, unbypassed, SafeTail, now), unbypassed)
  }

  function PinnedAmong(o: Options, p: Pool, ls: Lanes, now: real): (r: Option<L.View>)
    ensures r.Some? ==> r.value in ls && p.pin == Some(r.value.id) && HasFresh(o, r.value, L.Send, now)
  {
    if p.pin.None? then None else
    match FindId(ls, p.pin.value)
    case None => None
    case Some(l) => if HasFresh(o, l, L.Send, now) then Some(l) else None
  }

  function BestUntried(o: Options, p: Pool, ls: Lanes, now: real): (r: L.View)
    requires |ls| > 0
    ensures r in ls
  {
    var preflight := Keep(o, p, ls, Timed(L.Preflight), now);
    if |preflight| > 0 then Reduce(o, preflight, ByRtt(L.Preflight)) else
    var warm := Keep(o, p, ls, Timed(L.Warm), now);
    if |warm| > 0 then Reduce(o, warm, ByRtt(L.Warm)) else
    Reduce(o, ls, ByLoad)
  }

  /** A lane for a reply, and whether the pin moves to it. */
  datatype Choice = Stay(lane: L.View) | Repin(lane: L.View)

  function ChooseSend(o: Options, p: Pool, pool: Lanes, now: real): Choice
    requires |pool| > 0
  {
    var spare, primary := Spares(o, p, pool, now), Eligible(o, p, pool, now);
    var idlePrimary, fastPrimary := Keep(o, p, primary, Idle, now), Keep(o, p, primary, Fast, now);
    var fastIdle := Keep(o, p, fastPrimary, Idle, now);
    var pinned := PinnedAmong(o, p, fastIdle, now);
    if pinned.Some? then Stay(pinned.value) else
    var busyPin := PinnedAmong(o, p, fastPrimary, now).Some?;
    if |fastIdle| > 0 then Take(busyPin, Reduce(o, fastIdle, BySend)) else
    var idleSpare := Keep(o, p, spare, Idle, now);
    if |primary| > 0 && |idlePrimary| == 0 && |idleSpare| > 0 then
      var known := Keep(o, p, idleSpare, Timed(L.Send), now);
      Stay(if |known| > 0 then Reduce(o, known, BySend) else BestUntried(o, p, idleSpare, now))
    else
    var timedIdle := Keep(o, p, idlePrimary, Timed(L.Send), now);
    if |timedIdle| > 0 then Take(busyPin, Reduce(o, timedIdle, BySend)) else
    var untried := Keep(o, p, idlePrimary, Untimed(L.Send), now);
    if |untried| > 0 then Take(busyPin, BestUntried(o, p, untried, now)) else
    var timedPrimary := Keep(o, p, primary, Timed(L.Send), now);
    if |timedPrimary| > 0 then Take(busyPin, Reduce(o, timedPrimary, BySend)) else
    Take(busyPin, BestUntried(o, p, OrElse(primary, pool), now))
  }

  function Take(busyPin: bool, l: L.View): Choice { if busyPin then Stay(l) else Repin(l) }

  /** A look at a lane's bypass drops it when it has run out. */
  function Swept(p: Pool, ls: Lanes, now: real): Pool {
    p.(bypass := map id | id in p.bypass && (p.bypass[id] > now || FindId(ls, id).None?) :: p.bypass[id])
  }

  function Picked(o: Options, p: Pool, role: Role, m: L.Measurement, forced: Option<int>, now: real)
    : (Pool, Result<int, PickError>)
  {
    var pool := Candidates(o, p, role, now);
    if |pool| == 0 then (p, Err(NoRoutableLane))
    else if forced.Some? then
      (p, if role != SendRole then Err(ForcedOnlyForSend)
          else if FindId(pool, forced.value).None? then Err(ForcedNotRoutable)
          else Ok(forced.value))
    else
    var bounded := Bounded(o, p, role, now);
    if m == L.Warm then
      (p, Ok(Reduce(o, OrElse(Keep(o, p, bounded, Idle, now), bounded), OldestSample(L.Warm)).id))
    else if role == SendRole then
      var swept := Swept(p, Primaries(o, p, bounded, now), now);
      match ChooseSend(o, p, bounded, now)
      case Stay(l) => (swept, Ok(l.id))
      case Repin(l) => (swept.(pin := Some(l.id), unpin := None), Ok(l.id))
    else
      var unmeasured := Keep(o, p, bounded, Untimed(m), now);
      (p, Ok((if |unmeasured| > 0 then Reduce(o, unmeasured, ByLoadThenAge(m)) else Reduce(o, bounded, ByRtt(m))).id))
  }

  // ------------------------------------------------------------ results

  function RoutableCount(ls: Lanes): nat {
    if |ls| == 0 then 0 else (if ls[0].state == L.Ready then 1 else 0) + RoutableCount(ls[1..])
  }

  /** A breach bypasses the lane for a while and drops the pin, unless the lane was
      shared; a result that is no material breach lifts the bypass. */
  function AfterBreach(o: Options, p: Pool, id: int, rtt: real, contended: bool, now: real): (r: Pool)
    requires 0 <= id < |p.lanes|
    ensures r.lanes == p.lanes && r.streak == p.streak && r.closed == p.closed
  {
    var raw, material, tail := rtt > o.lane.fastMs, rtt > o.lane.fastMs + 3.0, !TailSafe(o, p.lanes[id]);
    var bypass :=
      if !material && !tail then p.bypass - {id}
      else if !contended then p.bypass[id := now + o.slowCooldownMs]
      else p.bypass;
    if (raw || tail) && !contended && p.pin == Some(id)
    then p.(bypass := bypass, pin := None, unpin := Some((id, rtt)))
    else p.(bypass := bypass)
  }

  /** Enough slow results in a row park the lane, unless it is the last routable one. */
  function AfterStreak(o: Options, p: Pool, id: int, rtt: real, now: real): (r: Pool)
    requires 0 <= id < |p.streak|
    ensures r.lanes == p.lanes && |r.streak| == |p.streak| && r.closed == p.closed
  {
    if rtt <= o.slowThresholdMs then p.(streak := p.streak[id := 0])
    else
      var n := if p.streak[id] + 1 < 255 then p.streak[id] + 1 else 255;
      if n < o.slowSamplesBeforeCooldown || RoutableCount(p.lanes) <= 1 then p.(streak := p.streak[id := n])
      else
        p.(streak := p.streak[id := 0],
           cooldown := p.cooldown[id := At(now + o.slowCooldownMs)],
           pin := if p.pin == Some(id) then None else p.pin)
  }

  function AfterSend(o: Options, p: Pool, id: int, rtt: real, contended: bool, now: real): (r: Pool)
    requires 0 <= id < |p.lanes| && id < |p.streak|
    ensures r.lanes == p.lanes && |r.streak| == |p.streak| && r.closed == p.closed
  {
    var p := AfterBreach(o, p, id, rtt, contended, now);
    if contended then p else AfterStreak(o, p, id, rtt, now)
  }

  /** `transient`: the error is a connection close or classified as transient. */
  function AfterFailure(p: Pool, id: int, transient: bool, now: real): Pool
    requires 0 <= id < |p.lanes| && id < |p.streak|
  {
    if !transient then p else
    var p := p.(pin := if p.pin == Some(id) then None else p.pin);
    var drained := L.Drained(p.lanes[id]);
    if p.closed then p.(lanes := p.lanes[id := drained])
    else
      p.(lanes := p.lanes[id := L.Recycled(drained, now)],
         bypass := p.bypass - {id}, cooldown := p.cooldown - {id}, streak := p.streak[id := 0])
  }

  /** Too old to keep, and safe to replace. */
  predicate Stale(o: Options, p: Pool, l: L.View, now: real) {
    && l.state == L.Ready && l.inFlight == 0 && now - l.openedAt >= o.maxAgeMs
    && l.id >= o.sendReserved
    && !(p.pin == Some(l.id) && HasFresh(o, l, L.Send, now) && IsFastLane(o, p, l, now))
  }

  function StaleAmong(o: Options, p: Pool, ls: Lanes, now: real): (r: Lanes)
    ensures forall l | l in r :: l in ls && Stale(o, p, l, now)
  {
    if |ls| == 0 then []
    else (if Stale(o, p, ls[0], now) then [ls[0]] else []) + StaleAmong(o, p, ls[1..], now)
  }

  /** Asking whether the pinned lane is fast drops its bypass when it has run out. */
  function SweptByAge(o: Options, p: Pool, now: real): (r: Pool)
    ensures r == p.(bypass := r.bypass)
  {
    match p.pin
    case None => p
    case Some(id) =>
      var l := FindId(p.lanes, id);
      if && l.Some? && l.value.state == L.Ready && l.value.inFlight == 0
         && now - l.value.openedAt >= o.maxAgeMs && id >= o.sendReserved
         && HasFresh(o, l.value, L.Send, now)
         && l.value.Predicted(L.Send).Some? && l.value.Predicted(L.Send).value <= o.lane.fastMs
         && TailSafe(o, l.value)
      then Swept(p, [l.value], now) else p
  }

  predicate Numbered(p: Pool) {
    forall i | 0 <= i < |p.lanes| :: p.lanes[i].id == i
  }

  function RecycleOldest(o: Options, p: Pool, now: real): (Pool, Option<int>)
    requires Numbered(p)
  {
    if p.lastRecycle.Some? && now - p.lastRecycle.value < o.recycleGapMs then (p, None) else
    var stale := StaleAmong(o, p, p.lanes, now);
    var p := SweptByAge(o, p, now);
    if |stale| == 0 || RoutableCount(p.lanes) <= 1 then (p, None) else
    var id := Reduce(o, stale, OldestOpened).id;
    (p.(pin := if p.pin == Some(id) then None else p.pin,
        lanes := p.lanes[id := L.Recycled(p.lanes[id], now)],
        bypass := p.bypass - {id},
        lastRecycle := Some(now)),
     Some(id))
  }

  // ------------------------------------------------------------ requests

  /** Who waits for a request: a caller of `fetch`, or the pool itself, which primes a lane and
      then cancels the response's body. Only maintenance parks the lane meanwhile. */
  datatype Origin = Caller | Priming | Maintenance

  /** What an asynchronous `send` keeps until its response arrives. */
  datatype Request = Request(lane: int, m: L.Measurement, shared: bool, started: real, origin: Origin)

  function Began(p: Pool, id: int, m: L.Measurement, origin: Origin, now: real): (Pool, Request)
    requires 0 <= id < |p.lanes|
  {
    var l := p.lanes[id];
    (p.(lanes := p.lanes[id := l.(inFlight := l.inFlight + 1)]),
     Request(id, m, l.inFlight > 0, now, origin))
  }

  function Ended(p: Pool, q: Request): Pool
    requires 0 <= q.lane < |p.lanes|
  {
    var l := p.lanes[q.lane];
    p.(lanes := p.lanes[q.lane := l.(inFlight := l.inFlight - 1)])
  }

  function Finished(o: Options, p: Pool, q: Request, now: real): Pool
    requires 0 <= q.lane < |p.lanes| == |p.streak|
  {
    var l, rtt := p.lanes[q.lane], now - q.started;
    var contended := q.shared || l.inFlight > 1;
    var p := p.(lanes := p.lanes[q.lane := L.Recorded(o.lane, l, q.m, rtt, contended, now)]);
    Ended(if q.m == L.Send then AfterSend(o, p, q.lane, rtt, contended, now) else p, q)
  }

  /** A failure is counted, and the request is off the wire. The pool reacts later. */
  function Failed(p: Pool, q: Request): Pool
    requires 0 <= q.lane < |p.lanes|
  {
    var l := p.lanes[q.lane];
    p.(lanes := p.lanes[q.lane := l.(failures := l.failures + 1, inFlight := l.inFlight - 1)])
  }

  /** What follows the end of a request, once whoever awaits it goes on. The error is the
      request's, or that of cancelling its body: transient or not. */
  function Reacted(p: Pool, q: Request, error: Option<bool>, now: real): Pool
    requires 0 <= q.lane < |p.lanes| == |p.streak|
  {
    var p := if error.Some? then AfterFailure(p, q.lane, error.value, now) else p;
    p.(cooldown := if q.origin.Maintenance? then p.cooldown - {q.lane} else p.cooldown)
  }

  class LanePool {
    const options: Options
    const lanes: seq<L.Lane>
    const streak: array<int>
    var cooldown: map<int, Until>
    var bypass: map<int, real>
    var lastRecycle: Option<real>
    var closed: bool
    var pin: Option<int>
    var unpin: Option<(int, real)>

    function LaneViews(n: nat): Lanes
      requires n <= |lanes|
      reads lanes
      ensures |LaneViews(n)| == n && forall i | 0 <= i < n :: LaneViews(n)[i] == lanes[i].Now()
    {
      if n == 0 then [] else LaneViews(n - 1) + [lanes[n - 1].Now()]
    }

    function View(): Pool
      reads this, streak, lanes
    {
      Pool(LaneViews(|lanes|), cooldown, bypass, streak[..], lastRecycle, closed, pin, unpin)
    }

    ghost predicate Valid()
    {
      && |lanes| == options.lanes == streak.Length
      && (forall i | 0 <= i < |lanes| :: lanes[i].id == i && lanes[i].options == options.lane)
      && (forall i, j | 0 <= i < j < |lanes| :: lanes[i] != lanes[j])
    }

    constructor (options: Options, now: real)
      requires options.Accepted()
      ensures Valid() && fresh(lanes) && fresh(streak) && this.options == options
      ensures View() == Created(options, now)
    {
      this.options := options;
      var made: seq<L.Lane> := [];
      while |made| < options.lanes
        invariant |made| <= options.lanes && fresh(made)
        invariant forall i | 0 <= i < |made| ::
          made[i].id == i && made[i].options == options.lane && made[i].Now() == L.Opened(i, now)
        invariant forall i, j | 0 <= i < j < |made| :: made[i] != made[j]
      {
        var lane := new L.Lane(|made|, options.lane, now);
        made := made + [lane];
      }
      lanes := made;
      streak := new int[options.lanes](_ => 0);
      cooldown, bypass, lastRecycle, closed, pin, unpin := map[], map[], None, false, None, None;
      new;
      assert streak[..] == seq(options.lanes, _ => 0);
    }

    /** `fetch` and `fetchFor`: choose a lane. */
    method Pick(role: Role, m: L.Measurement, forced: Option<int>, now: real) returns (r: Result<int, PickError>)
      requires Valid()
      modifies this`pin, this`unpin, this`bypass
      ensures (View(), r) == Picked(options, old(View()), role, m, forced, now)
    {
      hide Keep, Reduce, Candidates, Bounded, ChooseSend, Primaries, FindId, LaneViews, Swept, OrElse;
      var p := View();
      var pool := Candidates(options, p, role, now);
      if |pool| == 0 { return Err(NoRoutableLane); }
      if forced.Some? {
        if role != SendRole { return Err(ForcedOnlyForSend); }
        if FindId(pool, forced.value).None? { return Err(ForcedNotRoutable); }
        return Ok(forced.value);
      }
      var bounded := Bounded(options, p, role, now);
      if m == L.Warm {
        var idle := Keep(options, p, bounded, Idle, now);
        return Ok(Reduce(options, OrElse(idle, bounded), OldestSample(L.Warm)).id);
      }
      if role == SendRole {
        var lane := PickSend(bounded, now);
        return Ok(lane.id);
      }
      var unmeasured := Keep(options, p, bounded, Untimed(m), now);
      if |unmeasured| > 0 { return Ok(Reduce(options, unmeasured, ByLoadThenAge(m)).id); }
      return Ok(Reduce(options, bounded, ByRtt(m)).id);
    }

    method PickSend(pool: Lanes, now: real) returns (lane: L.View)
      requires Valid() && |pool| > 0
      modifies this`pin, this`unpin, this`bypass
      ensures var choice := ChooseSend(options, old(View()), pool, now);
              var swept := Swept(old(View()), Primaries(options, old(View()), pool, now), now);
              && lane == choice.lane
              && View() == if choice.Stay? then swept else swept.(pin := Some(lane.id), unpin := None)
    {
      hide Keep, Reduce, BestUntried, Eligible, Spares, Primaries, PinnedAmong, FindId, LaneViews, OrElse;
      var p := View();
      var primary, spare := Eligible(options, p, pool, now), Spares(options, p, pool, now);
      bypass := Swept(p, Primaries(options, p, pool, now), now).bypass;
      var idlePrimary := Keep(options, p, primary, Idle, now);
      var fastPrimary := Keep(options, p, primary, Fast, now);
      var fastIdle := Keep(options, p, fastPrimary, Idle, now);

      var pinned := PinnedAmong(options, p, fastIdle, now);
      if pinned.Some? { return pinned.value; }
      var busyPin := PinnedAmong(options, p, fastPrimary, now).Some?;

      var idleSpare := Keep(options, p, spare, Idle, now);
      if |fastIdle| > 0 {
        lane := Reduce(options, fastIdle, BySend);
      } else if |primary| > 0 && |idlePrimary| == 0 && |idleSpare| > 0 {
        var known := Keep(options, p, idleSpare, Timed(L.Send), now);
        lane := if |known| > 0 then Reduce(options, known, BySend) else BestUntried(options, p, idleSpare, now);
        return;
      } else {
        var timedIdle := Keep(options, p, idlePrimary, Timed(L.Send), now);
        var untried := Keep(options, p, idlePrimary, Untimed(L.Send), now);
        var timedPrimary := Keep(options, p, primary, Timed(L.Send), now);
        if |timedIdle| > 0 { lane := Reduce(options, timedIdle, BySend); }
        else if |untried| > 0 { lane := BestUntried(options, p, untried, now); }
        else if |timedPrimary| > 0 { lane := Reduce(options, timedPrimary, BySend); }
        else { lane := BestUntried(options, p, OrElse(primary, pool), now); }
      }
      if !busyPin { PinSend(lane.id); }
    }

    method PinSend(id: int)
      modifies this`pin, this`unpin
      ensures pin == Some(id) && unpin == None
    {
      unpin := None;
      pin := Some(id);
    }

    method ReactToSend(id: int, rtt: real, contended: bool, now: real)
      requires Valid() && 0 <= id < |lanes|
      modifies this`bypass, this`pin, this`unpin, this`cooldown, streak
      ensures View() == AfterSend(options, old(View()), id, rtt, contended, now)
    {
      hide AfterBreach, AfterStreak, LaneViews;
      ReactToBreach(id, rtt, contended, now);
      if contended { return; }
      CountSlow(id, rtt, now);
    }

    method ReactToBreach(id: int, rtt: real, contended: bool, now: real)
      requires Valid() && 0 <= id < |lanes|
      modifies this`bypass, this`pin, this`unpin
      ensures View() == AfterBreach(options, old(View()), id, rtt, contended, now)
    {
      hide LaneViews, TailSafe;
      var rawBreach := rtt > options.lane.fastMs;
      var materialRawBreach := rtt > options.lane.fastMs + 3.0;
      var tailBreach := !TailSafe(options, LaneViews(|lanes|)[id]);
      if !materialRawBreach && !tailBreach {
        bypass := bypass - {id};
      } else if !contended {
        bypass := bypass[id := now + options.slowCooldownMs];
      }
      if (rawBreach || tailBreach) && !contended && pin == Some(id) {
        pin := None;
        unpin := Some((id, rtt));
      }
    }

    method CountSlow(id: int, rtt: real, now: real)
      requires Valid() && 0 <= id < |lanes|
      modifies this`pin, this`cooldown, streak
      ensures View() == AfterStreak(options, old(View()), id, rtt, now)
    {
      hide LaneViews, RoutableCount;
      if rtt <= options.slowThresholdMs {
        streak[id] := 0;
        return;
      }
      var n := if streak[id] + 1 < 255 then streak[id] + 1 else 255;
      streak[id] := n;
      if n < options.slowSamplesBeforeCooldown { return; }
      if RoutableCount(LaneViews(|lanes|)) <= 1 { return; }
      streak[id] := 0;
      cooldown := cooldown[id := At(now + options.slowCooldownMs)];
      if pin == Some(id) { pin := None; }
    }

    method ReactToFailure(id: int, transient: bool, now: real)
      requires Valid() && 0 <= id < |lanes|
      modifies this`bypass, this`pin, this`cooldown, streak, lanes[id]
      ensures View() == AfterFailure(old(View()), id, transient, now)
    {
      hide LaneViews;
      if !transient { return; }
      if pin == Some(id) { pin := None; }
      lanes[id].Drain();
      if !closed {
        lanes[id].Recycle(now);
        bypass := bypass - {id};
        cooldown := cooldown - {id};
        streak[id] := 0;
      }
      assert View().lanes == old(View()).lanes[id := lanes[id].Now()];
    }

    method Begin(id: int, m: L.Measurement, origin: Origin, now: real) returns (q: Request)
      requires Valid() && 0 <= id < |lanes|
      modifies lanes[id]
      ensures (View(), q) == Began(old(View()), id, m, origin, now)
    {
      hide LaneViews;
      var shared := lanes[id].Begin();
      q := Request(id, m, shared, now, origin);
      assert View().lanes == old(View()).lanes[id := lanes[id].Now()];
    }

    method Finish(q: Request, now: real)
      requires Valid() && 0 <= q.lane < |lanes|
      modifies this, streak, lanes[q.lane]
      ensures View() == Finished(options, old(View()), q, now)
    {
      hide LaneViews, AfterSend, Ended, L.Recorded;
      var rtt, contended := lanes[q.lane].Measure(q.m, q.started, q.shared, now);
      assert View().lanes == old(View()).lanes[q.lane := lanes[q.lane].Now()];
      if q.m == L.Send { ReactToSend(q.lane, rtt, contended, now); }
      End(q);
    }

    method End(q: Request)
      requires Valid() && 0 <= q.lane < |lanes|
      modifies lanes[q.lane]
      ensures View() == Ended(old(View()), q)
    {
      hide LaneViews;
      lanes[q.lane].End();
      assert View().lanes == old(View()).lanes[q.lane := lanes[q.lane].Now()];
    }

    method Fail(q: Request)
      requires Valid() && 0 <= q.lane < |lanes|
      modifies lanes[q.lane]
      ensures View() == Failed(old(View()), q)
    {
      hide LaneViews;
      lanes[q.lane].CountFailure();
      lanes[q.lane].End();
      assert View().lanes == old(View()).lanes[q.lane := lanes[q.lane].Now()];
    }

    /** The `catch` and `finally` of whoever awaits the request. */
    method React(q: Request, error: Option<bool>, now: real)
      requires Valid() && 0 <= q.lane < |lanes|
      modifies this`bypass, this`pin, this`cooldown, streak, lanes[q.lane]
      ensures View() == Reacted(old(View()), q, error, now)
    {
      hide LaneViews, AfterFailure;
      if error.Some? { ReactToFailure(q.lane, error.value, now); }
      if q.origin.Maintenance? { cooldown := cooldown - {q.lane}; }
    }

    /** The choice `maintain` makes; the priming request follows. */
    method RecycleStale(now: real) returns (victim: Option<int>)
      requires Valid()
      modifies this, lanes
      ensures Numbered(old(View())) && (View(), victim) == RecycleOldest(options, old(View()), now)
    {
      hide LaneViews, StaleAmong, SweptByAge, Reduce, RoutableCount;
      var p := View();
      if lastRecycle.Some? && now - lastRecycle.value < options.recycleGapMs { return None; }
      var stale := StaleAmong(options, p, p.lanes, now);
      bypass := SweptByAge(options, p, now).bypass;
      if |stale| == 0 || RoutableCount(p.lanes) <= 1 { return None; }
      var id := Reduce(options, stale, OldestOpened).id;
      if pin == Some(id) { pin := None; }
      lanes[id].Recycle(now);
      bypass := bypass - {id};
      lastRecycle := Some(now);
      assert View().lanes == p.lanes[id := lanes[id].Now()];
      return Some(id);
    }

    method Close()
      requires Valid()
      modifies this`closed, lanes
      ensures View() == Closed(old(View()))
    {
      closed := true;
      for i := 0 to |lanes|
        invariant closed
        invariant forall j | 0 <= j < |lanes| ::
          lanes[j].Now() == if j < i then old(lanes[j].Now()).(state := L.Dead) else old(lanes[j].Now())
      {
        lanes[i].Close();
      }
      forall j | 0 <= j < |lanes| ensures View().lanes[j] == Closed(old(View())).lanes[j] {
        assert old(View()).lanes[j] == old(lanes[j].Now());
      }
    }
  }

  function Created(o: Options, now: real): Pool
    requires o.lanes >= 0
  {
    Pool(
      seq(o.lanes, i requires 0 <= i => L.Opened(i, now)), map[], map[], seq(o.lanes, _ => 0), None, false, None, None)
  }

  function Closed(p: Pool): Pool {
    p.(closed := true, lanes := seq(|p.lanes|, i requires 0 <= i < |p.lanes| => p.lanes[i].(state := L.Dead)))
  }
}
