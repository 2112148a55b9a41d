/** Runs of the whole dispatch core: events, settled outcomes and released claims in
    any order. What is sent more than once, and how much is sent at all. */
module Dispatch {
  import opened Wrappers
  import opened TtlMap
  import opened Sets
  import opened Runs
  import opened Pipeline
  import Claims
  import Jobs
  import RateLimit

  type JobOutcome = s: Jobs.State | s.Terminal() witness Jobs.Won

  datatype Op =
    | Inbound(e: Event, at: int)
    | Settle(jobKey: string, outcome: JobOutcome, at: int)
    | ReleaseIncoming(e: Event, at: int)

  ghost function Step(x: Settings, s: Core, op: Op): Core {
    match op
    case Inbound(e, at) => Process(x, s, e, at).0
    case Settle(key, outcome, at) => s.(jobs := Jobs.Moved(x.jobs, s.jobs, key, outcome, at).0)
    case ReleaseIncoming(e, _) => s.(incoming := Without(s.incoming, IncomingKey(e)))
  }

  ghost function After(x: Settings, r: Run<Op>): Core {
    match r
    case Start => Core([], [], [], [], [])
    case Then(before, op) => Step(x, After(x, before), op)
  }

  ghost predicate InOrder(r: Run<Op>, now: int) {
    r.Then? ==> r.last.at <= now && InOrder(r.before, r.last.at)
  }

  /** The run ends with event `e` at `at`, and its reply is handed out under `jobKey`. */
  ghost predicate Sends(x: Settings, r: Run<Op>, e: Event, jobKey: string, at: int) {
    && r.Then? && r.last == Inbound(e, at)
    && Process(x, After(x, r.before), e, at).1.Sent?
    && Process(x, After(x, r.before), e, at).1.jobKey == jobKey
  }

  // ------------------------------------------------------------ one send a job

  /** What a step does to the job store. */
  datatype JobAction = Nothing | Look(key: string) | Begin(key: string) | Finish(key: string, outcome: JobOutcome)

  ghost function JobActionOf(x: Settings, s: Core, op: Op): JobAction {
    match op
    case Inbound(e, at) =>
      (match Evaluate(x, s, e, at).1
       case Pass(_, key) => Begin(key)
       case Stop(o) =>
         if o in {SenderNotAllowed, DedupedIncoming, NoRule} || x.matching(e.text).None? then Nothing
         else Look(JobKey(e, x.matching(e.text).value.id)))
    case Settle(key, outcome, _) => Finish(key, outcome)
    case ReleaseIncoming(_, _) => Nothing
  }

  ghost function Acted(c: Config, s: Jobs.Records, a: JobAction, at: int): Jobs.Records {
    match a
    case Nothing => s
    case Look(key) => Touch(s, key, at)
    case Begin(key) => Jobs.Begun(c, Touch(s, key, at), key, at).0
    case Finish(key, outcome) => Jobs.Moved(c, s, key, outcome, at).0
  }

  lemma StepActs(x: Settings, s: Core, op: Op)
    ensures Step(x, s, op).jobs == Acted(x.jobs, s.jobs, JobActionOf(x, s, op), op.at)
  {
    hide Claims.TryClaimed, RateLimit.Admitted, Touch, Jobs.Begun, Jobs.Moved, Jobs.IsTerminal;
  }

  /** The job key whose record a step writes, if any. */
  ghost function JobsWritten(x: Settings, s: Core, op: Op, k: string): set<string> {
    match JobActionOf(x, s, op)
    case Begin(key) => Written(x, s, op, key, k)
    case Finish(key, _) => Written(x, s, op, key, k)
    case _ => {}
  }

  ghost function Written(x: Settings, s: Core, op: Op, key: string, k: string): set<string> {
    if key != k && Step(x, s, op).jobs !in {s.jobs, Touch(s.jobs, key, op.at)} then {key} else {}
  }

  /** The jobs other than `k` whose record was written since `r0`. */
  ghost function OtherJobs(x: Settings, r: Run<Op>, r0: Run<Op>, k: string): set<string>
    requires Extends(r, r0)
  {
    if r == r0 then {}
    else OtherJobs(x, r.before, r0, k) + JobsWritten(x, After(x, r.before), r.last, k)
  }

  lemma ActKeepsSound(c: Config, s: Jobs.Records, a: JobAction, at: int)
    requires c.Valid() && Sound(c, s, at)
    ensures Sound(c, Acted(c, s, a, at), at)
  {
    hide Sound, Touch, Jobs.Moved;
    if a.Look? || a.Begin? { RemovalsKeepSound(c, s, a.key, at, at); }
    if a.Begin? {
      var t := Touch(s, a.key, at);
      Jobs.MovedKeepsSound(c, t, a.key, Jobs.Eligible, at);
      Jobs.MovedKeepsSound(c, Jobs.Moved(c, t, a.key, Jobs.Eligible, at).0, a.key, Jobs.Dispatched, at);
    }
    if a.Finish? { Jobs.MovedKeepsSound(c, s, a.key, a.outcome, at); }
  }

  lemma {:induction false} JobStoreIsSound(x: Settings, r: Run<Op>, now: int)
    requires x.Valid() && InOrder(r, now)
    ensures Sound(x.jobs, After(x, r).jobs, now)
  {
    if r.Then? {
      hide Step, Sound, Acted, JobActionOf;
      var s := After(x, r.before);
      JobStoreIsSound(x, r.before, r.last.at);
      StepActs(x, s, r.last);
      ActKeepsSound(x.jobs, s.jobs, JobActionOf(x, s, r.last), r.last.at);
      SoundLater(x.jobs, Step(x, s, r.last).jobs, r.last.at, now);
    }
  }

  lemma SoundLater(c: Config, s: Jobs.Records, before: int, now: int)
    requires Sound(c, s, before) && before <= now
    ensures Sound(c, s, now)
  {
  }

  lemma ActTracks(
      c: Config, s: Jobs.Records, a: JobAction, at: int, k: string, deadline: int, others: set<string>, settled: bool)
    requires c.Valid() && Sound(c, s, at) && at < deadline <= at + c.ttlMs
    requires Jobs.Tracks(c, s, k, deadline, others, settled)
    ensures var s' := Acted(c, s, a, at);
            || Jobs.Tracks(c, s', k, deadline, others, settled || Settles(a, k))
            || ((a.Begin? || a.Finish?) && a.key != k && s' !in {s, Touch(s, a.key, at)}
                && Jobs.Tracks(c, s', k, deadline, others + {a.key}, settled))
  {
    hide Sound, Touch, Jobs.Tracks, Jobs.Begun, Jobs.Moved;
    if !a.Nothing? {
      Jobs.ReadTracks(c, s, a.key, at, k, deadline, others, settled);
      RemovalsKeepSound(c, s, a.key, at, at);
      match a {
        case Look(_) =>
        case Begin(key) =>
          if key == k {
            OwnBeginTracks(c, s, k, at, deadline, others, settled);
          } else {
            Jobs.BegunOtherTracks(c, Touch(s, key, at), key, at, k, deadline, others, settled);
          }
        case Finish(key, outcome) =>
          if key == k {
            Jobs.SettledTracks(c, s, k, outcome, at, deadline, others, settled);
          } else {
            Jobs.MovedOtherTracks(c, s, key, outcome, at, k, deadline, others, settled);
          }
      }
    }
  }

  ghost predicate Settles(a: JobAction, k: string) { a.Finish? && a.key == k }

  lemma OwnBeginTracks(
      c: Config, s: Jobs.Records, k: string, at: int, deadline: int, others: set<string>, settled: bool)
    requires c.Valid() && at < deadline && Jobs.Tracks(c, s, k, deadline, others, settled)
    ensures Jobs.Tracks(c, Jobs.Begun(c, Touch(s, k, at), k, at).0, k, deadline, others, settled)
  {
    if |others| < c.maxEntries {
      hide Touch, Remembers, Live;
      Jobs.TrackedIsOver(c, s, k, deadline, others, at, settled);
      Jobs.OverCannotBegin(c, s, k, at);
    }
  }

  lemma {:induction false} ClockSince(r: Run<Op>, r0: Run<Op>, now: int)
    requires InOrder(r, now) && Extends(r, r0) && r0.Then?
    ensures r0.last.at <= r.last.at <= now && InOrder(r0, r0.last.at)
  {
    if r != r0 { ClockSince(r.before, r0, r.last.at); }
  }

  lemma SendBegins(x: Settings, s: Core, e: Event, at: int)
    requires Process(x, s, e, at).1.Sent?
    ensures JobActionOf(x, s, Inbound(e, at)) == Begin(Process(x, s, e, at).1.jobKey)
    ensures var k := Process(x, s, e, at).1.jobKey; Jobs.Begun(x.jobs, Touch(s.jobs, k, at), k, at).1.None?
  {
    hide Claims.TryClaimed, RateLimit.Admitted, Touch, Jobs.Begun, Jobs.IsTerminal;
  }

  /** An outcome of job `k` was reported since `r0`. */
  ghost predicate SettledSince(r: Run<Op>, r0: Run<Op>, k: string)
    requires Extends(r, r0)
  {
    r != r0 && ((r.last.Settle? && r.last.jobKey == k) || SettledSince(r.before, r0, k))
  }

  lemma SettleFinishes(x: Settings, s: Core, op: Op, k: string)
    ensures Settles(JobActionOf(x, s, op), k) <==> op.Settle? && op.jobKey == k
  {
    hide Evaluate;
  }

  lemma {:induction false} JobIsTracked(
      x: Settings, r0: Run<Op>, e: Event, k: string, t: int, r: Run<Op>, now: int)
    requires x.Valid() && InOrder(r, now) && Extends(r, r0) && now < t + x.jobs.ttlMs
    requires Sends(x, r0, e, k, t)
    ensures Jobs.Tracks(x.jobs, After(x, r).jobs, k, t + x.jobs.ttlMs, OtherJobs(x, r, r0, k), SettledSince(r, r0, k))
    decreases r
  {
    hide Jobs.Tracks, Sound, Step, Acted, JobActionOf, Process, Touch;
    var s, op := After(x, r.before), r.last;
    StepActs(x, s, op);
    if r == r0 {
      SendBegins(x, s, e, t);
      BegunIsTracked(x.jobs, s.jobs, k, t);
    } else {
      var others, settled := OtherJobs(x, r.before, r0, k), SettledSince(r.before, r0, k);
      SettleFinishes(x, s, op, k);
      JobIsTracked(x, r0, e, k, t, r.before, op.at);
      ClockSince(r, r0, now);
      JobStoreIsSound(x, r.before, op.at);
      ActTracks(x.jobs, s.jobs, JobActionOf(x, s, op), op.at, k, t + x.jobs.ttlMs, others, settled);
      var ended := SettledSince(r, r0, k);
      if Jobs.Tracks(x.jobs, Step(x, s, op).jobs, k, t + x.jobs.ttlMs, others, ended) {
        TracksMore(x.jobs, Step(x, s, op).jobs, k, t + x.jobs.ttlMs, others, JobsWritten(x, s, op, k), ended);
      } else {
        assert JobsWritten(x, s, op, k) == {JobActionOf(x, s, op).key};
      }
    }
  }

  lemma BegunIsTracked(c: Config, s: Jobs.Records, k: string, t: int)
    requires c.Valid() && Jobs.Begun(c, Touch(s, k, t), k, t).1.None?
    ensures Jobs.Tracks(c, Acted(c, s, Begin(k), t), k, t + c.ttlMs, {}, false)
  {
    hide Jobs.Tracks, Jobs.Begun, Touch;
    Jobs.BegunTracks(c, Touch(s, k, t), k, t);
  }

  lemma TracksMore(
      c: Config, s: Jobs.Records, k: string, deadline: int, others: set<string>, more: set<string>, settled: bool)
    requires Jobs.Tracks(c, s, k, deadline, others, settled)
    ensures Jobs.Tracks(c, s, k, deadline, others + more, settled)
  {
    SubsetSize(others, others + more);
  }

  /** One send a job. When two events are answered under the same job key less than
      the job TTL apart, the first one's record has been evicted in between: at
      least `maxEntries` other jobs had their records written. This holds whichever
      messages carry the key, and whatever outcomes are settled meanwhile. */
  lemma OneSendAJob(
      x: Settings, first: Run<Op>, e: Event, second: Run<Op>, e': Event, k: string, t: int, now: int)
    requires x.Valid() && InOrder(second, now) && now < t + x.jobs.ttlMs
    requires Sends(x, first, e, k, t) && Sends(x, second, e', k, now) && Extends(second.before, first)
    ensures |OtherJobs(x, second.before, first, k)| >= x.jobs.maxEntries
  {
    hide Jobs.Tracks, Touch, Live, JobActionOf, Jobs.Begun, Process, OtherJobs, After;
    var s, others := After(x, second.before), OtherJobs(x, second.before, first, k);
    JobIsTracked(x, first, e, k, t, second.before, now);
    SendBegins(x, s, e', now);
    if |others| < x.jobs.maxEntries {
      Jobs.TrackedIsOver(x.jobs, s.jobs, k, t + x.jobs.ttlMs, others, now, SettledSince(second.before, first, k));
      Jobs.OverCannotBegin(x.jobs, s.jobs, k, now);
    }
  }

  /** What happens to an event that clears every gate: it is sent exactly when no
      live record says its job is already out. Otherwise the call rejects. */
  lemma PassedIsSentUnlessOver(x: Settings, s: Core, e: Event, at: int)
    requires x.jobs.Valid() && Evaluate(x, s, e, at).1.Pass?
    ensures var live := Live(s.jobs, Evaluate(x, s, e, at).1.jobKey, at);
            Process(x, s, e, at).1.Sent? <==> live.None? || !Jobs.Over(live.value.state)
  {
    hide Evaluate;
    var (s', gate) := Evaluate(x, s, e, at);
    assert s'.jobs == Touch(s.jobs, gate.jobKey, at) by { PassTouchesTheJob(x, s, e, at); }
    TouchKeepsLive(s.jobs, gate.jobKey, at);
    Jobs.BeginSucceedsUnlessOver(x.jobs, s'.jobs, gate.jobKey, at);
  }

  lemma PassTouchesTheJob(x: Settings, s: Core, e: Event, at: int)
    requires Evaluate(x, s, e, at).1.Pass?
    ensures Evaluate(x, s, e, at).0.jobs == Touch(s.jobs, Evaluate(x, s, e, at).1.jobKey, at)
  {
    hide Claims.TryClaimed, RateLimit.Admitted, Touch, Jobs.IsTerminal;
  }

  lemma TouchKeepsLive(s: Jobs.Records, k: string, at: int)
    ensures Live(Touch(s, k, at), k, at) == Live(s, k, at)
  {
  }

  // ------------------------------------------------------------ each gate is a claim store

  datatype GateName = IncomingGate | ReplyGate | RoomGate

  ghost function GateStore(s: Core, g: GateName): Claims.Claimed {
    match g case IncomingGate => s.incoming case ReplyGate => s.reply case RoomGate => s.roomAnswer
  }

  ghost function GateConfig(x: Settings, g: GateName): Config {
    match g case IncomingGate => x.incoming case ReplyGate => x.reply case RoomGate => x.roomAnswer
  }

  /** The key an event claims at a gate; the reply gate's names the matched rule. */
  ghost function GateKey(x: Settings, e: Event, g: GateName): string
    requires x.matching(e.text).Some?
  {
    match g
    case IncomingGate => IncomingKey(e)
    case ReplyGate => ReplyKey(e, x.matching(e.text).value.id)
    case RoomGate => RoomKey(e)
  }

  /** The gates an event reaches, by how it ends. */
  ghost predicate Reaches(gate: Gate, g: GateName) {
    match g
    case IncomingGate => gate != Stop(SenderNotAllowed)
    case ReplyGate => gate.Pass? || gate.outcome in {DedupedReply, DedupedRoom, RateLimited}
    case RoomGate => gate.Pass? || gate.outcome in {DedupedRoom, RateLimited}
  }

  /** What a step does to a gate's claim store. */
  ghost function GateOp(x: Settings, s: Core, op: Op, g: GateName): Option<Claims.Op> {
    match op
    case Inbound(e, at) =>
      if !Reaches(Evaluate(x, s, e, at).1, g) then None
      else if g.IncomingGate? then Some(Claims.TryClaim(IncomingKey(e), at))
      else if x.matching(e.text).None? then None
      else Some(Claims.TryClaim(GateKey(x, e, g), at))
    case Settle(_, _, _) => None
    case ReleaseIncoming(e, at) => if g.IncomingGate? then Some(Claims.Release(IncomingKey(e), at)) else None
  }

  /** The run as one gate's claim store sees it. */
  ghost function Seen(x: Settings, r: Run<Op>, g: GateName): Run<Claims.Op> {
    match r
    case Start => Start
    case Then(before, op) =>
      match GateOp(x, After(x, before), op, g)
      case None => Seen(x, before, g)
      case Some(c) => Then(Seen(x, before, g), c)
  }

  lemma StepIsClaimStep(x: Settings, s: Core, op: Op, g: GateName)
    ensures match GateOp(x, s, op, g)
            case None => GateStore(Step(x, s, op), g) == GateStore(s, g)
            case Some(c) =>
              && GateStore(Step(x, s, op), g) == Claims.Step(GateConfig(x, g), GateStore(s, g), c).0
              && c.at == op.at
    ensures op.Inbound? && Evaluate(x, s, op.e, op.at).1.Pass? ==>
              && x.matching(op.e.text).Some?
              && GateOp(x, s, op, g) == Some(Claims.TryClaim(GateKey(x, op.e, g), op.at))
              && Claims.Step(GateConfig(x, g), GateStore(s, g), GateOp(x, s, op, g).value).1
  {
    hide Claims.TryClaimed, RateLimit.Admitted, Touch, Jobs.Begun, Jobs.IsTerminal, Jobs.Moved;
  }

  /** Refinement: every gate of the running core is exactly a claim store. */
  lemma {:induction false} GateIsAClaimStore(x: Settings, r: Run<Op>, g: GateName, now: int)
    requires InOrder(r, now)
    ensures GateStore(After(x, r), g) == Claims.After(GateConfig(x, g), Seen(x, r, g))
    ensures Claims.InOrder(Seen(x, r, g), now)
  {
    if r.Then? {
      hide Step, GateOp, Claims.Step;
      GateIsAClaimStore(x, r.before, g, r.last.at);
      StepIsClaimStep(x, After(x, r.before), r.last, g);
      LaterClaims(Seen(x, r.before, g), r.last.at, now);
    }
  }

  lemma LaterClaims(r: Run<Claims.Op>, now: int, later: int)
    requires Claims.InOrder(r, now) && now <= later
    ensures Claims.InOrder(r, later)
  {
  }

  lemma {:induction false} SeenExtends(x: Settings, r: Run<Op>, r0: Run<Op>, g: GateName)
    requires Extends(r, r0)
    ensures Extends(Seen(x, r, g), Seen(x, r0, g))
  {
    if r != r0 { SeenExtends(x, r.before, r0, g); }
  }

  lemma SendAcquires(x: Settings, r: Run<Op>, e: Event, jobKey: string, at: int, g: GateName)
    requires InOrder(r, at) && Sends(x, r, e, jobKey, at)
    ensures x.matching(e.text).Some?
    ensures Claims.Acquires(GateConfig(x, g), Seen(x, r, g), GateKey(x, e, g), at)
    ensures Seen(x, r, g).before == Seen(x, r.before, g)
  {
    hide Claims.Step, Evaluate, GateOp;
    StepIsClaimStep(x, After(x, r.before), r.last, g);
    GateIsAClaimStore(x, r.before, g, at);
  }

  /** At every gate: two replies to events with the same gate key, less than the
      gate's TTL apart, need as many other claims in between as the gate can hold.
      So one message in one room is answered once for its owner, and one rule
      answers one message once, unless that many other claims intervene. (Only the
      incoming gate is ever released.) */
  lemma OneSendAGateKey(
      x: Settings, first: Run<Op>, e: Event, j: string, second: Run<Op>, e': Event, j': string,
      t: int, now: int, g: GateName)
    requires x.Valid() && InOrder(second, now) && now < t + GateConfig(x, g).ttlMs
    requires Sends(x, first, e, j, t) && Sends(x, second, e', j', now)
    requires Extends(second.before, first)
    requires x.matching(e.text).Some? && x.matching(e'.text).Some? && GateKey(x, e, g) == GateKey(x, e', g)
    requires g.IncomingGate? ==> NeverReleased(second.before, first, e)
    ensures Extends(Seen(x, second.before, g), Seen(x, first, g))
    ensures |Claims.OthersClaimed(GateConfig(x, g), Seen(x, second.before, g), Seen(x, first, g), GateKey(x, e, g))|
         >= GateConfig(x, g).maxEntries
  {
    hide Claims.Acquires, Claims.OthersClaimed;
    var c, k := GateConfig(x, g), GateKey(x, e, g);
    SeenExtends(x, second.before, first, g);
    ClockSince(second.before, first, now);
    SendAcquires(x, first, e, j, t, g);
    SendAcquires(x, second, e', j', now, g);
    GateIsAClaimStore(x, second, g, now);
    NotReleasedSeen(x, second.before, first, e, g);
    Claims.ClaimWindow(c, Seen(x, first, g), k, t, Seen(x, second, g), now);
  }

  ghost predicate NeverReleased(r: Run<Op>, r0: Run<Op>, e: Event)
    requires Extends(r, r0)
  {
    r == r0 || (!(r.last.ReleaseIncoming? && IncomingKey(r.last.e) == IncomingKey(e)) && NeverReleased(r.before, r0, e))
  }

  lemma {:induction false} NotReleasedSeen(x: Settings, r: Run<Op>, r0: Run<Op>, e: Event, g: GateName)
    requires Extends(r, r0) && Extends(Seen(x, r, g), Seen(x, r0, g))
    requires x.matching(e.text).Some?
    requires g.IncomingGate? ==> NeverReleased(r, r0, e)
    ensures Claims.NotReleased(Seen(x, r, g), Seen(x, r0, g), GateKey(x, e, g))
  {
    if r != r0 {
      hide Evaluate;
      SeenExtends(x, r.before, r0, g);
      NotReleasedSeen(x, r.before, r0, e, g);
    }
  }

  // ------------------------------------------------------------ how much is sent

  /** What a step asks the rate limiter. */
  ghost function AskOf(x: Settings, s: Core, op: Op): Option<RateLimit.Ask> {
    if op.Inbound? && var gate := Evaluate(x, s, op.e, op.at).1; gate.Pass? || gate == Stop(RateLimited)
    then Some(RateLimit.Ask(BucketKey(op.e), op.at)) else None
  }

  ghost function Asks(x: Settings, r: Run<Op>): Run<RateLimit.Ask> {
    match r
    case Start => Start
    case Then(before, op) =>
      match AskOf(x, After(x, before), op)
      case None => Asks(x, before)
      case Some(ask) => Then(Asks(x, before), ask)
  }

  lemma StepIsAsk(x: Settings, s: Core, op: Op)
    ensures match AskOf(x, s, op)
            case None => Step(x, s, op).buckets == s.buckets
            case Some(ask) =>
              && Step(x, s, op).buckets == RateLimit.Admitted(x.limits, s.buckets, ask.key, ask.at).0
              && ask.at == op.at
    ensures op.Inbound? && Process(x, s, op.e, op.at).1.Sent? ==>
              && AskOf(x, s, op) == Some(RateLimit.Ask(BucketKey(op.e), op.at))
              && RateLimit.Admitted(x.limits, s.buckets, BucketKey(op.e), op.at).1
  {
    hide Claims.TryClaimed, RateLimit.Admitted, Touch, Jobs.Begun, Jobs.IsTerminal, Jobs.Moved;
  }

  /** Refinement: the core's buckets are those of a limiter asked in the same order. */
  lemma {:induction false} BucketsAreALimiter(x: Settings, r: Run<Op>, now: int)
    requires InOrder(r, now)
    ensures After(x, r).buckets == RateLimit.After(x.limits, Asks(x, r))
    ensures RateLimit.InOrder(Asks(x, r), now)
  {
    if r.Then? {
      hide Step, AskOf, RateLimit.Admitted;
      BucketsAreALimiter(x, r.before, r.last.at);
      StepIsAsk(x, After(x, r.before), r.last);
      RateLimit.InOrderLater(Asks(x, r.before), r.last.at, now);
    }
  }

  /** How many replies were handed out for one bot in one room since `r0`. */
  ghost function SentSince(x: Settings, r: Run<Op>, r0: Run<Op>, bot: string, room: string): nat
    requires Extends(r, r0)
  {
    if r == r0 then 0
    else SentSince(x, r.before, r0, bot, room) + if Answers(x, r, bot, room) then 1 else 0
  }

  ghost predicate Answers(x: Settings, r: Run<Op>, bot: string, room: string)
    requires r.Then?
  {
    && r.last.Inbound? && r.last.e.bot == bot && r.last.e.room == room
    && Process(x, After(x, r.before), r.last.e, r.last.at).1.Sent?
  }

  ghost predicate Since(r: Run<Op>, r0: Run<Op>, s: int)
    requires Extends(r, r0)
  {
    r == r0 || (s <= r.last.at && Since(r.before, r0, s))
  }

  lemma {:induction false} SentAreAdmitted(
      x: Settings, r: Run<Op>, r0: Run<Op>, bot: string, room: string, s: int, now: int)
    requires InOrder(r, now) && Extends(r, r0) && Since(r, r0, s)
    ensures Extends(Asks(x, r), Asks(x, r0)) && RateLimit.Since(Asks(x, r), Asks(x, r0), s)
    ensures SentSince(x, r, r0, bot, room)
         <= RateLimit.AdmittedSince(x.limits, Asks(x, r), Asks(x, r0), Claims.ClaimKey([bot, room]))
    decreases r
  {
    if r != r0 {
      hide AskOf, Process, Evaluate, RateLimit.Admitted, Step;
      SentAreAdmitted(x, r.before, r0, bot, room, s, r.last.at);
      BucketsAreALimiter(x, r.before, r.last.at);
      StepIsAsk(x, After(x, r.before), r.last);
      ExtendsIsLonger(Asks(x, r.before), Asks(x, r0));
    }
  }

  /** The send rate: in any interval of any run, one bot answers one room at most one
      burst plus the interval's refill times, as long as its bucket is crowded out only
      when it would be full again, and the idle TTL covers a full refill. */
  lemma SendRate(x: Settings, r: Run<Op>, r0: Run<Op>, bot: string, room: string, s: int, now: int)
    requires x.Valid() && RateLimit.TtlRefills(x.limits)
    requires InOrder(r, now) && Extends(r, r0) && s <= now && Since(r, r0, s)
    requires RateLimit.NeverMissed(x.limits, Asks(x, r), Claims.ClaimKey([bot, room]))
    ensures SentSince(x, r, r0, bot, room) as real
         <= x.limits.capacity as real + (now - s) as real * x.limits.refillPerMs
  {
    hide RateLimit.Earned, RateLimit.TtlRefills, RateLimit.NeverMissed, SentSince, Since, RateLimit.AdmittedSince;
    SentAreAdmitted(x, r, r0, bot, room, s, now);
    BucketsAreALimiter(x, r, now);
    RateLimit.RateBound(x.limits, Asks(x, r), Asks(x, r0), Claims.ClaimKey([bot, room]), s, now);
  }
}
