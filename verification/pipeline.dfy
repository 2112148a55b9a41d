/** One inbound event through every gate: what is sent, what is not, and how often
    the same thing can be sent over a whole run. */
module Pipeline {
  import opened Wrappers
  import opened TtlMap
  import Claims
  import Jobs
  import RateLimit

  datatype Event = Event(
    owner: string, sender: string, bot: string, surface: string, room: string,
    message: string, text: string, explicitJobId: Option<string>)

  datatype Rule = Rule(id: string, reply: string)

  datatype Outcome =
    | SenderNotAllowed | DedupedIncoming | NoRule | JobTerminal
    | DedupedReply | DedupedRoom | RateLimited

  /** What one event leads to: a gate stops it, the reply is handed to the
      transport, or the job registry refuses the transition and the call rejects. */
  datatype Verdict = Stopped(why: Outcome) | Sent(jobKey: string, reply: string) | Rejected(because: Jobs.Illegal)

  datatype Settings = Settings(
    incoming: Config, reply: Config, roomAnswer: Config, jobs: Config, limits: RateLimit.Limits,
    allows: (string, string) -> bool, matching: string -> Option<Rule>)
  {
    predicate Valid() {
      incoming.Valid() && reply.Valid() && roomAnswer.Valid() && jobs.Valid() && limits.Valid()
    }
  }

  datatype Core = Core(
    incoming: Claims.Claimed, reply: Claims.Claimed, roomAnswer: Claims.Claimed,
    jobs: Jobs.Records, buckets: RateLimit.Buckets)

  function IncomingKey(e: Event): string { Claims.ClaimKey([e.bot, e.surface, e.message]) }
  function ReplyKey(e: Event, rule: string): string { Claims.ClaimKey([e.bot, e.room, rule, e.message]) }
  function RoomKey(e: Event): string { Claims.ClaimKey([e.owner, e.room, e.message]) }
  function BucketKey(e: Event): string { Claims.ClaimKey([e.bot, e.room]) }

  function JobKey(e: Event, rule: string): string {
    Jobs.DeriveJobKey(Jobs.KeyInput(e.explicitJobId, e.message, e.sender, e.room, rule))
  }

  datatype Gate = Stop(outcome: Outcome) | Pass(rule: Rule, jobKey: string)

  /** The gates in their fixed order. */
  function Evaluate(x: Settings, s: Core, e: Event, now: int): (Core, Gate) {
    if !x.allows(e.owner, e.sender) then (s, Stop(SenderNotAllowed)) else
    var (incoming, isNew) := Claims.TryClaimed(x.incoming, s.incoming, IncomingKey(e), now);
    var s := s.(incoming := incoming);
    if !isNew then (s, Stop(DedupedIncoming)) else
    match x.matching(e.text)
    case None => (s, Stop(NoRule))
    case Some(rule) =>
      var key := JobKey(e, rule.id);
      var terminal := Jobs.IsTerminal(s.jobs, key, now);
      var s := s.(jobs := Touch(s.jobs, key, now));
      if terminal then (s, Stop(JobTerminal)) else
      var (reply, isMine) := Claims.TryClaimed(x.reply, s.reply, ReplyKey(e, rule.id), now);
      var s := s.(reply := reply);
      if !isMine then (s, Stop(DedupedReply)) else
      var (roomAnswer, isFirst) := Claims.TryClaimed(x.roomAnswer, s.roomAnswer, RoomKey(e), now);
      var s := s.(roomAnswer := roomAnswer);
      if !isFirst then (s, Stop(DedupedRoom)) else
      var (buckets, admitted) := RateLimit.Admitted(x.limits, s.buckets, BucketKey(e), now);
      var s := s.(buckets := buckets);
      if !admitted then (s, Stop(RateLimited)) else
      (s, Pass(rule, key))
  }

  function Process(x: Settings, s: Core, e: Event, now: int): (Core, Verdict) {
    var (s, gate) := Evaluate(x, s, e, now);
    match gate
    case Stop(outcome) => (s, Stopped(outcome))
    case Pass(rule, key) =>
      var (jobs, refused) := Jobs.Begun(x.jobs, s.jobs, key, now);
      (s.(jobs := jobs), if refused.Some? then Rejected(refused.value) else Sent(key, rule.reply))
  }

  class Worker {
    const settings: Settings
    const claims: Claims.Gates
    const jobs: Jobs.JobRegistry
    const limiter: RateLimit.RateLimiter

    ghost predicate Valid() {
      && claims.Apart()
      && claims.incoming.claims.config == settings.incoming
      && claims.reply.claims.config == settings.reply
      && claims.roomAnswer.claims.config == settings.roomAnswer
      && jobs.store.config == settings.jobs
      && limiter.limits == settings.limits && limiter.buckets.config == settings.limits.rooms
    }

    ghost function View(): Core
      reads claims.incoming.claims, claims.reply.claims, claims.roomAnswer.claims, jobs.store, limiter.buckets
    {
      Core(claims.incoming.claims.entries, claims.reply.claims.entries, claims.roomAnswer.claims.entries,
           jobs.store.entries, limiter.buckets.entries)
    }

    constructor (settings: Settings)
      requires settings.Valid()
      ensures Valid() && this.settings == settings
      ensures View() == Core([], [], [], [], [])
    {
      this.settings := settings;
      claims := new Claims.Gates(settings.incoming, settings.reply, settings.roomAnswer);
      jobs := new Jobs.JobRegistry(settings.jobs);
      limiter := new RateLimit.RateLimiter(settings.limits);
    }

    method RunGates(e: Event, now: int) returns (gate: Gate)
      requires Valid()
      modifies claims.incoming.claims, claims.reply.claims, claims.roomAnswer.claims, jobs.store, limiter.buckets
      ensures (View(), gate) == Evaluate(settings, old(View()), e, now)
    {
      if !settings.allows(e.owner, e.sender) { return Stop(SenderNotAllowed); }
      var isNew := claims.IncomingMessage(e.bot, e.surface, e.message, now);
      if !isNew { return Stop(DedupedIncoming); }
      var rule := settings.matching(e.text);
      if rule.None? { return Stop(NoRule); }
      var key := JobKey(e, rule.value.id);
      var terminal := jobs.KnownTerminal(key, now);
      if terminal { return Stop(JobTerminal); }
      var isMine := claims.Reply(e.bot, e.room, rule.value.id, e.message, now);
      if !isMine { return Stop(DedupedReply); }
      var isFirst := claims.RoomAnswer(e.owner, e.room, e.message, now);
      if !isFirst { return Stop(DedupedRoom); }
      var admitted := limiter.TryAdmit(e.bot, e.room, now);
      if !admitted { return Stop(RateLimited); }
      return Pass(rule.value, key);
    }

    method ProcessInbound(e: Event, now: int) returns (verdict: Verdict)
      requires Valid()
      modifies claims.incoming.claims, claims.reply.claims, claims.roomAnswer.claims, jobs.store, limiter.buckets
      ensures (View(), verdict) == Process(settings, old(View()), e, now)
    {
      var gate := RunGates(e, now);
      if gate.Stop? { return Stopped(gate.outcome); }
      var eligible := jobs.Transition(gate.jobKey, Jobs.Eligible, now);
      if eligible.Err? { return Rejected(eligible.error); }
      var dispatched := jobs.Transition(gate.jobKey, Jobs.Dispatched, now);
      if dispatched.Err? { return Rejected(dispatched.error); }
      return Sent(gate.jobKey, gate.rule.reply);
    }
  }
}
