/** What the gates compare, on the fields of the events: which two events are one to a gate, which
    gate stops an event, and what it takes to answer the same thing again. */
module GateKeys {
  import opened Wrappers
  import opened TtlMap
  import opened Sets
  import opened Runs
  import opened Pipeline
  import opened Dispatch
  import Claims
  import Jobs
  import RateLimit
  import JobWindow

  // ------------------------------------------------------------ which events are one

  ghost predicate Plain(e: Event) { Claims.NulFree([e.owner, e.sender, e.bot, e.surface, e.room, e.message]) }

  lemma SameParts(a: seq<string>, b: seq<string>)
    requires |a| > 0 && |b| > 0 && Claims.NulFree(a) && Claims.NulFree(b)
    ensures Claims.ClaimKey(a) == Claims.ClaimKey(b) <==> a == b
  {
    if Claims.ClaimKey(a) == Claims.ClaimKey(b) { Claims.ClaimKeyInjective(a, b); }
  }

  /** To the incoming gate: the same message on the same surface, heard by the same bot. */
  lemma SameIncomingIff(e: Event, e': Event)
    requires Plain(e) && Plain(e')
    ensures IncomingKey(e) == IncomingKey(e') <==>
              e.bot == e'.bot && e.surface == e'.surface && e.message == e'.message
  {
    hide Claims.ClaimKey;
    SameParts([e.bot, e.surface, e.message], [e'.bot, e'.surface, e'.message]);
  }

  /** To the reply gate: the same rule for the same message in the same room, by the same bot. */
  lemma SameReplyIff(e: Event, rule: string, e': Event, rule': string)
    requires Plain(e) && Plain(e') && Claims.NulFree([rule, rule'])
    ensures ReplyKey(e, rule) == ReplyKey(e', rule') <==>
              e.bot == e'.bot && e.room == e'.room && rule == rule' && e.message == e'.message
  {
    hide Claims.ClaimKey;
    SameParts([e.bot, e.room, rule, e.message], [e'.bot, e'.room, rule', e'.message]);
  }

  /** To the room gate: the same message in the same room, for the same owner, whichever of the
      owner's bots heard it. */
  lemma SameRoomIff(e: Event, e': Event)
    requires Plain(e) && Plain(e')
    ensures RoomKey(e) == RoomKey(e') <==> e.owner == e'.owner && e.room == e'.room && e.message == e'.message
  {
    hide Claims.ClaimKey;
    SameParts([e.owner, e.room, e.message], [e'.owner, e'.room, e'.message]);
  }

  /** To the limiter: the same bot in the same room. */
  lemma SameBucketIff(e: Event, e': Event)
    requires Plain(e) && Plain(e')
    ensures BucketKey(e) == BucketKey(e') <==> e.bot == e'.bot && e.room == e'.room
  {
    hide Claims.ClaimKey;
    SameParts([e.bot, e.room], [e'.bot, e'.room]);
  }

  /** The id that an event carries for its job. */
  ghost function Carried(e: Event): Option<string> {
    if e.explicitJobId.Some? && Jobs.Trimmed(e.explicitJobId.value) != ""
    then Some(Jobs.Trimmed(e.explicitJobId.value)) else None
  }

  /** To the registry: the same explicit id; or neither has one, and message, sender, room and rule
      are the same, whichever bot heard it. */
  lemma SameJobIff(e: Event, rule: string, e': Event, rule': string)
    requires Plain(e) && Plain(e') && Claims.NulFree([rule, rule'])
    ensures JobKey(e, rule) == JobKey(e', rule') <==>
              && Carried(e) == Carried(e')
              && (Carried(e).None? ==>
                    e.message == e'.message && e.sender == e'.sender && e.room == e'.room && rule == rule')
  {
    hide Jobs.DeriveJobKey;
    Jobs.JobKeyIdentifiesTheJob(
      Jobs.KeyInput(e.explicitJobId, e.message, e.sender, e.room, rule),
      Jobs.KeyInput(e'.explicitJobId, e'.message, e'.sender, e'.room, rule'));
  }

  // ------------------------------------------------------------ answering the same thing again

  /** What a gate compares. */
  ghost function Fields(x: Settings, e: Event, g: GateName): seq<string> {
    match g
    case IncomingGate => [e.bot, e.surface, e.message]
    case ReplyGate => [e.bot, e.room, if x.matching(e.text).Some? then x.matching(e.text).value.id else "", e.message]
    case RoomGate => [e.owner, e.room, e.message]
  }

  /** How long a gate remembers, and how much. */
  ghost function Limit(x: Settings, g: GateName): Config {
    match g case IncomingGate => x.incoming case ReplyGate => x.reply case RoomGate => x.roomAnswer
  }

  /** What a gate was shown since `r0`. */
  ghost function Heard(x: Settings, r: Run<Op>, r0: Run<Op>, g: GateName): set<seq<string>>
    requires Extends(r, r0)
  {
    if r == r0 then {}
    else Heard(x, r.before, r0, g) + if r.last.Inbound? then {Fields(x, r.last.e, g)} else {}
  }

  /** Each key is that of something heard, and not `k`. */
  ghost predicate Covered(keys: set<string>, heard: set<seq<string>>, k: string) {
    forall key | key in keys :: key != k && exists f :: f in heard && key == Claims.ClaimKey(f)
  }

  lemma CoverGrows(
      keys: set<string>, heard: set<seq<string>>, k: string, keys': set<string>, more: set<seq<string>>)
    requires Covered(keys, heard, k)
    requires forall key | key in keys' && key !in keys :: key != k && exists f :: f in more && key == Claims.ClaimKey(f)
    ensures Covered(keys', heard + more, k)
  {
    hide Claims.ClaimKey;
    forall key | key in keys' ensures key != k && exists f :: f in heard + more && key == Claims.ClaimKey(f) {
      if key in keys {
        var f :| f in heard && key == Claims.ClaimKey(f);
        assert f in heard + more;
      } else {
        var f :| f in more && key == Claims.ClaimKey(f);
        assert f in heard + more;
      }
    }
  }

  lemma {:induction false} OthersWereHeard(x: Settings, r: Run<Op>, r0: Run<Op>, g: GateName, k: string)
    requires Extends(r, r0) && Extends(Seen(x, r, g), Seen(x, r0, g))
    ensures Covered(Claims.OthersClaimed(GateConfig(x, g), Seen(x, r, g), Seen(x, r0, g), k), Heard(x, r, r0, g), k)
  {
    if r != r0 {
      hide GateOp, Claims.OthersClaimed, Claims.ClaimKey, Fields, After, Claims.Step, Covered;
      var s, c := After(x, r.before), GateConfig(x, g);
      var claims, claims0 := Seen(x, r.before, g), Seen(x, r0, g);
      SeenExtends(x, r.before, r0, g);
      OthersWereHeard(x, r.before, r0, g, k);
      ShownIsHeard(x, s, r.last, g);
      var shown := GateOp(x, s, r.last, g);
      if shown.Some? { OneMoreOther(c, claims, claims0, shown.value, k); }
      CoverGrows(
        Claims.OthersClaimed(c, claims, claims0, k), Heard(x, r.before, r0, g), k,
        Claims.OthersClaimed(c, Seen(x, r, g), claims0, k), if r.last.Inbound? then {Fields(x, r.last.e, g)} else {});
    } else {
      hide Seen;
    }
  }

  lemma OneMoreOther(c: Config, r: Run<Claims.Op>, r0: Run<Claims.Op>, op: Claims.Op, k: string)
    requires Extends(r, r0)
    ensures Extends(Then(r, op), r0)
    ensures forall key | key in Claims.OthersClaimed(c, Then(r, op), r0, k) ::
              || key in Claims.OthersClaimed(c, r, r0, k)
              || (op.TryClaim? && key == op.key && key != k)
  {
    ExtendsIsLonger(r, r0);
    hide Claims.TryClaimed;
  }

  lemma ShownIsHeard(x: Settings, s: Core, op: Op, g: GateName)
    ensures var shown := GateOp(x, s, op, g);
            shown.Some? && shown.value.TryClaim? ==>
              op.Inbound? && shown.value.key == Claims.ClaimKey(Fields(x, op.e, g))
    ensures GateOp(x, s, op, g).Some? && GateOp(x, s, op, g).value.Release? ==> !op.Inbound?
  {
    hide Evaluate, Claims.ClaimKey;
  }

  lemma {:induction false} KeysAreFewer(keys: set<string>, fields: set<seq<string>>)
    requires forall key | key in keys :: exists f :: f in fields && key == Claims.ClaimKey(f)
    ensures |keys| <= |fields|
    decreases |fields|
  {
    hide Claims.ClaimKey;
    if keys != {} {
      var key :| key in keys;
      var f :| f in fields && key == Claims.ClaimKey(f);
      forall other | other in keys - {key} ensures exists g :: g in fields - {f} && other == Claims.ClaimKey(g) {
        var g :| g in fields && other == Claims.ClaimKey(g);
        assert g in fields - {f};
      }
      KeysAreFewer(keys - {key}, fields - {f});
    }
  }

  /** Two replies to events that are one to a gate, less than the gate's TTL apart, need as many
      other things shown to the gate in between as it can hold. At the incoming gate that is as
      long as the claim was not released. */
  lemma AnsweredAgainNeedsOthers(
      x: Settings, first: Run<Op>, e: Event, j: string, second: Run<Op>, e': Event, j': string,
      t: int, now: int, g: GateName)
    requires x.Valid() && InOrder(second, now) && now < t + Limit(x, g).ttlMs
    requires Sends(x, first, e, j, t) && Sends(x, second, e', j', now) && Extends(second.before, first)
    requires Fields(x, e, g) == Fields(x, e', g)
    requires g.IncomingGate? ==> NeverReleased(second.before, first, e)
    ensures |Heard(x, second.before, first, g) - {Fields(x, e, g)}| >= Limit(x, g).maxEntries
  {
    assert second.Then?;
    hide Claims.ClaimKey, Heard, Claims.OthersClaimed, NeverReleased, Sends;
    SentMatches(x, first, e, j, t);
    SentMatches(x, second, e', j', now);
    var k := Claims.ClaimKey(Fields(x, e, g));
    OneSendAGateKey(x, first, e, j, second, e', j', t, now, g);
    OthersWereHeard(x, second.before, first, g, k);
    var others := Claims.OthersClaimed(GateConfig(x, g), Seen(x, second.before, g), Seen(x, first, g), k);
    forall key | key in others
      ensures exists f :: f in Heard(x, second.before, first, g) - {Fields(x, e, g)} && key == Claims.ClaimKey(f)
    {
      var f :| f in Heard(x, second.before, first, g) && key == Claims.ClaimKey(f);
      assert f != Fields(x, e, g);
    }
    KeysAreFewer(others, Heard(x, second.before, first, g) - {Fields(x, e, g)});
  }

  lemma SentMatches(x: Settings, r: Run<Op>, e: Event, j: string, at: int)
    requires Sends(x, r, e, j, at)
    ensures x.matching(e.text).Some?
  {
    hide Claims.TryClaimed, RateLimit.Admitted, Touch, Jobs.Begun, Jobs.IsTerminal, After;
  }

  /** So one message in one room is answered once for its owner within the room TTL, whatever the
      bots, rules and jobs, unless as many other messages as the gate holds were heard. */
  lemma OneAnswerAMessage(
      x: Settings, first: Run<Op>, e: Event, j: string, second: Run<Op>, e': Event, j': string, t: int, now: int)
    requires x.Valid() && InOrder(second, now) && now < t + x.roomAnswer.ttlMs
    requires Sends(x, first, e, j, t) && Sends(x, second, e', j', now) && Extends(second.before, first)
    requires e.owner == e'.owner && e.room == e'.room && e.message == e'.message
    ensures |Heard(x, second.before, first, RoomGate) - {[e.owner, e.room, e.message]}| >= x.roomAnswer.maxEntries
  {
    hide Heard, Sends;
    AnsweredAgainNeedsOthers(x, first, e, j, second, e', j', t, now, RoomGate);
  }

  // ------------------------------------------------------------ which gate stops an event

  /** The store holds an unexpired claim on these fields. */
  ghost predicate Held(s: Claims.Claimed, fields: seq<string>, now: int) {
    Live(s, Claims.ClaimKey(fields), now).Some?
  }

  /** The tokens the bot has for the room by now. */
  ghost function Tokens(x: Settings, s: Core, e: Event, now: int): real {
    match Live(s.buckets, Claims.ClaimKey([e.bot, e.room]), now)
    case None => x.limits.capacity as real
    case Some(b) =>
      var waited := if now < b.lastRefillMs then 0.0 else (now - b.lastRefillMs) as real;
      var tokens := b.tokens + waited * x.limits.refillPerMs;
      if tokens > x.limits.capacity as real then x.limits.capacity as real else tokens
  }

  ghost function JobState(s: Core, e: Event, rule: Rule, now: int): Option<Jobs.State> {
    match Live(s.jobs, JobKey(e, rule.id), now) case None => None case Some(r) => Some(r.state)
  }

  /** Where the event ends: the first gate that objects, in this order. */
  ghost function Ending(x: Settings, s: Core, e: Event, now: int): Verdict {
    if !x.allows(e.owner, e.sender) then Stopped(SenderNotAllowed)
    else if Held(s.incoming, [e.bot, e.surface, e.message], now) then Stopped(DedupedIncoming)
    else match x.matching(e.text)
      case None => Stopped(NoRule)
      case Some(rule) =>
        var job := JobState(s, e, rule, now);
        if job in {Some(Jobs.Won), Some(Jobs.Lost), Some(Jobs.Unknown)} then Stopped(JobTerminal)
        else if Held(s.reply, [e.bot, e.room, rule.id, e.message], now) then Stopped(DedupedReply)
        else if Held(s.roomAnswer, [e.owner, e.room, e.message], now) then Stopped(DedupedRoom)
        else if Tokens(x, s, e, now) < 1.0 then Stopped(RateLimited)
        else if job == Some(Jobs.Dispatched) then Rejected(Jobs.Illegal(Jobs.Dispatched, Jobs.Eligible))
        else Sent(JobKey(e, rule.id), rule.reply)
  }

  lemma EventsEndThere(x: Settings, s: Core, e: Event, now: int)
    requires x.Valid()
    ensures Process(x, s, e, now).1 == Ending(x, s, e, now)
  {
    hide Process, Jobs.Begun, JobKey, Claims.ClaimKey, Put, Touch;
    GatesEndThere(x, s, e, now);
    var gate := Evaluate(x, s, e, now).1;
    hide Evaluate, Live;
    if gate.Pass? {
      PassedIsSentUnlessOver(x, s, e, now);
      JobWindow.RejectedIsNotSent(x, s, e, now);
      RefusalIs(x, s, e, now);
    } else {
      StoppedIs(x, s, e, now);
    }
  }

  lemma StoppedIs(x: Settings, s: Core, e: Event, now: int)
    ensures var gate := Evaluate(x, s, e, now).1;
            gate.Stop? ==> Process(x, s, e, now) == (Evaluate(x, s, e, now).0, Stopped(gate.outcome))
  {
    hide Evaluate;
  }

  lemma RefusalIs(x: Settings, s: Core, e: Event, now: int)
    requires x.Valid() && Evaluate(x, s, e, now).1.Pass?
    ensures var gate, v := Evaluate(x, s, e, now).1, Process(x, s, e, now).1;
            && (v.Sent? ==> v.jobKey == gate.jobKey && v.reply == gate.rule.reply)
            && (v.Rejected? ==>
                  && Live(s.jobs, gate.jobKey, now).Some?
                  && v.because == Jobs.Illegal(Live(s.jobs, gate.jobKey, now).value.state, Jobs.Eligible))
  {
    var (s', gate) := Evaluate(x, s, e, now);
    PassTouchesTheJob(x, s, e, now);
    TouchKeepsLive(s.jobs, gate.jobKey, now);
    hide Evaluate, Live, Touch, Jobs.Moved;
    Jobs.BeginSucceedsUnlessOver(x.jobs, s'.jobs, gate.jobKey, now);
    if Live(s'.jobs, gate.jobKey, now).Some? && Jobs.Over(Live(s'.jobs, gate.jobKey, now).value.state) {
      Jobs.OverCannotBegin(x.jobs, s'.jobs, gate.jobKey, now);
    }
    hide Jobs.Begun;
  }

  lemma GatesEndThere(x: Settings, s: Core, e: Event, now: int)
    ensures match Evaluate(x, s, e, now).1
            case Stop(why) => Ending(x, s, e, now) == Stopped(why)
            case Pass(rule, key) =>
              && x.matching(e.text) == Some(rule) && key == JobKey(e, rule.id)
              && !(Live(s.jobs, key, now).Some? && Live(s.jobs, key, now).value.state.Terminal())
              && Ending(x, s, e, now)
                 == if JobState(s, e, rule, now) == Some(Jobs.Dispatched)
                    then Rejected(Jobs.Illegal(Jobs.Dispatched, Jobs.Eligible)) else Sent(key, rule.reply)
  {
    hide JobKey, Claims.ClaimKey, Put, Touch, Live;
  }

  /** What a call leaves: an event claims at each gate it gets to, whether it ends there or later,
      and leaves everything behind the gate it ends at alone. */
  lemma GatesBehindAreUntouched(x: Settings, s: Core, e: Event, now: int)
    requires x.Valid()
    ensures var (s', v) := Process(x, s, e, now);
            && (v == Stopped(SenderNotAllowed) ==> s' == s)
            && (v in {Stopped(DedupedIncoming), Stopped(NoRule)} ==> s' == s.(incoming := s'.incoming))
            && (v == Stopped(JobTerminal) ==> s' == s.(incoming := s'.incoming, jobs := s'.jobs))
            && (v == Stopped(DedupedReply) ==> s'.roomAnswer == s.roomAnswer && s'.buckets == s.buckets)
            && (v == Stopped(DedupedRoom) ==> s'.buckets == s.buckets)
            && (v != Stopped(SenderNotAllowed) ==> Held(s'.incoming, [e.bot, e.surface, e.message], now))
            && (v in {Stopped(DedupedReply), Stopped(DedupedRoom), Stopped(RateLimited)} || !v.Stopped? ==>
                  && x.matching(e.text).Some?
                  && Held(s'.reply, [e.bot, e.room, x.matching(e.text).value.id, e.message], now))
            && (v in {Stopped(DedupedRoom), Stopped(RateLimited)} || !v.Stopped? ==>
                  Held(s'.roomAnswer, [e.owner, e.room, e.message], now))
  {
    hide Claims.ClaimKey, Evaluate, Jobs.Begun;
    EvaluateStopsThere(x, s, e, now);
    EvaluateClaims(x, s, e, now);
  }

  lemma EvaluateStopsThere(x: Settings, s: Core, e: Event, now: int)
    ensures var (s', gate) := Evaluate(x, s, e, now);
            && (gate == Stop(SenderNotAllowed) ==> s' == s)
            && (gate in {Stop(DedupedIncoming), Stop(NoRule)} ==> s' == s.(incoming := s'.incoming))
            && (gate == Stop(JobTerminal) ==> s' == s.(incoming := s'.incoming, jobs := s'.jobs))
            && (gate == Stop(DedupedReply) ==> s'.roomAnswer == s.roomAnswer && s'.buckets == s.buckets)
            && (gate == Stop(DedupedRoom) ==> s'.buckets == s.buckets)
  {
    hide Claims.TryClaimed, Claims.ClaimKey, JobKey, RateLimit.Admitted, Touch, Jobs.IsTerminal;
  }

  lemma EvaluateClaims(x: Settings, s: Core, e: Event, now: int)
    requires x.Valid()
    ensures var (s', gate) := Evaluate(x, s, e, now);
            && (gate != Stop(SenderNotAllowed) ==> Held(s'.incoming, [e.bot, e.surface, e.message], now))
            && (gate in {Stop(DedupedReply), Stop(DedupedRoom), Stop(RateLimited)} || gate.Pass? ==>
                  && x.matching(e.text).Some?
                  && Held(s'.reply, [e.bot, e.room, x.matching(e.text).value.id, e.message], now))
            && (gate in {Stop(DedupedRoom), Stop(RateLimited)} || gate.Pass? ==>
                  Held(s'.roomAnswer, [e.owner, e.room, e.message], now))
  {
    hide Claims.TryClaimed, Claims.ClaimKey, JobKey, RateLimit.Admitted, Touch, Jobs.IsTerminal, Live;
    ClaimHolds(x.incoming, s.incoming, IncomingKey(e), now);
    ClaimHolds(x.roomAnswer, s.roomAnswer, RoomKey(e), now);
    if x.matching(e.text).Some? { ClaimHolds(x.reply, s.reply, ReplyKey(e, x.matching(e.text).value.id), now); }
  }

  lemma ClaimHolds(c: Config, t: Claims.Claimed, k: string, now: int)
    requires c.Valid()
    ensures Live(Claims.TryClaimed(c, t, k, now).0, k, now).Some?
  {
    hide Put;
    WriteIsNewest(c, Touch(t, k, now), k, true, now);
  }

  // ------------------------------------------------------------ sibling bots

  /** Two bots of one owner hear the same message in one room, and both could answer it. */
  ghost predicate HeardTwice(x: Settings, e: Event, e': Event) {
    && x.Valid() && x.allows(e.owner, e.sender) && x.allows(e'.owner, e'.sender)
    && x.matching(e.text).Some? && x.matching(e'.text).Some?
    && Plain(e) && Plain(e')
    && Claims.NulFree([x.matching(e.text).value.id, x.matching(e'.text).value.id])
    && e.owner == e'.owner && e.room == e'.room && e.message == e'.message && e.bot != e'.bot
  }

  /** The first bot answers. The room gate stops the second, whatever its surface and rule and with
      a job id or without, and the second bot's tokens are not spent. */
  lemma SiblingIsStopped(x: Settings, e: Event, e': Event, t: int)
    requires HeardTwice(x, e, e')
    ensures var first := Then(Start, Inbound(e, t));
            && Process(x, After(x, Start), e, t).1.Sent?
            && Process(x, After(x, first), e', t).1 == Stopped(DedupedRoom)
            && Process(x, After(x, first), e', t).0.buckets == After(x, first).buckets
  {
    hide Process, Live, Claims.ClaimKey, JobKey;
    var first := Then(Start, Inbound(e, t));
    assert After(x, Start) == Core([], [], [], [], []);
    JobWindow.FirstIsSent(x, e, t);
    assert After(x, first) == JobWindow.AfterFirst(x, e, t);
    SiblingFinds(x, e, e', t);
    EventsEndThere(x, After(x, first), e', t);
    GatesBehindAreUntouched(x, After(x, first), e', t);
  }

  /** What the second event finds: the message is new to its bot, and its job is not over; but the room
      has been answered. */
  lemma SiblingFinds(x: Settings, e: Event, e': Event, t: int)
    requires HeardTwice(x, e, e')
    ensures var s, rule := JobWindow.AfterFirst(x, e, t), x.matching(e'.text).value;
            && !Held(s.incoming, [e'.bot, e'.surface, e'.message], t)
            && !Held(s.reply, [e'.bot, e'.room, rule.id, e'.message], t)
            && Held(s.roomAnswer, [e'.owner, e'.room, e'.message], t)
            && JobState(s, e', rule, t) in {None, Some(Jobs.Dispatched)}
  {
    var rule, rule' := x.matching(e.text).value.id, x.matching(e'.text).value.id;
    hide Claims.ClaimKey, JobKey;
    SameIncomingIff(e, e');
    SameReplyIff(e, rule, e', rule');
    SameRoomIff(e, e');
    hide Plain;
  }
}
