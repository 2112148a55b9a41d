/** How long a job key keeps its job from being answered again: exactly until enough other
    jobs were recorded, or the TTL. */
module JobWindow {
  import opened Wrappers
  import opened TtlMap
  import opened Runs
  import opened Pipeline
  import opened Dispatch
  import Claims
  import Jobs
  import RateLimit

  /** `k` was begun, and since then exactly the jobs of `others` were recorded. */
  ghost predicate HeldJob(c: Config, s: Jobs.Records, k: string, deadline: int, others: set<string>) {
    && HoldsExactly(c, s, k, deadline, others)
    && (k in Keys(s) ==> Jobs.Over(Find(s, k).value.value.state))
  }

  lemma PutKeepsHeld(
      c: Config, s: Jobs.Records, o: string, r: Jobs.Record, now: int, k: string, deadline: int, others: set<string>)
    requires c.Valid() && Sound(c, s, now) && o != k && HeldJob(c, s, k, deadline, others)
    ensures HeldJob(c, Put(c, s, o, r, now), k, deadline, others + {o})
    ensures Sound(c, Put(c, s, o, r, now), now)
    ensures Find(Put(c, s, o, r, now), o) == Some(Entry(o, r, now + c.ttlMs))
  {
    Jobs.SoundBasics(c, s, now);
    hide Put, Keys, Sound, Find, HoldsExactly;
    OtherWriteHoldsExactly(c, s, o, r, now, k, deadline, others);
    PutAddsOneKey(c, s, o, r, now);
    PutKeepsSound(c, s, o, r, now, now);
    WriteIsNewest(c, s, o, r, now);
  }

  lemma TouchKeepsHeld(c: Config, s: Jobs.Records, o: string, now: int, k: string, deadline: int, others: set<string>)
    requires Sound(c, s, now) && now < deadline && HeldJob(c, s, k, deadline, others)
    ensures HeldJob(c, Touch(s, o, now), k, deadline, others) && Sound(c, Touch(s, o, now), now)
  {
    hide Touch, Sound, Keys, HoldsExactly;
    OtherReadHoldsExactly(c, s, o, now, k, deadline, others);
    RemovalsKeepSound(c, s, o, now, now);
  }

  /** The record of `o` was written at `now`, with a state it did not have. */
  ghost predicate Written(c: Config, s: Jobs.Records, s': Jobs.Records, o: string, now: int) {
    && Find(s', o).Some? && Find(s', o).value.expiresAt == now + c.ttlMs
    && (Live(s, o, now).Some? ==> Find(s', o).value.value.state != Live(s, o, now).value.state)
  }

  lemma WrittenIsNew(c: Config, s: Jobs.Records, s': Jobs.Records, o: string, now: int)
    requires c.Valid() && Written(c, s, s', o, now)
    ensures s' !in {s, Touch(s, o, now)}
  {
    Dispatch.TouchKeepsLive(s, o, now);
    hide Touch;
  }

  lemma EnsuredKeepsHeld(c: Config, s: Jobs.Records, o: string, now: int, k: string, deadline: int, others: set<string>)
    requires c.Valid() && Sound(c, s, now) && now < deadline && o != k && HeldJob(c, s, k, deadline, others)
    requires Live(s, o, now).None?
    ensures var (s', r) := Jobs.Ensured(c, s, o, now);
            && HeldJob(c, s', k, deadline, others + {o}) && Sound(c, s', now)
            && Find(s', o) == Some(Entry(o, r, now + c.ttlMs)) && r.state == Jobs.Waiting
  {
    hide Sound, Put, Touch, Live, HeldJob, Find;
    TouchKeepsHeld(c, s, o, now, k, deadline, others);
    PutKeepsHeld(c, Touch(s, o, now), o, Jobs.Record(o, Jobs.Waiting, now, now), now, k, deadline, others);
  }

  /** Moving another job leaves the store alone, or records that job. */
  lemma MovedKeepsHeld(
      c: Config, s: Jobs.Records, o: string, to: Jobs.State, now: int, k: string, deadline: int, others: set<string>)
    requires c.Valid() && Sound(c, s, now) && now < deadline && o != k && HeldJob(c, s, k, deadline, others)
    ensures var s' := Jobs.Moved(c, s, o, to, now).0;
            && Sound(c, s', now)
            && (|| (s' == s && HeldJob(c, s', k, deadline, others))
                || (HeldJob(c, s', k, deadline, others + {o}) && Written(c, s, s', o, now)))
  {
    hide Sound, Put, Touch, Live, HeldJob, Find, Jobs.Ensured;
    var (s1, current) := Jobs.Ensured(c, s, o, now);
    var next := current.(state := to, updatedAt := now);
    assert others + {o} + {o} == others + {o};
    if Live(s, o, now).None? {
      EnsuredKeepsHeld(c, s, o, now, k, deadline, others);
      PutKeepsHeld(c, s1, o, next, now, k, deadline, others + {o});
    } else {
      LiveIsEnsured(c, s, o, now);
      PutKeepsHeld(c, s, o, next, now, k, deadline, others);
    }
  }

  lemma LiveIsEnsured(c: Config, s: Jobs.Records, o: string, now: int)
    requires Live(s, o, now).Some?
    ensures Jobs.Ensured(c, s, o, now) == (s, Live(s, o, now).value)
  {
  }

  /** Beginning another job does nothing, or records that job. */
  lemma BegunKeepsHeld(c: Config, s: Jobs.Records, o: string, now: int, k: string, deadline: int, others: set<string>)
    requires c.Valid() && Sound(c, s, now) && now < deadline && o != k && HeldJob(c, s, k, deadline, others)
    ensures var (s', refused) := Jobs.Begun(c, s, o, now);
            if refused.Some? then s' == s
            else HeldJob(c, s', k, deadline, others + {o}) && Written(c, s, s', o, now)
  {
    Jobs.BeginSucceedsUnlessOver(c, s, o, now);
    if Live(s, o, now).Some? && Jobs.Over(Live(s, o, now).value.state) {
      Jobs.OverCannotBegin(c, s, o, now);
    } else {
      hide HeldJob, Sound, Jobs.Moved, Live, Find;
      var s1 := Jobs.Moved(c, s, o, Jobs.Eligible, now).0;
      MovedKeepsHeld(c, s, o, Jobs.Eligible, now, k, deadline, others);
      Jobs.EligibleIsLive(c, s, o, now);
      assert others + {o} + {o} == others + {o};
      if s1 == s {
        MovedKeepsHeld(c, s1, o, Jobs.Dispatched, now, k, deadline, others);
      } else {
        MovedKeepsHeld(c, s1, o, Jobs.Dispatched, now, k, deadline, others + {o});
      }
      DispatchedIsWritten(c, s, s1, o, now);
    }
  }

  lemma DispatchedIsWritten(c: Config, s: Jobs.Records, s1: Jobs.Records, o: string, now: int)
    requires c.Valid() && Live(s1, o, now).Some? && Live(s1, o, now).value.state == Jobs.Eligible
    requires Live(s, o, now).Some? ==> !Jobs.Over(Live(s, o, now).value.state)
    ensures var s' := Jobs.Moved(c, s1, o, Jobs.Dispatched, now).0;
            Written(c, s, s', o, now) && s' != s1
  {
    hide Put, Touch;
    var r := Live(s1, o, now).value;
    WriteIsNewest(c, s1, o, r.(state := Jobs.Dispatched, updatedAt := now), now);
  }

  /** What one step of the core does to a held job, unless it settles or sends that job. */
  lemma ActKeepsHeld(c: Config, s: Jobs.Records, a: JobAction, at: int, k: string, deadline: int, others: set<string>)
    requires c.Valid() && Sound(c, s, at) && at < deadline && HeldJob(c, s, k, deadline, others)
    requires a.Finish? ==> a.key != k
    requires a == Begin(k) ==> Jobs.Begun(c, Touch(s, k, at), k, at).1.Some?
    ensures var s' := Acted(c, s, a, at);
            var more :=
              if (a.Begin? || a.Finish?) && a.key != k && s' !in {s, Touch(s, a.key, at)} then {a.key} else {};
            HeldJob(c, s', k, deadline, others + more)
  {
    assert others + {} == others;
    hide Sound, HeldJob, Touch, Jobs.Begun, Jobs.Moved, Written;
    match a {
      case Nothing =>
      case Look(key) => TouchKeepsHeld(c, s, key, at, k, deadline, others);
      case Begin(key) =>
        TouchKeepsHeld(c, s, key, at, k, deadline, others);
        if key == k {
          RefusedChangesNothing(c, Touch(s, k, at), k, at);
        } else {
          BegunKeepsHeld(c, Touch(s, key, at), key, at, k, deadline, others);
          if Jobs.Begun(c, Touch(s, key, at), key, at).1.None? {
            TouchedIsWritten(c, s, Jobs.Begun(c, Touch(s, key, at), key, at).0, key, at);
          }
        }
      case Finish(key, outcome) =>
        MovedKeepsHeld(c, s, key, outcome, at, k, deadline, others);
        if Written(c, s, Jobs.Moved(c, s, key, outcome, at).0, key, at) {
          WrittenIsNew(c, s, Jobs.Moved(c, s, key, outcome, at).0, key, at);
        }
    }
  }

  lemma RefusedChangesNothing(c: Config, s: Jobs.Records, k: string, at: int)
    requires c.Valid() && Jobs.Begun(c, s, k, at).1.Some?
    ensures Jobs.Begun(c, s, k, at).0 == s
  {
    Jobs.BeginSucceedsUnlessOver(c, s, k, at);
    hide Jobs.Begun;
    Jobs.OverCannotBegin(c, s, k, at);
  }

  lemma TouchedIsWritten(c: Config, s: Jobs.Records, s': Jobs.Records, o: string, at: int)
    requires c.Valid() && Written(c, Touch(s, o, at), s', o, at)
    ensures s' !in {s, Touch(s, o, at)}
  {
    Dispatch.TouchKeepsLive(s, o, at);
    hide Touch;
    WrittenIsNew(c, s, s', o, at);
  }

  // ------------------------------------------------------------ over a run

  /** Since `r0` the job `k` was neither settled nor answered again. */
  ghost predicate LeftAlone(x: Settings, r: Run<Op>, r0: Run<Op>, k: string)
    requires Extends(r, r0)
  {
    || r == r0
    || (&& LeftAlone(x, r.before, r0, k)
        && match r.last
           case Inbound(e, at) =>
             var verdict := Process(x, After(x, r.before), e, at).1;
             verdict.Sent? ==> verdict.jobKey != k
           case Settle(key, _, _) => key != k
           case ReleaseIncoming(_, _) => true)
  }

  lemma {:induction false} JobIsHeld(x: Settings, r0: Run<Op>, e: Event, k: string, t: int, r: Run<Op>, now: int)
    requires x.Valid() && InOrder(r, now) && Extends(r, r0) && now < t + x.jobs.ttlMs
    requires Sends(x, r0, e, k, t) && LeftAlone(x, r, r0, k)
    ensures HeldJob(x.jobs, After(x, r).jobs, k, t + x.jobs.ttlMs, OtherJobs(x, r, r0, k))
    decreases r
  {
    if r == r0 { assert r.Then?; }
    hide HeldJob, Sound, Step, Acted, JobActionOf, Process, Touch, Sends;
    var s, op := After(x, r.before), r.last;
    StepActs(x, s, op);
    if r == r0 {
      SentIsHeld(x, r0, e, k, t);
    } else {
      var others := OtherJobs(x, r.before, r0, k);
      JobIsHeld(x, r0, e, k, t, r.before, op.at);
      JobStoreIsSound(x, r.before, op.at);
      UnsentIsRefused(x, s, op, k);
      ActKeepsHeld(x.jobs, s.jobs, JobActionOf(x, s, op), op.at, k, t + x.jobs.ttlMs, others);
    }
  }

  lemma SentIsHeld(x: Settings, r0: Run<Op>, e: Event, k: string, t: int)
    requires x.Valid() && Sends(x, r0, e, k, t)
    ensures HeldJob(x.jobs, After(x, r0).jobs, k, t + x.jobs.ttlMs, {})
  {
    var s := After(x, r0.before);
    assert After(x, r0) == Step(x, s, Inbound(e, t));
    hide After, Step, Process, Jobs.Begun, Touch, HeldJob, JobActionOf, Evaluate;
    SendBegins(x, s, e, t);
    StepActs(x, s, r0.last);
    BegunIsHeld(x.jobs, Touch(s.jobs, k, t), k, t);
  }

  lemma BegunIsHeld(c: Config, s: Jobs.Records, k: string, now: int)
    requires c.Valid() && Jobs.Begun(c, s, k, now).1.None?
    ensures HeldJob(c, Jobs.Begun(c, s, k, now).0, k, now + c.ttlMs, {})
  {
    hide Put;
    var s1 := Jobs.Moved(c, s, k, Jobs.Eligible, now).0;
    Jobs.EligibleIsLive(c, s, k, now);
    var r := Live(s1, k, now).value.(state := Jobs.Dispatched, updatedAt := now);
    WriteIsHeldExactly(c, s1, k, r, now);
    WriteIsNewest(c, s1, k, r, now);
    hide HoldsExactly;
  }

  lemma UnsentIsRefused(x: Settings, s: Core, op: Op, k: string)
    requires op.Inbound? && Process(x, s, op.e, op.at).1.Sent? ==> Process(x, s, op.e, op.at).1.jobKey != k
    ensures JobActionOf(x, s, op) == Begin(k) ==> Jobs.Begun(x.jobs, Touch(s.jobs, k, op.at), k, op.at).1.Some?
    ensures op.Settle? ==> JobActionOf(x, s, op) == Finish(op.jobKey, op.outcome)
    ensures !op.Settle? ==> !JobActionOf(x, s, op).Finish?
  {
    hide Claims.TryClaimed, RateLimit.Admitted, Touch, Jobs.Begun, Jobs.IsTerminal;
  }

  /** The job window is exact. A job answered at `t`, and since then neither settled nor
      answered again, is answered to another event that clears the gates within the TTL if
      and only if `maxEntries` other jobs have been recorded meanwhile. Otherwise the call
      rejects. */
  lemma JobWindowIsExact(
      x: Settings, first: Run<Op>, e: Event, r: Run<Op>, e': Event, k: string, t: int, now: int)
    requires x.Valid() && InOrder(r, now) && Extends(r, first) && now < t + x.jobs.ttlMs
    requires Sends(x, first, e, k, t) && LeftAlone(x, r, first, k)
    requires Evaluate(x, After(x, r), e', now).1.Pass? && Evaluate(x, After(x, r), e', now).1.jobKey == k
    ensures Sends(x, Then(r, Inbound(e', now)), e', k, now) <==> |OtherJobs(x, r, first, k)| >= x.jobs.maxEntries
    ensures !Sends(x, Then(r, Inbound(e', now)), e', k, now) <==> Process(x, After(x, r), e', now).1.Rejected?
  {
    JobIsHeld(x, first, e, k, t, r, now);
    HeldIsOver(x.jobs, After(x, r).jobs, k, t + x.jobs.ttlMs, OtherJobs(x, r, first, k), now);
    hide HeldJob, LeftAlone, OtherJobs, Evaluate, Live;
    PassedIsSentUnlessOver(x, After(x, r), e', now);
  }

  lemma HeldIsOver(c: Config, s: Jobs.Records, k: string, deadline: int, others: set<string>, now: int)
    requires HeldJob(c, s, k, deadline, others) && now < deadline
    ensures |others| < c.maxEntries <==> Live(s, k, now).Some? && Jobs.Over(Live(s, k, now).value.state)
  {
  }

  /** What becomes of a repeat, settled or not. While fewer other jobs were recorded, no event
      under a sent job's key is sent within the TTL. If an outcome was reported since the
      send, the event passes no further than the job gate, which stops it, so the call
      resolves. If none was, the job gate lets it through, and an event that clears the
      other gates as well makes the call reject. */
  lemma RepeatResolvesIffSettled(
      x: Settings, first: Run<Op>, e: Event, r: Run<Op>, e': Event, k: string, t: int, now: int)
    requires x.Valid() && InOrder(r, now) && Extends(r, first) && now < t + x.jobs.ttlMs
    requires Sends(x, first, e, k, t) && |OtherJobs(x, r, first, k)| < x.jobs.maxEntries
    requires x.matching(e'.text).Some? && JobKey(e', x.matching(e'.text).value.id) == k
    ensures var gate, verdict := Evaluate(x, After(x, r), e', now).1, Process(x, After(x, r), e', now).1;
            && !verdict.Sent?
            && (ReachesJobGate(x, After(x, r), e', now) ==> (gate == Stop(JobTerminal) <==> SettledSince(r, first, k)))
            && (SettledSince(r, first, k) ==>
                  && gate in {Stop(SenderNotAllowed), Stop(DedupedIncoming), Stop(JobTerminal)}
                  && verdict == Stopped(gate.outcome))
            && (verdict.Rejected? <==> gate.Pass?)
            && (verdict.Rejected? ==> !SettledSince(r, first, k))
  {
    var s, others, settled := After(x, r), OtherJobs(x, r, first, k), SettledSince(r, first, k);
    JobIsTracked(x, first, e, k, t, r, now);
    Jobs.TrackedIsOver(x.jobs, s.jobs, k, t + x.jobs.ttlMs, others, now, settled);
    hide Jobs.Tracks, OtherJobs, Live, After, Sends, SettledSince;
    TerminalStops(x, s, e', now);
    if Evaluate(x, s, e', now).1.Pass? {
      PassedIsSentUnlessOver(x, s, e', now);
      RejectedIsNotSent(x, s, e', now);
    }
  }

  lemma RejectedIsNotSent(x: Settings, s: Core, e: Event, t: int)
    requires Evaluate(x, s, e, t).1.Pass?
    ensures Process(x, s, e, t).1.Sent? || Process(x, s, e, t).1.Rejected?
  {
    hide Evaluate, Jobs.Begun;
  }

  /** The event comes from someone who may ask, has not been seen before, and matches. */
  ghost predicate ReachesJobGate(x: Settings, s: Core, e: Event, now: int) {
    && x.allows(e.owner, e.sender) && x.matching(e.text).Some?
    && Claims.TryClaimed(x.incoming, s.incoming, IncomingKey(e), now).1
  }

  lemma TerminalStops(x: Settings, s: Core, e: Event, now: int)
    requires x.matching(e.text).Some?
    ensures var gate, k := Evaluate(x, s, e, now).1, JobKey(e, x.matching(e.text).value.id);
            && (gate == Stop(JobTerminal) ==> Jobs.IsTerminal(s.jobs, k, now))
            && (gate.Pass? ==> gate.jobKey == k && ReachesJobGate(x, s, e, now))
            && (Jobs.IsTerminal(s.jobs, k, now) ==>
                  gate == Stop(if !x.allows(e.owner, e.sender) then SenderNotAllowed
                               else if !ReachesJobGate(x, s, e, now) then DedupedIncoming else JobTerminal))
  {
    hide Claims.TryClaimed, RateLimit.Admitted, Touch, Jobs.IsTerminal;
  }

  // ------------------------------------------------------------ a repeat that rejects

  /** Two messages of a game that carry the same job id, in a room where nothing stops
      either. The second is not the first redelivered, which the incoming gate would stop. */
  ghost predicate SameJobTwice(x: Settings, e: Event, e': Event) {
    && x.Valid() && x.limits.capacity >= 2
    && x.allows(e.owner, e.sender) && x.allows(e'.owner, e'.sender)
    && x.matching(e.text).Some? && x.matching(e'.text).Some?
    && e.explicitJobId.Some? && |Jobs.Trimmed(e.explicitJobId.value)| > 0 && e'.explicitJobId == e.explicitJobId
    && e.message != e'.message
    && Claims.NulFree([e.owner, e.bot, e.surface, e.room, e.message, x.matching(e.text).value.id])
    && Claims.NulFree([e'.owner, e'.bot, e'.surface, e'.room, e'.message, x.matching(e'.text).value.id])
  }

  /** The stores after one event was answered in a new core. */
  ghost function AfterFirst(x: Settings, e: Event, t: int): Core
    requires x.matching(e.text).Some?
  {
    var rule := x.matching(e.text).value.id;
    var k := JobKey(e, rule);
    Core(
      [Entry(IncomingKey(e), true, t + x.incoming.ttlMs)],
      [Entry(ReplyKey(e, rule), true, t + x.reply.ttlMs)],
      [Entry(RoomKey(e), true, t + x.roomAnswer.ttlMs)],
      [Entry(k, Jobs.Record(k, Jobs.Dispatched, t, t), t + x.jobs.ttlMs)],
      [Entry(BucketKey(e), RateLimit.Bucket(x.limits.capacity as real - 1.0, t), t + x.limits.rooms.ttlMs)])
  }

  lemma PutFirst<V>(c: Config, k: string, v: V, now: int)
    requires c.Valid()
    ensures Put(c, [], k, v, now) == [Entry(k, v, now + c.ttlMs)]
  {
    assert [] + [Entry(k, v, now + c.ttlMs)] == [Entry(k, v, now + c.ttlMs)];
  }

  lemma PutSame<V>(c: Config, k: string, u: V, v: V, now: int)
    requires c.Valid()
    ensures Put(c, [Entry(k, u, now + c.ttlMs)], k, v, now) == [Entry(k, v, now + c.ttlMs)]
    ensures Live([Entry(k, u, now + c.ttlMs)], k, now) == Some(u)
  {
    assert Without([Entry(k, u, now + c.ttlMs)], k) == [];
    PutFirst(c, k, v, now);
  }

  lemma ClaimFirst(c: Config, k: string, now: int)
    requires c.Valid()
    ensures Claims.TryClaimed(c, [], k, now) == ([Entry(k, true, now + c.ttlMs)], true)
  {
    PutFirst(c, k, true, now);
  }

  lemma BeginFirst(c: Config, k: string, now: int)
    requires c.Valid()
    ensures Jobs.Begun(c, [], k, now) == ([Entry(k, Jobs.Record(k, Jobs.Dispatched, now, now), now + c.ttlMs)], None)
  {
    var r := Jobs.Record(k, Jobs.Waiting, now, now);
    PutFirst(c, k, r, now);
    PutSame(c, k, r, r.(state := Jobs.Eligible), now);
    PutSame(c, k, r.(state := Jobs.Eligible), r.(state := Jobs.Dispatched), now);
    hide Put;
  }

  lemma AdmitFirst(l: RateLimit.Limits, k: string, now: int)
    requires l.Valid()
    ensures RateLimit.Admitted(l, [], k, now)
         == ([Entry(k, RateLimit.Bucket(l.capacity as real - 1.0, now), now + l.rooms.ttlMs)], true)
  {
    PutFirst(l.rooms, k, RateLimit.Bucket(l.capacity as real - 1.0, now), now);
    hide Put;
  }

  lemma FirstIsSent(x: Settings, e: Event, t: int)
    requires x.Valid() && x.allows(e.owner, e.sender) && x.matching(e.text).Some?
    ensures Process(x, Core([], [], [], [], []), e, t)
         == (AfterFirst(x, e, t), Sent(JobKey(e, x.matching(e.text).value.id), x.matching(e.text).value.reply))
  {
    var rule := x.matching(e.text).value.id;
    ClaimFirst(x.incoming, IncomingKey(e), t);
    ClaimFirst(x.reply, ReplyKey(e, rule), t);
    ClaimFirst(x.roomAnswer, RoomKey(e), t);
    BeginFirst(x.jobs, JobKey(e, rule), t);
    AdmitFirst(x.limits, BucketKey(e), t);
    hide Claims.TryClaimed, Jobs.Begun, RateLimit.Admitted, Claims.ClaimKey, Jobs.DeriveJobKey;
  }

  lemma ClaimOther(c: Config, k: string, o: string, t: int)
    requires c.Valid() && k != o
    ensures Claims.TryClaimed(c, [Entry(k, true, t + c.ttlMs)], o, t).1
  {
  }

  lemma AdmitSecond(l: RateLimit.Limits, k: string, o: string, t: int)
    requires l.Valid() && l.capacity >= 2
    ensures RateLimit.Admitted(l, [Entry(k, RateLimit.Bucket(l.capacity as real - 1.0, t), t + l.rooms.ttlMs)], o, t).1
  {
    RateLimit.Earnings(l, 0, 0);
    hide Put, Touch;
  }

  lemma SecondPasses(x: Settings, e: Event, e': Event, t: int)
    requires SameJobTwice(x, e, e')
    ensures Evaluate(x, AfterFirst(x, e, t), e', t).1
         == Pass(x.matching(e'.text).value, JobKey(e, x.matching(e.text).value.id))
  {
    var rule, rule' := x.matching(e.text).value.id, x.matching(e'.text).value.id;
    var k := JobKey(e, rule);
    KeysDiffer(x, e, e');
    ClaimOther(x.incoming, IncomingKey(e), IncomingKey(e'), t);
    ClaimOther(x.reply, ReplyKey(e, rule), ReplyKey(e', rule'), t);
    ClaimOther(x.roomAnswer, RoomKey(e), RoomKey(e'), t);
    AdmitSecond(x.limits, BucketKey(e), BucketKey(e'), t);
    SameKey(x, e, e');
    assert !Jobs.IsTerminal(AfterFirst(x, e, t).jobs, k, t);
    hide Claims.TryClaimed, RateLimit.Admitted, Claims.ClaimKey, Jobs.DeriveJobKey, Jobs.IsTerminal, Touch;
  }

  lemma KeysDiffer(x: Settings, e: Event, e': Event)
    requires SameJobTwice(x, e, e')
    ensures IncomingKey(e) != IncomingKey(e') && RoomKey(e) != RoomKey(e')
    ensures ReplyKey(e, x.matching(e.text).value.id) != ReplyKey(e', x.matching(e'.text).value.id)
  {
    hide Claims.ClaimKey;
    var rule, rule' := x.matching(e.text).value.id, x.matching(e'.text).value.id;
    PartsDiffer([e.bot, e.surface, e.message], [e'.bot, e'.surface, e'.message]);
    PartsDiffer([e.bot, e.room, rule, e.message], [e'.bot, e'.room, rule', e'.message]);
    PartsDiffer([e.owner, e.room, e.message], [e'.owner, e'.room, e'.message]);
  }

  lemma PartsDiffer(a: seq<string>, b: seq<string>)
    requires |a| > 0 && |b| > 0 && Claims.NulFree(a) && Claims.NulFree(b) && a[|a| - 1] != b[|b| - 1]
    ensures Claims.ClaimKey(a) != Claims.ClaimKey(b)
  {
    if Claims.ClaimKey(a) == Claims.ClaimKey(b) { Claims.ClaimKeyInjective(a, b); }
  }

  /** The input on which the registry does not resolve a repeat: two different messages with
      the same job id. The first is answered, and the call for the second rejects. */
  lemma SameJobIdRejects(x: Settings, e: Event, e': Event, t: int)
    requires SameJobTwice(x, e, e')
    ensures var first := Then(Start, Inbound(e, t));
            && Sends(x, first, e, JobKey(e, x.matching(e.text).value.id), t)
            && Process(x, After(x, first), e', t).1.Rejected?
  {
    var first := Then(Start, Inbound(e, t));
    var k := JobKey(e, x.matching(e.text).value.id);
    assert After(x, Start) == Core([], [], [], [], []);
    FirstIsSent(x, e, t);
    SecondPasses(x, e, e', t);
    assert After(x, first) == AfterFirst(x, e, t);
    hide SameJobTwice, Evaluate, Process, After;
    PassedIsSentUnlessOver(x, AfterFirst(x, e, t), e', t);
    RejectedIsNotSent(x, AfterFirst(x, e, t), e', t);
  }

  /** And once the first is settled, the same second message is stopped and its call resolves. */
  lemma SettledRepeatResolves(x: Settings, e: Event, e': Event, outcome: JobOutcome, t: int)
    requires SameJobTwice(x, e, e')
    ensures var k := JobKey(e, x.matching(e.text).value.id);
            var r := Then(Then(Start, Inbound(e, t)), Settle(k, outcome, t));
            Process(x, After(x, r), e', t).1 == Stopped(JobTerminal)
  {
    var k := JobKey(e, x.matching(e.text).value.id);
    var first := Then(Start, Inbound(e, t));
    var r := Then(first, Settle(k, outcome, t));
    SameJobIdRejects(x, e, e', t);
    SettledReachesGate(x, e, e', outcome, t);
    SameKey(x, e, e');
    hide Process, Evaluate, After, Sends, Jobs.DeriveJobKey, ReachesJobGate, JobsWritten;
    hide InOrder, SettledSince, OtherJobs, Extends, SameJobTwice;
    SettleFollows(x, e, k, outcome, t);
    RepeatResolvesIffSettled(x, first, e, r, e', k, t, t);
  }

  lemma SettleFollows(x: Settings, e: Event, k: string, outcome: JobOutcome, t: int)
    ensures var first := Then(Start, Inbound(e, t));
            var r := Then(first, Settle(k, outcome, t));
            && InOrder(r, t) && Extends(r, first) && SettledSince(r, first, k)
            && OtherJobs(x, r, first, k) == JobsWritten(x, After(x, first), r.last, k)
  {
    var first := Then(Start, Inbound(e, t));
    var r := Then(first, Settle(k, outcome, t));
    hide JobsWritten, After;
    assert InOrder(Start, t) && InOrder(first, t);
    assert Extends(first, first) && Length(r) == Length(first) + 1 && r != first;
    assert OtherJobs(x, first, first, k) == {};
  }

  lemma SameKey(x: Settings, e: Event, e': Event)
    requires SameJobTwice(x, e, e')
    ensures JobKey(e', x.matching(e'.text).value.id) == JobKey(e, x.matching(e.text).value.id)
  {
    hide Claims.NulFree;
  }

  lemma SettledReachesGate(x: Settings, e: Event, e': Event, outcome: JobOutcome, t: int)
    requires SameJobTwice(x, e, e')
    ensures var k := JobKey(e, x.matching(e.text).value.id);
            var first := Then(Start, Inbound(e, t));
            var settle := Settle(k, outcome, t);
            && ReachesJobGate(x, After(x, Then(first, settle)), e', t)
            && JobsWritten(x, After(x, first), settle, k) == {}
  {
    var k := JobKey(e, x.matching(e.text).value.id);
    var first := Then(Start, Inbound(e, t));
    assert After(x, Start) == Core([], [], [], [], []);
    FirstIsSent(x, e, t);
    assert After(x, first) == AfterFirst(x, e, t);
    KeysDiffer(x, e, e');
    ClaimOther(x.incoming, IncomingKey(e), IncomingKey(e'), t);
    hide Process, Evaluate, Jobs.Moved, Claims.TryClaimed, Claims.ClaimKey;
    assert After(x, Then(first, Settle(k, outcome, t))).incoming == AfterFirst(x, e, t).incoming;
  }
}
