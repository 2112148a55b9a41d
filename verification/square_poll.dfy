/** The poll of one square chat: rounds on a single cursor until the backlog is drained,
    then overlapping fetches that finish in any order. */
module SquarePoll {
  import opened Wrappers

  datatype Message = Message(id: string, body: string)

  datatype Page = Page(messages: seq<Message>, token: Option<string>, markedEmpty: bool)

  datatype Options = Options(
    intervalMs: real, minBackoffMs: real, maxBackoffMs: real, raceWidth: nat, stagger: nat)
  {
    /** After the constructor's defaults; it refuses racing and staggering together. */
    predicate Accepted() {
      raceWidth >= 1 && stagger >= 1 && !(raceWidth > 1 && stagger > 1)
    }
  }

  const SEEN_MAX: nat := 512

  /** What a slot waits for. A fetch given up on keeps its slot until the call settles. */
  datatype Slot = Fetching | Abandoned | Failed | Done(hits: bool)

  datatype Fetch = Fetch(startedAt: real, token: Option<string>, slot: Slot)

  /** A round of racing fetches: attempts still waited for, and calls not yet settled. */
  datatype Round = Round(
    startedAt: real, token: Option<string>, waiting: nat, unsettled: nat, over: bool, won: bool, hits: bool)

  datatype Poll = Poll(
    token: Option<string>, adopted: Option<real>, drained: bool, drainedCount: nat, rounds: nat,
    rtt: Option<real>, seen: set<string>, order: seq<string>, emitted: seq<Message>,
    round: Option<Round>, fetches: map<nat, Fetch>, next: nat,
    lastLaunch: Option<real>, holdUntil: Option<real>, backoff: real, stopped: bool)

  function Max(a: real, b: real): real { if a < b then b else a }
  function Min(a: real, b: real): real { if b < a then b else a }
  function Later(a: Option<real>, b: real): Option<real> { Some(if a.Some? then Max(a.value, b) else b) }
  function Or(a: Option<string>, b: Option<string>): Option<string> { if a.Some? then a else b }
  predicate Due(now: real, t: Option<real>) { t.None? || now >= t.value }

  // ------------------------------------------------------------ what each step does

  /** Smoothed with weight 0.2 on the newest. */
  function Smoothed(rtt: Option<real>, ms: real): Option<real> {
    Some(if rtt.None? then ms else rtt.value + (ms - rtt.value) * 0.2)
  }

  /** A response describes the moment its fetch was launched: an older one does not move
      the cursor back. */
  function Adopted(p: Poll, startedAt: real, token: Option<string>): Poll {
    if p.adopted.None? || startedAt > p.adopted.value
    then p.(adopted := Some(startedAt), token := Or(token, p.token))
    else p
  }

  function Sighted(p: Poll, m: Message): Poll {
    if m.id in p.seen then p else
    var order := p.order + [m.id];
    if |order| > SEEN_MAX
    then p.(seen := p.seen + {m.id} - {order[0]}, order := order[1..], emitted := p.emitted + [m])
    else p.(seen := p.seen + {m.id}, order := order, emitted := p.emitted + [m])
  }

  function SightedAll(p: Poll, ms: seq<Message>): (r: Poll)
    ensures r == p.(seen := r.seen, order := r.order, emitted := r.emitted)
    ensures |r.emitted| >= |p.emitted|
  {
    if |ms| == 0 then p else Sighted(SightedAll(p, ms[..|ms| - 1]), ms[|ms| - 1])
  }

  predicate MayStartRound(o: Options, p: Poll, now: real) {
    !p.stopped && p.round.None? && !(p.drained && o.stagger > 1) && Due(now, p.holdUntil)
  }

  function RoundStarted(o: Options, p: Poll, now: real): Poll {
    p.(rounds := p.rounds + 1,
       round := Some(Round(now, p.token, o.raceWidth, o.raceWidth, false, false, false)))
  }

  predicate Waiting(p: Poll) { p.round.Some? && p.round.value.waiting > 0 && p.round.value.unsettled > 0 }

  /** Backlog is counted and dropped until a page comes back empty; then pages go out. */
  function Delivered(p: Poll, page: Page): Poll {
    if p.drained then p.(emitted := p.emitted + page.messages)
    else p.(drainedCount := p.drainedCount + |page.messages|,
            drained := page.markedEmpty || |page.messages| == 0)
  }

  /** A round's page moves the cursor, and is delivered. */
  function Won(p: Poll, startedAt: real, page: Page, now: real): Poll {
    var q := p.(rtt := Smoothed(p.rtt, now - startedAt), token := Or(page.token, p.token), adopted := Some(startedAt));
    Delivered(q, page)
  }

  /** The first page wins the round; later ones are redundant. */
  function RacerAnswered(p: Poll, page: Page, now: real): Poll
    requires Waiting(p)
  {
    var r := p.round.value;
    var rest := r.(waiting := r.waiting - 1, unsettled := r.unsettled - 1);
    if r.over then p.(round := Some(rest))
    else
      Won(p, r.startedAt, page, now).(
        round := Some(rest.(over := true, won := true, hits := p.drained && |page.messages| > 0)))
  }

  /** An attempt that times out, is aborted or rejects. Only a rejection settles the call. */
  function RacerLost(p: Poll, settled: bool): Poll
    requires Waiting(p)
  {
    var r := p.round.value;
    p.(round := Some(r.(waiting := r.waiting - 1, over := r.over || r.waiting == 1,
                        unsettled := if settled then r.unsettled - 1 else r.unsettled)))
  }

  predicate Straggling(p: Poll) { p.round.Some? && p.round.value.waiting < p.round.value.unsettled }

  function StragglerSettled(p: Poll): Poll
    requires Straggling(p)
  {
    p.(round := Some(p.round.value.(unsettled := p.round.value.unsettled - 1)))
  }

  predicate MayEndRound(p: Poll) { p.round.Some? && p.round.value.over && p.round.value.unsettled == 0 }

  /** The pause before the next round, which a failed round stretches. */
  function RoundEnded(o: Options, p: Poll, quietMs: real, now: real): Poll
    requires p.round.Some?
  {
    var r := p.round.value;
    if r.won then
      p.(round := None, backoff := o.minBackoffMs,
         holdUntil := Some(now + Max(o.intervalMs, if r.hits then quietMs else 0.0)))
    else
      p.(round := None, holdUntil := Some(now + p.backoff), backoff := Min(p.backoff * 2.0, o.maxBackoffMs))
  }

  function Spacing(o: Options, p: Poll): real
    requires o.stagger >= 1
  {
    ((if p.rtt.Some? then p.rtt.value else 0.0) + o.intervalMs) / o.stagger as real
  }

  predicate MayLaunch(o: Options, p: Poll, now: real)
    requires o.stagger >= 1
  {
    && !p.stopped && p.round.None? && p.drained && o.stagger > 1
    && |p.fetches| < o.stagger
    && (p.lastLaunch.Some? ==> p.lastLaunch.value + Spacing(o, p) - now <= 0.0)
    && Due(now, p.holdUntil)
  }

  function Launched(p: Poll, now: real): Poll {
    p.(rounds := p.rounds + 1, lastLaunch := Some(now),
       fetches := p.fetches[p.next := Fetch(now, p.token, Fetching)], next := p.next + 1)
  }

  predicate InSlot(p: Poll, f: nat, slot: Slot) { f in p.fetches && p.fetches[f].slot == slot }

  function WithSlot(p: Poll, f: nat, slot: Slot): Poll
    requires f in p.fetches
  {
    p.(fetches := p.fetches[f := p.fetches[f].(slot := slot)])
  }

  function Answered(p: Poll, f: nat, page: Page, now: real): Poll
    requires f in p.fetches
  {
    var startedAt := p.fetches[f].startedAt;
    var q := Adopted(p.(rtt := Smoothed(p.rtt, now - startedAt)), startedAt, page.token);
    var q := SightedAll(q, page.messages);
    WithSlot(q, f, Done(|q.emitted| > |p.emitted|))
  }

  predicate MayRelease(p: Poll, f: nat) {
    f in p.fetches && (p.fetches[f].slot.Done? || p.fetches[f].slot.Failed?)
  }

  /** The slot goes free, and the outcome sets the pace. */
  function Released(o: Options, p: Poll, f: nat, quietMs: real, now: real): Poll
    requires MayRelease(p, f)
  {
    var q := p.(fetches := p.fetches - {f});
    match p.fetches[f].slot
    case Done(hits) =>
      q.(backoff := o.minBackoffMs,
         holdUntil := if hits && quietMs > 0.0 then Later(p.holdUntil, now + quietMs) else p.holdUntil)
    case _ =>
      if p.stopped then q
      else q.(holdUntil := Later(p.holdUntil, now + p.backoff), backoff := Min(p.backoff * 2.0, o.maxBackoffMs))
  }

  function AbandonAll(fetches: map<nat, Fetch>): (r: map<nat, Fetch>)
    ensures r.Keys == fetches.Keys
  {
    map f | f in fetches :: if fetches[f].slot == Fetching then fetches[f].(slot := Abandoned) else fetches[f]
  }

  /** Stopping gives up on every fetch still waited for; the calls may go on. */
  function Stopped(p: Poll): Poll {
    p.(stopped := true, fetches := AbandonAll(p.fetches),
       round := if p.round.Some? then Some(p.round.value.(waiting := 0, over := true)) else None)
  }

  function Created(o: Options): Poll {
    Poll(None, None, false, 0, 0, None, {}, [], [], None, map[], 0, None, None, o.minBackoffMs, false)
  }

  class SquarePoll {
    const options: Options
    var token: Option<string>
    var adopted: Option<real>
    var drained: bool
    var drainedCount: nat
    var rounds: nat
    var rtt: Option<real>
    var seen: set<string>
    var order: seq<string>
    var emitted: seq<Message>
    var round: Option<Round>
    var fetches: map<nat, Fetch>
    var next: nat
    var lastLaunch: Option<real>
    var holdUntil: Option<real>
    var backoff: real
    var stopped: bool

    function View(): Poll
      reads this
    {
      Poll(token, adopted, drained, drainedCount, rounds, rtt, seen, order, emitted, round, fetches, next,
           lastLaunch, holdUntil, backoff, stopped)
    }

    constructor (options: Options)
      requires options.Accepted()
      ensures this.options == options && View() == Created(options)
    {
      this.options := options;
      token, adopted, drained, drainedCount, rounds, rtt := None, None, false, 0, 0, None;
      seen, order, emitted, round, fetches, next := {}, [], [], None, map[], 0;
      lastLaunch, holdUntil, backoff, stopped := None, None, options.minBackoffMs, false;
    }

    method StartRound(now: real)
      requires MayStartRound(options, View(), now)
      modifies this`rounds, this`round
      ensures View() == RoundStarted(options, old(View()), now)
    {
      rounds := rounds + 1;
      round := Some(Round(now, token, options.raceWidth, options.raceWidth, false, false, false));
    }

    method RacerAnswers(page: Page, now: real)
      requires Waiting(View())
      modifies this`round, this`rtt, this`token, this`adopted, this`drained, this`drainedCount, this`emitted
      ensures View() == RacerAnswered(old(View()), page, now)
    {
      hide Won;
      var r := round.value;
      var rest := r.(waiting := r.waiting - 1, unsettled := r.unsettled - 1);
      if r.over {
        round := Some(rest);
        return;
      }
      var delivered := Win(r.startedAt, page, now);
      round := Some(rest.(over := true, won := true, hits := delivered));
    }

    method Win(startedAt: real, page: Page, now: real) returns (delivered: bool)
      modifies this`rtt, this`token, this`adopted, this`drained, this`drainedCount, this`emitted
      ensures View() == Won(old(View()), startedAt, page, now)
      ensures delivered <==> old(drained) && |page.messages| > 0
    {
      hide Smoothed, Delivered;
      ObserveRtt(now - startedAt);
      token := Or(page.token, token);
      adopted := Some(startedAt);
      delivered := Deliver(page);
    }

    method Deliver(page: Page) returns (delivered: bool)
      modifies this`drained, this`drainedCount, this`emitted
      ensures View() == Delivered(old(View()), page)
      ensures delivered <==> old(drained) && |page.messages| > 0
    {
      if !drained {
        drainedCount := drainedCount + |page.messages|;
        if page.markedEmpty || |page.messages| == 0 { drained := true; }
        return false;
      }
      EmitAll(page.messages);
      return |page.messages| > 0;
    }

    method EmitAll(ms: seq<Message>)
      modifies this`emitted
      ensures emitted == old(emitted) + ms
    {
      for i := 0 to |ms|
        invariant emitted == old(emitted) + ms[..i]
      {
        emitted := emitted + [ms[i]];
      }
    }

    method ObserveRtt(ms: real)
      modifies this`rtt
      ensures rtt == Smoothed(old(rtt), ms)
    {
      if rtt.None? { rtt := Some(ms); } else { rtt := Some(rtt.value + (ms - rtt.value) * 0.2); }
    }

    method LoseRacer(settled: bool)
      requires Waiting(View())
      modifies this`round
      ensures View() == RacerLost(old(View()), settled)
    {
      var r := round.value;
      round := Some(r.(waiting := r.waiting - 1, unsettled := if settled then r.unsettled - 1 else r.unsettled));
      if round.value.waiting == 0 { round := Some(round.value.(over := true)); }
    }

    method SettleStraggler()
      requires Straggling(View())
      modifies this`round
      ensures View() == StragglerSettled(old(View()))
    {
      round := Some(round.value.(unsettled := round.value.unsettled - 1));
    }

    method EndRound(quietMs: real, now: real)
      requires MayEndRound(View())
      modifies this`round, this`backoff, this`holdUntil
      ensures View() == RoundEnded(options, old(View()), quietMs, now)
    {
      if round.value.won {
        backoff := options.minBackoffMs;
        holdUntil := Some(now + Max(options.intervalMs, if round.value.hits then quietMs else 0.0));
      } else {
        holdUntil := Some(now + backoff);
        backoff := Min(backoff * 2.0, options.maxBackoffMs);
      }
      round := None;
    }

    /** One turn of the staggered loop: launches unless it has to wait. */
    method TryLaunch(now: real) returns (launched: bool)
      requires options.stagger >= 1
      modifies this`rounds, this`lastLaunch, this`fetches, this`next
      ensures launched <==> MayLaunch(options, old(View()), now)
      ensures View() == if launched then Launched(old(View()), now) else old(View())
    {
      if stopped || round.Some? || !drained || options.stagger == 1 { return false; }
      if |fetches| >= options.stagger { return false; }
      if lastLaunch.Some? && lastLaunch.value + Spacing(options, View()) - now > 0.0 { return false; }
      if holdUntil.Some? && holdUntil.value - now > 0.0 { return false; }
      lastLaunch := Some(now);
      rounds := rounds + 1;
      fetches := fetches[next := Fetch(now, token, Fetching)];
      next := next + 1;
      return true;
    }

    method FirstSighting(m: Message) returns (first: bool)
      modifies this`seen, this`order
      ensures View().(emitted := if first then emitted + [m] else emitted) == Sighted(old(View()), m)
      ensures first <==> m.id !in old(seen)
    {
      if m.id in seen { return false; }
      seen := seen + {m.id};
      order := order + [m.id];
      if |order| > SEEN_MAX {
        seen := seen - {order[0]};
        order := order[1..];
      }
      return true;
    }

    method Answer(f: nat, page: Page, now: real)
      requires InSlot(View(), f, Fetching)
      modifies this
      ensures View() == Answered(old(View()), f, page, now)
    {
      hide SightedAll, Adopted, Smoothed;
      var startedAt := fetches[f].startedAt;
      ObserveRtt(now - startedAt);
      Adopt(startedAt, page.token);
      var hits := EmitFirstSightings(page.messages);
      fetches := fetches[f := fetches[f].(slot := Done(hits))];
    }

    method Adopt(startedAt: real, pageToken: Option<string>)
      modifies this`adopted, this`token
      ensures View() == Adopted(old(View()), startedAt, pageToken)
    {
      if adopted.None? || startedAt > adopted.value {
        adopted := Some(startedAt);
        if pageToken.Some? { token := pageToken; }
      }
    }

    method EmitFirstSightings(ms: seq<Message>) returns (hits: bool)
      modifies this`seen, this`order, this`emitted
      ensures View() == SightedAll(old(View()), ms)
      ensures hits <==> |emitted| > |old(emitted)|
    {
      hide SightedAll;
      hits := false;
      ghost var start := View();
      assert ms[..0] == [];
      SightedNone(start);
      for i := 0 to |ms|
        invariant View() == SightedAll(start, ms[..i])
        invariant hits <==> |emitted| > |start.emitted|
      {
        SightedOneMore(start, ms[..i], ms[i]);
        assert ms[..i] + [ms[i]] == ms[..i + 1];
        var first := FirstSighting(ms[i]);
        if first {
          emitted := emitted + [ms[i]];
          hits := true;
        }
      }
      assert ms[..|ms|] == ms;
    }

    /** A timeout leaves the call running; a rejection or a late settlement ends it. */
    method Abandon(f: nat)
      requires InSlot(View(), f, Fetching)
      modifies this`fetches
      ensures View() == WithSlot(old(View()), f, Abandoned)
    {
      fetches := fetches[f := fetches[f].(slot := Abandoned)];
    }

    method Settle(f: nat)
      requires InSlot(View(), f, Fetching) || InSlot(View(), f, Abandoned)
      modifies this`fetches
      ensures View() == WithSlot(old(View()), f, Failed)
    {
      fetches := fetches[f := fetches[f].(slot := Failed)];
    }

    method Release(f: nat, quietMs: real, now: real)
      requires MayRelease(View(), f)
      modifies this`fetches, this`backoff, this`holdUntil
      ensures View() == Released(options, old(View()), f, quietMs, now)
    {
      var slot := fetches[f].slot;
      fetches := fetches - {f};
      if slot.Done? {
        backoff := options.minBackoffMs;
        if slot.hits && quietMs > 0.0 { holdUntil := Later(holdUntil, now + quietMs); }
      } else if !stopped {
        holdUntil := Later(holdUntil, now + backoff);
        backoff := Min(backoff * 2.0, options.maxBackoffMs);
      }
    }

    method Stop()
      modifies this`stopped, this`fetches, this`round
      ensures View() == Stopped(old(View()))
    {
      stopped := true;
      fetches := AbandonAll(fetches);
      if round.Some? { round := Some(round.value.(waiting := 0, over := true)); }
    }
  }

  lemma SightedNone(p: Poll)
    ensures SightedAll(p, []) == p
  {
  }

  lemma SightedOneMore(p: Poll, ms: seq<Message>, m: Message)
    ensures SightedAll(p, ms + [m]) == Sighted(SightedAll(p, ms), m)
  {
    assert (ms + [m])[..|ms + [m]| - 1] == ms;
  }
}
