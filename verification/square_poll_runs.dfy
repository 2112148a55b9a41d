/** Runs of the square poll: every interleaving of launches, answers, timeouts,
    failures and late settlements. */
module SquarePollRuns {
  import opened Runs
  import opened Sets
  import opened SquarePoll

  datatype Op =
    | StartRound(at: real)
    | RacerAnswers(page: Page, at: real)
    | LoseRacer(settled: bool, at: real)
    | SettleStraggler(at: real)
    | EndRound(quietMs: real, at: real)
    | Launch(at: real)
    | Answer(f: nat, page: Page, at: real)
    | Abandon(f: nat, at: real)
    | Settle(f: nat, at: real)
    | Release(f: nat, quietMs: real, at: real)
    | Stop(at: real)

  /** What can happen in a given state. */
  ghost predicate Enabled(o: Options, p: Poll, op: Op)
    requires o.Accepted()
  {
    match op
    case StartRound(at) => MayStartRound(o, p, at)
    case RacerAnswers(_, _) => Waiting(p)
    case LoseRacer(_, _) => Waiting(p)
    case SettleStraggler(_) => Straggling(p)
    case EndRound(_, _) => MayEndRound(p)
    case Launch(at) => MayLaunch(o, p, at)
    case Answer(f, _, _) => InSlot(p, f, Fetching)
    case Abandon(f, _) => InSlot(p, f, Fetching)
    case Settle(f, _) => InSlot(p, f, Fetching) || InSlot(p, f, Abandoned)
    case Release(f, _, _) => MayRelease(p, f)
    case Stop(_) => true
  }

  ghost function Step(o: Options, p: Poll, op: Op): Poll
    requires o.Accepted() && Enabled(o, p, op)
  {
    match op
    case StartRound(at) => RoundStarted(o, p, at)
    case RacerAnswers(page, at) => RacerAnswered(p, page, at)
    case LoseRacer(settled, _) => RacerLost(p, settled)
    case SettleStraggler(_) => StragglerSettled(p)
    case EndRound(quietMs, at) => RoundEnded(o, p, quietMs, at)
    case Launch(at) => Launched(p, at)
    case Answer(f, page, at) => Answered(p, f, page, at)
    case Abandon(f, _) => WithSlot(p, f, Abandoned)
    case Settle(f, _) => WithSlot(p, f, Failed)
    case Release(f, quietMs, at) => Released(o, p, f, quietMs, at)
    case Stop(_) => Stopped(p)
  }

  /** An operation that cannot happen changes nothing. */
  ghost function After(o: Options, r: Run<Op>): Poll
    requires o.Accepted()
  {
    match r
    case Start => Created(o)
    case Then(before, op) =>
      var p := After(o, before);
      if Enabled(o, p, op) then Step(o, p, op) else p
  }

  ghost predicate InOrder(r: Run<Op>, now: real) {
    r.Then? ==> r.last.at <= now && InOrder(r.before, r.last.at)
  }

  // ------------------------------------------------------------ how many calls are open

  ghost predicate Open(p: Poll, f: nat) { f in p.fetches && p.fetches[f].slot in {Fetching, Abandoned} }

  /** The calls to the fetcher that have not settled. */
  ghost function Unsettled(p: Poll): nat {
    |set f | f in p.fetches && Open(p, f)| + if p.round.Some? then p.round.value.unsettled else 0
  }

  /** Either one round is on, or the staggered fetches are; each within its bound. */
  ghost predicate Bounded(o: Options, p: Poll) {
    && (forall f | f in p.fetches :: f < p.next)
    && |p.fetches| <= o.stagger
    && (p.fetches != map[] ==> p.drained && o.stagger > 1 && p.round.None?)
    && (p.round.Some? ==>
          var r := p.round.value;
          && r.waiting <= r.unsettled <= o.raceWidth
          && (r.waiting == 0 ==> r.over) && (r.won ==> r.over)
          && (p.drained && o.stagger > 1 ==> r.over))
    && (!p.drained ==> p.emitted == [])
  }

  lemma RoundKeepsBounded(o: Options, p: Poll, op: Op)
    requires o.Accepted() && Bounded(o, p) && Enabled(o, p, op)
    requires op.StartRound? || op.RacerAnswers? || op.LoseRacer? || op.SettleStraggler? || op.EndRound?
    ensures Bounded(o, Step(o, p, op))
  {
    hide Smoothed, Max, Min, MayLaunch;
  }

  lemma LaunchKeepsBounded(o: Options, p: Poll, at: real)
    requires o.Accepted() && Bounded(o, p) && MayLaunch(o, p, at)
    ensures Bounded(o, Launched(p, at))
  {
    assert Launched(p, at).fetches.Keys == p.fetches.Keys + {p.next};
  }

  lemma StopKeepsBounded(o: Options, p: Poll)
    requires o.Accepted() && Bounded(o, p)
    ensures Bounded(o, Stopped(p))
  {
    assert Stopped(p).fetches.Keys == p.fetches.Keys;
    assert |Stopped(p).fetches.Keys| == |p.fetches.Keys|;
  }

  lemma SlotKeepsBounded(o: Options, p: Poll, f: nat, q: Poll)
    requires o.Accepted() && Bounded(o, p) && f in p.fetches
    requires q.fetches.Keys == p.fetches.Keys || q.fetches == p.fetches - {f}
    requires q.next == p.next && q.round == p.round && q.drained == p.drained
    ensures Bounded(o, q)
  {
    if q.fetches == p.fetches - {f} { assert p.fetches.Keys == q.fetches.Keys + {f}; }
    else { assert |q.fetches.Keys| == |p.fetches.Keys|; }
  }

  lemma StepKeepsBounded(o: Options, p: Poll, op: Op)
    requires o.Accepted() && Bounded(o, p) && Enabled(o, p, op)
    ensures Bounded(o, Step(o, p, op))
  {
    hide Bounded, MayLaunch, SightedAll;
    match op {
      case Launch(at) => LaunchKeepsBounded(o, p, at);
      case Answer(f, _, _) => SlotKeepsBounded(o, p, f, Step(o, p, op));
      case Abandon(f, _) => SlotKeepsBounded(o, p, f, Step(o, p, op));
      case Settle(f, _) => SlotKeepsBounded(o, p, f, Step(o, p, op));
      case Release(f, _, _) => SlotKeepsBounded(o, p, f, Step(o, p, op));
      case Stop(_) => StopKeepsBounded(o, p);
      case _ => RoundKeepsBounded(o, p, op);
    }
  }

  lemma {:induction false} RunsAreBounded(o: Options, r: Run<Op>)
    requires o.Accepted()
    ensures Bounded(o, After(o, r))
  {
    if r.Then? {
      hide Step, Enabled, Bounded;
      RunsAreBounded(o, r.before);
      if Enabled(o, After(o, r.before), r.last) { StepKeepsBounded(o, After(o, r.before), r.last); }
    }
  }

  /** Timeouts cannot pile up calls: at most `pollRaceWidth` are unsettled in a round,
      at most `pollStagger` afterwards, and the two never overlap. */
  lemma OpenCallsAreBounded(o: Options, r: Run<Op>)
    requires o.Accepted()
    ensures var p := After(o, r);
            && (p.round.Some? ==> Unsettled(p) == p.round.value.unsettled <= o.raceWidth)
            && (p.round.None? ==> Unsettled(p) <= |p.fetches| <= o.stagger)
  {
    RunsAreBounded(o, r);
    var p := After(o, r);
    hide After;
    var open := set f | f in p.fetches && Open(p, f);
    assert open <= p.fetches.Keys;
    SubsetSize(open, p.fetches.Keys);
    if p.round.Some? { assert open == {}; }
  }

  // ------------------------------------------------------------ what is emitted

  /** The messages of the live pages that came back, in order. */
  ghost function Sightings(o: Options, r: Run<Op>): seq<Message>
    requires o.Accepted()
  {
    match r
    case Start => []
    case Then(before, op) => Sightings(o, before) + Seen(o, After(o, before), op)
  }

  ghost function Seen(o: Options, p: Poll, op: Op): seq<Message>
    requires o.Accepted()
  {
    if !Enabled(o, p, op) then []
    else if op.Answer? then op.page.messages
    else if Wins(o, p, op) && p.drained then op.page.messages
    else []
  }

  /** A page that wins its round. */
  ghost predicate Wins(o: Options, p: Poll, op: Op)
    requires o.Accepted()
  {
    op.RacerAnswers? && Enabled(o, p, op) && !p.round.value.over
  }

  /** The messages of the backlog. */
  ghost function Backlog(o: Options, r: Run<Op>): nat
    requires o.Accepted()
  {
    match r
    case Start => 0
    case Then(before, op) =>
      var p := After(o, before);
      Backlog(o, before) + if Wins(o, p, op) && !p.drained then |op.page.messages| else 0
  }

  /** The reference for the dedupe: each message whose id is not among the ids of the
      last 512 that were let through. */
  ghost function Deduped(s: seq<Message>): seq<Message> {
    if |s| == 0 then [] else Passed(Deduped(s[..|s| - 1]), s[|s| - 1])
  }

  ghost function Passed(e: seq<Message>, m: Message): seq<Message> {
    if m.id in Ids(Recent(e)) then e else e + [m]
  }

  ghost function Ids(s: seq<Message>): seq<string> { seq(|s|, i requires 0 <= i < |s| => s[i].id) }

  ghost function Recent(s: seq<Message>): seq<Message> {
    if |s| <= SEEN_MAX then s else s[|s| - SEEN_MAX..]
  }

  /** The window the poll remembers is that of the reference. */
  ghost predicate Windowed(p: Poll) {
    && p.order == Ids(Recent(p.emitted))
    && (forall id :: id in p.seen <==> id in p.order)
    && forall i, j | 0 <= i < j < |p.order| :: p.order[i] != p.order[j]
  }

  lemma SightingIsReference(p: Poll, m: Message)
    requires Windowed(p)
    ensures Windowed(Sighted(p, m)) && Sighted(p, m).emitted == Passed(p.emitted, m)
  {
    if m.id !in p.seen {
      var q := Sighted(p, m);
      assert q.emitted == p.emitted + [m];
      var order := p.order + [m.id];
      WindowSlides(p.emitted, m);
      assert q.order == Ids(Recent(q.emitted));
      assert forall i, j | 0 <= i < j < |order| :: order[i] != order[j];
      if |order| > SEEN_MAX {
        assert order == [order[0]] + order[1..];
        forall id ensures id in q.seen <==> id in q.order {
          assert id in order <==> id == order[0] || id in order[1..];
        }
      }
    }
  }

  lemma WindowSlides(e: seq<Message>, m: Message)
    ensures var order := Ids(Recent(e)) + [m.id];
            Ids(Recent(e + [m])) == if |order| > SEEN_MAX then order[1..] else order
  {
  }

  lemma {:induction false} SightingsAreReference(p: Poll, ms: seq<Message>, s: seq<Message>)
    requires Windowed(p) && p.emitted == Deduped(s)
    ensures Windowed(SightedAll(p, ms)) && SightedAll(p, ms).emitted == Deduped(s + ms)
  {
    hide Windowed, Sighted, Passed;
    if |ms| == 0 {
      assert s + ms == s;
    } else {
      var init, last := ms[..|ms| - 1], ms[|ms| - 1];
      SightingsAreReference(p, init, s);
      SightingIsReference(SightedAll(p, init), last);
      assert (s + ms)[..|s + ms| - 1] == s + init;
      assert (s + ms)[|s + ms| - 1] == last;
    }
  }

  lemma StepEmits(o: Options, p: Poll, op: Op, s: seq<Message>)
    requires o.Accepted() && o.stagger > 1 && Bounded(o, p) && Enabled(o, p, op)
    requires Windowed(p) && p.emitted == Deduped(s)
    ensures Windowed(Step(o, p, op)) && Step(o, p, op).emitted == Deduped(s + Seen(o, p, op))
  {
    hide Windowed, Deduped;
    if op.Answer? {
      AnswerEmits(p, op.f, op.page, op.at, s);
    } else {
      OthersEmitNothing(o, p, op);
      hide Step, Seen, Enabled;
      assert s + [] == s;
      SameWindow(p, Step(o, p, op));
    }
  }

  lemma AnswerEmits(p: Poll, f: nat, page: Page, at: real, s: seq<Message>)
    requires f in p.fetches && Windowed(p) && p.emitted == Deduped(s)
    ensures Windowed(Answered(p, f, page, at)) && Answered(p, f, page, at).emitted == Deduped(s + page.messages)
  {
    hide Windowed, Deduped, SightedAll, Smoothed;
    var startedAt := p.fetches[f].startedAt;
    var q := Adopted(p.(rtt := Smoothed(p.rtt, at - startedAt)), startedAt, page.token);
    SameWindow(p, q);
    SightingsAreReference(q, page.messages, s);
    SameWindow(SightedAll(q, page.messages), Answered(p, f, page, at));
  }

  lemma OthersEmitNothing(o: Options, p: Poll, op: Op)
    requires o.Accepted() && o.stagger > 1 && Bounded(o, p) && Enabled(o, p, op) && !op.Answer?
    ensures Seen(o, p, op) == []
    ensures var q := Step(o, p, op); q.emitted == p.emitted && q.order == p.order && q.seen == p.seen
  {
    hide Answered, Smoothed, MayLaunch, MayStartRound, MayRelease, InSlot, Max, Min, Later;
  }

  lemma SameWindow(p: Poll, q: Poll)
    requires Windowed(p) && q.emitted == p.emitted && q.order == p.order && q.seen == p.seen
    ensures Windowed(q)
  {
  }

  /** With overlapping fetches, what goes out is the deduped sequence of what came in. */
  lemma {:induction false} EmissionIsReference(o: Options, r: Run<Op>)
    requires o.Accepted() && o.stagger > 1
    ensures Windowed(After(o, r)) && After(o, r).emitted == Deduped(Sightings(o, r))
  {
    if r.Then? {
      hide Windowed, Deduped, Step, Enabled, Bounded;
      var p := After(o, r.before);
      EmissionIsReference(o, r.before);
      RunsAreBounded(o, r.before);
      if Enabled(o, p, r.last) { StepEmits(o, p, r.last, Sightings(o, r.before)); }
      else { assert Sightings(o, r.before) + [] == Sightings(o, r.before); }
    }
  }

  /** Every sighted message goes out under its id. */
  lemma {:induction false} NothingIsLost(s: seq<Message>, k: nat)
    requires k < |s|
    ensures exists j :: 0 <= j < |Deduped(s)| && Deduped(s)[j].id == s[k].id
  {
    hide Recent, Ids;
    var init, last := s[..|s| - 1], s[|s| - 1];
    var e := Deduped(init);
    if k < |s| - 1 {
      NothingIsLost(init, k);
      var j :| 0 <= j < |e| && e[j].id == init[k].id;
      assert Deduped(s)[j] == e[j];
    } else {
      PassedHasId(e, last);
      assert Deduped(s) == Passed(e, last);
    }
  }

  lemma PassedHasId(e: seq<Message>, m: Message)
    ensures exists j :: 0 <= j < |Passed(e, m)| && Passed(e, m)[j].id == m.id
  {
    if m.id in Ids(Recent(e)) {
      var i :| 0 <= i < |Recent(e)| && Recent(e)[i].id == m.id;
      var j := i + (|e| - |Recent(e)|);
      assert Passed(e, m)[j] == Recent(e)[i];
    } else {
      assert Passed(e, m)[|e|].id == m.id;
    }
  }

  /** And the same id goes out again only after 512 others, all different. */
  lemma {:induction false} RepeatsAreFarApart(s: seq<Message>, i: nat, j: nat)
    requires i < j < |Deduped(s)| && Deduped(s)[i].id == Deduped(s)[j].id
    ensures j - i > SEEN_MAX
  {
    var init, last := s[..|s| - 1], s[|s| - 1];
    var e := Deduped(init);
    if j < |e| {
      RepeatsAreFarApart(init, i, j);
    } else {
      assert Deduped(s) == e + [last];
      if j - i <= SEEN_MAX { InWindow(e, i); }
    }
  }

  lemma InWindow(e: seq<Message>, i: nat)
    requires i < |e| <= i + SEEN_MAX
    ensures e[i].id in Ids(Recent(e))
  {
    assert Ids(Recent(e))[i - (|e| - |Recent(e)|)] == e[i].id;
  }

  /** Over any run: an id goes out again only when at least 512 other messages went out in
      between, with 512 different ids. */
  lemma NoEarlyRepeat(o: Options, r: Run<Op>, i: nat, j: nat)
    requires o.Accepted() && o.stagger > 1
    requires i < j < |After(o, r).emitted| && After(o, r).emitted[i].id == After(o, r).emitted[j].id
    ensures j - i > SEEN_MAX
    ensures forall a, b | i < a < b <= i + SEEN_MAX :: After(o, r).emitted[a].id != After(o, r).emitted[b].id
    ensures forall a | i < a <= i + SEEN_MAX :: After(o, r).emitted[a].id != After(o, r).emitted[i].id
  {
    EmissionIsReference(o, r);
    var s := Sightings(o, r);
    var e := After(o, r).emitted;
    hide After, Deduped, Sightings;
    RepeatsAreFarApart(s, i, j);
    forall a, b | i <= a < b <= i + SEEN_MAX ensures e[a].id != e[b].id {
      if e[a].id == e[b].id { RepeatsAreFarApart(s, a, b); }
    }
  }

  /** A message goes out a second time exactly when the id has left the window. */
  lemma SentAgainIff(s: seq<Message>, m: Message)
    ensures var e := Deduped(s);
            Deduped(s + [m]) == e + [m] <==> forall i | 0 <= i < |e| && e[i].id == m.id :: i + SEEN_MAX < |e|
  {
    hide Deduped;
    var e := Deduped(s);
    DedupedOneMore(s, m);
    if m.id in Ids(Recent(e)) {
      var k :| 0 <= k < |Recent(e)| && Recent(e)[k].id == m.id;
      var i := k + (|e| - |Recent(e)|);
      assert e[i] == Recent(e)[k] && i + SEEN_MAX >= |e|;
      assert |e| != |e + [m]|;
    } else {
      forall i | 0 <= i < |e| && e[i].id == m.id ensures i + SEEN_MAX < |e| {
        if i + SEEN_MAX >= |e| { InWindow(e, i); }
      }
    }
  }

  lemma DedupedOneMore(s: seq<Message>, m: Message)
    ensures Deduped(s + [m]) == Passed(Deduped(s), m)
  {
    assert (s + [m])[..|s + [m]| - 1] == s;
  }

  /** History is never answered: until an empty page has come back, nothing goes out and
      nothing is staggered; every message that arrives before that is counted, and every
      one after it is sighted. */
  lemma {:induction false} BacklogIsSilent(o: Options, r: Run<Op>)
    requires o.Accepted()
    ensures var p := After(o, r);
            && (!p.drained ==> p.emitted == [] && p.fetches == map[] && Sightings(o, r) == [])
            && p.drainedCount == Backlog(o, r)
            && (p.drained <==> Emptied(o, r))
  {
    RunsAreBounded(o, r);
    if r.Then? {
      hide Step, Enabled, Wins, Seen;
      var p := After(o, r.before);
      RunsAreBounded(o, r.before);
      BacklogIsSilent(o, r.before);
      if Enabled(o, p, r.last) { StepDrains(o, p, r.last); } else { NothingSeen(o, p, r.last); }
    }
  }

  lemma StepDrains(o: Options, p: Poll, op: Op)
    requires o.Accepted() && Bounded(o, p) && Enabled(o, p, op)
    ensures var q := Step(o, p, op);
            && (q.drained <==> p.drained || (Wins(o, p, op) && (op.page.markedEmpty || |op.page.messages| == 0)))
            && q.drainedCount == p.drainedCount + (if Wins(o, p, op) && !p.drained then |op.page.messages| else 0)
            && (!q.drained ==> Seen(o, p, op) == [])
  {
    hide Smoothed, SightedAll, MayLaunch, MayStartRound, Max, Min, Later;
  }

  /** Some round was won by an empty page. */
  ghost predicate Emptied(o: Options, r: Run<Op>)
    requires o.Accepted()
  {
    match r
    case Start => false
    case Then(before, op) =>
      var p := After(o, before);
      || Emptied(o, before)
      || (Wins(o, p, op) && (op.page.markedEmpty || |op.page.messages| == 0))
  }

  /** Without overlapping fetches nothing is deduped: all that is sighted goes out. */
  lemma {:induction false} RoundsEmitEverything(o: Options, r: Run<Op>)
    requires o.Accepted() && o.stagger == 1
    ensures After(o, r).emitted == Sightings(o, r)
  {
    if r.Then? {
      hide Step, Enabled, Bounded, Seen;
      var p := After(o, r.before);
      RunsAreBounded(o, r.before);
      RoundsEmitEverything(o, r.before);
      if Enabled(o, p, r.last) { RoundEmits(o, p, r.last); }
      else { NothingSeen(o, p, r.last); }
    }
  }

  lemma NothingSeen(o: Options, p: Poll, op: Op)
    requires o.Accepted() && !Enabled(o, p, op)
    ensures Seen(o, p, op) == [] && !Wins(o, p, op)
  {
  }

  lemma RoundEmits(o: Options, p: Poll, op: Op)
    requires o.Accepted() && o.stagger == 1 && Bounded(o, p) && Enabled(o, p, op)
    ensures Step(o, p, op).emitted == p.emitted + Seen(o, p, op)
  {
    hide Smoothed, SightedAll, Spacing, Later, Min, Max, Due;
    assert p.emitted + [] == p.emitted;
  }
}
