/** One HTTP/2 lane: the requests it carries and the measurements they leave.
    Times and round trips are real numbers of milliseconds. */
module Lane {
  import opened Wrappers
  import opened Runs
  import opened Windows
  import Sorting

  datatype State = Ready | Draining | Dead

  datatype Measurement = Send | Preflight | Poll | General | Warm

  datatype Profile = Profile(
    samples: seq<real>, median: Option<real>, tail: Option<real>,
    last: Option<real>, lastAt: Option<real>, lastContended: bool)

  const EMPTY: Profile := Profile([], None, None, None, None, false)

  datatype Profiles = Profiles(send: Profile, preflight: Profile, poll: Profile, general: Profile, warm: Profile) {
    function Of(m: Measurement): Profile {
      match m
      case Send => send case Preflight => preflight case Poll => poll case General => general case Warm => warm
    }

    function With(m: Measurement, p: Profile): Profiles {
      match m
      case Send => this.(send := p)
      case Preflight => this.(preflight := p)
      case Poll => this.(poll := p)
      case General => this.(general := p)
      case Warm => this.(warm := p)
    }
  }

  const FRESH: Profiles := Profiles(EMPTY, EMPTY, EMPTY, EMPTY, EMPTY)

  datatype Score = Score(rabbits: nat, turtles: nat, contendedSlow: nat) {
    function Net(): int { rabbits - turtles }
  }

  datatype Options = Options(window: int, fastMs: real)

  /** The state of one lane. */
  datatype View = View(
    id: int, state: State, inFlight: int, openedAt: real, failures: nat, connected: bool,
    score: Score, profiles: Profiles)
  {
    function Median(m: Measurement): Option<real> { profiles.Of(m).median }
    function Tail(m: Measurement): Option<real> { profiles.Of(m).tail }
    function LastAt(m: Measurement): Option<real> { profiles.Of(m).lastAt }

    /** p50 plus 35% of the spread up to p95. */
    function Predicted(m: Measurement): Option<real> {
      match (Median(m), Tail(m))
      case (Some(p50), Some(p95)) => Some(p50 + (p95 - p50) * 0.35)
      case _ => None
    }
  }

  // ------------------------------------------------------------ one recorded request

  /** The nearest rank of the 95th percentile among `n` samples, from zero. */
  function TailRank(n: int): int { (19 * n + 19) / 20 - 1 }

  function MedianOf(samples: seq<real>): Option<real> {
    var sorted := Sorting.Sorted(samples);
    if |sorted| == 0 then None else Some(sorted[|sorted| / 2])
  }

  function TailOf(samples: seq<real>): Option<real> {
    var sorted := Sorting.Sorted(samples);
    if |sorted| == 0 then None else Some(sorted[TailRank(|sorted|)])
  }

  function Scored(o: Options, s: Score, rtt: real, contended: bool): Score {
    if rtt <= o.fastMs then s.(rabbits := s.rabbits + 1)
    else if contended then s.(contendedSlow := s.contendedSlow + 1)
    else s.(turtles := s.turtles + 1)
  }

  function Recorded(o: Options, l: View, m: Measurement, rtt: real, contended: bool, now: real): View {
    var samples := Pushed(o.window, l.profiles.Of(m).samples, rtt);
    var p := Profile(samples, MedianOf(samples), TailOf(samples), Some(rtt), Some(now), contended);
    l.(failures := 0, connected := true,
       score := if m == Send then Scored(o, l.score, rtt, contended) else l.score,
       profiles := l.profiles.With(m, p))
  }

  function Recycled(l: View, now: real): View {
    l.(profiles := FRESH, score := Score(0, 0, 0), failures := 0, connected := false, openedAt := now, state := Ready)
  }

  function Drained(l: View): View { if l.state == Dead then l else l.(state := Draining) }

  function Opened(id: int, now: real): View {
    View(id, Ready, 0, now, 0, false, Score(0, 0, 0), FRESH)
  }

  class Lane {
    const id: int
    const options: Options
    var state: State
    var inFlight: int
    var openedAt: real
    var failures: nat
    var connected: bool
    var score: Score
    var profiles: Profiles

    function Now(): View
      reads this
    {
      View(id, state, inFlight, openedAt, failures, connected, score, profiles)
    }

    constructor (id: int, options: Options, now: real)
      ensures this.options == options && Now() == Opened(id, now)
    {
      this.id := id;
      this.options := options;
      openedAt := now;
      state := Ready;
      inFlight := 0;
      failures := 0;
      connected := false;
      score := Score(0, 0, 0);
      profiles := FRESH;
    }

    /** The first half of `send`, up to the transport call. */
    method Begin() returns (sharedAtStart: bool)
      modifies this
      ensures sharedAtStart <==> old(inFlight) > 0
      ensures Now() == old(Now()).(inFlight := old(inFlight) + 1)
    {
      sharedAtStart := inFlight > 0;
      inFlight := inFlight + 1;
    }

    /** A response arrived: the sample is taken and recorded. `End` follows. */
    method Measure(m: Measurement, started: real, sharedAtStart: bool, now: real)
      returns (rtt: real, contended: bool)
      modifies this
      ensures rtt == now - started
      ensures contended <==> sharedAtStart || old(inFlight) > 1
      ensures Now() == Recorded(options, old(Now()), m, rtt, contended, now)
    {
      hide Sorting.Sorted;
      rtt := now - started;
      contended := sharedAtStart || inFlight > 1;
      failures := 0;
      connected := true;
      if m == Send { ScoreSend(rtt, contended); }
      var profile := profiles.Of(m);
      var samples := profile.samples + [rtt];
      if |samples| > options.window { samples := samples[1..]; }
      profile := profile.(samples := samples, last := Some(rtt), lastAt := Some(now), lastContended := contended);
      profile := profile.(median := MedianOf(samples), tail := TailOf(samples));
      profiles := profiles.With(m, profile);
    }

    method ScoreSend(rtt: real, contended: bool)
      modifies this`score
      ensures score == Scored(options, old(score), rtt, contended)
    {
      if rtt <= options.fastMs { score := score.(rabbits := score.rabbits + 1); }
      else if contended { score := score.(contendedSlow := score.contendedSlow + 1); }
      else { score := score.(turtles := score.turtles + 1); }
    }

    /** The `finally` of `send`. */
    method End()
      modifies this`inFlight
      ensures Now() == old(Now()).(inFlight := old(inFlight) - 1)
    {
      inFlight := inFlight - 1;
    }

    /** The request failed. `End` follows. */
    method CountFailure()
      modifies this`failures
      ensures Now() == old(Now()).(failures := old(failures) + 1)
    {
      failures := failures + 1;
    }

    method Drain()
      modifies this`state
      ensures Now() == Drained(old(Now()))
    {
      if state == Dead { return; }
      state := Draining;
    }

    method Recycle(now: real)
      modifies this
      ensures Now() == Recycled(old(Now()), now)
    {
      profiles := FRESH;
      score := Score(0, 0, 0);
      failures := 0;
      connected := false;
      openedAt := now;
      state := Ready;
    }

    method Close()
      modifies this`state
      ensures Now() == old(Now()).(state := Dead)
    {
      state := Dead;
    }
  }

  // ------------------------------------------------------------ what the numbers mean

  lemma TailRankInRange(n: int)
    requires n >= 1
    ensures n / 2 <= TailRank(n) < n
    ensures TailRank(n) == n - 1 <==> n < 20
  {
  }

  /** p50 <= p95, both are samples, and below 20 samples p95 is the maximum. */
  lemma RanksAreOrdered(samples: seq<real>)
    requires |samples| > 0
    ensures MedianOf(samples).Some? && TailOf(samples).Some?
    ensures MedianOf(samples).value <= TailOf(samples).value
    ensures MedianOf(samples).value in samples && TailOf(samples).value in samples
    ensures |samples| < 20 ==> forall x | x in samples :: x <= TailOf(samples).value
  {
    hide Sorting.IsSorted;
    Sorting.SortedSorts(samples);
    Sorting.SortedKeeps(samples);
    RanksOfSorted(Sorting.Sorted(samples));
  }

  lemma RanksOfSorted(sorted: seq<real>)
    requires |sorted| > 0 && Sorting.IsSorted(sorted)
    ensures |sorted| / 2 <= TailRank(|sorted|) < |sorted|
    ensures sorted[|sorted| / 2] <= sorted[TailRank(|sorted|)]
    ensures |sorted| < 20 ==> forall x | x in sorted :: x <= sorted[TailRank(|sorted|)]
  {
    TailRankInRange(|sorted|);
  }

  /** `v` is the upper median of the samples: at most half of them are below it, and more than
      half are no greater. */
  ghost predicate HalvesAt(samples: seq<real>, v: real) {
    && v in samples
    && 2 * Sorting.CountBelow(samples, v) <= |samples| < 2 * Sorting.CountUpTo(samples, v)
  }

  /** `v` is the nearest-rank 95th percentile: fewer than 95% of the samples are below it, and at
      least 95% are no greater. */
  ghost predicate TailsAt(samples: seq<real>, v: real) {
    && v in samples
    && 20 * Sorting.CountBelow(samples, v) < 19 * |samples| <= 20 * Sorting.CountUpTo(samples, v)
  }

  /** What the median and the tail of a window are, by counting. */
  lemma RanksCount(samples: seq<real>)
    requires |samples| > 0
    ensures MedianOf(samples).Some? && HalvesAt(samples, MedianOf(samples).value)
    ensures TailOf(samples).Some? && TailsAt(samples, TailOf(samples).value)
  {
    RanksAreOrdered(samples);
    Sorting.SortedSorts(samples);
    Sorting.SortedKeeps(samples);
    var n, sorted := |samples|, Sorting.Sorted(samples);
    TailRankInRange(n);
    hide Sorting.Sorted, Sorting.IsSorted, Sorting.CountBelow, Sorting.CountUpTo;
    Sorting.CountsAtIndex(sorted, n / 2);
    Sorting.CountsAtIndex(sorted, TailRank(n));
    Sorting.SortingCounts(samples, sorted[n / 2]);
    Sorting.SortingCounts(samples, sorted[TailRank(n)]);
  }

  /** Counting leaves no choice: one number at most is the median, and one the tail. */
  lemma {:induction false} CountsDecide(samples: seq<real>, v: real, w: real)
    requires (HalvesAt(samples, v) && HalvesAt(samples, w)) || (TailsAt(samples, v) && TailsAt(samples, w))
    ensures v == w
  {
    if v < w { Sorting.BelowCoversUpTo(samples, v, w); }
    if w < v { Sorting.BelowCoversUpTo(samples, w, v); }
  }

  /** The prediction lies between them: 65 parts of the median and 35 of the tail. */
  lemma PredictionIsBetween(l: View, m: Measurement)
    requires Settled(l.profiles.Of(m)) && l.profiles.Of(m).samples != []
    ensures l.Median(m).Some? && l.Predicted(m).Some? && l.Tail(m).Some?
    ensures l.Median(m).value <= l.Predicted(m).value <= l.Tail(m).value
    ensures 100.0 * l.Predicted(m).value == 65.0 * l.Median(m).value + 35.0 * l.Tail(m).value
  {
    hide MedianOf, TailOf;
    RanksAreOrdered(l.profiles.Of(m).samples);
  }

  /** The derived numbers of a profile are those of its samples. */
  ghost predicate Settled(p: Profile) {
    && p.median == MedianOf(p.samples) && p.tail == TailOf(p.samples)
    && (p.last.Some? <==> p.samples != []) && (p.lastAt.Some? <==> p.samples != [])
  }

  // ------------------------------------------------------------ a lane over a run

  datatype Op =
    | Begin
    | Finish(m: Measurement, started: real, shared: bool, at: real)
    | Fail
    | Drain
    | Recycle(at: real)

  ghost function Step(o: Options, l: View, op: Op): View {
    match op
    case Begin => l.(inFlight := l.inFlight + 1)
    case Finish(m, started, shared, at) =>
      Recorded(o, l, m, at - started, shared || l.inFlight > 1, at).(inFlight := l.inFlight - 1)
    case Fail => l.(failures := l.failures + 1, inFlight := l.inFlight - 1)
    case Drain => Drained(l)
    case Recycle(at) => Recycled(l, at)
  }

  ghost function After(o: Options, id: int, birth: real, r: Run<Op>): View {
    match r
    case Start => Opened(id, birth)
    case Then(before, op) => Step(o, After(o, id, birth, before), op)
  }

  /** The round trips of kind `m` recorded since the last recycle. */
  ghost function Recent(r: Run<Op>, m: Measurement): seq<real> {
    match r
    case Start => []
    case Then(before, op) =>
      if op.Recycle? then []
      else if op.Finish? && op.m == m then Recent(before, m) + [op.at - op.started]
      else Recent(before, m)
  }

  ghost function Outstanding(r: Run<Op>): int {
    match r
    case Start => 0
    case Then(before, op) =>
      Outstanding(before) + if op.Begin? then 1 else if op.Finish? || op.Fail? then -1 else 0
  }

  ghost function CountFast(s: seq<real>, fastMs: real): nat {
    if |s| == 0 then 0
    else CountFast(s[..|s| - 1], fastMs) + if s[|s| - 1] <= fastMs then 1 else 0
  }

  /** The last response of kind `m` since the last recycle. */
  ghost function LastFinish(r: Run<Op>, m: Measurement): Option<Op> {
    match r
    case Start => None
    case Then(before, op) =>
      if op.Recycle? then None else if op.Finish? && op.m == m then Some(op) else LastFinish(before, m)
  }

  /** The numbers of a profile are those of its window, and of the last response. */
  ghost predicate Describes(p: Profile, samples: seq<real>, last: Option<Op>) {
    && p.samples == samples
    && (if samples == [] then p.median.None? && p.tail.None?
        else && p.median.Some? && HalvesAt(samples, p.median.value)
             && p.tail.Some? && TailsAt(samples, p.tail.value))
    && (if last.Some? && last.value.Finish?
        then p.last == Some(last.value.at - last.value.started) && p.lastAt == Some(last.value.at)
        else p.last.None? && p.lastAt.None?)
  }

  /** In the samples' own terms: over any run the median, the tail, the last round trip and its
      time are those of the last `window` round trips recorded since the last recycle. */
  lemma ProfilesDescribeWindows(o: Options, id: int, birth: real, r: Run<Op>, m: Measurement)
    requires o.window >= 1
    ensures Describes(After(o, id, birth, r).profiles.Of(m), Last(Recent(r, m), o.window), LastFinish(r, m))
  {
    hide Last, HalvesAt, TailsAt, MedianOf, TailOf, After;
    ProfilesAreWindows(o, id, birth, r, m);
    LastIsFinish(o, id, birth, r, m);
    var samples := Last(Recent(r, m), o.window);
    if samples != [] { RanksCount(samples); } else { NoRanks(); }
  }

  lemma NoRanks()
    ensures MedianOf([]).None? && TailOf([]).None?
  {
  }

  lemma {:induction false} LastIsFinish(o: Options, id: int, birth: real, r: Run<Op>, m: Measurement)
    ensures var p, last := After(o, id, birth, r).profiles.Of(m), LastFinish(r, m);
            if last.Some? && last.value.Finish?
            then p.last == Some(last.value.at - last.value.started) && p.lastAt == Some(last.value.at)
            else p.last.None? && p.lastAt.None?
  {
    hide MedianOf, TailOf, Pushed, Scored;
    if r.Then? { LastIsFinish(o, id, birth, r.before, m); }
  }

  /** A profile holds exactly the last `window` round trips of its kind recorded since
      the lane was last recycled, whatever else happened; its numbers are theirs. */
  lemma {:induction false} ProfilesAreWindows(o: Options, id: int, birth: real, r: Run<Op>, m: Measurement)
    requires o.window >= 1
    ensures var p := After(o, id, birth, r).profiles.Of(m);
            Settled(p) && p.samples == Last(Recent(r, m), o.window)
  {
    hide MedianOf, TailOf, Last;
    if r == Start || r.last.Recycle? {
      EmptyIsSettled(o.window);
    } else {
      ProfilesAreWindows(o, id, birth, r.before, m);
      if r.last.Finish? && r.last.m == m {
        PushKeepsLast(Recent(r.before, m), o.window, r.last.at - r.last.started);
      }
    }
  }

  lemma EmptyIsSettled(n: nat)
    ensures Settled(EMPTY) && Last([], n) == []
  {
  }

  /** Every send since the last recycle scored once: a rabbit exactly when it was fast,
      else a turtle or, with company, contended. And `inFlight` is what has begun less what
      has ended, across recycles; that only what has begun ends is the pool's doing. */
  lemma {:induction false} ScoresCountSends(o: Options, id: int, birth: real, r: Run<Op>)
    ensures var l := After(o, id, birth, r);
            && l.score.rabbits == CountFast(Recent(r, Send), o.fastMs)
            && l.score.rabbits + l.score.turtles + l.score.contendedSlow == |Recent(r, Send)|
            && l.inFlight == Outstanding(r)
  {
    hide CountFast, Step;
    CountNone(o.fastMs);
    if r.Then? {
      var l, sends := After(o, id, birth, r.before), Recent(r.before, Send);
      assert After(o, id, birth, r) == Step(o, l, r.last);
      ScoresCountSends(o, id, birth, r.before);
      hide After;
      StepScores(o, l, r.last);
      if r.last.Finish? { CountOneMore(sends, r.last.at - r.last.started, o.fastMs); }
    }
  }

  /** Replies over the threshold that had the lane to themselves, since the last recycle. */
  ghost function SlowAlone(r: Run<Op>, fastMs: real): nat {
    match r
    case Start => 0
    case Then(before, op) =>
      if op.Recycle? then 0
      else SlowAlone(before, fastMs)
           + if op.Finish? && op.m == Send && op.at - op.started > fastMs && !op.shared && Outstanding(before) <= 1
             then 1 else 0
  }

  /** Failures in a row since the last response or recycle. */
  ghost function FailuresInARow(r: Run<Op>): nat {
    match r
    case Start => 0
    case Then(before, op) =>
      if op.Recycle? || op.Finish? then 0 else FailuresInARow(before) + if op.Fail? then 1 else 0
  }

  /** A response came since the last recycle. */
  ghost predicate Heard(r: Run<Op>) {
    r.Then? && !r.last.Recycle? && (r.last.Finish? || Heard(r.before))
  }

  /** A turtle is a slow reply that was alone; with `ScoresCountSends` the other slow ones are
      those that had company. */
  lemma {:induction false} TurtlesWereAlone(o: Options, id: int, birth: real, r: Run<Op>)
    ensures var l := After(o, id, birth, r);
            && l.score.turtles == SlowAlone(r, o.fastMs) && l.failures == FailuresInARow(r)
            && (l.connected <==> Heard(r))
  {
    hide MedianOf, TailOf, Pushed;
    if r.Then? {
      TurtlesWereAlone(o, id, birth, r.before);
      ScoresCountSends(o, id, birth, r.before);
    }
  }

  lemma StepScores(o: Options, l: View, op: Op)
    ensures var l' := Step(o, l, op);
            && l'.inFlight == l.inFlight + (if op.Begin? then 1 else if op.Finish? || op.Fail? then -1 else 0)
            && (op.Recycle? ==> l'.score == Score(0, 0, 0))
            && (op.Begin? || op.Fail? || op.Drain? ==> l'.score == l.score)
            && (op.Finish? ==>
                  && l'.score.rabbits
                     == l.score.rabbits + (if op.m == Send && op.at - op.started <= o.fastMs then 1 else 0)
                  && l'.score.rabbits + l'.score.turtles + l'.score.contendedSlow
                     == l.score.rabbits + l.score.turtles + l.score.contendedSlow + (if op.m == Send then 1 else 0))
  {
    hide Recorded;
    if op.Finish? { RecordScores(o, l, op.m, op.at - op.started, op.shared || l.inFlight > 1, op.at); }
  }

  lemma CountNone(fastMs: real)
    ensures CountFast([], fastMs) == 0
  {
  }

  lemma CountOneMore(s: seq<real>, x: real, fastMs: real)
    ensures CountFast(s + [x], fastMs) == CountFast(s, fastMs) + if x <= fastMs then 1 else 0
  {
    assert (s + [x])[..|s + [x]| - 1] == s;
  }

  lemma RecordScores(o: Options, l: View, m: Measurement, rtt: real, contended: bool, now: real)
    ensures var l' := Recorded(o, l, m, rtt, contended, now);
            && l'.inFlight == l.inFlight
            && l'.score.rabbits == l.score.rabbits + (if m == Send && rtt <= o.fastMs then 1 else 0)
            && l'.score.rabbits + l'.score.turtles + l'.score.contendedSlow
            == l.score.rabbits + l.score.turtles + l.score.contendedSlow + (if m == Send then 1 else 0)
  {
    hide MedianOf, TailOf, Pushed;
  }
}
