/** The write-behind queue: writes are batched off the reply path, and under pressure the
    oldest go. An awaited flush is two steps, its start and its end. */
module WriteBehind {
  import opened Wrappers
  import opened Runs

  datatype Config = Config(batchSize: nat, maxQueued: nat) {
    /** The source throws a ConfigError otherwise. */
    predicate Valid() { 1 <= batchSize <= maxQueued }
  }

  /** Where a call of `close` stands: waiting for a flush it started when the queue held
      `before` items, about to look at the queue again, or finished. */
  datatype Closing = AwaitsFlush(before: nat) | LooksAgain(before: nat) | Done

  datatype Queue<T> = Queue(
    items: seq<T>, armed: bool, inFlight: Option<seq<T>>,
    written: nat, dropped: nat, flushes: nat, failures: nat, closed: bool, closers: seq<Closing>)

  function Armed<T>(q: Queue<T>): Queue<T> { if q.closed then q else q.(armed := true) }

  function Shorter(a: nat, b: nat): nat { if a < b then a else b }

  /** The start of `flushNow`. */
  function FlushStarted<T>(c: Config, q: Queue<T>): (r: Queue<T>)
    ensures r == q.(items := r.items, inFlight := r.inFlight, flushes := r.flushes)
    ensures q.inFlight.Some? ==> r == q
    ensures r != q ==> r.flushes == q.flushes + 1 && r.inFlight.Some?
  {
    if q.inFlight.Some? || |q.items| == 0 || c.batchSize == 0 then q
    else
      var n := Shorter(c.batchSize, |q.items|);
      q.(items := q.items[n..], inFlight := Some(q.items[..n]), flushes := q.flushes + 1)
  }

  /** The end of a flush wakes the close that waits for it. */
  function Woken(closers: seq<Closing>): (r: seq<Closing>)
    ensures |r| == |closers|
    ensures forall j | 0 <= j < |r| ::
              r[j] == if closers[j].AwaitsFlush? then LooksAgain(closers[j].before) else closers[j]
  {
    seq(|closers|, j requires 0 <= j < |closers| =>
      if closers[j].AwaitsFlush? then LooksAgain(closers[j].before) else closers[j])
  }

  function FlushEnded<T>(q: Queue<T>, ok: bool): Queue<T>
    requires q.inFlight.Some?
  {
    var q := if ok then q.(written := q.written + |q.inFlight.value|) else q.(failures := q.failures + 1);
    var q := q.(inFlight := None,
                closers := Woken(q.closers));
    if |q.items| > 0 then Armed(q) else q
  }

  /** The oldest item goes if the queue is over its cap. */
  function Pushed<T>(c: Config, q: Queue<T>, x: T): (r: Queue<T>)
    ensures r == q.(items := r.items, dropped := r.dropped)
  {
    var items := q.items + [x];
    if |items| > c.maxQueued then q.(items := items[1..], dropped := q.dropped + 1) else q.(items := items)
  }

  function Enqueued<T>(c: Config, q: Queue<T>, x: T): Queue<T> {
    if q.closed then q else
    var q := Pushed(c, q, x);
    if |q.items| >= c.batchSize then FlushStarted(c, q) else Armed(q)
  }

  function Fired<T>(c: Config, q: Queue<T>): Queue<T> { FlushStarted(c, q.(armed := false)) }

  /** One turn of the `j`-th close's loop, up to its `await`. */
  function CloseTurn<T>(c: Config, q: Queue<T>, j: nat): Queue<T>
    requires j < |q.closers|
  {
    if |q.items| == 0 then q.(closers := q.closers[j := Done])
    else if q.inFlight.Some? then q.(closers := q.closers[j := LooksAgain(|q.items|)])
    else FlushStarted(c, q).(closers := q.closers[j := AwaitsFlush(|q.items|)])
  }

  function CloseStarted<T>(c: Config, q: Queue<T>): Queue<T> {
    CloseTurn(c, q.(closed := true, armed := false, closers := q.closers + [Done]), |q.closers|)
  }

  predicate Looking<T>(q: Queue<T>, j: nat) { j < |q.closers| && q.closers[j].LooksAgain? }

  function CloseResumed<T>(c: Config, q: Queue<T>, j: nat): Queue<T>
    requires Looking(q, j)
  {
    if |q.items| >= q.closers[j].before then q.(closers := q.closers[j := Done]) else CloseTurn(c, q, j)
  }

  function Created<T>(): Queue<T> { Queue([], false, None, 0, 0, 0, 0, false, []) }

  class WriteBehindQueue<T> {
    const config: Config
    var items: seq<T>
    var armed: bool
    var inFlight: Option<seq<T>>
    var written: nat
    var dropped: nat
    var flushes: nat
    var failures: nat
    var closed: bool
    var closers: seq<Closing>

    function Now(): Queue<T>
      reads this
    {
      Queue(items, armed, inFlight, written, dropped, flushes, failures, closed, closers)
    }

    constructor (config: Config)
      requires config.Valid()
      ensures this.config == config && Now() == Created()
    {
      this.config := config;
      items, armed, inFlight, written, dropped, flushes, failures := [], false, None, 0, 0, 0, 0;
      closed, closers := false, [];
    }

    method Enqueue(x: T)
      modifies this`items, this`armed, this`inFlight, this`dropped, this`flushes
      ensures Now() == Enqueued(config, old(Now()), x)
    {
      if closed { return; }
      items := items + [x];
      if |items| > config.maxQueued {
        items := items[1..];
        dropped := dropped + 1;
      }
      if |items| >= config.batchSize {
        StartFlush();
        return;
      }
      Arm();
    }

    method StartFlush()
      modifies this`items, this`inFlight, this`flushes
      ensures Now() == FlushStarted(config, old(Now()))
    {
      if inFlight.Some? { return; }
      var n := Shorter(config.batchSize, |items|);
      var batch := items[..n];
      items := items[n..];
      if |batch| == 0 { return; }
      inFlight := Some(batch);
      flushes := flushes + 1;
    }

    method EndFlush(ok: bool)
      requires inFlight.Some?
      modifies this`inFlight, this`written, this`failures, this`armed, this`closers
      ensures Now() == FlushEnded(old(Now()), ok)
    {
      if ok { written := written + |inFlight.value|; } else { failures := failures + 1; }
      inFlight := None;
      closers := Woken(closers);
      if |items| > 0 { Arm(); }
    }

    method Fire()
      requires armed
      modifies this`armed, this`items, this`inFlight, this`flushes
      ensures Now() == Fired(config, old(Now()))
    {
      armed := false;
      StartFlush();
    }

    method Arm()
      modifies this`armed
      ensures Now() == Armed(old(Now()))
    {
      if armed || closed { return; }
      armed := true;
    }

    /** Called again, it closes again: another loop runs beside the first. */
    method Close()
      modifies this`closed, this`armed, this`closers, this`items, this`inFlight, this`flushes
      ensures Now() == CloseStarted(config, old(Now()))
    {
      closed := true;
      armed := false;
      closers := closers + [Done];
      TurnClose(|closers| - 1);
    }

    method TurnClose(j: nat)
      requires j < |closers|
      modifies this`closers, this`items, this`inFlight, this`flushes
      ensures Now() == CloseTurn(config, old(Now()), j)
    {
      closers := closers[j := Done];
      if |items| == 0 { return; }
      var before, busy := |items|, inFlight.Some?;
      StartFlush();
      closers := closers[j := if busy then LooksAgain(before) else AwaitsFlush(before)];
    }

    method ResumeClose(j: nat)
      requires Looking(Now(), j)
      modifies this`closers, this`items, this`inFlight, this`flushes
      ensures Now() == CloseResumed(config, old(Now()), j)
    {
      if |items| >= closers[j].before { closers := closers[j := Done]; return; }
      TurnClose(j);
    }
  }

  // ------------------------------------------------------------ runs

  datatype Op<T> = Enqueue(x: T) | FlushNow | Fire | EndFlush(ok: bool) | Close | ResumeClose(j: nat)

  ghost function Step<T>(c: Config, q: Queue<T>, op: Op<T>): Queue<T> {
    match op
    case Enqueue(x) => Enqueued(c, q, x)
    case FlushNow => FlushStarted(c, q)
    case Fire => if q.armed then Fired(c, q) else q
    case EndFlush(ok) => if q.inFlight.Some? then FlushEnded(q, ok) else q
    case Close => CloseStarted(c, q)
    case ResumeClose(j) => if Looking(q, j) then CloseResumed(c, q, j) else q
  }

  ghost function After<T>(c: Config, r: Run<Op<T>>): Queue<T> {
    match r
    case Start => Created()
    case Then(before, op) => Step(c, After(c, before), op)
  }

  /** What an item added to an open queue does, in numbers. A queue that is full loses its oldest. From a
      full batch on, and only then, a flush takes exactly one batch from the front at once, unless one
      is on its way; with less the timer is set. */
  lemma EnqueueRule<T>(c: Config, q: Queue<T>, x: T)
    requires c.Valid() && !q.closed && |q.items| <= c.maxQueued
    ensures var q', full := Step(c, q, Enqueue(x)), |q.items| == c.maxQueued;
            var kept := if full then q.items[1..] + [x] else q.items + [x];
            && q'.dropped == q.dropped + (if full then 1 else 0)
            && (|kept| >= c.batchSize && q.inFlight.None? ==>
                  && q'.inFlight == Some(kept[..c.batchSize]) && q'.items == kept[c.batchSize..]
                  && q'.flushes == q.flushes + 1)
            && (|kept| < c.batchSize || q.inFlight.Some? ==>
                  q'.items == kept && q'.inFlight == q.inFlight && q'.flushes == q.flushes)
            && (q'.armed <==> q.armed || |kept| < c.batchSize)
            && q'.written == q.written && q'.failures == q.failures && !q'.closed && q'.closers == q.closers
  {
    assert |q.items| == c.maxQueued ==> (q.items + [x])[1..] == q.items[1..] + [x];
  }

  /** What a timer or a call that asks for a flush does: unless one is on its way, the first `batchSize`
      items go, or all there are, if there is any. The timer is then off until it is set again. */
  lemma FlushRule<T>(c: Config, q: Queue<T>, op: Op<T>)
    requires c.Valid() && (op.FlushNow? || (op.Fire? && q.armed))
    ensures var q' := Step(c, q, op);
            && (q.inFlight.None? && q.items != [] ==>
                  && q'.inFlight.Some? && q'.inFlight.value + q'.items == q.items
                  && (|q'.inFlight.value| == c.batchSize || (q'.items == [] && |q.items| < c.batchSize))
                  && q'.flushes == q.flushes + 1)
            && (q.inFlight.Some? || q.items == [] ==>
                  q'.items == q.items && q'.inFlight == q.inFlight && q'.flushes == q.flushes)
            && (q'.armed <==> q.armed && !op.Fire?)
            && q'.written == q.written && q'.failures == q.failures && q'.dropped == q.dropped
  {
  }

  /** What the end of a flush does: a batch that was written is counted item by item, one that was not
      is a failure and is given up; and an open queue that is not empty sets the timer. */
  lemma EndRule<T>(c: Config, q: Queue<T>, ok: bool)
    requires q.inFlight.Some?
    ensures var q' := Step(c, q, EndFlush(ok));
            && q'.inFlight == None && q'.items == q.items && q'.flushes == q.flushes && q'.dropped == q.dropped
            && q'.written == q.written + (if ok then |q.inFlight.value| else 0)
            && q'.failures == q.failures + (if ok then 0 else 1)
            && (q'.armed <==> q.armed || (q.items != [] && !q.closed))
            && q'.closed == q.closed
  {
  }

  /** A closed queue takes nothing more. */
  lemma ClosedRule<T>(c: Config, q: Queue<T>, x: T)
    ensures q.closed ==> Step(c, q, Enqueue(x)) == q
    ensures Step(c, q, Close).closed && !Step(c, q, Close).armed
  {
  }

  /** What left the queue, in order: dropped from its front, or taken into a batch. */
  datatype Left<T> = Left(item: T, taken: bool)

  ghost function Items<T>(s: seq<Left<T>>): seq<T> { seq(|s|, i requires 0 <= i < |s| => s[i].item) }

  ghost function Marked<T>(s: seq<T>, taken: bool): seq<Left<T>> {
    seq(|s|, i requires 0 <= i < |s| => Left(s[i], taken))
  }

  /** What a step from `q` to `q'` removed: an item dropped from the front, counted as
      dropped, then a batch taken, counted as a flush. */
  ghost function Dropped<T>(q: Queue<T>, op: Op<T>, q': Queue<T>): seq<Left<T>> {
    if op.Enqueue? && q'.dropped > q.dropped then Marked((q.items + [op.x])[..1], false) else []
  }

  ghost function Taken<T>(q: Queue<T>, q': Queue<T>): seq<Left<T>> {
    if q'.flushes > q.flushes && q'.inFlight.Some? then Marked(q'.inFlight.value, true) else []
  }

  ghost function Removed<T>(c: Config, q: Queue<T>, op: Op<T>): seq<Left<T>> {
    Dropped(q, op, Step(c, q, op)) + Taken(q, Step(c, q, op))
  }

  ghost function In<T>(q: Queue<T>, op: Op<T>): seq<T> { if op.Enqueue? && !q.closed then [op.x] else [] }

  ghost function Accepted<T>(c: Config, r: Run<Op<T>>): seq<T> {
    match r
    case Start => []
    case Then(before, op) =>
      Accepted(c, before) + In(After(c, before), op)
  }

  ghost function Gone<T>(c: Config, r: Run<Op<T>>): seq<Left<T>> {
    match r
    case Start => []
    case Then(before, op) => Gone(c, before) + Removed(c, After(c, before), op)
  }

  /** Items of batches whose flush failed: they are not queued again. */
  ghost function Lost<T>(c: Config, r: Run<Op<T>>): nat {
    match r
    case Start => 0
    case Then(before, op) =>
      Lost(c, before) + LostBy(After(c, before), op)
  }

  ghost function Ended<T>(c: Config, r: Run<Op<T>>): nat {
    match r
    case Start => 0
    case Then(before, op) =>
      Ended(c, before) + if op.EndFlush? && After(c, before).inFlight.Some? then 1 else 0
  }

  ghost function LostBy<T>(q: Queue<T>, op: Op<T>): nat {
    if op == EndFlush(false) && q.inFlight.Some? then |q.inFlight.value| else 0
  }

  /** The items of the batch on its way. */
  ghost function Held<T>(q: Queue<T>): nat { if q.inFlight.Some? then |q.inFlight.value| else 0 }

  ghost function CountTaken<T>(s: seq<Left<T>>, taken: bool): nat {
    if |s| == 0 then 0 else (if s[|s| - 1].taken == taken then 1 else 0) + CountTaken(s[..|s| - 1], taken)
  }

  lemma {:induction false} CountJoins<T>(a: seq<Left<T>>, b: seq<Left<T>>, taken: bool)
    ensures CountTaken(a + b, taken) == CountTaken(a, taken) + CountTaken(b, taken)
  {
    if |b| == 0 {
      assert a + b == a;
    } else {
      assert (a + b)[..|a + b| - 1] == a + b[..|b| - 1];
      CountJoins(a, b[..|b| - 1], taken);
    }
  }

  lemma {:induction false} CountMarked<T>(s: seq<T>, mark: bool)
    ensures CountTaken(Marked(s, mark), mark) == |s| && CountTaken(Marked(s, mark), !mark) == 0
  {
    if |s| > 0 {
      assert Marked(s, mark)[..|s| - 1] == Marked(s[..|s| - 1], mark);
      CountMarked(s[..|s| - 1], mark);
    }
  }

  lemma ItemsJoin<T>(a: seq<Left<T>>, b: seq<Left<T>>)
    ensures Items(a + b) == Items(a) + Items(b)
  {
  }

  lemma ItemsMarked<T>(s: seq<T>, taken: bool)
    ensures Items(Marked(s, taken)) == s
  {
  }

  lemma NoItems<T>()
    ensures Items<T>([]) == []
  {
  }

  lemma FlushTakesFront<T>(c: Config, q: Queue<T>)
    requires c.Valid()
    ensures var q' := FlushStarted(c, q);
            && q.items == Items(Taken(q, q')) + q'.items
            && CountTaken(Taken(q, q'), false) == 0
            && CountTaken(Taken(q, q'), true) == (if q' == q then 0 else |q'.inFlight.value|)
  {
    var q' := FlushStarted(c, q);
    NoItems<T>();
    if q' != q {
      hide CountTaken;
      ItemsMarked(q'.inFlight.value, true);
      CountMarked(q'.inFlight.value, true);
    }
  }

  lemma PushDropsFront<T>(c: Config, q: Queue<T>, x: T)
    requires c.Valid()
    ensures var q1 := Pushed(c, q, x);
            && q.items + [x] == Items(Dropped(q, Op.Enqueue(x), q1)) + q1.items
            && CountTaken(Dropped(q, Op.Enqueue(x), q1), true) == 0
            && CountTaken(Dropped(q, Op.Enqueue(x), q1), false) == q1.dropped - q.dropped
  {
    NoItems<T>();
    var items := q.items + [x];
    if |items| > c.maxQueued {
      hide CountTaken;
      assert items == items[..1] + items[1..];
      ItemsMarked(items[..1], false);
      CountMarked(items[..1], false);
    }
  }

  /** One step: what was queued, plus what came in, is what left plus what is queued; and
      the counters agree with what left. */
  ghost predicate Accounted<T>(q: Queue<T>, op: Op<T>, q': Queue<T>) {
    var gone := Dropped(q, op, q') + Taken(q, q');
    && q.items + In(q, op) == Items(gone) + q'.items
    && CountTaken(gone, false) == q'.dropped - q.dropped
    && q'.written + Held(q') + LostBy(q, op) == q.written + Held(q) + CountTaken(gone, true)
  }

  lemma EnqueueAccounts<T>(c: Config, q: Queue<T>, x: T)
    requires c.Valid() && !q.closed
    ensures Accounted(q, Op.Enqueue(x), Enqueued(c, q, x))
  {
    hide Items, Marked, FlushStarted, Pushed, CountTaken;
    var q', op, q1 := Enqueued(c, q, x), Op<T>.Enqueue(x), Pushed(c, q, x);
    var dropped, taken := Dropped(q, op, q'), Taken(q, q');
    assert dropped == Dropped(q, op, q1);
    ItemsJoin(dropped, taken);
    CountJoins(dropped, taken, true);
    CountJoins(dropped, taken, false);
    PushDropsFront(c, q, x);
    if |q1.items| >= c.batchSize {
      FlushTakesFront(c, q1);
      assert taken == Taken(q1, q');
    } else {
      NoneTaken<T>();
    }
  }

  lemma NoneTaken<T>()
    ensures Items<T>([]) == [] && CountTaken<T>([], true) == 0 && CountTaken<T>([], false) == 0
  {
  }

  lemma FlushAccounts<T>(c: Config, q: Queue<T>, op: Op<T>, q': Queue<T>)
    requires c.Valid() && !op.Enqueue? && !op.EndFlush?
    requires q' == q.(closed := q'.closed, armed := q'.armed, closers := q'.closers)
             || q' == FlushStarted(c, q).(closed := q'.closed, armed := q'.armed, closers := q'.closers)
    ensures Accounted(q, op, q')
  {
    hide Items, Marked, FlushStarted, CountTaken;
    FlushTakesFront(c, q);
    NoneTaken<T>();
    var taken := Taken(q, q');
    assert [] + taken == taken;
    assert q.items + [] == q.items;
  }

  lemma StepAccounts<T>(c: Config, q: Queue<T>, op: Op<T>)
    requires c.Valid()
    ensures Accounted(q, op, Step(c, q, op))
  {
    if op.Enqueue? && !q.closed {
      hide Accounted, Enqueued;
      EnqueueAccounts(c, q, op.x);
    } else if op.Enqueue? || op.EndFlush? {
      hide Items, Marked, CountTaken;
      NoneTaken<T>();
    } else {
      hide Accounted;
      FlushAccounts(c, q, op, Step(c, q, op));
    }
  }

  lemma Rejoin<T>(accepted: seq<T>, gone: seq<T>, items: seq<T>, more: seq<T>, removed: seq<T>, left: seq<T>)
    requires accepted == gone + items && items + more == removed + left
    ensures accepted + more == gone + removed + left
  {
    assert gone + items + more == gone + (items + more);
    assert gone + (removed + left) == gone + removed + left;
  }

  /** Order: everything accepted has left the queue from its front, or is still in it, in
      the order in which it came. */
  lemma {:induction false} OrderIsKept<T>(c: Config, r: Run<Op<T>>)
    requires c.Valid()
    ensures Accepted(c, r) == Items(Gone(c, r)) + After(c, r).items
  {
    if r.Then? {
      hide Step, Items, Dropped, Taken, CountTaken;
      var q, op := After(c, r.before), r.last;
      OrderIsKept(c, r.before);
      StepAccounts(c, q, op);
      ItemsJoin(Gone(c, r.before), Removed(c, q, op));
      Rejoin(Accepted(c, r.before), Items(Gone(c, r.before)), q.items,
             In(q, op), Items(Removed(c, q, op)), Step(c, q, op).items);
    } else {
      NoneTaken<T>();
    }
  }

  /** Conservation: each item accepted was written, lost with a failed batch, or dropped, or
      is on its way or in the queue; and each flush has ended but for the one on its way. */
  lemma {:induction false} NothingIsMissing<T>(c: Config, r: Run<Op<T>>)
    requires c.Valid()
    ensures var q := After(c, r);
            && |Accepted(c, r)| == q.written + Lost(c, r) + q.dropped + Held(q) + |q.items|
            && q.dropped == CountTaken(Gone(c, r), false)
            && q.written + Lost(c, r) + Held(q) == CountTaken(Gone(c, r), true)
            && q.flushes == Ended(c, r) + if q.inFlight.Some? then 1 else 0
  {
    OrderIsKept(c, r);
    CountsAll(Gone(c, r));
    CountersAgree(c, r);
  }

  lemma {:induction false} CountsAll<T>(s: seq<Left<T>>)
    ensures CountTaken(s, true) + CountTaken(s, false) == |s| == |Items(s)|
  {
    if |s| > 0 { CountsAll(s[..|s| - 1]); }
  }

  lemma {:induction false} CountersAgree<T>(c: Config, r: Run<Op<T>>)
    requires c.Valid()
    ensures var q := After(c, r);
            && q.dropped == CountTaken(Gone(c, r), false)
            && q.written + Lost(c, r) + Held(q) == CountTaken(Gone(c, r), true)
            && q.flushes == Ended(c, r) + if q.inFlight.Some? then 1 else 0
  {
    if r.Then? {
      hide Step, Items, Dropped, Taken, CountTaken, Held, LostBy;
      var q, op := After(c, r.before), r.last;
      CountersAgree(c, r.before);
      StepAccounts(c, q, op);
      CountJoins(Gone(c, r.before), Removed(c, q, op), true);
      CountJoins(Gone(c, r.before), Removed(c, q, op), false);
      StepCountsFlushes(c, q, op);
    }
  }

  lemma StepCountsFlushes<T>(c: Config, q: Queue<T>, op: Op<T>)
    ensures var q' := Step(c, q, op);
            q'.flushes - q.flushes == (if op.EndFlush? && q.inFlight.Some? then 1 else 0)
              + (if q'.inFlight.Some? then 1 else 0) - (if q.inFlight.Some? then 1 else 0)
  {
  }

  // ------------------------------------------------------------ bounds and progress

  /** The queue is bounded, a batch is never empty nor too big, and a waiting item has a
      flush or a timer to wait for. */
  ghost predicate Alive<T>(c: Config, q: Queue<T>) {
    && |q.items| <= c.maxQueued
    && (q.inFlight.Some? ==> 1 <= |q.inFlight.value| <= c.batchSize)
    && (q.items != [] && !q.closed ==> q.inFlight.Some? || q.armed)
    && (q.closed ==> !q.armed)
    && (q.closers != [] ==> q.closed)
  }

  lemma StepKeepsAlive<T>(c: Config, q: Queue<T>, op: Op<T>)
    requires c.Valid() && Alive(c, q)
    ensures Alive(c, Step(c, q, op))
  {
  }

  lemma {:induction false} RunsAreAlive<T>(c: Config, r: Run<Op<T>>)
    requires c.Valid()
    ensures Alive(c, After(c, r))
  {
    if r.Then? {
      hide Step, Alive;
      RunsAreAlive(c, r.before);
      StepKeepsAlive(c, After(c, r.before), r.last);
    }
  }

  // ------------------------------------------------------------ closing

  /** `r` is `r0`, then a close, then no call of `flushNow` from outside. There may be
      further closes. */
  ghost predicate Closes<T>(r0: Run<Op<T>>, r: Run<Op<T>>) {
    r.Then? && if r.before == r0 then r.last.Close? else !r.last.FlushNow? && Closes(r0, r.before)
  }

  ghost predicate AllDone<T>(q: Queue<T>) { forall j | 0 <= j < |q.closers| :: q.closers[j] == Done }

  ghost predicate Awaits<T>(q: Queue<T>, j: nat) {
    j < |q.closers| && q.closers[j].AwaitsFlush? && |q.items| < q.closers[j].before
  }

  ghost predicate GoesOn<T>(q: Queue<T>, j: nat) { Looking(q, j) && |q.items| < q.closers[j].before }

  /** Some close makes headway: it waits for the flush on its way, or it will find the queue
      shorter than it was. */
  ghost predicate Draining<T>(q: Queue<T>) {
    && q.closed && !q.armed
    && (q.inFlight.Some? ==> exists j :: Awaits(q, j))
    && (q.inFlight.None? && q.items != [] ==> exists j :: GoesOn(q, j))
  }

  /** The queue has nothing left, or will have. */
  ghost predicate Empties<T>(q: Queue<T>) { Draining(q) || (q.closed && !q.armed && q.items == []) }

  lemma TurnDrains<T>(c: Config, q: Queue<T>, j: nat)
    requires c.Valid() && q.closed && !q.armed && j < |q.closers|
    requires q.inFlight.Some? ==> exists i :: i != j && Awaits(q, i)
    ensures Draining(CloseTurn(c, q, j))
  {
    var q' := CloseTurn(c, q, j);
    if q.inFlight.Some? {
      var i :| i != j && Awaits(q, i);
      assert Awaits(q', i);
    } else if |q.items| > 0 {
      assert Awaits(q', j);
    }
  }

  lemma StepDrains<T>(c: Config, q: Queue<T>, op: Op<T>)
    requires c.Valid() && Draining(q) && !op.FlushNow?
    ensures Draining(Step(c, q, op))
  {
    match op {
      case EndFlush(ok) =>
        if q.inFlight.Some? {
          var j :| Awaits(q, j);
          assert GoesOn(Step(c, q, op), j);
        }
      case Close => CloseDrains(c, q);
      case ResumeClose(j) => if Looking(q, j) { ResumeDrains(c, q, j); }
      case _ =>
    }
  }

  lemma CloseDrains<T>(c: Config, q: Queue<T>)
    requires c.Valid() && (Draining(q) || q.inFlight.None?)
    ensures Draining(CloseStarted(c, q))
  {
    var q1 := q.(closed := true, armed := false, closers := q.closers + [Done]);
    if q.inFlight.Some? {
      var i :| Awaits(q, i);
      assert Awaits(q1, i);
    }
    TurnDrains(c, q1, |q.closers|);
  }

  lemma ResumeDrains<T>(c: Config, q: Queue<T>, j: nat)
    requires c.Valid() && Draining(q) && Looking(q, j)
    ensures Draining(CloseResumed(c, q, j))
  {
    var q' := CloseResumed(c, q, j);
    if q.inFlight.Some? {
      var i :| Awaits(q, i);
      assert i != j && Awaits(q, i);
      if |q.items| >= q.closers[j].before { assert Awaits(q', i); } else { TurnDrains(c, q, j); }
    } else if |q.items| >= q.closers[j].before {
      if q.items != [] {
        var i :| GoesOn(q, i);
        assert GoesOn(q', i);
      }
    } else {
      TurnDrains(c, q, j);
    }
  }

  lemma StepEmpties<T>(c: Config, q: Queue<T>, op: Op<T>)
    requires c.Valid() && Empties(q) && !op.FlushNow?
    ensures Empties(Step(c, q, op))
  {
    if Draining(q) {
      hide Step, Draining;
      StepDrains(c, q, op);
    } else {
      hide Draining;
    }
  }

  /** Some close since `r0` found no flush on its way, or nothing to write. */
  ghost predicate FoundFree<T>(c: Config, r0: Run<Op<T>>, r: Run<Op<T>>)
    requires Closes(r0, r)
  {
    || (r.last.Close? && (After(c, r.before).inFlight.None? || After(c, r.before).items == []))
    || (r.before != r0 && FoundFree(c, r0, r.before))
  }

  /** After a close that finds no flush on its way, or nothing to write, the queue empties:
      when every close is done, nothing is left. */
  lemma {:induction false} CloseEmptiesTheQueue<T>(c: Config, r0: Run<Op<T>>, r: Run<Op<T>>)
    requires c.Valid() && Closes(r0, r) && FoundFree(c, r0, r)
    ensures Empties(After(c, r))
    ensures AllDone(After(c, r)) ==> After(c, r).items == []
  {
    var q := After(c, r.before);
    if r.last.Close? && (q.inFlight.None? || q.items == []) {
      if q.inFlight.None? { CloseDrains(c, q); }
    } else {
      hide Step, Empties;
      CloseEmptiesTheQueue(c, r0, r.before);
      StepEmpties(c, q, r.last);
    }
    hide After;
  }

  /** The other case: closes that each find a flush on its way and items behind it give up at
      once, and those items stay where they are for good. */
  ghost predicate Stranded<T>(q: Queue<T>, items: seq<T>) {
    && q.closed && !q.armed && q.items == items
    && forall j | 0 <= j < |q.closers| :: q.closers[j] == Done || q.closers[j] == LooksAgain(|items|)
  }

  lemma StepLeavesStranded<T>(c: Config, q: Queue<T>, op: Op<T>, items: seq<T>)
    requires c.Valid() && Stranded(q, items) && !op.FlushNow?
    requires op.Close? ==> q.inFlight.Some? && q.items != []
    ensures Stranded(Step(c, q, op), items)
  {
  }

  lemma {:induction false} CloseStrandsTheQueue<T>(c: Config, r0: Run<Op<T>>, r: Run<Op<T>>)
    requires c.Valid() && Closes(r0, r) && After(c, r0).closers == [] && !FoundFree(c, r0, r)
    ensures Stranded(After(c, r), After(c, r0).items) && After(c, r0).items != []
  {
    if r.before != r0 {
      hide Step;
      CloseStrandsTheQueue(c, r0, r.before);
      StepLeavesStranded(c, After(c, r.before), r.last, After(c, r0).items);
    }
  }

  /** So, from the first close on: when every close is done, the queue is empty exactly when
      one of them found no flush on its way, or nothing to write. */
  lemma CloseEmptiesIff<T>(c: Config, r0: Run<Op<T>>, r: Run<Op<T>>)
    requires c.Valid() && Closes(r0, r) && !After(c, r0).closed && AllDone(After(c, r))
    ensures After(c, r).items == [] <==> FoundFree(c, r0, r)
  {
    RunsAreAlive(c, r0);
    if FoundFree(c, r0, r) { CloseEmptiesTheQueue(c, r0, r); } else { CloseStrandsTheQueue(c, r0, r); }
  }

  /** An input that strands an item: batches of one, two items, and a close. The first flush
      is on its way, the close gives up, and the second item is never flushed. */
  lemma CloseStrandsOne<T>(x: T, y: T, ok: bool)
    ensures var c := Config(1, 2);
            var r := Then(Then(Start, Op.Enqueue(x)), Op.Enqueue(y));
            var closed := Then(Then(Then(r, Op.Close), Op.ResumeClose(0)), Op.EndFlush(ok));
            && After(c, r).inFlight == Some([x]) && After(c, r).items == [y]
            && Closes(r, closed) && AllDone(After(c, closed))
            && After(c, closed).inFlight.None? && After(c, closed).items == [y]
  {
    var c := Config(1, 2);
    var r1 := Then(Start, Op.Enqueue(x));
    assert [] + [x] == [x] && [x][..1] == [x] && [x][1..] == [];
    assert After(c, Start) == Created<T>();
    assert Pushed(c, Created<T>(), x).items == [x];
    assert After(c, r1) == Queue([], false, Some([x]), 0, 0, 1, 0, false, []);
    var r2 := Then(r1, Op.Enqueue(y));
    assert After(c, r2) == Queue([y], false, Some([x]), 0, 0, 1, 0, false, []);
    var r3 := Then(r2, Op<T>.Close);
    assert After(c, r3) == After(c, r2).(closed := true, closers := [LooksAgain(1)]);
    var r4 := Then(r3, Op<T>.ResumeClose(0));
    assert After(c, r4) == After(c, r3).(closers := [Done]);
  }
}
