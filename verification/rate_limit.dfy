/** The per-(bot, room) token bucket: its rate bound, its recovery, and the exact
    condition under which forgetting idle buckets cannot be noticed. Tokens are
    reals; times are whole milliseconds. */
module RateLimit {
  import opened Wrappers
  import opened TtlMap
  import opened Sets
  import opened Runs
  import Claims

  datatype Bucket = Bucket(tokens: real, lastRefillMs: int)

  datatype Limits = Limits(capacity: int, refillPerMs: real, rooms: Config) {
    predicate Valid() { capacity >= 1 && refillPerMs > 0.0 && rooms.Valid() }
  }

  type Buckets = Store<Bucket>

  function Min(a: real, b: real): real { if a <= b then a else b }

  /** What a bucket earns in `ms` milliseconds. */
  function Earned(l: Limits, ms: int): real { ms as real * l.refillPerMs }

  function Refill(l: Limits, existing: Option<Bucket>, now: int): Bucket {
    match existing
    case None => Bucket(l.capacity as real, now)
    case Some(b) =>
      var elapsed := if now - b.lastRefillMs > 0 then now - b.lastRefillMs else 0;
      Bucket(Min(l.capacity as real, b.tokens + Earned(l, elapsed)), now)
  }

  /** One bucket asked for one token. */
  function Spend(l: Limits, existing: Option<Bucket>, now: int): (Bucket, bool) {
    var b := Refill(l, existing, now);
    if b.tokens >= 1.0 then (b.(tokens := b.tokens - 1.0), true) else (b, false)
  }

  function Admitted(l: Limits, s: Buckets, key: string, now: int): (Buckets, bool) {
    var (next, admitted) := Spend(l, Live(s, key, now), now);
    (Put(l.rooms, Touch(s, key, now), key, next, now), admitted)
  }

  class RateLimiter {
    const limits: Limits
    const buckets: BoundedTtlMap<Bucket>

    /** The source throws for any other limits: a ConfigError for capacity and refill, a
        RangeError from the map for the number of rooms and the idle TTL. */
    constructor (limits: Limits)
      requires limits.Valid()
      ensures this.limits == limits && fresh(buckets) && buckets.config == limits.rooms && buckets.entries == []
    {
      this.limits := limits;
      this.buckets := new BoundedTtlMap<Bucket>(limits.rooms);
    }

    method TryAdmit(bot: string, room: string, now: int) returns (admitted: bool)
      requires buckets.config == limits.rooms
      modifies buckets
      ensures (buckets.entries, admitted)
           == Admitted(limits, old(buckets.entries), Claims.ClaimKey([bot, room]), now)
    {
      var key := bot + [Claims.SEP] + room;
      assert Claims.ClaimKey([bot, room][1..]) == room;
      var existing := buckets.Get(key, now);
      var refilled := Refill(limits, existing, now);
      admitted := refilled.tokens >= 1.0;
      var next := if admitted then Bucket(refilled.tokens - 1.0, refilled.lastRefillMs) else refilled;
      buckets.Set(key, next, now);
    }
  }

  // ------------------------------------------------------------ one bucket that is never forgotten

  datatype Ask = Ask(key: string, at: int)

  ghost predicate InOrder(r: Run<Ask>, now: int) {
    r.Then? ==> r.last.at <= now && InOrder(r.before, r.last.at)
  }

  /** The limiter of the source after a run. */
  ghost function After(l: Limits, r: Run<Ask>): Buckets {
    match r
    case Start => []
    case Then(before, ask) => Admitted(l, After(l, before), ask.key, ask.at).0
  }

  ghost predicate Admits(l: Limits, r: Run<Ask>)
    requires r.Then?
  {
    Admitted(l, After(l, r.before), r.last.key, r.last.at).1
  }

  /** The reference: the bucket of `k` alone, kept for ever. */
  ghost function Ideal(l: Limits, r: Run<Ask>, k: string): Option<Bucket> {
    match r
    case Start => None
    case Then(before, ask) =>
      if ask.key == k then Some(Spend(l, Ideal(l, before, k), ask.at).0) else Ideal(l, before, k)
  }

  ghost predicate IdealAdmits(l: Limits, r: Run<Ask>)
    requires r.Then?
  {
    Spend(l, Ideal(l, r.before, r.last.key), r.last.at).1
  }

  /** The other keys asked for since `k` was last asked for, if it ever was. */
  ghost function OthersSince(r: Run<Ask>, k: string): set<string> {
    match r
    case Start => {}
    case Then(before, ask) =>
      if ask.key == k || !Asked(before, k) then {} else OthersSince(before, k) + {ask.key}
  }

  ghost predicate Asked(r: Run<Ask>, k: string) {
    r.Then? && (r.last.key == k || Asked(r.before, k))
  }

  /** The tokens the reference bucket would have. */
  ghost function Level(l: Limits, r: Run<Ask>, k: string, now: int): real {
    Refill(l, Ideal(l, r, k), now).tokens
  }

  /** Other keys have not filled the map since `k` was last asked for, or only to crowd out a
      bucket that would be full again by now. */
  ghost predicate Unmissed(l: Limits, r: Run<Ask>, k: string, now: int) {
    |OthersSince(r, k)| < l.rooms.maxEntries || Level(l, r, k, now) == l.capacity as real
  }

  /** That was so whenever `k` was asked for. */
  ghost predicate NeverMissed(l: Limits, r: Run<Ask>, k: string) {
    r.Then? ==> NeverMissed(l, r.before, k) && (r.last.key == k ==> Unmissed(l, r.before, k, r.last.at))
  }

  /** A bucket idle for the whole TTL would be full again. */
  ghost predicate TtlRefills(l: Limits) {
    Earned(l, l.rooms.ttlMs) >= l.capacity as real
  }

  lemma Earnings(l: Limits, a: int, b: int)
    requires l.Valid() && a <= b
    ensures Earned(l, 0) == 0.0
    ensures Earned(l, a) <= Earned(l, b)
    ensures Earned(l, b) == Earned(l, a) + Earned(l, b - a)
  {
    assert b as real * l.refillPerMs == a as real * l.refillPerMs + (b - a) as real * l.refillPerMs;
    ProductNonNegative((b - a) as real, l.refillPerMs);
  }

  lemma ProductNonNegative(x: real, y: real)
    requires x >= 0.0 && y >= 0.0
    ensures x * y >= 0.0
  {
  }

  lemma {:induction false} IdealIsBounded(l: Limits, r: Run<Ask>, k: string, now: int)
    requires l.Valid() && InOrder(r, now)
    ensures Ideal(l, r, k).Some? <==> Asked(r, k)
    ensures Ideal(l, r, k).Some? ==>
              var b := Ideal(l, r, k).value; 0.0 <= b.tokens <= l.capacity as real && b.lastRefillMs <= now
  {
    hide Earned;
    if r.Then? {
      IdealIsBounded(l, r.before, k, r.last.at);
      if Ideal(l, r.before, k).Some? { Earnings(l, 0, r.last.at - Ideal(l, r.before, k).value.lastRefillMs); }
    }
  }

  /** The stored bucket of `k` is the reference bucket, expired or not, until the other keys
      asked for since have filled the map. */
  ghost predicate Agrees(l: Limits, s: Buckets, ideal: Option<Bucket>, k: string, others: set<string>) {
    match ideal
    case None => k !in Keys(s)
    case Some(b) =>
      && HoldsExactly(l.rooms, s, k, b.lastRefillMs + l.rooms.ttlMs, others)
      && (k in Keys(s) ==> Find(s, k).value.value == b)
  }

  /** An expired bucket and the reference bucket refill to the same thing; and so does a
      bucket crowded out, if the reference bucket is full. */
  lemma SameSpend(l: Limits, s: Buckets, ideal: Option<Bucket>, k: string, others: set<string>, now: int)
    requires l.Valid() && TtlRefills(l) && Agrees(l, s, ideal, k, others)
    requires ideal.Some? ==> 0.0 <= ideal.value.tokens
    requires |others| < l.rooms.maxEntries || Refill(l, ideal, now).tokens == l.capacity as real
    ensures Spend(l, Live(s, k, now), now) == Spend(l, ideal, now)
  {
    hide Earned;
    if ideal.Some? && ideal.value.lastRefillMs + l.rooms.ttlMs <= now {
      Earnings(l, l.rooms.ttlMs, now - ideal.value.lastRefillMs);
    }
  }

  lemma OtherAskAgrees(
      l: Limits, s: Buckets, o: string, now: int, ideal: Option<Bucket>, k: string, others: set<string>)
    requires l.Valid() && Distinct(s) && |s| <= l.rooms.maxEntries && o != k
    requires Agrees(l, s, ideal, k, others)
    ensures Agrees(l, Admitted(l, s, o, now).0, ideal, k, others + {o})
  {
    hide Put, Keys, Find, Distinct, Spend, Without, Live, HoldsExactly;
    var v := Spend(l, Live(s, o, now), now).0;
    match ideal
    case None => PutAddsOneKey(l.rooms, Touch(s, o, now), o, v, now);
    case Some(b) =>
      var deadline := b.lastRefillMs + l.rooms.ttlMs;
      OtherUseHoldsExactly(l.rooms, s, o, v, now, k, deadline, others);
      HeldKey(l.rooms, s, k, deadline, others);
      HeldKey(l.rooms, Admitted(l, s, o, now).0, k, deadline, others + {o});
      SubsetSize(others, others + {o});
  }

  lemma HeldKey(c: Config, s: Buckets, k: string, deadline: int, others: set<string>)
    requires HoldsExactly(c, s, k, deadline, others)
    ensures k in Keys(s) <==> |others| < c.maxEntries
  {
  }

  lemma OwnAskAgrees(l: Limits, s: Buckets, k: string, now: int)
    requires l.Valid()
    ensures Agrees(l, Admitted(l, s, k, now).0, Some(Spend(l, Live(s, k, now), now).0), k, {})
  {
    hide Put, Touch, Live, HoldsExactly;
    var b := Spend(l, Live(s, k, now), now).0;
    WriteIsHeldExactly(l.rooms, Touch(s, k, now), k, b, now);
    WriteIsNewest(l.rooms, Touch(s, k, now), k, b, now);
  }

  lemma AskKeepsSound(l: Limits, s: Buckets, key: string, at: int, now: int)
    requires l.Valid() && Sound(l.rooms, s, at) && at <= now
    ensures Sound(l.rooms, Admitted(l, s, key, at).0, now)
  {
    hide Touch, Put, Live, Distinct, ByExpiry, Spend;
    RemovalsKeepSound(l.rooms, s, key, at, at);
    PutKeepsSound(l.rooms, Touch(s, key, at), key, Spend(l, Live(s, key, at), at).0, at, at);
  }

  lemma {:induction false} RunAgrees(l: Limits, r: Run<Ask>, k: string, now: int)
    requires l.Valid() && TtlRefills(l) && InOrder(r, now) && NeverMissed(l, r, k)
    ensures Sound(l.rooms, After(l, r), now)
    ensures Agrees(l, After(l, r), Ideal(l, r, k), k, OthersSince(r, k))
  {
    if r.Then? {
      var s, ask := After(l, r.before), r.last;
      RunAgrees(l, r.before, k, ask.at);
      IdealIsBounded(l, r.before, k, ask.at);
      AskKeepsSound(l, s, ask.key, ask.at, now);
      AskAgrees(l, s, ask, Ideal(l, r.before, k), k, OthersSince(r.before, k));
    }
  }

  lemma AskAgrees(l: Limits, s: Buckets, ask: Ask, ideal: Option<Bucket>, k: string, others: set<string>)
    requires l.Valid() && TtlRefills(l) && Sound(l.rooms, s, ask.at) && Agrees(l, s, ideal, k, others)
    requires ideal.Some? ==> 0.0 <= ideal.value.tokens
    requires ask.key == k ==> |others| < l.rooms.maxEntries || Refill(l, ideal, ask.at).tokens == l.capacity as real
    ensures var s' := Admitted(l, s, ask.key, ask.at).0;
            if ask.key == k then Agrees(l, s', Some(Spend(l, ideal, ask.at).0), k, {})
            else Agrees(l, s', ideal, k, others + {ask.key})
  {
    hide Agrees, Admitted, Spend, Live, Distinct, ByExpiry;
    if ask.key == k {
      SameSpend(l, s, ideal, k, others, ask.at);
      OwnAskAgrees(l, s, k, ask.at);
    } else {
      OtherAskAgrees(l, s, ask.key, ask.at, ideal, k, others);
    }
  }

  /** Forgetting idle buckets cannot be noticed: if the TTL is long enough to refill
      a bucket, and other keys never crowd `k` out before it would be full again, every ask
      for `k` is answered as by a bucket that is kept for ever. */
  lemma ExpiryIsUnobservable(l: Limits, r: Run<Ask>, now: int)
    requires l.Valid() && TtlRefills(l) && r.Then? && InOrder(r, now)
    requires NeverMissed(l, r, r.last.key)
    ensures Admits(l, r) <==> IdealAdmits(l, r)
  {
    var k := r.last.key;
    RunAgrees(l, r.before, k, r.last.at);
    IdealIsBounded(l, r.before, k, r.last.at);
    SameSpend(l, After(l, r.before), Ideal(l, r.before, k), k, OthersSince(r.before, k), r.last.at);
  }

  // ------------------------------------------------------------ and the TTL condition is exact

  /** `n` asks for `k` at time `at`. */
  ghost function Burst(r: Run<Ask>, k: string, at: int, n: nat): Run<Ask> {
    if n == 0 then r else Then(Burst(r, k, at, n - 1), Ask(k, at))
  }

  /** On a bucket that is not stored, or expired, a full burst is admitted. */
  lemma {:induction false} FreshBurst(l: Limits, r: Run<Ask>, k: string, at: int, n: nat)
    requires l.Valid() && 1 <= n <= l.capacity && Live(After(l, r), k, at).None?
    ensures Admits(l, Burst(r, k, at, n))
    ensures Find(After(l, Burst(r, k, at, n)), k) == Some(Drained(l, k, at, n))
    decreases n
  {
    hide Admitted, Find, Live, Drained;
    var b := Burst(r, k, at, n - 1);
    if n > 1 { FreshBurst(l, r, k, at, n - 1); }
    BurstAsk(l, After(l, b), k, at, n);
  }

  ghost function Drained(l: Limits, k: string, at: int, n: int): Entry<Bucket> {
    Entry(k, Bucket((l.capacity - n) as real, at), at + l.rooms.ttlMs)
  }

  lemma BurstAsk(l: Limits, s: Buckets, k: string, at: int, n: nat)
    requires l.Valid() && 1 <= n <= l.capacity
    requires if n == 1 then Live(s, k, at).None? else Find(s, k) == Some(Drained(l, k, at, n - 1))
    ensures Admitted(l, s, k, at).1 && Find(Admitted(l, s, k, at).0, k) == Some(Drained(l, k, at, n))
  {
    hide Put, Touch, Find, Live, Earned;
    Earnings(l, 0, 0);
    LiveIsFound(s, k, at);
    WriteIsNewest(l.rooms, Touch(s, k, at), k, Spend(l, Live(s, k, at), at).0, at);
  }

  lemma LiveIsFound(s: Buckets, k: string, now: int)
    ensures Find(s, k).Some? && Find(s, k).value.expiresAt > now ==> Live(s, k, now) == Some(Find(s, k).value.value)
    ensures Find(s, k).Some? && Find(s, k).value.expiresAt <= now ==> Live(s, k, now) == None
  {
  }

  /** The reference bucket admits no more of a burst than it has tokens. */
  lemma {:induction false} IdealBurst(l: Limits, r: Run<Ask>, k: string, at: int, n: nat)
    requires l.Valid() && n >= 1 && Ideal(l, r, k).Some?
    requires forall m | 1 <= m <= n :: IdealAdmits(l, Burst(r, k, at, m))
    ensures Refill(l, Ideal(l, r, k), at).tokens >= n as real
    ensures Ideal(l, Burst(r, k, at, n), k)
         == Some(Bucket(Refill(l, Ideal(l, r, k), at).tokens - n as real, at))
    decreases n
  {
    hide Earned;
    var tokens := Refill(l, Ideal(l, r, k), at).tokens;
    assert Burst(r, k, at, n) == Then(Burst(r, k, at, n - 1), Ask(k, at));
    assert IdealAdmits(l, Burst(r, k, at, n));
    if n > 1 {
      IdealBurst(l, r, k, at, n - 1);
      SpendAtOnce(l, tokens - (n - 1) as real, at);
      hide Spend, Refill;
    }
  }

  /** Nothing is earned in no time. */
  lemma SpendAtOnce(l: Limits, tokens: real, at: int)
    requires l.Valid() && tokens <= l.capacity as real
    ensures Spend(l, Some(Bucket(tokens, at)), at)
         == if tokens >= 1.0 then (Bucket(tokens - 1.0, at), true) else (Bucket(tokens, at), false)
  {
    hide Earned;
    Earnings(l, 0, 0);
  }

  lemma {:induction false} IdealFreshBurst(l: Limits, k: string, at: int, n: nat)
    requires l.Valid() && n <= l.capacity
    ensures n > 0 ==> Ideal(l, Burst(Start, k, at, n), k) == Some(Bucket((l.capacity - n) as real, at))
  {
    if n > 0 {
      hide Earned;
      IdealFreshBurst(l, k, at, n - 1);
      Earnings(l, 0, 0);
    }
  }

  /** With a shorter TTL it can be noticed: spend a full burst, come back when the
      bucket has expired, and the limiter admits a full burst the reference bucket
      would not. So TtlRefills is exactly the condition ExpiryIsUnobservable needs. */
  lemma ShortTtlIsObservable(l: Limits, k: string)
    requires l.Valid() && !TtlRefills(l)
    ensures var drained := Burst(Start, k, 0, l.capacity);
            && (forall m | 1 <= m <= l.capacity :: Admits(l, Burst(drained, k, l.rooms.ttlMs, m)))
            && (exists m | 1 <= m <= l.capacity :: !IdealAdmits(l, Burst(drained, k, l.rooms.ttlMs, m)))
  {
    assert Live(After(l, Start), k, 0).None?;
    hide Find, Live, After, Burst, Ideal, IdealAdmits, Admits, Earned;
    var drained, later := Burst(Start, k, 0, l.capacity), l.rooms.ttlMs;
    FreshBurst(l, Start, k, 0, l.capacity);
    LiveIsFound(After(l, drained), k, later);
    forall m | 1 <= m <= l.capacity ensures Admits(l, Burst(drained, k, later, m)) {
      FreshBurst(l, drained, k, later, m);
    }
    IdealFreshBurst(l, k, 0, l.capacity);
    if forall m | 1 <= m <= l.capacity :: IdealAdmits(l, Burst(drained, k, later, m)) {
      IdealBurst(l, drained, k, later, l.capacity);
      assert false;
    }
  }

  // ------------------------------------------------------------ and so is the crowding condition

  lemma {:induction false} BurstIsUnmissed(l: Limits, r: Run<Ask>, k: string, at: int, n: nat)
    requires l.Valid() && n >= 1 && NeverMissed(l, r, k) && Unmissed(l, r, k, at)
    ensures NeverMissed(l, Burst(r, k, at, n), k)
    decreases n
  {
    hide Level;
    if n > 1 {
      BurstIsUnmissed(l, r, k, at, n - 1);
      assert OthersSince(Burst(r, k, at, n - 1), k) == {};
    } else {
      assert Burst(r, k, at, 0) == r;
    }
  }

  lemma {:induction false} BurstInOrder(r: Run<Ask>, k: string, at: int, n: nat)
    requires InOrder(r, at)
    ensures InOrder(Burst(r, k, at, n), at)
  {
    if n > 0 { BurstInOrder(r, k, at, n - 1); }
  }

  lemma CrowdedOutIsGone(l: Limits, r: Run<Ask>, k: string, at: int)
    requires l.Valid() && TtlRefills(l) && InOrder(r, at) && NeverMissed(l, r, k) && !Unmissed(l, r, k, at)
    ensures Ideal(l, r, k).Some? && Live(After(l, r), k, at).None?
  {
    hide Earned;
    RunAgrees(l, r, k, at);
  }

  /** The answers to a burst at `at` are those of the reference bucket if and only if `k` is
      not missed: crowding out a bucket that is not full again lets a full burst through. */
  lemma CrowdingIsUnobservableIff(l: Limits, r: Run<Ask>, k: string, at: int)
    requires l.Valid() && TtlRefills(l) && InOrder(r, at) && NeverMissed(l, r, k)
    ensures (forall m | 1 <= m <= l.capacity :: Admits(l, Burst(r, k, at, m)) <==> IdealAdmits(l, Burst(r, k, at, m)))
       <==> Unmissed(l, r, k, at)
  {
    hide Ideal, After, Admits, IdealAdmits, NeverMissed, Live, Earned, Find;
    if Unmissed(l, r, k, at) {
      forall m | 1 <= m <= l.capacity ensures Admits(l, Burst(r, k, at, m)) <==> IdealAdmits(l, Burst(r, k, at, m)) {
        BurstIsUnmissed(l, r, k, at, m);
        BurstInOrder(r, k, at, m);
        ExpiryIsUnobservable(l, Burst(r, k, at, m), at);
      }
    } else {
      CrowdedOutIsGone(l, r, k, at);
      forall m | 1 <= m <= l.capacity ensures Admits(l, Burst(r, k, at, m)) { FreshBurst(l, r, k, at, m); }
      if forall m | 1 <= m <= l.capacity :: IdealAdmits(l, Burst(r, k, at, m)) {
        IdealBurst(l, r, k, at, l.capacity);
        LevelIsCapped(l, r, k, at);
        assert false;
      }
      var m :| 1 <= m <= l.capacity && !IdealAdmits(l, Burst(r, k, at, m));
      assert Admits(l, Burst(r, k, at, m));
    }
  }

  /** Every key of `keys` asked for once, at `at`. */
  ghost function AskAll(r: Run<Ask>, keys: seq<string>, at: int): Run<Ask> {
    if |keys| == 0 then r else Then(AskAll(r, keys[..|keys| - 1], at), Ask(keys[|keys| - 1], at))
  }

  ghost predicate AllDifferent(keys: seq<string>) { forall i, j | 0 <= i < j < |keys| :: keys[i] != keys[j] }

  lemma {:induction false} OthersAsked(l: Limits, r: Run<Ask>, k: string, keys: seq<string>, at: int)
    requires AllDifferent(keys) && k !in keys && Asked(r, k) && OthersSince(r, k) == {} && NeverMissed(l, r, k)
    requires InOrder(r, at)
    ensures var s := AskAll(r, keys, at);
            && OthersSince(s, k) == (set o | o in keys) && |OthersSince(s, k)| == |keys|
            && Asked(s, k) && NeverMissed(l, s, k) && Ideal(l, s, k) == Ideal(l, r, k) && InOrder(s, at)
  {
    if |keys| > 0 {
      hide Ideal, Unmissed, NeverMissed, OthersSince, Asked, InOrder;
      var init, last := keys[..|keys| - 1], keys[|keys| - 1];
      OthersAsked(l, r, k, init, at);
      assert last !in init;
      assert keys == init + [last];
      assert (set o | o in keys) == (set o | o in init) + {last};
      IdealOfOther(l, AskAll(r, init, at), k, Ask(last, at));
      OneMoreAsked(l, AskAll(r, init, at), k, Ask(last, at));
    } else {
      hide Ideal, Unmissed, NeverMissed, OthersSince;
    }
  }

  lemma OneMoreAsked(l: Limits, r: Run<Ask>, k: string, ask: Ask)
    requires ask.key != k && Asked(r, k) && NeverMissed(l, r, k) && InOrder(r, ask.at)
    ensures var s := Then(r, ask);
            && OthersSince(s, k) == OthersSince(r, k) + {ask.key}
            && Asked(s, k) && NeverMissed(l, s, k) && InOrder(s, ask.at)
  {
    hide Ideal, Unmissed;
  }

  lemma IdealOfOther(l: Limits, r: Run<Ask>, k: string, ask: Ask)
    requires ask.key != k
    ensures Ideal(l, Then(r, ask), k) == Ideal(l, r, k)
  {
  }

  /** An input: a full burst, as many other keys as the map holds, and at the same time another
      full burst. All of it is admitted, while the reference bucket is empty. */
  lemma CrowdingLetsABurstThrough(l: Limits, k: string, keys: seq<string>, at: int)
    requires l.Valid() && TtlRefills(l) && AllDifferent(keys) && k !in keys && |keys| == l.rooms.maxEntries
    ensures var r := AskAll(Burst(Start, k, at, l.capacity), keys, at);
            && Level(l, r, k, at) == 0.0
            && (forall m | 1 <= m <= l.capacity :: Admits(l, Burst(Start, k, at, m)))
            && (forall m | 1 <= m <= l.capacity :: Admits(l, Burst(r, k, at, m)))
  {
    var first := Burst(Start, k, at, l.capacity);
    assert NeverMissed(l, Start, k) && OthersSince(Start, k) == {} && InOrder(Start, at);
    assert Live(After(l, Start), k, at).None?;
    assert Unmissed(l, Start, k, at);
    hide Ideal, After, Admits, NeverMissed, Live, Earned, Find;
    BurstIsUnmissed(l, Start, k, at, l.capacity);
    BurstInOrder(Start, k, at, l.capacity);
    IdealFreshBurst(l, k, at, l.capacity);
    OthersAsked(l, first, k, keys, at);
    var r := AskAll(first, keys, at);
    EmptyLevel(l, r, k, at);
    forall m | 1 <= m <= l.capacity ensures Admits(l, Burst(Start, k, at, m)) { FreshBurst(l, Start, k, at, m); }
    CrowdedOutIsGone(l, r, k, at);
    forall m | 1 <= m <= l.capacity ensures Admits(l, Burst(r, k, at, m)) { FreshBurst(l, r, k, at, m); }
  }

  lemma EmptyLevel(l: Limits, r: Run<Ask>, k: string, at: int)
    requires l.Valid() && Ideal(l, r, k) == Some(Bucket(0.0, at))
    ensures Level(l, r, k, at) == 0.0
  {
    hide Earned;
    Earnings(l, 0, 0);
  }

  // ------------------------------------------------------------ the rate

  ghost predicate Since(r: Run<Ask>, r0: Run<Ask>, s: int)
    requires Extends(r, r0)
  {
    r == r0 || (s <= r.last.at && Since(r.before, r0, s))
  }

  /** How many asks for `k` were admitted since `r0`. */
  ghost function AdmittedSince(l: Limits, r: Run<Ask>, r0: Run<Ask>, k: string): nat
    requires Extends(r, r0)
  {
    if r == r0 then 0
    else AdmittedSince(l, r.before, r0, k) + if r.last.key == k && Admits(l, r) then 1 else 0
  }

  ghost function IdealSince(l: Limits, r: Run<Ask>, r0: Run<Ask>, k: string): nat
    requires Extends(r, r0)
  {
    if r == r0 then 0
    else IdealSince(l, r.before, r0, k) + if r.last.key == k && IdealAdmits(l, r) then 1 else 0
  }

  /** Tokens come in at the refill rate at most. */
  lemma LevelRises(l: Limits, r: Run<Ask>, k: string, now: int, later: int)
    requires l.Valid() && InOrder(r, now) && now <= later
    ensures Level(l, r, k, later) <= Level(l, r, k, now) + Earned(l, later - now)
    ensures Level(l, r, k, later) >= Level(l, r, k, now)
  {
    hide Ideal, Earned;
    IdealIsBounded(l, r, k, now);
    Earnings(l, 0, later - now);
    if Ideal(l, r, k).Some? {
      var t := Ideal(l, r, k).value.lastRefillMs;
      Earnings(l, now - t, later - t);
      assert later - t - (now - t) == later - now;
    }
  }

  /** What was admitted and what is left never exceeds the burst plus the refill. */
  lemma {:induction false} TokenBudget(l: Limits, r: Run<Ask>, r0: Run<Ask>, k: string, s: int, now: int)
    requires l.Valid() && Extends(r, r0) && InOrder(r, now) && s <= now && Since(r, r0, s)
    ensures IdealSince(l, r, r0, k) as real + Level(l, r, k, now)
         <= l.capacity as real + Earned(l, now - s)
    decreases r
  {
    hide Earned;
    if r == r0 {
      Earnings(l, 0, now - s);
      LevelIsCapped(l, r, k, now);
    } else {
      var t := r.last.at;
      TokenBudget(l, r.before, r0, k, s, t);
      LevelAfterAsk(l, r, k);
      LevelRises(l, r, k, t, now);
      Earnings(l, t - s, now - s);
      assert now - s - (t - s) == now - t;
    }
  }

  lemma LevelIsCapped(l: Limits, r: Run<Ask>, k: string, now: int)
    requires l.Valid() && InOrder(r, now)
    ensures 0.0 <= Level(l, r, k, now) <= l.capacity as real
  {
    hide Earned, Ideal;
    IdealIsBounded(l, r, k, now);
    if Ideal(l, r, k).Some? { Earnings(l, 0, now - Ideal(l, r, k).value.lastRefillMs); }
  }

  /** An admission takes one token; anything else takes none. */
  lemma LevelAfterAsk(l: Limits, r: Run<Ask>, k: string)
    requires l.Valid() && r.Then? && InOrder(r, r.last.at)
    ensures Level(l, r, k, r.last.at)
         == Level(l, r.before, k, r.last.at) - if r.last.key == k && IdealAdmits(l, r) then 1.0 else 0.0
  {
    hide Earned;
    LevelIsCapped(l, r.before, k, r.last.at);
    Earnings(l, 0, 0);
  }

  lemma {:induction false} SameCount(l: Limits, r: Run<Ask>, r0: Run<Ask>, k: string, now: int)
    requires l.Valid() && TtlRefills(l) && Extends(r, r0) && InOrder(r, now) && NeverMissed(l, r, k)
    ensures AdmittedSince(l, r, r0, k) == IdealSince(l, r, r0, k)
    decreases r
  {
    if r != r0 {
      SameCount(l, r.before, r0, k, r.last.at);
      if r.last.key == k { ExpiryIsUnobservable(l, r, now); }
    }
  }

  /** The rate bound: in any interval of any run, a room gets at most one burst plus
      the refill of the interval. */
  lemma RateBound(l: Limits, r: Run<Ask>, r0: Run<Ask>, k: string, s: int, now: int)
    requires l.Valid() && TtlRefills(l) && Extends(r, r0) && InOrder(r, now) && NeverMissed(l, r, k)
    requires s <= now && Since(r, r0, s)
    ensures AdmittedSince(l, r, r0, k) as real <= l.capacity as real + (now - s) as real * l.refillPerMs
  {
    hide Earned, TtlRefills, NeverMissed, AdmittedSince, Level, Since;
    EarnedIsTime(l, now - s);
    SameCount(l, r, r0, k, now);
    TokenBudget(l, r, r0, k, s, now);
    LevelIsCapped(l, r, k, now);
  }

  lemma EarnedIsTime(l: Limits, ms: int)
    ensures Earned(l, ms) == ms as real * l.refillPerMs
  {
  }

  // ------------------------------------------------------------ refusals cost nothing

  /** Every ask for `k` since `r0` was refused. */
  ghost predicate RefusedSince(l: Limits, r: Run<Ask>, r0: Run<Ask>, k: string)
    requires Extends(r, r0)
  {
    r == r0 || ((r.last.key == k ==> !Admits(l, r)) && RefusedSince(l, r.before, r0, k))
  }

  /** Two refills compose to one. */
  lemma RefillComposes(l: Limits, b: Bucket, t: int, now: int)
    requires l.Valid() && b.lastRefillMs <= t <= now
    ensures Refill(l, Some(Refill(l, Some(b), t)), now) == Refill(l, Some(b), now)
  {
    hide Earned;
    Earnings(l, t - b.lastRefillMs, now - b.lastRefillMs);
    assert now - b.lastRefillMs - (t - b.lastRefillMs) == now - t;
    Earnings(l, 0, now - t);
  }

  /** So a refused ask leaves the level as it would have been without it. */
  lemma {:induction false} RefusalsKeepTheLevel(l: Limits, r: Run<Ask>, r0: Run<Ask>, k: string, now: int)
    requires l.Valid() && TtlRefills(l) && InOrder(r, now) && NeverMissed(l, r, k)
    requires Extends(r, r0) && RefusedSince(l, r, r0, k) && Asked(r0, k)
    ensures Asked(r, k) && Level(l, r, k, now) == Level(l, r0, k, now)
    decreases r
  {
    if r != r0 {
      InOrderLater(r.before, r.last.at, now);
      RefusalsKeepTheLevel(l, r.before, r0, k, now);
      IdealIsBounded(l, r.before, k, r.last.at);
      if r.last.key == k {
        ExpiryIsUnobservable(l, r, now);
        RefillComposes(l, Ideal(l, r.before, k).value, r.last.at, now);
      }
    }
  }

  lemma InOrderLater(r: Run<Ask>, now: int, later: int)
    requires InOrder(r, now) && now <= later
    ensures InOrder(r, later)
  {
  }

  /** An ask made long enough after the last admission to have earned one token is
      admitted, however many asks were refused in between. */
  lemma EarnedTokenIsAdmitted(l: Limits, r0: Run<Ask>, k: string, t: int, r: Run<Ask>, now: int)
    requires l.Valid() && TtlRefills(l) && InOrder(r, now) && NeverMissed(l, r, k)
    requires r0.Then? && r0.last == Ask(k, t) && Admits(l, r0)
    requires Extends(r, r0) && RefusedSince(l, r, r0, k)
    requires (now - t) as real * l.refillPerMs >= 1.0
    ensures Admits(l, Then(r, Ask(k, now)))
  {
    hide RefusedSince, NeverMissed, Ideal, Earned, TtlRefills, Admitted, Extends, InOrder, After;
    EarnedIsTime(l, now - t);
    LevelIsEnough(l, r0, k, t, r, now);
  }

  lemma LevelIsEnough(l: Limits, r0: Run<Ask>, k: string, t: int, r: Run<Ask>, now: int)
    requires l.Valid() && TtlRefills(l) && InOrder(r, now) && NeverMissed(l, r, k)
    requires r0.Then? && r0.last == Ask(k, t) && Admits(l, r0)
    requires Extends(r, r0) && RefusedSince(l, r, r0, k)
    requires Earned(l, now - t) >= 1.0
    ensures Admits(l, Then(r, Ask(k, now)))
  {
    hide RefusedSince, NeverMissed, Ideal, Earned;
    PrefixFacts(l, r, r0, k, now);
    RefusalsKeepTheLevel(l, r, r0, k, now);
    LevelAfterAdmission(l, r0, k, t, now);
    RunAgrees(l, r, k, now);
    AnswerIsNoLower(l, After(l, r), Ideal(l, r, k), k, OthersSince(r, k), now);
  }

  /** A bucket that is gone answers as a full one. */
  lemma AnswerIsNoLower(l: Limits, s: Buckets, ideal: Option<Bucket>, k: string, others: set<string>, now: int)
    requires l.Valid() && Agrees(l, s, ideal, k, others) && Refill(l, ideal, now).tokens >= 1.0
    ensures Admitted(l, s, k, now).1
  {
    hide Earned, Put, Touch, HoldsExactly;
    LiveIsFound(s, k, now);
  }

  lemma LevelAfterAdmission(l: Limits, r0: Run<Ask>, k: string, t: int, now: int)
    requires l.Valid() && InOrder(r0, now) && r0.Then? && r0.last == Ask(k, t)
    ensures Level(l, r0, k, now) >= Min(l.capacity as real, Earned(l, now - t))
  {
    hide Earned;
    IdealIsBounded(l, r0, k, now);
  }

  lemma {:induction false} PrefixFacts(l: Limits, r: Run<Ask>, r0: Run<Ask>, k: string, now: int)
    requires Extends(r, r0) && InOrder(r, now) && NeverMissed(l, r, k)
    ensures InOrder(r0, now) && NeverMissed(l, r0, k)
  {
    if r != r0 {
      PrefixFacts(l, r.before, r0, k, r.last.at);
      InOrderLater(r0, r.last.at, now);
    }
  }
}
