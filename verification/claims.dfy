/** The dedupe gates: a "first caller wins" store, its three uses, and what a
    claim is worth over a whole run in spite of expiry and eviction. */
module Claims {
  import opened Wrappers
  import opened TtlMap
  import opened Runs

  const SEP: char := '\0'

  /** `parts.join(SEP)`. */
  function ClaimKey(parts: seq<string>): string {
    if |parts| == 0 then ""
    else if |parts| == 1 then parts[0]
    else parts[0] + [SEP] + ClaimKey(parts[1..])
  }

  type Claimed = Store<bool>

  function TryClaimed(c: Config, s: Claimed, key: string, now: int): (Claimed, bool) {
    if Live(s, key, now).Some? then (Touch(s, key, now), false)
    else (Put(c, Touch(s, key, now), key, true, now), true)
  }

  class ClaimStore {
    const claims: BoundedTtlMap<bool>

    constructor (config: Config)
      requires config.Valid()
      ensures fresh(claims) && claims.config == config && claims.entries == []
    {
      claims := new BoundedTtlMap<bool>(config);
    }

    method TryClaim(key: string, now: int) returns (acquired: bool)
      modifies claims
      ensures (claims.entries, acquired) == TryClaimed(claims.config, old(claims.entries), key, now)
    {
      var held := claims.Get(key, now);
      if held.Some? { return false; }
      claims.Set(key, true, now);
      return true;
    }

    method Release(key: string)
      modifies claims
      ensures claims.entries == Without(old(claims.entries), key)
    {
      var _ := claims.Delete(key);
    }
  }

  class Gates {
    const incoming: ClaimStore
    const reply: ClaimStore
    const roomAnswer: ClaimStore

    ghost predicate Apart() {
      incoming.claims != reply.claims && incoming.claims != roomAnswer.claims && reply.claims != roomAnswer.claims
    }

    constructor (incoming: Config, reply: Config, roomAnswer: Config)
      requires incoming.Valid() && reply.Valid() && roomAnswer.Valid()
      ensures Apart() && fresh(this.incoming.claims) && fresh(this.reply.claims) && fresh(this.roomAnswer.claims)
      ensures this.incoming.claims.config == incoming && this.incoming.claims.entries == []
      ensures this.reply.claims.config == reply && this.reply.claims.entries == []
      ensures this.roomAnswer.claims.config == roomAnswer && this.roomAnswer.claims.entries == []
    {
      this.incoming := new ClaimStore(incoming);
      this.reply := new ClaimStore(reply);
      this.roomAnswer := new ClaimStore(roomAnswer);
    }

    method IncomingMessage(bot: string, surface: string, message: string, now: int) returns (acquired: bool)
      modifies incoming.claims
      ensures (incoming.claims.entries, acquired)
           == TryClaimed(incoming.claims.config, old(incoming.claims.entries), ClaimKey([bot, surface, message]), now)
    {
      acquired := incoming.TryClaim(ClaimKey([bot, surface, message]), now);
    }

    method Reply(bot: string, room: string, rule: string, message: string, now: int) returns (acquired: bool)
      modifies reply.claims
      ensures (reply.claims.entries, acquired)
           == TryClaimed(reply.claims.config, old(reply.claims.entries), ClaimKey([bot, room, rule, message]), now)
    {
      acquired := reply.TryClaim(ClaimKey([bot, room, rule, message]), now);
    }

    method RoomAnswer(owner: string, room: string, message: string, now: int) returns (acquired: bool)
      modifies roomAnswer.claims
      ensures (roomAnswer.claims.entries, acquired)
           == TryClaimed(
                roomAnswer.claims.config, old(roomAnswer.claims.entries), ClaimKey([owner, room, message]), now)
    {
      acquired := roomAnswer.TryClaim(ClaimKey([owner, room, message]), now);
    }

    method ReleaseIncoming(bot: string, surface: string, message: string)
      modifies incoming.claims
      ensures incoming.claims.entries == Without(old(incoming.claims.entries), ClaimKey([bot, surface, message]))
    {
      incoming.Release(ClaimKey([bot, surface, message]));
    }
  }

  // ------------------------------------------------------------ keys

  predicate NulFree(parts: seq<string>) {
    forall p | p in parts :: SEP !in p
  }

  /** Joined keys tell NUL-free id lists apart, whatever their lengths. */
  lemma {:induction false} ClaimKeyInjective(a: seq<string>, b: seq<string>)
    requires |a| > 0 && |b| > 0 && NulFree(a) && NulFree(b)
    requires ClaimKey(a) == ClaimKey(b)
    ensures a == b
  {
    var ka, kb := ClaimKey(a), ClaimKey(b);
    assert a[0] in a && b[0] in b;
    assert forall i | 0 <= i < |a[0]| :: ka[i] == a[0][i] != SEP;
    assert forall i | 0 <= i < |b[0]| :: kb[i] == b[0][i] != SEP;
    assert |a| > 1 ==> ka[|a[0]|] == SEP;
    assert |b| > 1 ==> kb[|b[0]|] == SEP;
    assert |a[0]| == |b[0]| && (|a| > 1 <==> |b| > 1);
    assert a[0] == ka[..|a[0]|] == b[0];
    if |a| > 1 {
      assert ka[|a[0]| + 1..] == ClaimKey(a[1..]);
      assert kb[|b[0]| + 1..] == ClaimKey(b[1..]);
      ClaimKeyInjective(a[1..], b[1..]);
      assert a == [a[0]] + a[1..] && b == [b[0]] + b[1..];
    }
  }

  /** Without that, ids of the same shape collide. */
  lemma ClaimKeyNeedsNulFree(x: string, y: string)
    ensures ClaimKey([x + [SEP], y]) == ClaimKey([x, [SEP] + y])
    ensures [x + [SEP], y] != [x, [SEP] + y]
  {
    assert (x + [SEP]) + [SEP] + y == x + [SEP] + ([SEP] + y);
    assert [x + [SEP], y][0] != x;
  }

  // ------------------------------------------------------------ a claim over a run

  datatype Op =
    | TryClaim(key: string, at: int)
    | Release(key: string, at: int)

  function Step(c: Config, s: Claimed, op: Op): (Claimed, bool) {
    match op
    case TryClaim(key, at) => TryClaimed(c, s, key, at)
    case Release(key, _) => (Without(s, key), false)
  }

  /** The clock does not run back, and a run has reached time `now` at most. */
  ghost predicate InOrder(r: Run<Op>, now: int) {
    r.Then? ==> r.last.at <= now && InOrder(r.before, r.last.at)
  }

  /** The store after a run that starts empty. */
  ghost function After(c: Config, r: Run<Op>): Claimed {
    match r
    case Start => []
    case Then(before, op) => Step(c, After(c, before), op).0
  }

  /** The run ends with an attempt for `k` at `at` that acquires it. */
  ghost predicate Acquires(c: Config, r: Run<Op>, k: string, at: int) {
    r.Then? && r.last == TryClaim(k, at) && Step(c, After(c, r.before), r.last).1
  }

  /** The keys other than `k` acquired since `r0`. */
  ghost function OthersClaimed(c: Config, r: Run<Op>, r0: Run<Op>, k: string): set<string>
    requires Extends(r, r0)
  {
    if r == r0 then {}
    else OthersClaimed(c, r.before, r0, k) + Claims(c, After(c, r.before), r.last, k)
  }

  ghost function Claims(c: Config, s: Claimed, op: Op, k: string): set<string> {
    if Step(c, s, op).1 && op.key != k then {op.key} else {}
  }

  ghost predicate NotReleased(r: Run<Op>, r0: Run<Op>, k: string)
    requires Extends(r, r0)
  {
    r == r0 || (!(r.last.Release? && r.last.key == k) && NotReleased(r.before, r0, k))
  }

  lemma StepKeepsSound(c: Config, s: Claimed, op: Op, before: int)
    requires c.Valid() && Sound(c, s, before) && before <= op.at
    ensures Sound(c, Step(c, s, op).0, op.at)
  {
    hide Sound, Put, Without, Touch;
    RemovalsKeepSound(c, s, op.key, before, op.at);
    if op.TryClaim? && Live(s, op.key, op.at).None? {
      PutKeepsSound(c, Touch(s, op.key, op.at), op.key, true, op.at, op.at);
    }
  }

  lemma {:induction false} RunsAreSound(c: Config, r: Run<Op>, now: int)
    requires c.Valid() && InOrder(r, now)
    ensures Sound(c, After(c, r), now)
  {
    if r.Then? {
      hide Step;
      RunsAreSound(c, r.before, r.last.at);
      StepKeepsSound(c, After(c, r.before), r.last, r.last.at);
    }
  }

  lemma {:induction false} ClockSince(r: Run<Op>, r0: Run<Op>, now: int)
    requires InOrder(r, now) && Extends(r, r0) && r0.Then?
    ensures r0.last.at <= r.last.at <= now
  {
    if r != r0 { ClockSince(r.before, r0, r.last.at); }
  }

  lemma StepRemembers(c: Config, s: Claimed, op: Op, k: string, deadline: int, others: set<string>)
    requires c.Valid() && Sound(c, s, op.at) && op.at < deadline <= op.at + c.ttlMs
    requires Remembers(c, s, k, deadline, others)
    requires op.Release? ==> op.key != k
    ensures Remembers(c, Step(c, s, op).0, k, deadline, others + Claims(c, s, op, k))
  {
    hide Remembers, Put, Without, Touch;
    RemembersRead(c, s, k, deadline, others, op.key, op.at);
    RemovalsKeepSound(c, s, op.key, op.at, op.at);
    assert others + {} == others;
    if op.Release? {
      RemembersOtherRemoval(c, s, k, deadline, others, op.key);
    } else if Step(c, s, op).1 {
      if op.key == k {
        RemembersOwnWrite(c, Touch(s, k, op.at), k, true, op.at, deadline, others);
      } else {
        RemembersOtherWrite(c, Touch(s, op.key, op.at), k, deadline, others, op.key, true, op.at);
      }
    }
  }

  lemma {:induction false} ClaimIsRemembered(c: Config, r0: Run<Op>, k: string, t: int, r: Run<Op>, now: int)
    requires c.Valid() && InOrder(r, now) && Extends(r, r0) && now < t + c.ttlMs
    requires Acquires(c, r0, k, t) && NotReleased(r, r0, k)
    ensures Remembers(c, After(c, r), k, t + c.ttlMs, OthersClaimed(c, r, r0, k))
    decreases r
  {
    hide Remembers, Sound, Put, Without, Touch;
    if r == r0 {
      RemembersOwnWrite(c, Touch(After(c, r0.before), k, t), k, true, t, t + c.ttlMs, {});
    } else {
      hide Step;
      ClaimIsRemembered(c, r0, k, t, r.before, r.last.at);
      ClockSince(r, r0, now);
      RunsAreSound(c, r.before, r.last.at);
      StepRemembers(c, After(c, r.before), r.last, k, t + c.ttlMs, OthersClaimed(c, r.before, r0, k));
    }
  }

  /** The claim window. If one key is acquired twice less than the TTL apart, and
      was not released in between, then at least `maxEntries` distinct other keys
      were claimed in between. */
  lemma ClaimWindow(c: Config, first: Run<Op>, k: string, t: int, second: Run<Op>, now: int)
    requires c.Valid() && InOrder(second, now) && second.Then? && Extends(second.before, first)
    requires Acquires(c, first, k, t) && Acquires(c, second, k, now)
    requires NotReleased(second.before, first, k)
    requires now < t + c.ttlMs
    ensures |OthersClaimed(c, second.before, first, k)| >= c.maxEntries
  {
    ClaimIsRemembered(c, first, k, t, second.before, now);
    var others := OthersClaimed(c, second.before, first, k);
    if |others| < c.maxEntries {
      RemembersMeansLive(c, After(c, second.before), k, t + c.ttlMs, others, now);
    }
  }

  // ------------------------------------------------------------ the window is exact

  lemma AnswerIfHoldsExactly(c: Config, s: Claimed, k: string, deadline: int, others: set<string>, now: int)
    requires HoldsExactly(c, s, k, deadline, others) && now < deadline
    ensures TryClaimed(c, s, k, now).1 <==> |others| >= c.maxEntries
  {
  }

  lemma TryClaimHoldsExactly(c: Config, s: Claimed, o: string, now: int, k: string, deadline: int, others: set<string>)
    requires c.Valid() && Sound(c, s, now) && now < deadline
    requires HoldsExactly(c, s, k, deadline, others)
    requires o == k ==> !TryClaimed(c, s, o, now).1
    ensures HoldsExactly(c, TryClaimed(c, s, o, now).0, k, deadline, others + Claims(c, s, TryClaim(o, now), k))
  {
    hide HoldsExactly, Touch, Put, Live;
    assert others + {} == others;
    RemovalsKeepSound(c, s, o, now, now);
    OtherReadHoldsExactly(c, s, o, now, k, deadline, others);
    if o != k { OtherWriteHoldsExactly(c, Touch(s, o, now), o, true, now, k, deadline, others); }
  }

  /** Since `r0` nothing was released and `k` was not acquired again. */
  ghost predicate Untouched(c: Config, r: Run<Op>, r0: Run<Op>, k: string)
    requires Extends(r, r0)
  {
    r == r0 || (r.last.TryClaim? && !Acquires(c, r, k, r.last.at) && Untouched(c, r.before, r0, k))
  }

  lemma {:induction false} ClaimIsHeldExactly(c: Config, r0: Run<Op>, k: string, t: int, r: Run<Op>, now: int)
    requires c.Valid() && InOrder(r, now) && Extends(r, r0) && now < t + c.ttlMs
    requires Acquires(c, r0, k, t) && Untouched(c, r, r0, k)
    ensures HoldsExactly(c, After(c, r), k, t + c.ttlMs, OthersClaimed(c, r, r0, k))
    decreases r
  {
    hide HoldsExactly, Sound, Put, Touch;
    if r == r0 {
      WriteIsHeldExactly(c, Touch(After(c, r0.before), k, t), k, true, t);
    } else {
      hide TryClaimed;
      var s := After(c, r.before);
      ClaimIsHeldExactly(c, r0, k, t, r.before, r.last.at);
      RunsAreSound(c, r.before, r.last.at);
      TryClaimHoldsExactly(c, s, r.last.key, r.last.at, k, t + c.ttlMs, OthersClaimed(c, r.before, r0, k));
    }
  }

  /** The window is exact. When nothing is released, a key claimed at `t` and not
      claimed since can be claimed again within the TTL if and only if
      `maxEntries` distinct other keys have been claimed meanwhile. */
  lemma ClaimWindowIsExact(c: Config, first: Run<Op>, k: string, t: int, r: Run<Op>, now: int)
    requires c.Valid() && InOrder(r, now) && Extends(r, first) && now < t + c.ttlMs
    requires Acquires(c, first, k, t) && Untouched(c, r, first, k)
    ensures Acquires(c, Then(r, TryClaim(k, now)), k, now)
       <==> |OthersClaimed(c, r, first, k)| >= c.maxEntries
  {
    ClaimIsHeldExactly(c, first, k, t, r, now);
    AnswerIfHoldsExactly(c, After(c, r), k, t + c.ttlMs, OthersClaimed(c, r, first, k), now);
  }

  // ------------------------------------------------------------ and it ends

  /** No claim on `k` is kept beyond `deadline`. */
  ghost predicate EndsBy(s: Claimed, k: string, deadline: int) {
    Find(s, k).Some? ==> Find(s, k).value.expiresAt <= deadline
  }

  lemma {:induction false} WithoutFinds(s: Claimed, o: string, k: string)
    ensures Find(Without(s, o), k) == if k == o then None else Find(s, k)
  {
    if |s| > 0 { WithoutFinds(s[1..], o, k); }
  }

  lemma {:induction false} AppendFinds(s: Claimed, e: Entry<bool>, k: string)
    requires e.key != k
    ensures Find(s + [e], k) == Find(s, k)
  {
    if |s| > 0 {
      assert (s + [e])[1..] == s[1..] + [e];
      AppendFinds(s[1..], e, k);
    }
  }

  lemma TailEnds(c: Config, s: Claimed, k: string, deadline: int)
    requires Distinct(s) && EndsBy(s, k, deadline)
    ensures EndsBy(Trim(c, s), k, deadline)
  {
  }

  lemma StepKeepsEnd(c: Config, s: Claimed, op: Op, k: string, deadline: int)
    requires c.Valid() && Sound(c, s, op.at) && EndsBy(s, k, deadline)
    requires op.TryClaim? && op.key == k ==> !Step(c, s, op).1
    ensures EndsBy(Step(c, s, op).0, k, deadline)
  {
    hide Put, EndsBy, Live, Touch, Without;
    TouchKeepsEnd(s, op.key, op.at, k, deadline);
    if op.Release? {
      WithoutKeepsEnd(s, op.key, k, deadline);
    } else if Step(c, s, op).1 {
      RemovalsKeepSound(c, s, op.key, op.at, op.at);
      PutKeepsEnd(c, Touch(s, op.key, op.at), op.key, op.at, k, deadline);
    }
  }

  lemma WithoutKeepsEnd(s: Claimed, o: string, k: string, deadline: int)
    requires EndsBy(s, k, deadline)
    ensures EndsBy(Without(s, o), k, deadline)
  {
    WithoutFinds(s, o, k);
  }

  lemma TouchKeepsEnd(s: Claimed, o: string, now: int, k: string, deadline: int)
    requires EndsBy(s, k, deadline)
    ensures EndsBy(Touch(s, o, now), k, deadline)
  {
    WithoutFinds(s, o, k);
  }

  lemma PutKeepsEnd(c: Config, s: Claimed, o: string, now: int, k: string, deadline: int)
    requires Distinct(s) && EndsBy(s, k, deadline) && o != k
    ensures EndsBy(Put(c, s, o, true, now), k, deadline)
  {
    hide Without, Trim, Distinct, Find, Keys, ByExpiry;
    var e := Entry(o, true, now + c.ttlMs);
    WithoutFinds(s, o, k);
    AppendFinds(Without(s, o), e, k);
    WithoutKeepsOrder(s, o);
    AppendKeepsDistinct(Without(s, o), e);
    TailEnds(c, Without(s, o) + [e], k, deadline);
  }

  /** Since `r0` the key `k` was not acquired again. */
  ghost predicate NotTaken(c: Config, r: Run<Op>, r0: Run<Op>, k: string)
    requires Extends(r, r0)
  {
    r == r0 || (!Acquires(c, r, k, r.last.at) && NotTaken(c, r.before, r0, k))
  }

  lemma {:induction false} ClaimEndsBy(c: Config, r0: Run<Op>, k: string, t: int, r: Run<Op>, now: int)
    requires c.Valid() && InOrder(r, now) && Extends(r, r0) && Acquires(c, r0, k, t) && NotTaken(c, r, r0, k)
    ensures EndsBy(After(c, r), k, t + c.ttlMs)
    decreases r
  {
    hide EndsBy, Sound, Put, Touch;
    if r == r0 {
      var s := After(c, r0.before);
      WriteIsNewest(c, Touch(s, k, t), k, true, t);
      WrittenEnds(c, s, k, t);
    } else {
      hide Step;
      ClaimEndsBy(c, r0, k, t, r.before, r.last.at);
      RunsAreSound(c, r.before, r.last.at);
      StepKeepsEnd(c, After(c, r.before), r.last, k, t + c.ttlMs);
    }
  }

  lemma WrittenEnds(c: Config, s: Claimed, k: string, t: int)
    requires c.Valid() && TryClaimed(c, s, k, t).1
    ensures EndsBy(TryClaimed(c, s, k, t).0, k, t + c.ttlMs)
  {
    hide Put, Touch;
    WriteIsNewest(c, Touch(s, k, t), k, true, t);
  }

  /** How long a claim lasts, for ever after: a key claimed at `t`, with nothing released and the key
      not claimed since, can be claimed again if and only if the TTL is over or `maxEntries` distinct
      other keys have been claimed. */
  lemma ClaimLastsExactly(c: Config, first: Run<Op>, k: string, t: int, r: Run<Op>, now: int)
    requires c.Valid() && InOrder(r, now) && Extends(r, first)
    requires Acquires(c, first, k, t) && Untouched(c, r, first, k)
    ensures Acquires(c, Then(r, TryClaim(k, now)), k, now)
       <==> now >= t + c.ttlMs || |OthersClaimed(c, r, first, k)| >= c.maxEntries
  {
    if now < t + c.ttlMs {
      ClaimWindowIsExact(c, first, k, t, r, now);
    } else {
      UntouchedIsNotTaken(c, r, first, k);
      ClaimEndsBy(c, first, k, t, r, now);
      hide Touch, Put, OthersClaimed;
    }
  }

  lemma {:induction false} UntouchedIsNotTaken(c: Config, r: Run<Op>, r0: Run<Op>, k: string)
    requires Extends(r, r0) && Untouched(c, r, r0, k)
    ensures NotTaken(c, r, r0, k)
  {
    hide TryClaimed;
    if r != r0 { UntouchedIsNotTaken(c, r.before, r0, k); }
  }

  /** And a released key can be claimed at once. */
  lemma ReleasedIsFree(c: Config, r: Run<Op>, k: string, now: int)
    ensures Acquires(c, Then(Then(r, Release(k, now)), TryClaim(k, now)), k, now)
  {
    WithoutFinds(After(c, r), k, k);
  }
}
