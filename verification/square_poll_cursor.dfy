/** What overlapping fetches do to the one cursor they share, and how fast they go. */
module SquarePollCursor {
  import opened Wrappers
  import opened Runs
  import opened SquarePoll
  import opened SquarePollRuns

  /** A fetch that came back: when it was launched, and the token its page carried. */
  datatype Return = Return(startedAt: real, token: Option<string>)

  datatype Cursor = Cursor(start: Option<real>, token: Option<string>)

  ghost predicate Newer(x: Return, c: Cursor) { c.start.None? || x.startedAt > c.start.value }

  ghost function Moved(c: Cursor, x: Return): Cursor {
    if Newer(x, c) then Cursor(Some(x.startedAt), Or(x.token, c.token)) else c
  }

  ghost function MovedAll(c: Cursor, s: seq<Return>): Cursor {
    if |s| == 0 then c else Moved(MovedAll(c, s[..|s| - 1]), s[|s| - 1])
  }

  ghost function CursorOf(p: Poll): Cursor { Cursor(p.adopted, p.token) }

  /** The staggered fetches that came back after `r0`, in order of completion. */
  ghost function Returns(o: Options, r0: Run<Op>, r: Run<Op>): seq<Return>
    requires o.Accepted()
  {
    if r == r0 || r.Start? then [] else Returns(o, r0, r.before) + Returned(o, After(o, r.before), r.last)
  }

  ghost function Returned(o: Options, p: Poll, op: Op): seq<Return>
    requires o.Accepted()
  {
    if op.Answer? && Enabled(o, p, op) then [Return(p.fetches[op.f].startedAt, op.page.token)] else []
  }

  ghost predicate Live(o: Options, p: Poll) { p.drained && o.stagger > 1 }

  lemma StepMovesCursor(o: Options, p: Poll, op: Op)
    requires o.Accepted() && Bounded(o, p) && Live(o, p) && Enabled(o, p, op)
    ensures Live(o, Step(o, p, op))
    ensures var s := Returned(o, p, op);
            CursorOf(Step(o, p, op)) == if |s| == 0 then CursorOf(p) else Moved(CursorOf(p), s[0])
  {
    hide Smoothed, SightedAll;
  }

  lemma MovedOneMore(c: Cursor, s: seq<Return>, x: Return)
    ensures MovedAll(c, s + [x]) == Moved(MovedAll(c, s), x)
  {
    assert (s + [x])[..|s + [x]| - 1] == s;
  }

  /** Once the backlog is drained, only returned fetches move the cursor. */
  lemma {:induction false} CursorFollowsReturns(o: Options, r0: Run<Op>, r: Run<Op>)
    requires o.Accepted() && Extends(r, r0) && Live(o, After(o, r0))
    ensures Live(o, After(o, r))
    ensures CursorOf(After(o, r)) == MovedAll(CursorOf(After(o, r0)), Returns(o, r0, r))
  {
    if r != r0 {
      hide Bounded, Step, Enabled, MovedAll, Moved;
      var p, s := After(o, r.before), Returns(o, r0, r.before);
      CursorFollowsReturns(o, r0, r.before);
      RunsAreBounded(o, r.before);
      if Enabled(o, p, r.last) { StepMovesCursor(o, p, r.last); }
      if |Returned(o, p, r.last)| == 0 {
        assert s + [] == s;
      } else {
        MovedOneMore(CursorOf(After(o, r0)), s, Returned(o, p, r.last)[0]);
      }
    } else {
      hide Bounded;
    }
  }

  /** `x` is the newest of `s`, and the first such. */
  ghost predicate FirstNewest(s: seq<Return>, k: nat)
    requires k < |s|
  {
    && (forall i | 0 <= i < |s| :: s[i].startedAt <= s[k].startedAt)
    && (forall i | 0 <= i < k :: s[i].startedAt < s[k].startedAt)
  }

  /** The cursor holds the newest of the fetches that came back: the one launched last,
      the first to come back if several were launched at once, and its token if it
      carried one. */
  lemma {:induction false} CursorIsNewest(c: Cursor, s: seq<Return>, k: nat)
    requires k < |s| && FirstNewest(s, k)
    ensures MovedAll(c, s).start == if Newer(s[k], c) then Some(s[k].startedAt) else c.start
    ensures s[k].token.Some? && Newer(s[k], c) ==> MovedAll(c, s).token == s[k].token
    ensures !Newer(s[k], c) ==> MovedAll(c, s) == c
  {
    var init := s[..|s| - 1];
    if k < |s| - 1 {
      assert FirstNewest(init, k);
      CursorIsNewest(c, init, k);
    } else if |init| > 0 {
      NewestExists(init);
      var j :| 0 <= j < |init| && FirstNewest(init, j);
      CursorIsNewest(c, init, j);
      assert s[j].startedAt < s[k].startedAt;
    }
  }

  lemma {:induction false} NewestExists(s: seq<Return>)
    requires |s| > 0
    ensures exists k :: 0 <= k < |s| && FirstNewest(s, k)
  {
    var init, n := s[..|s| - 1], |s| - 1;
    if n == 0 {
      assert FirstNewest(s, 0);
    } else {
      NewestExists(init);
      var j :| 0 <= j < |init| && FirstNewest(init, j);
      if s[n].startedAt > s[j].startedAt { assert FirstNewest(s, n); } else { assert FirstNewest(s, j); }
    }
  }

  ghost predicate DistinctStarts(s: seq<Return>) {
    forall i, j | 0 <= i < j < |s| :: s[i].startedAt != s[j].startedAt
  }

  /** For fetches launched at different times, the order in which they come back does not
      matter, provided that the newest carries a token. */
  lemma OrderDoesNotMatter(c: Cursor, s: seq<Return>, t: seq<Return>)
    requires DistinctStarts(s) && DistinctStarts(t) && multiset(s) == multiset(t)
    requires forall k | 0 <= k < |s| && FirstNewest(s, k) && Newer(s[k], c) :: s[k].token.Some?
    ensures MovedAll(c, s) == MovedAll(c, t)
  {
    hide MovedAll;
    if |s| == 0 {
      assert |multiset(t)| == 0 && s == t;
    } else {
      NewestExists(s);
      var k :| 0 <= k < |s| && FirstNewest(s, k);
      assert s[k] in multiset(t);
      var j :| 0 <= j < |t| && t[j] == s[k];
      forall i | 0 <= i < |t| ensures t[i].startedAt <= t[j].startedAt {
        assert t[i] in multiset(s);
      }
      assert FirstNewest(t, j);
      CursorIsNewest(c, s, k);
      CursorIsNewest(c, t, j);
    }
  }

  /** And when it does matter, for two of them: exactly when the newer one came without a
      token and the older one brought a new one. */
  lemma SwapMattersIff(c: Cursor, a: Return, b: Return)
    requires a.startedAt < b.startedAt && Newer(a, c)
    ensures MovedAll(c, [a, b]) != MovedAll(c, [b, a])
       <==> b.token.None? && a.token.Some? && a.token != c.token
  {
    MovedOneMore(c, [a], b);
    MovedOneMore(c, [b], a);
    MovedOneMore(c, [], a);
    MovedOneMore(c, [], b);
    assert [a] + [b] == [a, b] && [b] + [a] == [b, a] && [] + [a] == [a] && [] + [b] == [b];
  }

  lemma {:induction false} MovedAllJoins(c: Cursor, a: seq<Return>, b: seq<Return>)
    ensures MovedAll(c, a + b) == MovedAll(MovedAll(c, a), b)
  {
    if |b| == 0 {
      assert a + b == a;
    } else {
      assert (a + b)[..|a + b| - 1] == a + b[..|b| - 1];
      MovedAllJoins(c, a, b[..|b| - 1]);
    }
  }

  lemma {:induction false} OlderStay(c: Cursor, s: seq<Return>)
    requires forall x | x in s :: !Newer(x, c)
    ensures MovedAll(c, s) == c
  {
    if |s| > 0 {
      assert forall x | x in s[..|s| - 1] :: x in s;
      OlderStay(c, s[..|s| - 1]);
    }
  }

  /** No fetch newer than the cursor brings a token that it does not have. */
  ghost predicate NothingNew(c: Cursor, s: seq<Return>) {
    forall x | x in s && Newer(x, c) :: x.token.None? || x.token == c.token
  }

  lemma {:induction false} NothingNewKeepsToken(c: Cursor, s: seq<Return>)
    requires NothingNew(c, s)
    ensures MovedAll(c, s).token == c.token
    ensures c.start.Some? ==> MovedAll(c, s).start.Some? && MovedAll(c, s).start.value >= c.start.value
  {
    if |s| > 0 {
      assert forall x | x in s[..|s| - 1] :: x in s;
      NothingNewKeepsToken(c, s[..|s| - 1]);
    }
  }

  /** `t` is another order in which the fetches of `s` may come back. */
  ghost predicate Reorders(t: seq<Return>, s: seq<Return>) { multiset(t) == multiset(s) }

  /** When the order does not matter, for any number of fetches launched at different times
      of which `s[k]` is the newest. */
  ghost predicate Settles(c: Cursor, s: seq<Return>, k: nat)
    requires k < |s|
  {
    !Newer(s[k], c) || s[k].token.Some? || NothingNew(c, s)
  }

  lemma SettledOrdersAgree(c: Cursor, s: seq<Return>, t: seq<Return>, k: nat)
    requires DistinctStarts(s) && k < |s| && FirstNewest(s, k) && Settles(c, s, k) && Reorders(t, s)
    ensures MovedAll(c, t) == MovedAll(c, s)
  {
    hide MovedAll;
    assert s[k] in multiset(t);
    var j :| 0 <= j < |t| && t[j] == s[k];
    forall i | 0 <= i < |t| ensures t[i].startedAt <= t[j].startedAt {
      assert t[i] in multiset(s);
    }
    forall i | 0 <= i < |t| && i != j ensures t[i].startedAt < t[j].startedAt {
      OnlyOneNewest(s, t, k, j, i);
    }
    assert FirstNewest(t, j);
    CursorIsNewest(c, s, k);
    CursorIsNewest(c, t, j);
    if NothingNew(c, s) {
      assert forall x | x in t :: x in multiset(t) && x in multiset(s);
      NothingNewKeepsToken(c, s);
      NothingNewKeepsToken(c, t);
    }
  }

  lemma OnlyOneNewest(s: seq<Return>, t: seq<Return>, k: nat, j: nat, i: nat)
    requires DistinctStarts(s) && Reorders(t, s) && k < |s| && FirstNewest(s, k)
    requires j < |t| && i < |t| && i != j && t[j] == s[k]
    ensures t[i].startedAt < t[j].startedAt
  {
    assert t[i] in multiset(s);
    var m :| 0 <= m < |s| && s[m] == t[i];
    if m == k {
      TwiceInSeq(t, i, j);
      OnceInSeq(s, k);
    }
  }

  lemma TwiceInSeq(t: seq<Return>, i: nat, j: nat)
    requires i < |t| && j < |t| && i != j && t[i] == t[j]
    ensures multiset(t)[t[i]] >= 2
  {
    var a, b := if i < j then i else j, if i < j then j else i;
    assert t == t[..a] + [t[a]] + t[a + 1..b] + [t[b]] + t[b + 1..];
  }

  lemma OnceInSeq(s: seq<Return>, k: nat)
    requires DistinctStarts(s) && k < |s|
    ensures multiset(s)[s[k]] == 1
  {
    assert s == s[..k] + [s[k]] + s[k + 1..];
    assert s[k] !in s[..k] && s[k] !in s[k + 1..];
    assert s[k] !in multiset(s[..k]) && s[k] !in multiset(s[k + 1..]);
  }

  /** The newest first, or an older one with a new token first: they end differently. */
  lemma SwapShows(c: Cursor, early: Return, late: Return, rest: seq<Return>)
    requires Newer(early, c) && early.startedAt < late.startedAt
    requires late.token.None? && early.token.Some? && early.token != c.token
    requires forall x | x in rest :: x.startedAt <= late.startedAt
    ensures MovedAll(c, [early, late] + rest).token != MovedAll(c, [late, early] + rest).token
  {
    SwapMattersIff(c, early, late);
    MovedAllJoins(c, [early, late], rest);
    MovedAllJoins(c, [late, early], rest);
    PairMoves(c, early, late);
    OlderStay(MovedAll(c, [early, late]), rest);
    OlderStay(MovedAll(c, [late, early]), rest);
  }

  lemma PairMoves(c: Cursor, a: Return, b: Return)
    requires Newer(a, c) && a.startedAt < b.startedAt && b.token.None? && a.token.Some?
    ensures MovedAll(c, [a, b]) == Cursor(Some(b.startedAt), a.token)
    ensures MovedAll(c, [b, a]) == Cursor(Some(b.startedAt), c.token)
  {
    MovedOneMore(c, [a], b);
    MovedOneMore(c, [b], a);
    MovedOneMore(c, [], a);
    MovedOneMore(c, [], b);
    assert [a] + [b] == [a, b] && [b] + [a] == [b, a] && [] + [a] == [a] && [] + [b] == [b];
  }

  lemma RestOf(s: seq<Return>, i: nat, k: nat) returns (rest: seq<Return>)
    requires i < |s| && k < |s| && i != k
    ensures Reorders([s[i], s[k]] + rest, s) && Reorders([s[k], s[i]] + rest, s)
    ensures forall x | x in rest :: x in s
  {
    var a, b := if i < k then i else k, if i < k then k else i;
    var p, m, q := s[..a], s[a + 1..b], s[b + 1..];
    rest := p + m + q;
    assert s == p + [s[a]] + m + [s[b]] + q;
    Rearranged(p, s[a], m, s[b], q);
  }

  lemma Rearranged(p: seq<Return>, x: Return, m: seq<Return>, y: Return, q: seq<Return>)
    ensures Reorders([x, y] + (p + m + q), p + [x] + m + [y] + q)
    ensures Reorders([y, x] + (p + m + q), p + [x] + m + [y] + q)
  {
    assert multiset([x, y]) == multiset([y, x]) == multiset([x]) + multiset([y]);
  }

  /** The exact condition. Fetches launched at different times leave the same cursor in every
      order of completion if and only if the newest of them is not news, or carries a
      token, or no fetch that is news brings a token the cursor does not have. */
  lemma OrderDoesNotMatterIff(c: Cursor, s: seq<Return>, k: nat)
    requires DistinctStarts(s) && k < |s| && FirstNewest(s, k)
    ensures (forall t | Reorders(t, s) :: MovedAll(c, t) == MovedAll(c, s)) <==> Settles(c, s, k)
  {
    hide MovedAll, Reorders;
    if Settles(c, s, k) {
      forall t | Reorders(t, s) ensures MovedAll(c, t) == MovedAll(c, s) {
        SettledOrdersAgree(c, s, t, k);
      }
    } else {
      var x :| x in s && Newer(x, c) && x.token.Some? && x.token != c.token;
      var i :| 0 <= i < |s| && s[i] == x;
      var rest := RestOf(s, i, k);
      SwapShows(c, s[i], s[k], rest);
    }
  }

  // ------------------------------------------------------------ pace

  /** Nothing in the past is dated after `now`. */
  ghost predicate Timely(p: Poll, now: real) {
    && (forall f | f in p.fetches :: p.fetches[f].startedAt <= now)
    && (p.round.Some? ==> p.round.value.startedAt <= now)
    && (p.rtt.Some? ==> p.rtt.value >= 0.0)
    && (p.lastLaunch.Some? ==> p.lastLaunch.value <= now)
  }

  lemma StepKeepsTimely(o: Options, p: Poll, op: Op, before: real)
    requires o.Accepted() && Timely(p, before) && before <= op.at && Enabled(o, p, op)
    ensures Timely(Step(o, p, op), op.at)
  {
    hide SightedAll, MayLaunch, MayStartRound, Max, Min, Later, Answered, RacerAnswered, RoundEnded, Released;
    match op {
      case Answer(f, page, at) =>
        AnswerKeepsTimely(p, f, page, before, at);
        hide Timely;
      case RacerAnswers(page, at) =>
        RacerKeepsTimely(p, page, before, at);
        hide Timely;
      case Release(f, quietMs, at) =>
        ReleaseKeepsTimely(o, p, f, quietMs, before, at);
        hide Timely;
      case EndRound(quietMs, at) =>
        EndKeepsTimely(o, p, quietMs, before, at);
        hide Timely;
      case _ =>
    }
  }

  lemma ReleaseKeepsTimely(o: Options, p: Poll, f: nat, quietMs: real, before: real, now: real)
    requires Timely(p, before) && before <= now && MayRelease(p, f)
    ensures Timely(Released(o, p, f, quietMs, now), now)
  {
    hide Max, Min, Later;
  }

  lemma EndKeepsTimely(o: Options, p: Poll, quietMs: real, before: real, now: real)
    requires Timely(p, before) && before <= now && p.round.Some?
    ensures Timely(RoundEnded(o, p, quietMs, now), now)
  {
    hide Max, Min;
  }

  lemma AnswerKeepsTimely(p: Poll, f: nat, page: Page, before: real, now: real)
    requires Timely(p, before) && before <= now && f in p.fetches
    ensures Timely(Answered(p, f, page, now), now)
  {
    hide SightedAll;
  }

  lemma RacerKeepsTimely(p: Poll, page: Page, before: real, now: real)
    requires Timely(p, before) && before <= now && Waiting(p)
    ensures Timely(RacerAnswered(p, page, now), now)
  {
  }

  lemma {:induction false} RunsAreTimely(o: Options, r: Run<Op>, now: real)
    requires o.Accepted() && InOrder(r, now)
    ensures Timely(After(o, r), now)
  {
    if r.Then? {
      hide Step, Enabled;
      RunsAreTimely(o, r.before, r.last.at);
      if Enabled(o, After(o, r.before), r.last) {
        hide Timely;
        StepKeepsTimely(o, After(o, r.before), r.last, r.last.at);
        Timelier(After(o, r), r.last.at, now);
      }
    }
  }

  lemma Timelier(p: Poll, before: real, now: real)
    requires Timely(p, before) && before <= now
    ensures Timely(p, now)
  {
  }

  /** The shortest time between two launches. */
  ghost function Gap(o: Options): real
    requires o.Accepted()
  {
    o.intervalMs / o.stagger as real
  }

  /** `k` launches since `t0` took at least `k - 1` gaps. */
  ghost predicate Paced(o: Options, p: Poll, k: int, t0: real)
    requires o.Accepted()
  {
    k > 0 ==> p.lastLaunch.Some? && (k - 1) as real * Gap(o) <= p.lastLaunch.value - t0
  }

  lemma StepKeepsPace(o: Options, p: Poll, op: Op, k: int, t0: real)
    requires o.Accepted() && o.intervalMs >= 0.0 && Enabled(o, p, op)
    requires (p.rtt.Some? ==> p.rtt.value >= 0.0) && t0 <= op.at
    requires k >= 0 && Paced(o, p, k, t0)
    ensures Step(o, p, op).next == p.next || Step(o, p, op).next == p.next + 1
    ensures Paced(o, Step(o, p, op), k + Step(o, p, op).next - p.next, t0)
  {
    hide Gap;
    if op.Launch? {
      if k > 0 {
        LaunchIsSpaced(o, p, op.at);
        assert k as real * Gap(o) == (k - 1) as real * Gap(o) + Gap(o);
      }
    } else {
      OnlyLaunchesCount(o, p, op);
      hide Step, Enabled;
    }
  }

  lemma OnlyLaunchesCount(o: Options, p: Poll, op: Op)
    requires o.Accepted() && Enabled(o, p, op) && !op.Launch?
    ensures Step(o, p, op).next == p.next && Step(o, p, op).lastLaunch == p.lastLaunch
  {
    hide SightedAll, Max, Min, Later, Due, Smoothed;
  }

  lemma LaunchIsSpaced(o: Options, p: Poll, now: real)
    requires o.Accepted() && o.intervalMs >= 0.0 && MayLaunch(o, p, now) && p.lastLaunch.Some?
    requires p.rtt.Some? ==> p.rtt.value >= 0.0
    ensures now - p.lastLaunch.value >= Gap(o)
  {
    var n := o.stagger as real;
    assert Spacing(o, p) >= Gap(o) by {
      if p.rtt.Some? { assert (p.rtt.value + o.intervalMs) / n == p.rtt.value / n + o.intervalMs / n; }
    }
  }

  ghost predicate SinceThen(r0: Run<Op>, r: Run<Op>, t0: real) {
    r == r0 || (r.Then? && t0 <= r.last.at && SinceThen(r0, r.before, t0))
  }

  /** However fetches end, and however short the round trip: `k` launches after `t0` are
      spread over at least `(k - 1) * intervalMs / pollStagger`. */
  lemma {:induction false} LaunchRateIsBounded(o: Options, r0: Run<Op>, r: Run<Op>, t0: real, now: real)
    requires o.Accepted() && o.intervalMs >= 0.0
    requires InOrder(r, now) && SinceThen(r0, r, t0)
    ensures var k := After(o, r).next - After(o, r0).next;
            k >= 0 && Paced(o, After(o, r), k, t0) && (k > 0 ==> (k - 1) as real * Gap(o) <= now - t0)
  {
    hide Step, Enabled, Gap;
    RunsAreTimely(o, r, now);
    if r != r0 {
      var p := After(o, r.before);
      LaunchRateIsBounded(o, r0, r.before, t0, r.last.at);
      RunsAreTimely(o, r.before, r.last.at);
      if Enabled(o, p, r.last) {
        StepKeepsPace(o, p, r.last, p.next - After(o, r0).next, t0);
      }
    }
  }
}
