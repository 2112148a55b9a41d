/** The recovery ladder: which step to take next, one rung at a time. */
module Recovery {
  import opened Wrappers
  import opened Runs
  import opened Alerts

  datatype Rung = NoRung | AvoidLane | ReconnectLane | RearmPoll | ReconnectSession | RestartWorker {
    function Index(): nat {
      match this
      case NoRung => 0 case AvoidLane => 1 case ReconnectLane => 2
      case RearmPoll => 3 case ReconnectSession => 4 case RestartWorker => 5
    }

    function Next(): Option<Rung> {
      match this
      case NoRung => Some(AvoidLane) case AvoidLane => Some(ReconnectLane) case ReconnectLane => Some(RearmPoll)
      case RearmPoll => Some(ReconnectSession) case ReconnectSession => Some(RestartWorker)
      case RestartWorker => None
    }
  }

  /** Where a kind of alert enters the ladder; one kind is for observation only. */
  function EntryRung(k: Kind): (r: Option<Rung>)
    ensures r.Some? ==> 1 <= r.value.Index() <= 4
  {
    match k
    case FirstResponseRegression => Some(AvoidLane)
    case NoLaneAvailable => Some(ReconnectLane)
    case MissedEvents => Some(RearmPoll)
    case FailureRate => Some(ReconnectLane)
    case ReadinessLoss => Some(ReconnectSession)
    case LineTriggerReplyBudget => None
  }

  /** The highest entry among the actionable alerts; the earliest of several. */
  function Worst(alerts: seq<Kind>): (r: Option<Kind>)
    ensures r.Some? ==> r.value in alerts && EntryRung(r.value).Some?
    ensures r.Some? ==> forall k | k in alerts && EntryRung(k).Some? ::
              EntryRung(k).value.Index() <= EntryRung(r.value).value.Index()
    ensures r.None? ==> forall k | k in alerts :: EntryRung(k).None?
  {
    if |alerts| == 0 then None
    else
      var rest := Worst(alerts[1..]);
      if EntryRung(alerts[0]).None? then rest
      else if rest.Some? && EntryRung(rest.value).value.Index() > EntryRung(alerts[0]).value.Index() then rest
      else Some(alerts[0])
  }

  datatype Options = Options(cooldownMs: real, clearAfterCleanChecks: int, ceiling: Rung)

  /** `after`: the rung that had not helped, when the action is a climb. */
  datatype Action = Enter(rung: Rung, kind: Kind, after: Option<Rung>, step: nat) | Recovered

  datatype Planner = Planner(rung: Rung, enteredMono: real, cleanChecks: nat, step: nat)

  function Entered(p: Planner, rung: Rung, kind: Kind, after: Option<Rung>, now: real): (Planner, Option<Action>) {
    (Planner(rung, now, 0, p.step + 1), Some(Enter(rung, kind, after, p.step + 1)))
  }

  function WasReset(p: Planner): Planner {
    if p.rung.NoRung? then p else p.(rung := NoRung, step := 0, cleanChecks := 0)
  }

  function ObservedClean(o: Options, p: Planner): (Planner, Option<Action>) {
    if p.rung.NoRung? then (p, None)
    else if p.cleanChecks + 1 < o.clearAfterCleanChecks then (p.(cleanChecks := p.cleanChecks + 1), None)
    else (WasReset(p), Some(Recovered))
  }

  function Planned(o: Options, p: Planner, alerts: seq<Kind>, now: real): (Planner, Option<Action>) {
    if |alerts| == 0 then ObservedClean(o, p) else
    var p := p.(cleanChecks := 0);
    var worst := Worst(alerts);
    if worst.None? then (p, None) else
    var entry := EntryRung(worst.value).value;
    if p.rung.NoRung? then Entered(p, entry, worst.value, None, now)
    else if now - p.enteredMono < o.cooldownMs then (p, None)
    else if entry.Index() > p.rung.Index() then Entered(p, entry, worst.value, None, now)
    else
      var next := p.rung.Next();
      if next.None? || next.value.Index() > o.ceiling.Index() then (p, None)
      else Entered(p, next.value, worst.value, Some(p.rung), now)
  }

  const INITIAL: Planner := Planner(NoRung, 0.0, 0, 0)

  class RecoveryPlanner {
    const options: Options
    var rung: Rung
    var enteredMono: real
    var cleanChecks: nat
    var step: nat

    function Now(): Planner
      reads this
    {
      Planner(rung, enteredMono, cleanChecks, step)
    }

    constructor (options: Options)
      ensures this.options == options && Now() == INITIAL
    {
      this.options := options;
      rung, enteredMono, cleanChecks, step := NoRung, 0.0, 0, 0;
    }

    method Next(alerts: seq<Kind>, now: real) returns (action: Option<Action>)
      modifies this
      ensures (Now(), action) == Planned(options, old(Now()), alerts, now)
    {
      if |alerts| == 0 {
        action := ObserveClean();
        return;
      }
      cleanChecks := 0;
      var worst := Worst(alerts);
      if worst.None? { return None; }
      var entry := EntryRung(worst.value).value;
      if rung.NoRung? {
        action := EnterRung(entry, worst.value, None, now);
        return;
      }
      if now - enteredMono < options.cooldownMs { return None; }
      if entry.Index() > rung.Index() {
        action := EnterRung(entry, worst.value, None, now);
        return;
      }
      var next := rung.Next();
      if next.None? || next.value.Index() > options.ceiling.Index() { return None; }
      action := EnterRung(next.value, worst.value, Some(rung), now);
    }

    method Reset()
      modifies this
      ensures Now() == WasReset(old(Now()))
    {
      if rung.NoRung? { return; }
      rung, step, cleanChecks := NoRung, 0, 0;
    }

    method ObserveClean() returns (action: Option<Action>)
      modifies this
      ensures (Now(), action) == ObservedClean(options, old(Now()))
    {
      if rung.NoRung? { return None; }
      cleanChecks := cleanChecks + 1;
      if cleanChecks < options.clearAfterCleanChecks { return None; }
      Reset();
      return Some(Recovered);
    }

    method EnterRung(to: Rung, kind: Kind, after: Option<Rung>, now: real) returns (action: Option<Action>)
      modifies this
      ensures (Now(), action) == Entered(old(Now()), to, kind, after, now)
    {
      rung := to;
      enteredMono := now;
      step := step + 1;
      cleanChecks := 0;
      return Some(Enter(to, kind, after, step));
    }
  }

  // ------------------------------------------------------------ the rule of the ladder

  /** The rungs from the bottom up. */
  const LADDER: seq<Rung> := [NoRung, AvoidLane, ReconnectLane, RearmPoll, ReconnectSession, RestartWorker]

  /** How high each kind of alert enters: a latency regression at the first rung, readiness loss at the
      fourth; the trigger-to-reply budget nowhere. */
  ghost function Height(k: Kind): nat {
    match k
    case FirstResponseRegression => 1
    case NoLaneAvailable => 2
    case FailureRate => 2
    case MissedEvents => 3
    case ReadinessLoss => 4
    case LineTriggerReplyBudget => 0
  }

  ghost function Highest(alerts: seq<Kind>): nat {
    if |alerts| == 0 then 0
    else
      var rest := Highest(alerts[1..]);
      if Height(alerts[0]) >= rest then Height(alerts[0]) else rest
  }

  lemma {:induction false} WorstIsHighest(alerts: seq<Kind>)
    ensures Worst(alerts).Some? <==> Highest(alerts) > 0
    ensures Worst(alerts).Some? ==>
              && Height(Worst(alerts).value) == Highest(alerts)
              && EntryRung(Worst(alerts).value) == Some(LADDER[Highest(alerts)])
    ensures forall k | k in alerts :: Height(k) <= Highest(alerts)
  {
    if |alerts| > 0 { WorstIsHighest(alerts[1..]); }
  }

  /** Where an evaluation leads: clean ones end an incident when there were enough; an alert enters at
      its own height at the bottom, waits out the cooldown of the rung in force, then goes to its own
      height if that is above, else one rung up unless the ceiling is reached. */
  ghost function Leads(o: Options, p: Planner, alerts: seq<Kind>, at: real): nat {
    var r, h := p.rung.Index(), Highest(alerts);
    if alerts == [] then if p.cleanChecks + 1 >= o.clearAfterCleanChecks then 0 else r
    else if h == 0 then r
    else if r == 0 then h
    else if at < p.enteredMono + o.cooldownMs then r
    else if h > r then h
    else if r < 5 && r < o.ceiling.Index() then r + 1
    else r
  }

  /** The planner does that, and says so: it names the rung it enters, and the kind of alert that is worst;
      of a climb also the rung that had not helped. */
  lemma PlannerLeadsThere(o: Options, p: Planner, alerts: seq<Kind>, at: real)
    ensures var (p', action) := Planned(o, p, alerts, at);
            var r, r' := p.rung.Index(), Leads(o, p, alerts, at);
            && r' < |LADDER| && LADDER[r] == p.rung && p'.rung == LADDER[r']
            && (action == Some(Recovered) <==> alerts == [] && r > 0 && r' == 0)
            && (r' > r <==> action.Some? && action.value.Enter?)
            && (r' > r ==>
                  && action.value.rung == p'.rung && p'.enteredMono == at && p'.cleanChecks == 0
                  && action.value.kind in alerts && Height(action.value.kind) == Highest(alerts)
                  && action.value.step == p'.step == p.step + 1
                  && action.value.after == if r == 0 || Highest(alerts) > r then None else Some(p.rung))
            && (r' <= r && action.None? ==> p' == p.(cleanChecks := p'.cleanChecks))
            && p'.cleanChecks == (if alerts == [] && r > 0 && r' == r then p.cleanChecks + 1
                                  else if alerts == [] && r == 0 then p.cleanChecks else 0)
            && (action == Some(Recovered) ==> p'.step == 0)
  {
    WorstIsHighest(alerts);
    hide Worst;
  }

  // ------------------------------------------------------------ runs

  datatype Op = Next(alerts: seq<Kind>, at: real) | Reset

  ghost function Step(o: Options, p: Planner, op: Op): Planner {
    match op
    case Next(alerts, at) => Planned(o, p, alerts, at).0
    case Reset => WasReset(p)
  }

  ghost function After(o: Options, r: Run<Op>): Planner {
    match r
    case Start => INITIAL
    case Then(before, op) => Step(o, After(o, before), op)
  }

  /** The action a step took, if it entered a rung. */
  ghost function Taken(o: Options, p: Planner, op: Op): Option<Action> {
    match op
    case Next(alerts, at) =>
      var a := Planned(o, p, alerts, at).1;
      if a.Some? && a.value.Enter? then a else None
    case Reset => None
  }

  /** When the first action of the incident in progress was taken. */
  ghost function FirstAt(o: Options, r: Run<Op>): real {
    match r
    case Start => 0.0
    case Then(before, op) =>
      if After(o, before).rung.NoRung? && op.Next? then op.at else FirstAt(o, before)
  }

  /** How many actions the incident in progress has taken. */
  ghost function ActionsSoFar(o: Options, r: Run<Op>): nat {
    match r
    case Start => 0
    case Then(before, op) =>
      if After(o, r).rung.NoRung? then 0
      else ActionsSoFar(o, before) + if Taken(o, After(o, before), op).Some? then 1 else 0
  }

  /** One evaluation: an action counts, goes up, and waits out the cooldown of the last. */
  lemma StepActs(o: Options, p: Planner, op: Op)
    requires (p.rung.NoRung? <==> p.step == 0) && p.step <= p.rung.Index()
    ensures var p', a := Step(o, p, op), Taken(o, p, op);
            && (p'.rung.NoRung? <==> p'.step == 0) && p'.step <= p'.rung.Index()
            && (a.None? && !p'.rung.NoRung? ==> p'.step == p.step && p'.enteredMono == p.enteredMono)
            && (a.Some? ==>
                  && op.Next? && p'.enteredMono == op.at && p'.step == p.step + 1 == a.value.step
                  && a.value.rung == p'.rung && p'.rung.Index() > p.rung.Index()
                  && (p.step > 0 ==> op.at - p.enteredMono >= o.cooldownMs))
  {
    hide Worst;
  }

  /** Between incidents the planner counts nothing; within one, its step is the number of
      actions taken, its rung is at least that high, and each action but the first waited
      out a cooldown. */
  lemma {:induction false} ActionsAreSpaced(o: Options, r: Run<Op>)
    ensures var p := After(o, r);
            && p.step == ActionsSoFar(o, r)
            && (p.rung.NoRung? <==> p.step == 0)
            && p.step <= p.rung.Index()
            && (p.step > 0 ==> p.enteredMono - FirstAt(o, r) >= Waits(o, p.step - 1))
  {
    if r.Then? {
      hide Step, Taken, Waits;
      ActionsAreSpaced(o, r.before);
      var p := After(o, r.before);
      StepActs(o, p, r.last);
      if p.step > 0 { OneMore(o, p.step); } else { NoWait(o); }
    }
  }

  /** `n` cooldowns. */
  ghost function Waits(o: Options, n: int): real { n as real * o.cooldownMs }

  lemma NoWait(o: Options)
    ensures Waits(o, 0) == 0.0
  {
  }

  lemma OneMore(o: Options, n: int)
    ensures Waits(o, n) == Waits(o, n - 1) + o.cooldownMs
  {
  }

  /** An action within an incident goes up, and comes at least one cooldown after the last:
      the k-th comes at least k - 1 cooldowns after the first. So an incident takes at
      most five. */
  lemma KthActionWaits(o: Options, r: Run<Op>, op: Op)
    requires Taken(o, After(o, r), op).Some?
    ensures var p, a := After(o, r), Taken(o, After(o, r), op).value;
            && a.rung.Index() > p.rung.Index()
            && a.step == ActionsSoFar(o, Then(r, op)) <= 5
            && (!p.rung.NoRung? ==> op.at - p.enteredMono >= o.cooldownMs)
            && op.at - FirstAt(o, Then(r, op)) >= Waits(o, a.step - 1)
  {
    hide Step, Taken, FirstAt, ActionsSoFar, Waits;
    ActionsAreSpaced(o, r);
    ActionsAreSpaced(o, Then(r, op));
    StepActs(o, After(o, r), op);
  }

  // ------------------------------------------------------------ the bottom of the ladder

  /** Restarting the worker is never anyone's entry: it is a climb from the rung below. */
  lemma RestartIsAClimb(o: Options, p: Planner, op: Op)
    requires Taken(o, p, op).Some? && Taken(o, p, op).value.rung.RestartWorker?
    ensures Taken(o, p, op).value.after == Some(ReconnectSession) && p.rung == ReconnectSession
  {
    hide Worst;
  }

  ghost predicate OnlyRegressions(r: Run<Op>) {
    r.Then? ==>
      && (r.last.Next? ==> forall k | k in r.last.alerts :: k.FirstResponseRegression? || k.LineTriggerReplyBudget?)
      && OnlyRegressions(r.before)
  }

  /** With nothing but latency regressions the ladder is climbed rung by rung. */
  lemma {:induction false} RegressionsClimbOneByOne(o: Options, r: Run<Op>)
    requires OnlyRegressions(r)
    ensures After(o, r).rung.Index() == After(o, r).step
  {
    if r.Then? {
      RegressionsClimbOneByOne(o, r.before);
      ActionsAreSpaced(o, r.before);
      if r.last.Next? && Worst(r.last.alerts).Some? {
        var k := Worst(r.last.alerts).value;
        assert k in r.last.alerts && k == FirstResponseRegression;
      }
      hide Worst;
    }
  }

  /** So a slow spell alone restarts the worker only after four cooldowns. */
  lemma RegressionsRestartLate(o: Options, r: Run<Op>)
    requires OnlyRegressions(r) && After(o, r).rung.RestartWorker?
    ensures After(o, r).enteredMono - FirstAt(o, r) >= 4.0 * o.cooldownMs
  {
    hide After, FirstAt, ActionsSoFar;
    RegressionsClimbOneByOne(o, r);
    ActionsAreSpaced(o, r);
    assert Waits(o, 4) == 4.0 * o.cooldownMs;
  }

  // ------------------------------------------------------------ the ceiling

  /** A climb stays under the ceiling; only an alert's own entry can be above it. */
  lemma ClimbsStayUnderTheCeiling(o: Options, p: Planner, alerts: seq<Kind>, at: real)
    requires Taken(o, p, Op.Next(alerts, at)).Some?
    ensures var a := Taken(o, p, Op.Next(alerts, at)).value;
            && (a.after.Some? ==> a.rung.Index() <= o.ceiling.Index() && a.rung.Index() == p.rung.Index() + 1)
            && (a.after.None? ==> a.kind in alerts && EntryRung(a.kind) == Some(a.rung))
  {
  }

  ghost predicate EntriesUnder(alerts: seq<Kind>, ceiling: Rung) {
    forall k | k in alerts && EntryRung(k).Some? :: EntryRung(k).value.Index() <= ceiling.Index()
  }

  ghost predicate AllEntriesUnder(r: Run<Op>, ceiling: Rung) {
    r.Then? ==> (r.last.Next? ==> EntriesUnder(r.last.alerts, ceiling)) && AllEntriesUnder(r.before, ceiling)
  }

  lemma {:induction false} CeilingHoldsForLowEntries(o: Options, r: Run<Op>)
    requires AllEntriesUnder(r, o.ceiling)
    ensures After(o, r).rung.Index() <= o.ceiling.Index()
  {
    if r.Then? { CeilingHoldsForLowEntries(o, r.before); }
  }

  /** What keeps an evaluation under the ceiling: no alert enters above it, or the rung in
      force has not had its cooldown. */
  ghost predicate KeepsUnder(o: Options, p: Planner, op: Op) {
    op.Next? ==>
      || EntriesUnder(op.alerts, o.ceiling)
      || (!p.rung.NoRung? && op.at - p.enteredMono < o.cooldownMs)
  }

  /** A ceiling limits climbing only. From any planner that is under it, one step passes it
      if and only if an alert enters above it when an entry is allowed: at the bottom of
      the ladder, or in the middle of an incident once the cooldown is over. */
  lemma StaysUnderTheCeilingIff(o: Options, p: Planner, op: Op)
    requires p.rung.Index() <= o.ceiling.Index()
    ensures Step(o, p, op).rung.Index() <= o.ceiling.Index() <==> KeepsUnder(o, p, op)
  {
  }

  /** The planner was at or under the ceiling all along. */
  ghost predicate AlwaysUnder(o: Options, r: Run<Op>) {
    After(o, r).rung.Index() <= o.ceiling.Index() && (r.Then? ==> AlwaysUnder(o, r.before))
  }

  ghost predicate AlwaysKeepsUnder(o: Options, r: Run<Op>) {
    r.Then? ==> KeepsUnder(o, After(o, r.before), r.last) && AlwaysKeepsUnder(o, r.before)
  }

  /** So a whole run stays under the ceiling exactly when each of its evaluations does. */
  lemma {:induction false} RunStaysUnderTheCeilingIff(o: Options, r: Run<Op>)
    ensures AlwaysUnder(o, r) <==> AlwaysKeepsUnder(o, r)
  {
    if r.Then? {
      hide Step, KeepsUnder;
      RunStaysUnderTheCeilingIff(o, r.before);
      if AlwaysUnder(o, r.before) { StaysUnderTheCeilingIff(o, After(o, r.before), r.last); }
    }
  }

  /** With the lowest ceiling, readiness loss passes it at once. */
  lemma CeilingIsPassedByEntry(cooldownMs: real, clearAfter: int, at: real)
    ensures var o := Options(cooldownMs, clearAfter, AvoidLane);
            Step(o, INITIAL, Op.Next([ReadinessLoss], at)).rung == ReconnectSession
  {
    assert Worst([ReadinessLoss]) == Some(ReadinessLoss);
  }

  /** And it passes it in the middle of an incident that began under it. */
  lemma CeilingIsPassedByJump(cooldownMs: real, clearAfter: int, first: real, second: real)
    requires second - first >= cooldownMs
    ensures var o := Options(cooldownMs, clearAfter, AvoidLane);
            var r := Then(Start, Op.Next([FirstResponseRegression], first));
            && After(o, r).rung == AvoidLane
            && After(o, Then(r, Op.Next([ReadinessLoss], second))).rung == ReconnectSession
  {
    assert Worst([FirstResponseRegression]) == Some(FirstResponseRegression);
    assert Worst([ReadinessLoss]) == Some(ReadinessLoss);
    var o := Options(cooldownMs, clearAfter, AvoidLane);
    assert After(o, Start) == INITIAL;
  }

  // ------------------------------------------------------------ coming down

  /** How many clean evaluations in a row end the run, since the last action. */
  ghost function CleanStreak(r: Run<Op>): nat {
    match r
    case Start => 0
    case Then(before, Next(alerts, _)) => if |alerts| == 0 then CleanStreak(before) + 1 else 0
    case Then(before, Reset) => CleanStreak(before)
  }

  lemma {:induction false} CleanChecksAreTheStreak(o: Options, r: Run<Op>)
    ensures var p := After(o, r);
            !p.rung.NoRung? ==>
              p.cleanChecks == CleanStreak(r) && (p.cleanChecks < o.clearAfterCleanChecks || p.cleanChecks == 0)
  {
    if r.Then? {
      hide Worst;
      CleanChecksAreTheStreak(o, r.before);
    }
  }

  /** An incident ends by itself exactly when the last `clearAfterCleanChecks` evaluations,
      and at least one, were clean. */
  lemma RecoversIff(o: Options, r: Run<Op>, alerts: seq<Kind>, at: real)
    requires !After(o, r).rung.NoRung?
    ensures Step(o, After(o, r), Op.Next(alerts, at)).rung.NoRung?
       <==> |alerts| == 0 && CleanStreak(Then(r, Op.Next(alerts, at))) >= o.clearAfterCleanChecks
  {
    CleanChecksAreTheStreak(o, r);
    hide After;
  }
}
