/** Who reaches which bot. Resolving a user's bot takes several awaits, between which the
    account file and the live hosts may change; only one resolution runs at a time. */
module BotRegistry {
  import opened Wrappers
  import opened Runs
  import opened UsersStore

  /** A live host: the bot it was built for, and which of the hosts built so far it is. */
  datatype Host = Host(botId: string, instance: nat)

  datatype Options = Options(primaryId: string, primaryOwner: Option<string>, platform: Platform)

  /** Where the resolution in progress stands. */
  datatype Phase =
    | Idle
    | Listing(user: User)
    | Assigning(user: User, botId: string)
    | Reaching(userId: string, botId: string)
    | Configuring(userId: string, botId: string)

  datatype Registry = Registry(users: Users, hosts: map<string, Host>, phase: Phase, built: nat)

  /** A host for the user who asked, or an error. */
  datatype Outcome = Pending | Returned(userId: string, host: Host) | Failed

  function Stripped(s: string): string {
    if |s| == 0 then [] else (if s[0] == '-' then [] else [s[0]]) + Stripped(s[1..])
  }

  function BotIdForUser(userId: string): string {
    var hex := Stripped(userId);
    "u-" + if |hex| > 12 then hex[..12] else hex
  }

  predicate MayClaimPrimary(o: Options, u: User) {
    if o.primaryOwner.None? || o.primaryOwner.value == "" then u.role == Admin
    else o.platform.lower(u.username) == o.platform.lower(o.primaryOwner.value)
  }

  predicate Owned(users: Users, botId: string) { exists u :: u in users && u.botId == Some(botId) }

  function ChosenBot(o: Options, users: Users, u: User): string {
    if !Owned(users, o.primaryId) && MayClaimPrimary(o, u) then o.primaryId else BotIdForUser(u.userId)
  }

  // ------------------------------------------------------------ the steps of a resolution

  /** The record is read again; one that is no longer stored is taken as the caller has it. */
  function Asked(r: Registry, user: User): Registry {
    var found := FindById(r.users, user.userId);
    var current := if found.Some? then found.value else user;
    r.(phase := if current.botId.Some? then Reaching(current.userId, current.botId.value) else Listing(current))
  }

  function Listed(o: Options, r: Registry): Registry
    requires r.phase.Listing?
  {
    r.(phase := Assigning(r.phase.user, ChosenBot(o, r.users, r.phase.user)))
  }

  function Assigned(r: Registry, now: int): (Registry, Outcome)
    requires r.phase.Assigning?
  {
    var after := BotSet(r.users, r.phase.user.userId, r.phase.botId, now);
    if after.Err? then (r.(phase := Idle), Failed)
    else (r.(users := after.value, phase := Reaching(r.phase.user.userId, r.phase.botId)), Pending)
  }

  function Reached(r: Registry): (Registry, Outcome)
    requires r.phase.Reaching?
  {
    var id, bot := r.phase.userId, r.phase.botId;
    if bot in r.hosts then (r.(phase := Idle), Returned(id, r.hosts[bot]))
    else (r.(phase := Configuring(id, bot)), Pending)
  }

  /** The config file was there, or was written, or could not be. */
  function Configured(r: Registry, ok: bool): (Registry, Outcome)
    requires r.phase.Configuring?
  {
    if !ok then (r.(phase := Idle), Failed) else
    var host := Host(r.phase.botId, r.built);
    (r.(hosts := r.hosts[r.phase.botId := host], built := r.built + 1, phase := Idle), Returned(r.phase.userId, host))
  }

  function Released(o: Options, r: Registry, user: User): Registry {
    if user.botId.None? || user.botId.value == o.primaryId then r else r.(hosts := r.hosts - {user.botId.value})
  }

  function Opened(o: Options, userId: string, now: int): Registry {
    Registry(Seeded(o.platform, userId, now), map[o.primaryId := Host(o.primaryId, 0)], Idle, 1)
  }

  class BotRegistry {
    const options: Options
    const store: UsersStore
    var hosts: map<string, Host>
    var phase: Phase
    var built: nat

    function Now(): Registry
      reads this, store
    {
      Registry(store.users, hosts, phase, built)
    }

    constructor (options: Options, store: UsersStore)
      ensures this.options == options && this.store == store
      ensures Now() == Registry(store.users, map[options.primaryId := Host(options.primaryId, 0)], Idle, 1)
    {
      this.options := options;
      this.store := store;
      hosts, phase, built := map[options.primaryId := Host(options.primaryId, 0)], Idle, 1;
    }

    method Ask(user: User)
      requires phase.Idle?
      modifies this`phase
      ensures Now() == Asked(old(Now()), user)
    {
      var found := FindById(store.users, user.userId);
      var current := if found.Some? then found.value else user;
      phase := if current.botId.Some? then Reaching(current.userId, current.botId.value) else Listing(current);
    }

    /** The first half of `#assign`. */
    method List()
      requires phase.Listing?
      modifies this`phase
      ensures Now() == Listed(options, old(Now()))
    {
      var user := phase.user;
      var primaryTaken := Owned(store.users, options.primaryId);
      var claimsPrimary := !primaryTaken && MayClaimPrimary(options, user);
      phase := Assigning(user, if claimsPrimary then options.primaryId else BotIdForUser(user.userId));
    }

    method Assign(now: int) returns (outcome: Outcome)
      requires phase.Assigning?
      modifies this`phase, store
      ensures (Now(), outcome) == Assigned(old(Now()), now)
    {
      var error := store.SetBotId(phase.user.userId, phase.botId, now);
      if error.Some? {
        phase := Idle;
        return Failed;
      }
      phase := Reaching(phase.user.userId, phase.botId);
      return Pending;
    }

    method Reach() returns (outcome: Outcome)
      requires phase.Reaching?
      modifies this`phase
      ensures (Now(), outcome) == Reached(old(Now()))
    {
      if phase.botId in hosts {
        outcome := Returned(phase.userId, hosts[phase.botId]);
        phase := Idle;
      } else {
        phase := Configuring(phase.userId, phase.botId);
        outcome := Pending;
      }
    }

    method Build(configured: bool) returns (outcome: Outcome)
      requires phase.Configuring?
      modifies this`phase, this`hosts, this`built
      ensures (Now(), outcome) == Configured(old(Now()), configured)
    {
      if !configured {
        phase := Idle;
        return Failed;
      }
      var host := Host(phase.botId, built);
      outcome := Returned(phase.userId, host);
      hosts, built, phase := hosts[phase.botId := host], built + 1, Idle;
    }

    method Release(user: User)
      modifies this`hosts
      ensures Now() == Released(options, old(Now()), user)
    {
      if user.botId.None? || user.botId.value == options.primaryId { return; }
      if user.botId.value !in hosts { return; }
      hosts := hosts - {user.botId.value};
    }

    method CloseAll()
      modifies this`hosts
      ensures Now() == old(Now()).(hosts := map[])
    {
      hosts := map[];
    }
  }

  // ------------------------------------------------------------ runs

  datatype Op =
    | Ask(user: User) | List | Assign(now: int) | Reach | Build(configured: bool)
    | Release(user: User) | CloseAll
    | Create(
        userId: string, username: string, password: string, role: Option<Role>, displayName: Option<string>, now: int)
    | SetPassword(id: string, password: string, now: int)
    | SetRole(id: string, to: Role, now: int)
    | Remove(id: string)

  ghost function Stored(r: Registry, users: Result<Users, StoreError>): Registry {
    if users.Ok? then r.(users := users.value) else r
  }

  /** A new account gets an id that nobody has, nor anyone being resolved. */
  ghost predicate FreshId(r: Registry, id: string) {
    && !HasId(r.users, id)
    && (match r.phase
        case Idle => true
        case Listing(u) => u.userId != id
        case Assigning(u, _) => u.userId != id
        case Reaching(userId, _) => userId != id
        case Configuring(userId, _) => userId != id)
  }

  ghost function StepWith(o: Options, r: Registry, op: Op): (Registry, Outcome) {
    match op
    case Ask(user) => if r.phase.Idle? then (Asked(r, user), Pending) else (r, Pending)
    case List => if r.phase.Listing? then (Listed(o, r), Pending) else (r, Pending)
    case Assign(now) => if r.phase.Assigning? then Assigned(r, now) else (r, Pending)
    case Reach => if r.phase.Reaching? then Reached(r) else (r, Pending)
    case Build(configured) => if r.phase.Configuring? then Configured(r, configured) else (r, Pending)
    case Release(user) => (Released(o, r, user), Pending)
    case CloseAll => (r.(hosts := map[]), Pending)
    case Create(userId, username, password, role, displayName, now) =>
      if !FreshId(r, userId) then (r, Pending)
      else (Stored(r, Created(o.platform, r.users, userId, username, password, role, displayName, now)), Pending)
    case SetPassword(id, password, now) => (Stored(r, PasswordSet(o.platform, r.users, id, password, now)), Pending)
    case SetRole(id, to, now) => (Stored(r, RoleSet(r.users, id, to, now)), Pending)
    case Remove(id) => (Stored(r, Removed(r.users, id)), Pending)
  }

  ghost function Step(o: Options, r: Registry, op: Op): Registry { StepWith(o, r, op).0 }

  ghost function After(o: Options, seedId: string, birth: int, run: Run<Op>): Registry {
    match run
    case Start => Opened(o, seedId, birth)
    case Then(before, op) => Step(o, After(o, seedId, birth, before), op)
  }

  /** What the last step of a run answered. */
  ghost function Answer(o: Options, seedId: string, birth: int, run: Run<Op>): Outcome {
    match run
    case Start => Pending
    case Then(before, op) => StepWith(o, After(o, seedId, birth, before), op).1
  }

  // ------------------------------------------------------------ the invariant

  ghost predicate BotIs(users: Users, id: string, bot: Option<string>) {
    forall u | u in users && u.userId == id :: u.botId == bot
  }

  /** What is known about the user being resolved, as long as they are stored. */
  ghost predicate OnTrack(r: Registry) {
    match r.phase
    case Idle => true
    case Listing(u) => BotIs(r.users, u.userId, None)
    case Assigning(u, _) => BotIs(r.users, u.userId, None)
    case Reaching(id, bot) => BotIs(r.users, id, Some(bot))
    case Configuring(id, bot) => BotIs(r.users, id, Some(bot)) && bot !in r.hosts
  }

  /** Each host is filed under its own bot, and no two are the same. */
  ghost predicate HostsAreApart(r: Registry) {
    && (forall b | b in r.hosts :: r.hosts[b].botId == b && r.hosts[b].instance < r.built)
    && (forall a, b | a in r.hosts && b in r.hosts && r.hosts[a].instance == r.hosts[b].instance :: a == b)
  }

  ghost predicate Well(o: Options, r: Registry) {
    Sound(o.platform, r.users) && OnTrack(r) && HostsAreApart(r)
  }

  /** A step of a resolution. */
  lemma ResolutionKeepsWell(o: Options, r: Registry, op: Op)
    requires Well(o, r) && (op.Ask? || op.List? || op.Reach? || op.Build? || op.Release? || op.CloseAll?)
    ensures Well(o, Step(o, r, op))
  {
    hide Sound, FindById, ChosenBot;
    if op.Ask? { AskedIsOnTrack(o, r, op.user); }
  }

  lemma AskedIsOnTrack(o: Options, r: Registry, user: User)
    requires Well(o, r)
    ensures OnTrack(Asked(r, user))
  {
    forall u | u in r.users && u.userId == user.userId ensures FindById(r.users, user.userId) == Some(u) {
      FoundIsStored(o.platform, r.users, user.userId, u);
    }
  }

  lemma AssignKeepsWell(o: Options, r: Registry, now: int)
    requires Well(o, r) && r.phase.Assigning?
    ensures Well(o, Assigned(r, now).0)
  {
    hide Apart;
    var id, bot := r.phase.user.userId, r.phase.botId;
    var i := IndexOf(r.users, id);
    if i.Some? && !OwnedByAnother(r.users, bot, id) {
      var u := r.users[i.value].(botId := Some(bot), updatedAt := now);
      ReplaceKeepsSound(o.platform, r.users, i.value, u);
      OnlyOneHasId(o, r.users, i.value, u);
    }
  }

  lemma OnlyOneHasId(o: Options, users: Users, i: nat, u: User)
    requires Sound(o.platform, users) && i < |users| && u.userId == users[i].userId
    ensures forall x | x in users[i := u] && x.userId == u.userId :: x == u
    ensures forall x | x in users[i := u] && x.userId != u.userId :: x in users
  {
    var after := users[i := u];
    forall x | x in after ensures x.userId == u.userId ==> x == u
                          ensures x.userId != u.userId ==> x in users {
      var k :| 0 <= k < |after| && after[k] == x;
      if k != i {
        assert if k < i then Apart(o.platform, users[k], users[i]) else Apart(o.platform, users[i], users[k]);
      }
    }
  }

  /** A change to the account file that gives nobody another bot. */
  ghost predicate BotsKept(before: Users, after: Users, newcomer: Option<string>) {
    forall u | u in after ::
      || newcomer == Some(u.userId)
      || exists v :: v in before && v.userId == u.userId && v.botId == u.botId
  }

  lemma StoreKeepsOnTrack(o: Options, r: Registry, after: Users, newcomer: Option<string>)
    requires Well(o, r) && Sound(o.platform, after) && BotsKept(r.users, after, newcomer)
    requires newcomer.Some? ==> FreshId(r, newcomer.value)
    ensures Well(o, r.(users := after))
  {
    hide Sound;
  }

  lemma ReplaceKeepsBots(o: Options, users: Users, i: nat, u: User)
    requires Sound(o.platform, users) && i < |users|
    requires u.userId == users[i].userId && u.botId == users[i].botId
    ensures BotsKept(users, users[i := u], None)
  {
    hide Sound;
    OnlyOneHasId(o, users, i, u);
    assert users[i] in users;
  }

  lemma RemovalKeepsBots(users: Users, id: string)
    ensures BotsKept(users, Others(users, id), None)
  {
    hide Others;
    forall u | u in Others(users, id) ensures exists v :: v in users && v.userId == u.userId && v.botId == u.botId {
      assert u in users;
    }
  }

  lemma CreateKeepsWell(o: Options, r: Registry, op: Op)
    requires Well(o, r) && op.Create?
    ensures Well(o, Step(o, r, op))
  {
    hide Sound, OnTrack, HostsAreApart;
    var after := Created(o.platform, r.users, op.userId, op.username, op.password, op.role, op.displayName, op.now);
    if FreshId(r, op.userId) && after.Ok? {
      CreateKeepsSound(o.platform, r.users, op.userId, op.username, op.password, op.role, op.displayName, op.now);
      assert BotsKept(r.users, after.value, Some(op.userId));
      StoreKeepsOnTrack(o, r, after.value, Some(op.userId));
    }
  }

  lemma ChangeKeepsWell(o: Options, r: Registry, op: Op)
    requires Well(o, r) && (op.SetPassword? || op.SetRole?)
    ensures Well(o, Step(o, r, op))
  {
    hide Sound, OnTrack, HostsAreApart, AnotherAdmin;
    var i := IndexOf(r.users, op.id);
    if i.Some? {
      var was := r.users[i.value];
      var u := if op.SetPassword? then was.(passwordHash := o.platform.hash(op.password), updatedAt := op.now)
               else was.(role := op.to, updatedAt := op.now);
      if u.role == Admin || was.role != Admin || AnotherAdmin(r.users, op.id) {
        ReplaceKeepsSound(o.platform, r.users, i.value, u);
        ReplaceKeepsBots(o, r.users, i.value, u);
        StoreKeepsOnTrack(o, r, r.users[i.value := u], None);
      }
    }
  }

  lemma RemoveKeepsWell(o: Options, r: Registry, id: string)
    requires Well(o, r)
    ensures Well(o, Step(o, r, Op.Remove(id)))
  {
    hide Sound, OnTrack, HostsAreApart, AnotherAdmin, HasId, BotsKept, Others;
    var after := Removed(r.users, id);
    if after.Ok? {
      RemoveKeepsSound(o.platform, r.users, id);
      RemovalKeepsBots(r.users, id);
      StoreKeepsOnTrack(o, r, after.value, None);
    }
  }

  lemma StepKeepsWell(o: Options, r: Registry, op: Op)
    requires Well(o, r)
    ensures Well(o, Step(o, r, op))
  {
    hide Well;
    if op.Create? { CreateKeepsWell(o, r, op); }
    else if op.SetPassword? || op.SetRole? { ChangeKeepsWell(o, r, op); }
    else if op.Remove? { RemoveKeepsWell(o, r, op.id); }
    else if op.Assign? { if r.phase.Assigning? { AssignKeepsWell(o, r, op.now); } }
    else { ResolutionKeepsWell(o, r, op); }
  }

  /** Whatever is asked, and in whatever order the awaits interleave: there is an admin,
      names are distinct whatever their case, no bot (the primary included) has two
      owners, and every live host is filed under its own bot. */
  lemma {:induction false} RunsAreWell(o: Options, seedId: string, birth: int, run: Run<Op>)
    ensures Well(o, After(o, seedId, birth, run))
  {
    if run.Then? {
      hide Well, Step;
      RunsAreWell(o, seedId, birth, run.before);
      StepKeepsWell(o, After(o, seedId, birth, run.before), run.last);
    } else {
      SeedIsSound(o.platform, seedId, birth);
    }
  }

  // ------------------------------------------------------------ what a user reaches

  /** The user `id` is stored from `r0` to `r`, and the host of `bot` is neither released
      nor closed. */
  ghost predicate Stays(o: Options, seedId: string, birth: int, r0: Run<Op>, r: Run<Op>, id: string) {
    && HasId(After(o, seedId, birth, r).users, id)
    && (r == r0 || (r.Then? && Stays(o, seedId, birth, r0, r.before, id)))
  }

  /** Releasing someone who owns the primary changes nothing. */
  ghost predicate ReleasesBot(o: Options, op: Op, bot: string) {
    op.Release? && op.user.botId == Some(bot) && bot != o.primaryId
  }

  ghost predicate Unreleased(o: Options, r0: Run<Op>, r: Run<Op>, bot: string) {
    || r == r0
    || (r.Then? && !r.last.CloseAll? && !ReleasesBot(o, r.last, bot) && Unreleased(o, r0, r.before, bot))
  }

  /** A returned host is the live host of the bot that the user owns, if they are stored. */
  lemma AnswerIsOwnHost(o: Options, seedId: string, birth: int, run: Run<Op>)
    requires Answer(o, seedId, birth, run).Returned?
    ensures var a, r := Answer(o, seedId, birth, run), After(o, seedId, birth, run);
            && a.host.botId in r.hosts && r.hosts[a.host.botId] == a.host
            && BotIs(r.users, a.userId, Some(a.host.botId))
  {
    RunsAreWell(o, seedId, birth, run.before);
    StepAnswersOwnHost(o, After(o, seedId, birth, run.before), run.last);
    hide StepWith, Well;
  }

  lemma StepAnswersOwnHost(o: Options, r: Registry, op: Op)
    requires Well(o, r) && StepWith(o, r, op).1.Returned?
    ensures var (r', a) := StepWith(o, r, op);
            && a.host.botId in r'.hosts && r'.hosts[a.host.botId] == a.host
            && BotIs(r'.users, a.userId, Some(a.host.botId))
  {
    hide Sound, BotIs;
  }

  /** One step does not take a bot from a user who stays. */
  lemma StepKeepsBot(o: Options, r: Registry, op: Op, id: string, bot: string)
    requires Well(o, r) && HasId(r.users, id) && BotIs(r.users, id, Some(bot)) && HasId(Step(o, r, op).users, id)
    ensures BotIs(Step(o, r, op).users, id, Some(bot))
  {
    var users, after := r.users, Step(o, r, op).users;
    if op.SetPassword? || op.SetRole? {
      hide Sound, AnotherAdmin;
      var i := IndexOf(users, op.id);
      if i.Some? {
        var u := users[i.value];
        var v := if op.SetPassword? then u.(passwordHash := o.platform.hash(op.password), updatedAt := op.now)
                 else u.(role := op.to, updatedAt := op.now);
        ReplaceKeepsBots(o, users, i.value, v);
        assert u in users;
      }
    } else if op.Assign? && r.phase.Assigning? {
      hide Sound;
      var i := IndexOf(users, r.phase.user.userId);
      if i.Some? {
        var u := users[i.value].(botId := Some(r.phase.botId), updatedAt := op.now);
        OnlyOneHasId(o, users, i.value, u);
        assert users[i.value] in users;
      }
    } else {
      hide Sound, Apart;
    }
  }

  lemma {:induction false} BotIsKept(
      o: Options, seedId: string, birth: int, r0: Run<Op>, r: Run<Op>, id: string, bot: string)
    requires Stays(o, seedId, birth, r0, r, id) && BotIs(After(o, seedId, birth, r0).users, id, Some(bot))
    ensures BotIs(After(o, seedId, birth, r).users, id, Some(bot))
  {
    if r != r0 {
      hide BotIs, Step, Well;
      BotIsKept(o, seedId, birth, r0, r.before, id, bot);
      RunsAreWell(o, seedId, birth, r.before);
      assert HasId(After(o, seedId, birth, r.before).users, id) by { StaysBefore(o, seedId, birth, r0, r, id); }
      StepKeepsBot(o, After(o, seedId, birth, r.before), r.last, id, bot);
    }
  }

  lemma StaysBefore(o: Options, seedId: string, birth: int, r0: Run<Op>, r: Run<Op>, id: string)
    requires r != r0 && Stays(o, seedId, birth, r0, r, id)
    ensures HasId(After(o, seedId, birth, r.before).users, id)
  {
    assert Stays(o, seedId, birth, r0, r.before, id);
  }

  lemma StepKeepsHost(o: Options, r: Registry, op: Op, bot: string)
    requires Well(o, r) && bot in r.hosts && !op.CloseAll? && !ReleasesBot(o, op, bot)
    ensures bot in Step(o, r, op).hosts && Step(o, r, op).hosts[bot] == r.hosts[bot]
  {
    hide Sound, HostsAreApart;
  }

  lemma {:induction false} HostIsKept(o: Options, seedId: string, birth: int, r0: Run<Op>, r: Run<Op>, bot: string)
    requires Unreleased(o, r0, r, bot) && bot in After(o, seedId, birth, r0).hosts
    ensures var hosts := After(o, seedId, birth, r).hosts;
            bot in hosts && hosts[bot] == After(o, seedId, birth, r0).hosts[bot]
  {
    if r != r0 {
      hide Step, Well;
      HostIsKept(o, seedId, birth, r0, r.before, bot);
      RunsAreWell(o, seedId, birth, r.before);
      StepKeepsHost(o, After(o, seedId, birth, r.before), r.last, bot);
    }
  }

  /** The same user is always answered with the same host, as long as the account stays and
      the host is not released. */
  lemma SameUserSameHost(o: Options, seedId: string, birth: int, r0: Run<Op>, r: Run<Op>)
    requires var a, b := Answer(o, seedId, birth, r0), Answer(o, seedId, birth, r);
             a.Returned? && b.Returned? && a.userId == b.userId
             && Stays(o, seedId, birth, r0, r, a.userId) && Unreleased(o, r0, r, a.host.botId)
    ensures Answer(o, seedId, birth, r0) == Answer(o, seedId, birth, r)
  {
    var a, b := Answer(o, seedId, birth, r0), Answer(o, seedId, birth, r);
    hide Answer, After;
    AnswerIsOwnHost(o, seedId, birth, r0);
    AnswerIsOwnHost(o, seedId, birth, r);
    BotIsKept(o, seedId, birth, r0, r, a.userId, a.host.botId);
    HostIsKept(o, seedId, birth, r0, r, a.host.botId);
    SameBot(After(o, seedId, birth, r).users, a.userId, a.host.botId, b.host.botId);
  }

  lemma SameBot(users: Users, id: string, bot: string, other: string)
    requires HasId(users, id) && BotIs(users, id, Some(bot)) && BotIs(users, id, Some(other))
    ensures bot == other
  {
  }

  /** Two stored users are never answered with the same host, whenever they ask. */
  lemma DifferentUsersDifferentHosts(o: Options, seedId: string, birth: int, r0: Run<Op>, r: Run<Op>)
    requires var a, b := Answer(o, seedId, birth, r0), Answer(o, seedId, birth, r);
             a.Returned? && b.Returned? && a.userId != b.userId
             && Stays(o, seedId, birth, r0, r, a.userId) && HasId(After(o, seedId, birth, r).users, b.userId)
    ensures Answer(o, seedId, birth, r0).host.botId != Answer(o, seedId, birth, r).host.botId
  {
    var a, b := Answer(o, seedId, birth, r0), Answer(o, seedId, birth, r);
    hide Answer, After;
    RunsAreWell(o, seedId, birth, r);
    AnswerIsOwnHost(o, seedId, birth, r0);
    AnswerIsOwnHost(o, seedId, birth, r);
    BotIsKept(o, seedId, birth, r0, r, a.userId, a.host.botId);
    OneOwner(o.platform, After(o, seedId, birth, r).users, a.userId, b.userId, a.host.botId, b.host.botId);
  }

  lemma OneOwner(p: Platform, users: Users, a: string, b: string, botA: string, botB: string)
    requires Sound(p, users) && a != b && HasId(users, a) && HasId(users, b)
    requires BotIs(users, a, Some(botA)) && BotIs(users, b, Some(botB))
    ensures botA != botB
  {
    var u :| u in users && u.userId == a;
    var v :| v in users && v.userId == b;
    var i :| 0 <= i < |users| && users[i] == u;
    var j :| 0 <= j < |users| && users[j] == v;
    assert if i < j then Apart(p, users[i], users[j]) else Apart(p, users[j], users[i]);
  }

  /** An assignment fails exactly when the account has gone meanwhile, or another account
      has the bot: ids that agree in their first twelve hex digits ask for the same one. */
  lemma AssignFailsIff(o: Options, r: Registry, now: int)
    requires r.phase.Assigning?
    ensures var id, bot := r.phase.user.userId, r.phase.botId;
            Assigned(r, now).1.Failed? <==> !HasId(r.users, id) || OwnedByAnother(r.users, bot, id)
  {
    var id := r.phase.user.userId;
    var i := IndexOf(r.users, id);
    if i.Some? { assert r.users[i.value] in r.users; }
  }
}
