/** What the account file and the registry of bots do, field by field: what each change leaves, when
    it is refused, and which bots an account can come to own. */
module AccountRules {
  import opened Wrappers
  import opened Runs
  import opened UsersStore
  import B = BotRegistry

  // ------------------------------------------------------------ one change of the account file

  /** Nothing but one account changes. */
  ghost predicate OnlyChanges(users: Users, after: Users, i: int) {
    |after| == |users| && 0 <= i < |users| && forall j | 0 <= j < |users| && j != i :: after[j] == users[j]
  }

  /** The account with this id, and its place. */
  ghost predicate IsAt(users: Users, id: string, i: int) {
    && 0 <= i < |users| && users[i].userId == id
    && forall j | 0 <= j < i :: users[j].userId != id
  }

  lemma {:induction false} IndexIsFirst(users: Users, id: string)
    ensures match IndexOf(users, id)
            case None => !HasId(users, id)
            case Some(i) => IsAt(users, id, i) && users[i] in users && HasId(users, id)
  {
    if |users| > 0 {
      IndexIsFirst(users[1..], id);
      assert users == [users[0]] + users[1..];
      if users[0].userId != id && IndexOf(users[1..], id).Some? {
        var i := IndexOf(users[1..], id).value;
        assert forall j | 0 < j < |users| :: users[j] == users[1..][j - 1];
      }
    }
  }

  /** A new account: refused without a name, with fewer than six characters of password, or under a name
      that is taken whatever its case; else it goes to the end, a member unless said otherwise, with
      the trimmed name, the hash of the password, and no bot. */
  lemma CreatesExactly(
      p: Platform, users: Users, userId: string, username: string, password: string,
      role: Option<Role>, displayName: Option<string>, now: int)
    ensures var r := Created(p, users, userId, username, password, role, displayName, now);
            && (r == Err(Invalid) <==> p.trim(username) == "" || |password| < 6)
            && (r == Err(UsernameTaken) <==>
                  && p.trim(username) != "" && |password| >= 6
                  && exists u :: u in users && p.lower(u.username) == p.lower(p.trim(username)))
            && r != Err(UserNotFound)
            && (r.Ok? ==>
                  && |r.value| == |users| + 1 && r.value[..|users|] == users
                  && var u := r.value[|users|];
                     && u.userId == userId && u.username == p.trim(username) && u.passwordHash == p.hash(password)
                     && u.role == (if role == Some(Admin) then Admin else Member)
                     && u.displayName == displayName && u.botId == None && u.createdAt == now && u.updatedAt == now)
  {
  }

  /** A new password: refused if it is short, whoever it is for, or if nobody has the id. */
  lemma SetsPasswordExactly(p: Platform, users: Users, id: string, password: string, now: int)
    ensures var r := PasswordSet(p, users, id, password, now);
            && (r == Err(Invalid) <==> |password| < 6)
            && (r == Err(UserNotFound) <==> |password| >= 6 && !HasId(users, id))
            && r != Err(UsernameTaken)
            && (r.Ok? ==> exists i ::
                  && IsAt(users, id, i) && OnlyChanges(users, r.value, i)
                  && r.value[i] == users[i].(passwordHash := p.hash(password), updatedAt := now))
  {
    IndexIsFirst(users, id);
    var i := IndexOf(users, id);
    var r := PasswordSet(p, users, id, password, now);
    if r.Ok? { assert OnlyChanges(users, r.value, i.value); }
  }

  /** A new role: refused if nobody has the id, or if it would leave no admin. */
  lemma SetsRoleExactly(users: Users, id: string, role: Role, now: int)
    ensures var r := RoleSet(users, id, role, now);
            && (r == Err(UserNotFound) <==> !HasId(users, id))
            && (r == Err(Invalid) <==>
                  exists i :: IsAt(users, id, i) && users[i].role == Admin && role == Member && OnlyAdmin(users, id))
            && r != Err(UsernameTaken)
            && (r.Ok? ==> exists i ::
                  && IsAt(users, id, i) && OnlyChanges(users, r.value, i)
                  && r.value[i] == users[i].(role := role, updatedAt := now))
  {
    IndexIsFirst(users, id);
    var i, r := IndexOf(users, id), RoleSet(users, id, role, now);
    if i.Some? {
      OnlyAdminIff(users, id);
      assert forall j | IsAt(users, id, j) :: j == i.value;
      if r.Ok? { assert OnlyChanges(users, r.value, i.value); }
    }
  }

  ghost predicate OnlyAdmin(users: Users, id: string) {
    forall u | u in users && u.userId != id :: u.role == Member
  }

  lemma OnlyAdminIff(users: Users, id: string)
    ensures OnlyAdmin(users, id) <==> !AnotherAdmin(users, id)
  {
    if !OnlyAdmin(users, id) {
      var u :| u in users && u.userId != id && u.role != Member;
      assert u.role == Admin;
    }
  }

  /** A bot: refused if nobody has the id, or if another account has the bot. */
  lemma SetsBotExactly(users: Users, id: string, botId: string, now: int)
    ensures var r := BotSet(users, id, botId, now);
            && (r == Err(UserNotFound) <==> !HasId(users, id))
            && (r == Err(Invalid) <==>
                  HasId(users, id) && exists u :: u in users && u.userId != id && u.botId == Some(botId))
            && r != Err(UsernameTaken)
            && (r.Ok? ==> exists i ::
                  && IsAt(users, id, i) && OnlyChanges(users, r.value, i)
                  && r.value[i] == users[i].(botId := Some(botId), updatedAt := now))
  {
    IndexIsFirst(users, id);
    var i, r := IndexOf(users, id), BotSet(users, id, botId, now);
    if i.Some? && r.Ok? { assert OnlyChanges(users, r.value, i.value); }
  }

  /** A removal: refused if nobody has the id, or if it is the only admin's; else that account goes and
      the others stay in their order. */
  lemma RemovesExactly(p: Platform, users: Users, id: string)
    requires AllApart(p, users)
    ensures var r := Removed(users, id);
            && (r == Err(UserNotFound) <==> !HasId(users, id))
            && (r == Err(Invalid) <==> exists i :: IsAt(users, id, i) && users[i].role == Admin && OnlyAdmin(users, id))
            && r != Err(UsernameTaken)
            && (r.Ok? ==> exists i :: IsAt(users, id, i) && r.value == users[..i] + users[i + 1..])
  {
    IndexIsFirst(users, id);
    var i, r := IndexOf(users, id), Removed(users, id);
    if i.Some? {
      OnlyAdminIff(users, id);
      assert forall j | IsAt(users, id, j) :: j == i.value;
      IdsAreUnique(p, users, id, i.value);
      OthersAreTheRest(users, id, i.value);
    }
  }

  /** Nobody else has the id. */
  ghost predicate IsOnlyAt(users: Users, id: string, i: int) {
    && 0 <= i < |users| && users[i].userId == id
    && forall j | 0 <= j < |users| && j != i :: users[j].userId != id
  }

  lemma IdsAreUnique(p: Platform, users: Users, id: string, i: nat)
    requires AllApart(p, users) && IsAt(users, id, i)
    ensures IsOnlyAt(users, id, i)
  {
    forall j | i < j < |users| ensures users[j].userId != id { assert Apart(p, users[i], users[j]); }
  }

  lemma {:induction false} OthersAreTheRest(users: Users, id: string, i: nat)
    requires IsOnlyAt(users, id, i)
    ensures Others(users, id) == users[..i] + users[i + 1..]
  {
    var rest := users[1..];
    if i > 0 {
      assert Others(users, id) == [users[0]] + Others(rest, id);
      assert IsOnlyAt(rest, id, i - 1);
      OthersAreTheRest(rest, id, i - 1);
      hide Others, IsOnlyAt;
      Regrouped(users, i);
    } else {
      assert Others(users, id) == Others(rest, id);
      assert forall j | 0 <= j < |rest| :: rest[j] == users[j + 1];
      AllOthers(rest, id);
      hide Others;
      assert users[..0] + users[1..] == rest;
    }
  }

  lemma Regrouped(users: Users, i: nat)
    requires 0 < i < |users|
    ensures [users[0]] + (users[1..][..i - 1] + users[1..][i..]) == users[..i] + users[i + 1..]
  {
  }

  lemma {:induction false} AllOthers(users: Users, id: string)
    requires forall j | 0 <= j < |users| :: users[j].userId != id
    ensures Others(users, id) == users
  {
    if |users| > 0 { AllOthers(users[1..], id); }
  }

  // ------------------------------------------------------------ whose bot is which

  /** The bot of an account's own: made of the first twelve characters of its id, hyphens aside. */
  lemma OwnBotIs(id: string)
    ensures var bot := B.BotIdForUser(id);
            && |bot| >= 2 && bot[..2] == "u-" && '-' !in bot[2..] && |bot| <= 14
            && ('-' !in id ==> bot == "u-" + if |id| <= 12 then id else id[..12])
  {
    StrippedIsPlain(id);
  }

  lemma {:induction false} StrippedIsPlain(s: string)
    ensures '-' !in B.Stripped(s)
    ensures '-' !in s ==> B.Stripped(s) == s
  {
    if |s| > 0 { StrippedIsPlain(s[1..]); }
  }

  /** Of an id in the usual form of a UUID those are its first two groups. */
  lemma OwnBotOfUuid(a: string, b: string, rest: string)
    requires |a| == 8 && |b| == 4 && '-' !in a && '-' !in b
    ensures B.BotIdForUser(a + "-" + b + "-" + rest) == "u-" + a + b
  {
    StrippedOver(a + "-" + b + "-", rest);
    StrippedOver(a + "-" + b, "-");
    StrippedOver(a + "-", b);
    StrippedOver(a, "-");
    StrippedIsPlain(a);
    StrippedIsPlain(b);
    assert B.Stripped("-") == [];
    hide B.Stripped;
    TwoGroups(a, b, B.Stripped(rest));
  }

  lemma TwoGroups(a: string, b: string, rest: string)
    requires |a| == 8 && |b| == 4
    ensures var hex := a + [] + b + [] + rest;
            "u-" + (if |hex| > 12 then hex[..12] else hex) == "u-" + a + b
  {
    assert a + [] == a && a + b + [] == a + b;
    var hex := a + b + rest;
    assert (if |hex| > 12 then hex[..12] else hex) == a + b;
  }

  lemma {:induction false} StrippedOver(a: string, b: string)
    ensures B.Stripped(a + b) == B.Stripped(a) + B.Stripped(b)
  {
    if |a| == 0 {
      assert a + b == b;
    } else {
      assert (a + b)[1..] == a[1..] + b;
      StrippedOver(a[1..], b);
    }
  }

  /** An account may take the primary bot if it has the configured owner's name, whatever its case; or,
      if no owner is configured, if it is an admin's. */
  ghost predicate EntitledToPrimary(o: B.Options, u: User) {
    if o.primaryOwner in {None, Some("")} then u.role == Admin
    else o.platform.lower(u.username) == o.platform.lower(o.primaryOwner.value)
  }

  /** An account without a bot is assigned the primary if nobody owns it and the account is entitled to
      it, and else a bot of its own. */
  lemma AssignsExactly(o: B.Options, r: B.Registry)
    requires r.phase.Listing?
    ensures var u := r.phase.user;
            var unowned := forall v | v in r.users :: v.botId != Some(o.primaryId);
            B.Listed(o, r) == r.(phase := B.Assigning(
              u, if unowned && EntitledToPrimary(o, u) then o.primaryId else B.BotIdForUser(u.userId)))
  {
    assert (forall v | v in r.users :: v.botId != Some(o.primaryId)) <==> !B.Owned(r.users, o.primaryId);
    assert EntitledToPrimary(o, r.phase.user) <==> B.MayClaimPrimary(o, r.phase.user);
  }

  /** Releasing a user ends the host of that user's bot, and no other; the primary's stays. */
  lemma ReleasesExactly(o: B.Options, r: B.Registry, user: User, bot: string)
    ensures var after := B.Released(o, r, user);
            && after == r.(hosts := after.hosts)
            && (bot in after.hosts <==> bot in r.hosts && (bot == o.primaryId || user.botId != Some(bot)))
            && (bot in after.hosts ==> after.hosts[bot] == r.hosts[bot])
  {
  }

  // ------------------------------------------------------------ over every run

  ghost predicate HasOwner(o: B.Options) { o.primaryOwner.Some? && o.primaryOwner.value != "" }

  /** A bot that an account with this id and name can have: the primary if the name is its owner's, or
      the account's own. */
  ghost predicate MayOwn(o: B.Options, id: string, name: string, bot: string)
    requires HasOwner(o)
  {
    || bot == B.BotIdForUser(id)
    || (bot == o.primaryId && o.platform.lower(name) == o.platform.lower(o.primaryOwner.value))
  }

  ghost predicate OwnsRightly(o: B.Options, u: User)
    requires HasOwner(o)
  {
    u.botId.Some? ==> MayOwn(o, u.userId, u.username, u.botId.value)
  }

  /** The account being resolved, if it is stored, has the name it is resolved under. */
  ghost predicate Named(users: Users, u: User) {
    forall v | v in users && v.userId == u.userId :: v.username == u.username
  }

  ghost predicate Rightful(o: B.Options, r: B.Registry)
    requires HasOwner(o)
  {
    && (forall u | u in r.users :: OwnsRightly(o, u))
    && match r.phase
       case Listing(u) => Named(r.users, u)
       case Assigning(u, bot) => Named(r.users, u) && MayOwn(o, u.userId, u.username, bot)
       case _ => true
  }

  /** Accounts of these ids and names were there before, with the same bots. */
  ghost predicate Descends(users: Users, after: Users) {
    forall u | u in after ::
      exists v :: v in users && v.userId == u.userId && v.username == u.username && v.botId == u.botId
  }

  lemma DescentIsRightful(o: B.Options, r: B.Registry, after: Users)
    requires HasOwner(o) && Rightful(o, r) && Descends(r.users, after)
    ensures Rightful(o, r.(users := after))
  {
    hide MayOwn;
  }

  lemma ChangeDescends(users: Users, i: nat, u: User)
    requires i < |users| && u.userId == users[i].userId && u.username == users[i].username && u.botId == users[i].botId
    ensures Descends(users, users[i := u])
  {
    var after := users[i := u];
    forall x | x in after
      ensures exists v :: v in users && v.userId == x.userId && v.username == x.username && v.botId == x.botId
    {
      var j :| 0 <= j < |after| && after[j] == x;
      assert users[j] in users;
    }
  }

  lemma StoreKeepsRightful(o: B.Options, r: B.Registry, op: B.Op)
    requires HasOwner(o) && Rightful(o, r) && (op.SetPassword? || op.SetRole? || op.Remove?)
    ensures Rightful(o, B.Step(o, r, op))
  {
    hide Rightful, AnotherAdmin, Descends, Others;
    var users, i := r.users, IndexOf(r.users, op.id);
    if op.Remove? {
      RemovalDescends(users, op.id);
      DescentIsRightful(o, r, Others(users, op.id));
    } else if i.Some? {
      var u := users[i.value];
      var v := if op.SetPassword? then u.(passwordHash := o.platform.hash(op.password), updatedAt := op.now)
               else u.(role := op.to, updatedAt := op.now);
      ChangeDescends(users, i.value, v);
      DescentIsRightful(o, r, users[i.value := v]);
    }
  }

  lemma RemovalDescends(users: Users, id: string)
    ensures Descends(users, Others(users, id))
  {
    hide Others;
    forall u | u in Others(users, id)
      ensures exists v :: v in users && v.userId == u.userId && v.username == u.username && v.botId == u.botId
    {
      assert u in users;
    }
  }

  lemma CreateKeepsRightful(o: B.Options, r: B.Registry, op: B.Op)
    requires HasOwner(o) && Rightful(o, r) && op.Create?
    ensures Rightful(o, B.Step(o, r, op))
  {
    hide MayOwn, HasId, NameTaken;
  }

  lemma AskKeepsRightful(o: B.Options, r: B.Registry, user: User)
    requires HasOwner(o) && B.Well(o, r) && Rightful(o, r)
    ensures Rightful(o, B.Asked(r, user))
  {
    hide MayOwn, B.OnTrack, B.HostsAreApart;
    forall u | u in r.users && u.userId == user.userId ensures FindById(r.users, user.userId) == Some(u) {
      FoundIsStored(o.platform, r.users, user.userId, u);
    }
    IndexIsFirst(r.users, user.userId);
  }

  lemma AssignKeepsRightful(o: B.Options, r: B.Registry, now: int)
    requires HasOwner(o) && Rightful(o, r) && r.phase.Assigning?
    ensures Rightful(o, B.Assigned(r, now).0)
  {
    hide MayOwn, OwnedByAnother;
    var id, bot := r.phase.user.userId, r.phase.botId;
    IndexIsFirst(r.users, id);
    var i := IndexOf(r.users, id);
    if i.Some? {
      var after := r.users[i.value := r.users[i.value].(botId := Some(bot), updatedAt := now)];
      forall u | u in after ensures OwnsRightly(o, u) {
        var j :| 0 <= j < |after| && after[j] == u;
        assert r.users[j] in r.users;
      }
    }
  }

  lemma StepKeepsRightful(o: B.Options, r: B.Registry, op: B.Op)
    requires HasOwner(o) && B.Well(o, r) && Rightful(o, r)
    ensures Rightful(o, B.Step(o, r, op))
  {
    hide B.Well, B.Assigned, B.Asked;
    if op.Create? { CreateKeepsRightful(o, r, op); }
    else if op.SetPassword? || op.SetRole? || op.Remove? { StoreKeepsRightful(o, r, op); }
    else if op.Ask? { if r.phase.Idle? { AskKeepsRightful(o, r, op.user); } }
    else if op.Assign? { if r.phase.Assigning? { AssignKeepsRightful(o, r, op.now); } }
    else if op.List? && r.phase.Listing? { AssignsExactly(o, r); }
  }

  /** Whatever interleaves: with an owner configured, an account owns the primary bot only if it has the
      owner's name, and any other bot only if it is its own. */
  lemma {:induction false} BotsAreOwnedRightly(o: B.Options, seedId: string, birth: int, run: Run<B.Op>)
    requires HasOwner(o)
    ensures Rightful(o, B.After(o, seedId, birth, run))
    ensures forall u | u in B.After(o, seedId, birth, run).users && u.botId.Some? ::
              MayOwn(o, u.userId, u.username, u.botId.value)
  {
    if run.Then? {
      hide B.Step, B.Well, MayOwn;
      BotsAreOwnedRightly(o, seedId, birth, run.before);
      B.RunsAreWell(o, seedId, birth, run.before);
      StepKeepsRightful(o, B.After(o, seedId, birth, run.before), run.last);
    }
  }
}
