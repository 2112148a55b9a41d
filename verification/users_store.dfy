/** The account file: who may sign in, as what, and which bot is whose. */
module UsersStore {
  import opened Wrappers

  datatype Role = Admin | Member

  datatype User = User(
    userId: string, username: string, passwordHash: string, role: Role, displayName: Option<string>,
    botId: Option<string>, createdAt: int, updatedAt: int)

  type Users = seq<User>

  datatype StoreError = Invalid | UsernameTaken | UserNotFound

  /** String operations and hashing, which the store only uses. */
  datatype Platform = Platform(lower: string -> string, trim: string -> string, hash: string -> string)

  const MIN_PASSWORD_LENGTH: nat := 6

  function IndexOf(users: Users, id: string): (r: Option<nat>)
    ensures r.Some? ==> r.value < |users| && users[r.value].userId == id
    ensures r.None? ==> forall u | u in users :: u.userId != id
  {
    if |users| == 0 then None
    else if users[0].userId == id then Some(0)
    else
      var rest := IndexOf(users[1..], id);
      if rest.Some? then Some(rest.value + 1) else None
  }

  function FindById(users: Users, id: string): Option<User> {
    var i := IndexOf(users, id);
    if i.Some? then Some(users[i.value]) else None
  }

  predicate NameTaken(p: Platform, users: Users, username: string) {
    exists u :: u in users && p.lower(u.username) == p.lower(username)
  }

  predicate AnotherAdmin(users: Users, id: string) {
    exists u :: u in users && u.role == Admin && u.userId != id
  }

  predicate OwnedByAnother(users: Users, botId: string, id: string) {
    exists u :: u in users && u.botId == Some(botId) && u.userId != id
  }

  function Others(users: Users, id: string): (r: Users)
    ensures forall u :: u in r <==> u in users && u.userId != id
  {
    if |users| == 0 then []
    else (if users[0].userId != id then [users[0]] else []) + Others(users[1..], id)
  }

  /** `userId`: the random id drawn for the new account. */
  function Created(
    p: Platform, users: Users, userId: string, username: string, password: string,
    role: Option<Role>, displayName: Option<string>, now: int): Result<Users, StoreError>
  {
    var name := p.trim(username);
    if |name| == 0 || |password| < MIN_PASSWORD_LENGTH then Err(Invalid)
    else if NameTaken(p, users, name) then Err(UsernameTaken)
    else
      var role := if role.Some? then role.value else Member;
      Ok(users + [User(userId, name, p.hash(password), role, displayName, None, now, now)])
  }

  function PasswordSet(p: Platform, users: Users, id: string, password: string, now: int): Result<Users, StoreError> {
    if |password| < MIN_PASSWORD_LENGTH then Err(Invalid) else
    match IndexOf(users, id)
    case None => Err(UserNotFound)
    case Some(i) => Ok(users[i := users[i].(passwordHash := p.hash(password), updatedAt := now)])
  }

  function RoleSet(users: Users, id: string, role: Role, now: int): Result<Users, StoreError> {
    match IndexOf(users, id)
    case None => Err(UserNotFound)
    case Some(i) =>
      if users[i].role == Admin && role != Admin && !AnotherAdmin(users, id) then Err(Invalid)
      else Ok(users[i := users[i].(role := role, updatedAt := now)])
  }

  function BotSet(users: Users, id: string, botId: string, now: int): Result<Users, StoreError> {
    match IndexOf(users, id)
    case None => Err(UserNotFound)
    case Some(i) =>
      if OwnedByAnother(users, botId, id) then Err(Invalid)
      else Ok(users[i := users[i].(botId := Some(botId), updatedAt := now)])
  }

  function Removed(users: Users, id: string): Result<Users, StoreError> {
    match IndexOf(users, id)
    case None => Err(UserNotFound)
    case Some(i) =>
      if users[i].role == Admin && !AnotherAdmin(users, id) then Err(Invalid) else Ok(Others(users, id))
  }

  function Seeded(p: Platform, userId: string, now: int): Users {
    [User(userId, "admin", p.hash("Root@77#"), Admin, None, None, now, now)]
  }

  class UsersStore {
    const platform: Platform
    var users: Users

    /** The file as it is after its first read. */
    constructor (platform: Platform, userId: string, now: int)
      ensures this.platform == platform && users == Seeded(platform, userId, now)
    {
      this.platform := platform;
      users := [User(userId, "admin", platform.hash("Root@77#"), Admin, None, None, now, now)];
    }

    method Create(
        userId: string, username: string, password: string, role: Option<Role>, displayName: Option<string>, now: int)
      returns (r: Result<User, StoreError>)
      modifies this
      ensures var after := Created(platform, old(users), userId, username, password, role, displayName, now);
              && users == (if after.Ok? then after.value else old(users))
              && (after.Ok? ==> r == Ok(users[|users| - 1]))
              && (after.Err? ==> r == Err(after.error))
    {
      var name := platform.trim(username);
      if |name| == 0 { return Err(Invalid); }
      if |password| < MIN_PASSWORD_LENGTH { return Err(Invalid); }
      if NameTaken(platform, users, name) { return Err(UsernameTaken); }
      var record := User(
        userId, name, platform.hash(password), if role.Some? then role.value else Member, displayName, None, now, now);
      users := users + [record];
      return Ok(record);
    }

    method SetPassword(id: string, password: string, now: int) returns (r: Option<StoreError>)
      modifies this
      ensures var after := PasswordSet(platform, old(users), id, password, now);
              && users == (if after.Ok? then after.value else old(users))
              && r == if after.Err? then Some(after.error) else None
    {
      if |password| < MIN_PASSWORD_LENGTH { return Some(Invalid); }
      var index := IndexOf(users, id);
      if index.None? { return Some(UserNotFound); }
      var current := users[index.value];
      users := users[index.value := current.(passwordHash := platform.hash(password), updatedAt := now)];
      return None;
    }

    method SetRole(id: string, role: Role, now: int) returns (r: Option<StoreError>)
      modifies this
      ensures var after := RoleSet(old(users), id, role, now);
              && users == (if after.Ok? then after.value else old(users))
              && r == if after.Err? then Some(after.error) else None
    {
      var index := IndexOf(users, id);
      if index.None? { return Some(UserNotFound); }
      var current := users[index.value];
      if current.role == Admin && role != Admin && !AnotherAdmin(users, id) { return Some(Invalid); }
      users := users[index.value := current.(role := role, updatedAt := now)];
      return None;
    }

    method SetBotId(id: string, botId: string, now: int) returns (r: Option<StoreError>)
      modifies this
      ensures var after := BotSet(old(users), id, botId, now);
              && users == (if after.Ok? then after.value else old(users))
              && r == if after.Err? then Some(after.error) else None
    {
      var index := IndexOf(users, id);
      if index.None? { return Some(UserNotFound); }
      if OwnedByAnother(users, botId, id) { return Some(Invalid); }
      users := users[index.value := users[index.value].(botId := Some(botId), updatedAt := now)];
      return None;
    }

    method Remove(id: string) returns (r: Option<StoreError>)
      modifies this
      ensures var after := Removed(old(users), id);
              && users == (if after.Ok? then after.value else old(users))
              && r == if after.Err? then Some(after.error) else None
    {
      var target := FindById(users, id);
      if target.None? { return Some(UserNotFound); }
      if target.value.role == Admin && !AnotherAdmin(users, id) { return Some(Invalid); }
      users := Others(users, id);
      return None;
    }
  }

  // ------------------------------------------------------------ the invariant

  /** Two accounts with different ids, names and bots. */
  ghost predicate Apart(p: Platform, u: User, v: User) {
    && u.userId != v.userId
    && p.lower(u.username) != p.lower(v.username)
    && (u.botId.Some? ==> u.botId != v.botId)
  }

  ghost predicate AllApart(p: Platform, users: Users) {
    forall i, j | 0 <= i < j < |users| :: Apart(p, users[i], users[j])
  }

  ghost predicate HasAdmin(users: Users) { exists u :: u in users && u.role == Admin }

  /** Someone can administer, nobody is there twice, and no bot has two owners. */
  ghost predicate Sound(p: Platform, users: Users) { HasAdmin(users) && AllApart(p, users) }

  ghost predicate HasId(users: Users, id: string) { exists u :: u in users && u.userId == id }

  lemma SeedIsSound(p: Platform, userId: string, now: int)
    ensures Sound(p, Seeded(p, userId, now))
  {
    var u := Seeded(p, userId, now)[0];
    assert u in Seeded(p, userId, now);
  }

  lemma CreateKeepsSound(
    p: Platform, users: Users, userId: string, username: string, password: string,
    role: Option<Role>, displayName: Option<string>, now: int)
    requires Sound(p, users) && !HasId(users, userId)
    ensures var r := Created(p, users, userId, username, password, role, displayName, now);
            r.Ok? ==> Sound(p, r.value)
  {
    var r := Created(p, users, userId, username, password, role, displayName, now);
    if r.Ok? {
      var admin :| admin in users && admin.role == Admin;
      assert admin in r.value;
      var last := r.value[|users|];
      forall i | 0 <= i < |users| ensures Apart(p, users[i], last) {
        assert users[i] in users;
      }
    }
  }

  /** Changing one account in a way that keeps its id and name. */
  lemma ReplaceKeepsSound(p: Platform, users: Users, i: nat, u: User)
    requires Sound(p, users) && i < |users|
    requires u.userId == users[i].userId && u.username == users[i].username
    requires u.role == Admin || users[i].role != Admin || AnotherAdmin(users, u.userId)
    requires u.botId == users[i].botId || (u.botId.Some? && !OwnedByAnother(users, u.botId.value, u.userId))
    ensures Sound(p, users[i := u])
  {
    ReplaceKeepsAdmin(users, i, u);
    ReplaceKeepsApart(p, users, i, u);
  }

  lemma ReplaceKeepsAdmin(users: Users, i: nat, u: User)
    requires HasAdmin(users) && i < |users| && u.userId == users[i].userId
    requires u.role == Admin || users[i].role != Admin || AnotherAdmin(users, u.userId)
    ensures HasAdmin(users[i := u])
  {
    var after := users[i := u];
    assert u == after[i];
    if u.role != Admin {
      var admin: User;
      if users[i].role != Admin { admin :| admin in users && admin.role == Admin; }
      else { admin :| admin in users && admin.role == Admin && admin.userId != u.userId; }
      var k :| 0 <= k < |users| && users[k] == admin;
      assert after[k] == admin;
    }
  }

  lemma ReplaceKeepsApart(p: Platform, users: Users, i: nat, u: User)
    requires AllApart(p, users) && i < |users|
    requires u.userId == users[i].userId && u.username == users[i].username
    requires u.botId == users[i].botId || (u.botId.Some? && !OwnedByAnother(users, u.botId.value, u.userId))
    ensures AllApart(p, users[i := u])
  {
    forall j | 0 <= j < |users| && j != i ensures Apart(p, users[j], u) && Apart(p, u, users[j]) {
      assert if j < i then Apart(p, users[j], users[i]) else Apart(p, users[i], users[j]);
      assert users[j] in users;
    }
  }

  lemma RemoveKeepsSound(p: Platform, users: Users, id: string)
    requires Sound(p, users)
    ensures var r := Removed(users, id); r.Ok? ==> Sound(p, r.value) && !HasId(r.value, id)
  {
    var r := Removed(users, id);
    if r.Ok? {
      var target := users[IndexOf(users, id).value];
      hide Apart;
      OthersStayApart(p, users, id);
      hide AllApart;
      var admin: User;
      if target.role != Admin { admin :| admin in users && admin.role == Admin; AdminIsAnother(p, users, id, admin); }
      else { admin :| admin in users && admin.role == Admin && admin.userId != id; }
      assert admin in r.value;
    }
  }

  lemma AdminIsAnother(p: Platform, users: Users, id: string, admin: User)
    requires AllApart(p, users) && admin in users && admin.role == Admin
    requires IndexOf(users, id).Some? && users[IndexOf(users, id).value].role != Admin
    ensures admin.userId != id
  {
    var i := IndexOf(users, id).value;
    var k :| 0 <= k < |users| && users[k] == admin;
    assert if k < i then Apart(p, users[k], users[i]) else k > i ==> Apart(p, users[i], users[k]);
  }

  lemma {:induction false} OthersStayApart(p: Platform, users: Users, id: string)
    requires AllApart(p, users)
    ensures AllApart(p, Others(users, id))
  {
    hide Apart;
    if |users| > 0 {
      var rest := Others(users[1..], id);
      assert AllApart(p, users[1..]);
      OthersStayApart(p, users[1..], id);
      forall j | 0 <= j < |rest| ensures Apart(p, users[0], rest[j]) {
        assert rest[j] in rest;
        var k :| 0 <= k < |users[1..]| && users[1..][k] == rest[j];
        assert Apart(p, users[0], users[k + 1]);
      }
    }
  }

  lemma FoundIsStored(p: Platform, users: Users, id: string, u: User)
    requires AllApart(p, users) && u in users && u.userId == id
    ensures FindById(users, id) == Some(u)
  {
    var i := IndexOf(users, id).value;
    var k :| 0 <= k < |users| && users[k] == u;
    assert if k < i then Apart(p, users[k], users[i]) else k > i ==> Apart(p, users[i], users[k]);
  }
}
