/** Jobs: the identity of one race, and the registry of recent ones. */
module Jobs {
  import opened Wrappers
  import opened TtlMap
  import opened Sets
  import Claims

  // ------------------------------------------------------------ identity

  /** ECMAScript white space and line terminators, what `trim` removes. */
  predicate IsSpace(c: char) {
    || '\t' <= c <= '\r' || c == ' ' || c == '\U{00A0}' || c == '\U{1680}'
    || '\U{2000}' <= c <= '\U{200A}' || c == '\U{2028}' || c == '\U{2029}'
    || c == '\U{202F}' || c == '\U{205F}' || c == '\U{3000}' || c == '\U{FEFF}'
  }

  function Trimmed(s: string): string {
    if |s| == 0 then s
    else if IsSpace(s[0]) then Trimmed(s[1..])
    else if IsSpace(s[|s| - 1]) then Trimmed(s[..|s| - 1])
    else s
  }

  /** What is left has no white space at either end, and nothing else was removed. */
  lemma {:induction false} TrimmedIs(s: string) returns (i: nat)
    ensures var t := Trimmed(s);
            && (t != "" ==> !IsSpace(t[0]) && !IsSpace(t[|t| - 1]))
            && i + |t| <= |s| && IsTrim(s, t, i)
  {
    hide IsSpace;
    i := 0;
    if |s| > 0 && IsSpace(s[0]) {
      i := TrimmedIs(s[1..]);
      i := i + 1;
      assert forall k | 1 <= k < |s| :: s[k] == s[1..][k - 1];
    } else if |s| > 0 && IsSpace(s[|s| - 1]) {
      i := TrimmedIs(s[..|s| - 1]);
    }
  }

  /** `t` is what stands at `i`, and around it is nothing but white space. */
  ghost predicate IsTrim(s: string, t: string, i: int)
    requires 0 <= i <= i + |t| <= |s|
  {
    && s[i..i + |t|] == t
    && (forall k | 0 <= k < i :: IsSpace(s[k])) && (forall k | i + |t| <= k < |s| :: IsSpace(s[k]))
  }

  datatype KeyInput = KeyInput(
    explicitJobId: Option<string>, message: string, sender: string, room: string, rule: string)
  {
    /** The id the message carries, if it carries one. */
    function Explicit(): Option<string> {
      match explicitJobId
      case Some(id) => if |Trimmed(id)| > 0 then Some(Trimmed(id)) else None
      case None => None
    }

    function Parts(): seq<string> { [message, sender, room, rule] }
  }

  function DeriveJobKey(input: KeyInput): string {
    match input.Explicit()
    case Some(id) => "id:" + id
    case None => "drv:" + Claims.ClaimKey(input.Parts())
  }

  /** Two messages make the same job exactly when they carry the same explicit id,
      or neither carries one and message, sender, room and rule all agree. */
  lemma JobKeyIdentifiesTheJob(a: KeyInput, b: KeyInput)
    requires Claims.NulFree(a.Parts()) && Claims.NulFree(b.Parts())
    ensures DeriveJobKey(a) == DeriveJobKey(b)
       <==> a.Explicit() == b.Explicit() && (a.Explicit().None? ==> a.Parts() == b.Parts())
  {
    var ka, kb := DeriveJobKey(a), DeriveJobKey(b);
    assert a.Explicit().Some? <==> ka[0] == 'i';
    assert b.Explicit().Some? <==> kb[0] == 'i';
    if ka == kb {
      if a.Explicit().Some? {
        assert ka[3..] == a.Explicit().value && kb[3..] == b.Explicit().value;
      } else {
        assert ka[4..] == Claims.ClaimKey(a.Parts()) && kb[4..] == Claims.ClaimKey(b.Parts());
        Claims.ClaimKeyInjective(a.Parts(), b.Parts());
      }
    }
  }

  // ------------------------------------------------------------ lifecycle

  datatype State = Waiting | Eligible | Dispatched | Won | Lost | Unknown {
    predicate Terminal() { this in {Won, Lost, Unknown} }
  }

  predicate Allowed(from: State, to: State) {
    match from
    case Waiting => to == Eligible
    case Eligible => to == Dispatched
    case Dispatched => to.Terminal()
    case _ => false
  }

  datatype Record = Record(key: string, state: State, createdAt: int, updatedAt: int)

  type Records = Store<Record>

  datatype Illegal = Illegal(from: State, to: State)

  function Ensured(c: Config, s: Records, key: string, now: int): (Records, Record) {
    match Live(s, key, now)
    case Some(r) => (s, r)
    case None =>
      var created := Record(key, Waiting, now, now);
      (Put(c, Touch(s, key, now), key, created, now), created)
  }

  function Moved(c: Config, s: Records, key: string, to: State, now: int): (Records, Result<Record, Illegal>) {
    var (s', current) := Ensured(c, s, key, now);
    if current.state == to then (s', Ok(current))
    else if !Allowed(current.state, to) then (s', Err(Illegal(current.state, to)))
    else
      var next := current.(state := to, updatedAt := now);
      (Put(c, s', key, next, now), Ok(next))
  }

  /** `markEligible` and then `markDispatched`. */
  function Begun(c: Config, s: Records, key: string, now: int): (Records, Option<Illegal>) {
    var (s', eligible) := Moved(c, s, key, Eligible, now);
    if eligible.Err? then (s', Some(eligible.error)) else
    var (s'', dispatched) := Moved(c, s', key, Dispatched, now);
    (s'', if dispatched.Err? then Some(dispatched.error) else None)
  }

  predicate IsTerminal(s: Records, key: string, now: int) {
    Live(s, key, now).Some? && Live(s, key, now).value.state.Terminal()
  }

  class JobRegistry {
    const store: BoundedTtlMap<Record>

    constructor (config: Config)
      requires config.Valid()
      ensures fresh(store) && store.config == config && store.entries == []
    {
      store := new BoundedTtlMap<Record>(config);
    }

    method Ensure(key: string, now: int) returns (r: Record)
      modifies store
      ensures (store.entries, r) == Ensured(store.config, old(store.entries), key, now)
    {
      var existing := store.Get(key, now);
      if existing.Some? { return existing.value; }
      r := Record(key, Waiting, now, now);
      store.Set(key, r, now);
    }

    method KnownTerminal(key: string, now: int) returns (terminal: bool)
      modifies store
      ensures terminal <==> IsTerminal(old(store.entries), key, now)
      ensures store.entries == Touch(old(store.entries), key, now)
    {
      var record := store.Get(key, now);
      terminal := record.Some? && record.value.state.Terminal();
    }

    method Transition(key: string, to: State, now: int) returns (r: Result<Record, Illegal>)
      modifies store
      ensures (store.entries, r) == Moved(store.config, old(store.entries), key, to, now)
    {
      var current := Ensure(key, now);
      if current.state == to { return Ok(current); }
      if !Allowed(current.state, to) { return Err(Illegal(current.state, to)); }
      var next := current.(state := to, updatedAt := now);
      store.Set(key, next, now);
      return Ok(next);
    }
  }

  /** The moves of a race: a job becomes eligible, is handed out, and is won, lost or unknown. */
  const MOVES: set<(State, State)> :=
    {(Waiting, Eligible), (Eligible, Dispatched), (Dispatched, Won), (Dispatched, Lost), (Dispatched, Unknown)}

  /** A transition succeeds exactly along one of these moves, or to the state the job is in. The record
      then has the state and a new deadline; it was created when the job was first heard of. A refused
      one names both states, and leaves a job that is known alone. */
  lemma MovesIff(c: Config, s: Records, key: string, to: State, now: int)
    requires c.Valid()
    ensures var (live, (s', r)) := (Live(s, key, now), Moved(c, s, key, to, now));
            var from := if live.Some? then live.value.state else Waiting;
            && (r.Ok? <==> from == to || (from, to) in MOVES)
            && (r.Ok? ==> Live(s', key, now) == Some(r.value) && r.value.state == to && r.value.key
                          == (if live.Some? then live.value.key else key)
                          && r.value.createdAt == (if live.Some? then live.value.createdAt else now)
                          && (from != to ==> r.value.updatedAt == now))
            && (r.Ok? && from != to ==> Find(s', key).value.expiresAt == now + c.ttlMs)
            && (r.Err? ==> r.error == Illegal(from, to))
            && ((r.Err? || from == to) && live.Some? ==> s' == s)
  {
    hide Put, Touch, Ensured;
    var (s1, current) := Ensured(c, s, key, now);
    KnownFirst(c, s, key, now);
    WriteIsNewest(c, s1, key, current.(state := to, updatedAt := now), now);
  }

  lemma KnownFirst(c: Config, s: Records, key: string, now: int)
    requires c.Valid()
    ensures var (live, (s', r)) := (Live(s, key, now), Ensured(c, s, key, now));
            && Live(s', key, now) == Some(r)
            && (if live.Some? then s' == s && r == live.value else r == Record(key, Waiting, now, now))
  {
    hide Put, Touch;
    WriteIsNewest(c, Touch(s, key, now), key, Record(key, Waiting, now, now), now);
  }

  // ------------------------------------------------------------ a job begins once while it is remembered

  /** States a job is in once its reply has been handed out. */
  predicate Over(state: State) { state == Dispatched || state.Terminal() }

  /** `k` was begun, and settled since or not, and its record is still there with only
      `others` behind it, unless they have filled the store. */
  ghost predicate Tracks(c: Config, s: Records, k: string, deadline: int, others: set<string>, settled: bool) {
    && Remembers(c, s, k, deadline, others)
    && (|others| < c.maxEntries ==>
          Over(Find(s, k).value.value.state) && (Find(s, k).value.value.state.Terminal() <==> settled))
  }

  lemma PutTracksOther(
      c: Config, s: Records, o: string, r: Record, now: int,
      k: string, deadline: int, others: set<string>, settled: bool)
    requires c.Valid() && Distinct(s) && |s| <= c.maxEntries && o != k && Tracks(c, s, k, deadline, others, settled)
    ensures Tracks(c, Put(c, s, o, r, now), k, deadline, others + {o}, settled)
  {
    hide Remembers, Put, Distinct, Find;
    RemembersOtherWrite(c, s, k, deadline, others, o, r, now);
    SubsetSize(others, others + {o});
  }

  lemma PutTracksOwn(c: Config, s: Records, k: string, r: Record, now: int, deadline: int, others: set<string>)
    requires c.Valid() && deadline <= now + c.ttlMs && Over(r.state)
    ensures Tracks(c, Put(c, s, k, r, now), k, deadline, others, r.state.Terminal())
  {
    hide Remembers, Put;
    RemembersOwnWrite(c, s, k, r, now, deadline, others);
    WriteIsNewest(c, s, k, r, now);
  }

  lemma ReadTracks(
      c: Config, s: Records, o: string, now: int, k: string, deadline: int, others: set<string>, settled: bool)
    requires now < deadline && Tracks(c, s, k, deadline, others, settled)
    ensures Tracks(c, Touch(s, o, now), k, deadline, others, settled)
  {
    hide Remembers, Touch;
    RemembersRead(c, s, k, deadline, others, o, now);
  }

  /** A tracked job is live, and over. */
  lemma TrackedIsOver(c: Config, s: Records, k: string, deadline: int, others: set<string>, now: int, settled: bool)
    requires Tracks(c, s, k, deadline, others, settled) && now < deadline && |others| < c.maxEntries
    ensures Live(s, k, now).Some? && Over(Live(s, k, now).value.state) && Touch(s, k, now) == s
    ensures Live(s, k, now).value.state.Terminal() <==> settled
  {
  }

  lemma MovedKeepsSound(c: Config, s: Records, key: string, to: State, now: int)
    requires c.Valid() && Sound(c, s, now)
    ensures Sound(c, Moved(c, s, key, to, now).0, now)
  {
    hide Sound, Put, Touch, Live;
    RemovalsKeepSound(c, s, key, now, now);
    var created := Record(key, Waiting, now, now);
    PutKeepsSound(c, Touch(s, key, now), key, created, now, now);
    var (s', current) := Ensured(c, s, key, now);
    PutKeepsSound(c, s', key, current.(state := to, updatedAt := now), now, now);
  }

  lemma EnsuredOtherTracks(
      c: Config, s: Records, o: string, now: int, k: string, deadline: int, others: set<string>, settled: bool)
    requires c.Valid() && Sound(c, s, now) && now < deadline && o != k && Tracks(c, s, k, deadline, others, settled)
    ensures var s' := Ensured(c, s, o, now).0;
            && Sound(c, s', now)
            && (s' == s || Tracks(c, s', k, deadline, others + {o}, settled))
  {
    hide Sound, Put, Touch, Live, Tracks;
    RemovalsKeepSound(c, s, o, now, now);
    ReadTracks(c, s, o, now, k, deadline, others, settled);
    SoundBasics(c, Touch(s, o, now), now);
    PutKeepsSound(c, Touch(s, o, now), o, Record(o, Waiting, now, now), now, now);
    PutTracksOther(c, Touch(s, o, now), o, Record(o, Waiting, now, now), now, k, deadline, others, settled);
  }

  lemma SoundBasics(c: Config, s: Records, now: int)
    requires Sound(c, s, now)
    ensures Distinct(s) && |s| <= c.maxEntries
  {
  }

  lemma MovedOtherTracks(
      c: Config, s: Records, o: string, to: State, now: int,
      k: string, deadline: int, others: set<string>, settled: bool)
    requires c.Valid() && Sound(c, s, now) && now < deadline && o != k && Tracks(c, s, k, deadline, others, settled)
    ensures var s' := Moved(c, s, o, to, now).0;
            s' == s || Tracks(c, s', k, deadline, others + {o}, settled)
  {
    hide Sound, Put, Tracks, Ensured;
    EnsuredOtherTracks(c, s, o, now, k, deadline, others, settled);
    var (s', current) := Ensured(c, s, o, now);
    SoundBasics(c, s', now);
    assert others + {o} + {o} == others + {o};
    if s' == s {
      PutTracksOther(c, s', o, current.(state := to, updatedAt := now), now, k, deadline, others, settled);
    } else {
      PutTracksOther(c, s', o, current.(state := to, updatedAt := now), now, k, deadline, others + {o}, settled);
    }
  }

  lemma BegunOtherTracks(
      c: Config, s: Records, o: string, now: int, k: string, deadline: int, others: set<string>, settled: bool)
    requires c.Valid() && Sound(c, s, now) && now < deadline && o != k && Tracks(c, s, k, deadline, others, settled)
    ensures var s' := Begun(c, s, o, now).0;
            s' == s || Tracks(c, s', k, deadline, others + {o}, settled)
  {
    hide Sound, Tracks, Moved;
    MovedOtherTracks(c, s, o, Eligible, now, k, deadline, others, settled);
    MovedKeepsSound(c, s, o, Eligible, now);
    var s' := Moved(c, s, o, Eligible, now).0;
    assert others + {o} + {o} == others + {o};
    if s' == s {
      MovedOtherTracks(c, s', o, Dispatched, now, k, deadline, others, settled);
    } else {
      MovedOtherTracks(c, s', o, Dispatched, now, k, deadline, others + {o}, settled);
    }
  }

  /** A job that is over cannot begin again: the registry refuses, and nothing changes. */
  lemma OverCannotBegin(c: Config, s: Records, k: string, now: int)
    requires Live(s, k, now).Some? && Over(Live(s, k, now).value.state)
    ensures Begun(c, s, k, now) == (s, Some(Illegal(Live(s, k, now).value.state, Eligible)))
  {
  }

  lemma BeginSucceedsUnlessOver(c: Config, s: Records, k: string, now: int)
    requires c.Valid()
    ensures Begun(c, s, k, now).1.None?
       <==> Live(s, k, now).None? || !Over(Live(s, k, now).value.state)
  {
    hide Put, Touch;
    if Moved(c, s, k, Eligible, now).1.Ok? { EligibleIsLive(c, s, k, now); }
  }

  lemma SettledTracks(
      c: Config, s: Records, k: string, to: State, now: int, deadline: int, others: set<string>, settled: bool)
    requires c.Valid() && now < deadline <= now + c.ttlMs && to.Terminal() && Tracks(c, s, k, deadline, others, settled)
    ensures Tracks(c, Moved(c, s, k, to, now).0, k, deadline, others, true)
  {
    if |others| < c.maxEntries {
      TrackedIsOver(c, s, k, deadline, others, now, settled);
      hide Remembers, Put, Touch, Live, Tracks;
      PutTracksOwn(c, s, k, Live(s, k, now).value.(state := to, updatedAt := now), now, deadline, others);
    }
  }

  /** Beginning a job hands it out and starts tracking it. */
  lemma BegunTracks(c: Config, s: Records, k: string, now: int)
    requires c.Valid() && Begun(c, s, k, now).1.None?
    ensures Tracks(c, Begun(c, s, k, now).0, k, now + c.ttlMs, {}, false)
  {
    hide Put, Tracks;
    var s' := Moved(c, s, k, Eligible, now).0;
    EligibleIsLive(c, s, k, now);
    PutTracksOwn(c, s', k, Live(s', k, now).value.(state := Dispatched, updatedAt := now), now, now + c.ttlMs, {});
  }

  lemma EligibleIsLive(c: Config, s: Records, k: string, now: int)
    requires c.Valid() && Moved(c, s, k, Eligible, now).1.Ok?
    ensures var s' := Moved(c, s, k, Eligible, now).0;
            Live(s', k, now).Some? && Live(s', k, now).value.state == Eligible
  {
    hide Put, Touch;
    var (s', current) := Ensured(c, s, k, now);
    WriteIsNewest(c, s', k, current.(state := Eligible, updatedAt := now), now);
  }
}
