/** `BoundedTtlMap`: a fixed-capacity map whose entries expire. Everything that
    remembers something in the reply path (claims, jobs, rate buckets) is built
    on it, so what it may forget, and when, is settled here once. */
module TtlMap {
  import opened Wrappers
  import opened Sets

  datatype Entry<V> = Entry(key: string, value: V, expiresAt: int)

  datatype Config = Config(ttlMs: int, maxEntries: int) {
    predicate Valid() { ttlMs > 0 && maxEntries > 0 }
  }

  /** The private JavaScript `Map`: one entry a key, in insertion order. */
  type Store<V> = seq<Entry<V>>

  ghost function Keys<V>(s: Store<V>): set<string> {
    if |s| == 0 then {} else {s[0].key} + Keys(s[1..])
  }

  function Find<V>(s: Store<V>, k: string): (r: Option<Entry<V>>)
    ensures r.Some? <==> k in Keys(s)
    ensures r.Some? ==> r.value in s && r.value.key == k
  {
    if |s| == 0 then None else if s[0].key == k then Some(s[0]) else Find(s[1..], k)
  }

  function Without<V>(s: Store<V>, k: string): (r: Store<V>)
    ensures Keys(r) == Keys(s) - {k}
  {
    if |s| == 0 then []
    else if s[0].key == k then Without(s[1..], k)
    else [s[0]] + Without(s[1..], k)
  }

  /** What `get` answers at `now`. */
  function Live<V>(s: Store<V>, k: string, now: int): Option<V> {
    match Find(s, k)
    case Some(e) => if e.expiresAt <= now then None else Some(e.value)
    case None => None
  }

  /** What a read at `now` leaves: the entry asked for goes if it has expired. */
  function Touch<V>(s: Store<V>, k: string, now: int): Store<V> {
    match Find(s, k)
    case Some(e) => if e.expiresAt <= now then Without(s, k) else s
    case None => s
  }

  /** What a write at `now` leaves: the key moves to the end, and the oldest
      entry goes if that was one too many. */
  function Put<V>(c: Config, s: Store<V>, k: string, v: V, now: int): Store<V> {
    Trim(c, Without(s, k) + [Entry(k, v, now + c.ttlMs)])
  }

  function Trim<V>(c: Config, s: Store<V>): Store<V> {
    if |s| > 0 && |s| > c.maxEntries then s[1..] else s
  }

  /** What `prune` leaves. */
  function Unexpired<V>(s: Store<V>, now: int): Store<V> {
    if |s| == 0 then []
    else if s[0].expiresAt <= now then Unexpired(s[1..], now)
    else [s[0]] + Unexpired(s[1..], now)
  }

  class BoundedTtlMap<V> {
    const config: Config
    var entries: Store<V>

    /** The source throws a RangeError for any other configuration. */
    constructor (config: Config)
      requires config.Valid()
      ensures this.config == config && entries == []
    {
      this.config := config;
      entries := [];
    }

    method Get(key: string, now: int) returns (r: Option<V>)
      modifies this
      ensures r == Live(old(entries), key, now)
      ensures entries == Touch(old(entries), key, now)
    {
      var entry := Find(entries, key);
      if entry == None { return None; }
      if entry.value.expiresAt <= now {
        entries := Without(entries, key);
        return None;
      }
      return Some(entry.value.value);
    }

    method Set(key: string, value: V, now: int)
      modifies this
      ensures entries == Put(config, old(entries), key, value, now)
    {
      entries := Without(entries, key);
      entries := entries + [Entry(key, value, now + config.ttlMs)];
      if |entries| > config.maxEntries { EvictOldest(); }
    }

    method EvictOldest()
      modifies this
      ensures entries == if old(entries) == [] then [] else old(entries)[1..]
    {
      if entries != [] { entries := entries[1..]; }
    }

    method Delete(key: string) returns (removed: bool)
      modifies this
      ensures removed <==> key in Keys(old(entries))
      ensures entries == Without(old(entries), key)
    {
      removed := Find(entries, key).Some?;
      entries := Without(entries, key);
    }

    method Prune(now: int) returns (removed: nat)
      modifies this
      ensures entries == Unexpired(old(entries), now)
      ensures removed == |old(entries)| - |entries|
    {
      var kept: Store<V> := [];
      removed := 0;
      for i := 0 to |entries|
        invariant entries == old(entries)
        invariant kept + Unexpired(entries[i..], now) == Unexpired(entries, now)
        invariant removed + |kept| == i
      {
        assert entries[i..][1..] == entries[i + 1..];
        if entries[i].expiresAt <= now {
          removed := removed + 1;
        } else {
          kept := kept + [entries[i]];
          assert kept[..|kept| - 1] + ([entries[i]] + Unexpired(entries[i + 1..], now))
              == kept + Unexpired(entries[i + 1..], now);
        }
      }
      assert kept + Unexpired([], now) == kept;
      entries := kept;
    }
  }

  // ------------------------------------------------------------ the invariant

  /** One entry a key. */
  ghost predicate Distinct<V>(s: Store<V>) {
    |s| == 0 || (s[0].key !in Keys(s[1..]) && Distinct(s[1..]))
  }

  /** Insertion order is expiry order. */
  ghost predicate ByExpiry<V>(s: Store<V>) {
    |s| == 0 || ((forall e | e in s[1..] :: s[0].expiresAt <= e.expiresAt) && ByExpiry(s[1..]))
  }

  /** What every reachable store satisfies just after the clock read `now`. */
  ghost predicate Sound<V>(c: Config, s: Store<V>, now: int) {
    && Distinct(s)
    && ByExpiry(s)
    && |s| <= c.maxEntries
    && (forall e | e in s :: e.expiresAt <= now + c.ttlMs)
  }

  lemma {:induction false} WithoutKeepsOrder<V>(s: Store<V>, k: string)
    requires Distinct(s)
    ensures Distinct(Without(s, k))
    ensures |Without(s, k)| == if k in Keys(s) then |s| - 1 else |s|
    ensures ByExpiry(s) ==> ByExpiry(Without(s, k))
    ensures forall e | e in Without(s, k) :: e in s
  {
    if |s| > 0 { WithoutKeepsOrder(s[1..], k); }
  }

  lemma {:induction false} AppendKeepsDistinct<V>(s: Store<V>, e: Entry<V>)
    requires Distinct(s) && e.key !in Keys(s)
    ensures Distinct(s + [e])
    ensures Keys(s + [e]) == Keys(s) + {e.key}
  {
    if |s| == 0 {
      assert [] + [e] == [e];
    } else {
      assert (s + [e])[1..] == s[1..] + [e];
      AppendKeepsDistinct(s[1..], e);
    }
  }

  lemma {:induction false} AppendKeepsByExpiry<V>(s: Store<V>, e: Entry<V>)
    requires ByExpiry(s)
    requires forall f | f in s :: f.expiresAt <= e.expiresAt
    ensures ByExpiry(s + [e])
  {
    if |s| == 0 {
      assert [] + [e] == [e];
    } else {
      assert (s + [e])[1..] == s[1..] + [e];
      AppendKeepsByExpiry(s[1..], e);
    }
  }

  lemma {:induction false} UnexpiredKeepsOrder<V>(s: Store<V>, now: int)
    requires Distinct(s) && ByExpiry(s)
    ensures Distinct(Unexpired(s, now)) && ByExpiry(Unexpired(s, now)) && Keys(Unexpired(s, now)) <= Keys(s)
    ensures |Unexpired(s, now)| <= |s|
    ensures forall e | e in Unexpired(s, now) :: e in s && e.expiresAt > now
    ensures forall e | e in s && e.expiresAt > now :: e in Unexpired(s, now)
  {
    if |s| > 0 { UnexpiredKeepsOrder(s[1..], now); }
  }

  /** Every operation keeps the invariant, as long as the clock does not run
      back: reads and deletions here, writes in PutKeepsSound. */
  lemma RemovalsKeepSound<V>(c: Config, s: Store<V>, k: string, before: int, now: int)
    requires before <= now && Sound(c, s, before)
    ensures Sound(c, Touch(s, k, now), now)
    ensures Sound(c, Without(s, k), now)
    ensures Sound(c, Unexpired(s, now), now)
  {
    WithoutKeepsOrder(s, k);
    UnexpiredKeepsOrder(s, now);
  }

  lemma PutKeepsSound<V>(c: Config, s: Store<V>, k: string, v: V, before: int, now: int)
    requires c.Valid() && before <= now && Sound(c, s, before)
    ensures Sound(c, Put(c, s, k, v, now), now)
  {
    hide Without, Keys, Distinct, ByExpiry, Trim;
    var w := Without(s, k);
    WithoutKeepsOrder(s, k);
    AppendKeepsDistinct(w, Entry(k, v, now + c.ttlMs));
    AppendKeepsByExpiry(w, Entry(k, v, now + c.ttlMs));
    TrimKeepsSound(c, w + [Entry(k, v, now + c.ttlMs)], now);
  }

  lemma TrimKeepsSound<V>(c: Config, t: Store<V>, now: int)
    requires c.Valid() && Distinct(t) && ByExpiry(t) && |t| <= c.maxEntries + 1
    requires forall e | e in t :: e.expiresAt <= now + c.ttlMs
    ensures Sound(c, Trim(c, t), now)
  {
  }

  /** Eviction is never unfair: if a write drops a live entry of another key, the
      store keeps nothing that expires earlier, so nothing already expired. */
  lemma EvictionTakesTheOldest<V>(c: Config, s: Store<V>, k: string, v: V, before: int, now: int, o: string)
    requires c.Valid() && before <= now && Sound(c, s, before)
    requires o != k && Live(s, o, now).Some? && Live(Put(c, s, k, v, now), o, now).None?
    ensures forall e | e in Put(c, s, k, v, now) :: e.expiresAt >= Find(s, o).value.expiresAt > now
  {
    hide Without, Keys, Distinct, ByExpiry, NewerThan, Find, Trim;
    var w := Without(s, k);
    var t := w + [Entry(k, v, now + c.ttlMs)];
    WithoutKeepsOrder(s, k);
    NewerThanWithout(s, o, k);
    NewerThanAppend(w, o, Entry(k, v, now + c.ttlMs));
    KeysAppend(w, Entry(k, v, now + c.ttlMs));
    AppendKeepsByExpiry(w, Entry(k, v, now + c.ttlMs));
    TrimDropsTheHead(c, t, o);
  }

  lemma TrimDropsTheHead<V>(c: Config, t: Store<V>, o: string)
    requires ByExpiry(t) && Find(t, o).Some? && Find(Trim(c, t), o) != Find(t, o)
    ensures forall e | e in Trim(c, t) :: e.expiresAt >= Find(t, o).value.expiresAt
  {
  }

  // ------------------------------------------------------------ what is forgotten

  /** The keys written after `k` and still stored. */
  ghost function NewerThan<V>(s: Store<V>, k: string): set<string> {
    if |s| == 0 then {}
    else if s[0].key == k then Keys(s[1..])
    else NewerThan(s[1..], k)
  }

  lemma {:induction false} NewerThanWithout<V>(s: Store<V>, k: string, o: string)
    requires o != k
    ensures Find(Without(s, o), k) == Find(s, k)
    ensures NewerThan(Without(s, o), k) == NewerThan(s, k) - {o}
  {
    if |s| > 0 { NewerThanWithout(s[1..], k, o); }
  }

  lemma {:induction false} NewerThanAppend<V>(s: Store<V>, k: string, e: Entry<V>)
    ensures k in Keys(s) ==> Find(s + [e], k) == Find(s, k)
    ensures k in Keys(s) ==> NewerThan(s + [e], k) == NewerThan(s, k) + {e.key}
    ensures k !in Keys(s) && e.key == k ==> Find(s + [e], k) == Some(e) && NewerThan(s + [e], k) == {}
  {
    if |s| == 0 {
      assert [] + [e] == [e];
    } else {
      assert (s + [e])[1..] == s[1..] + [e];
      NewerThanAppend(s[1..], k, e);
      KeysAppend(s[1..], e);
    }
  }

  lemma {:induction false} KeysAppend<V>(s: Store<V>, e: Entry<V>)
    ensures Keys(s + [e]) == Keys(s) + {e.key}
  {
    if |s| == 0 {
      assert [] + [e] == [e];
    } else {
      assert (s + [e])[1..] == s[1..] + [e];
      KeysAppend(s[1..], e);
    }
  }

  lemma {:induction false} KeyCount<V>(s: Store<V>)
    requires Distinct(s)
    ensures |Keys(s)| == |s|
  {
    if |s| > 0 { KeyCount(s[1..]); }
  }

  lemma {:induction false} NewerThanCount<V>(s: Store<V>, k: string)
    requires Distinct(s) && k in Keys(s)
    ensures |NewerThan(s, k)| < |s|
    ensures |NewerThan(s, k)| == |s| - 1 <==> s[0].key == k
  {
    if s[0].key == k { KeyCount(s[1..]); } else { NewerThanCount(s[1..], k); }
  }

  /** The keystone: a write of another key loses `k` exactly when it brings the
      number of keys newer than `k` up to the capacity. Otherwise `k` keeps its
      entry, and `o` joins the newer keys. */
  lemma EvictionIsExact<V>(c: Config, s: Store<V>, k: string, o: string, v: V, now: int)
    requires c.Valid() && Distinct(s) && |s| <= c.maxEntries
    requires k in Keys(s) && o != k
    ensures var s' := Put(c, s, o, v, now);
            && (k in Keys(s') <==> |NewerThan(s, k) + {o}| < c.maxEntries)
            && (k in Keys(s') ==> Find(s', k) == Find(s, k) && NewerThan(s', k) == NewerThan(s, k) + {o})
  {
    hide Without, Keys, Distinct, NewerThan, Find, Trim;
    var w := Without(s, o);
    var e := Entry(o, v, now + c.ttlMs);
    WithoutKeepsOrder(s, o);
    NewerThanWithout(s, k, o);
    NewerThanAppend(w, k, e);
    AppendKeepsDistinct(w, e);
    assert NewerThan(s, k) - {o} + {o} == NewerThan(s, k) + {o};
    TrimIsExact(c, w + [e], k);
  }

  lemma TrimIsExact<V>(c: Config, t: Store<V>, k: string)
    requires c.Valid() && Distinct(t) && |t| <= c.maxEntries + 1 && k in Keys(t)
    ensures k in Keys(Trim(c, t)) <==> |NewerThan(t, k)| < c.maxEntries
    ensures k in Keys(Trim(c, t)) ==>
              Find(Trim(c, t), k) == Find(t, k) && NewerThan(Trim(c, t), k) == NewerThan(t, k)
  {
    NewerThanCount(t, k);
  }

  /** A fresh write puts `k` last, whatever was stored. */
  lemma WriteIsNewest<V>(c: Config, s: Store<V>, k: string, v: V, now: int)
    requires c.Valid()
    ensures var s' := Put(c, s, k, v, now);
            Find(s', k) == Some(Entry(k, v, now + c.ttlMs)) && NewerThan(s', k) == {}
  {
    hide Without, Keys, NewerThan, Find, Trim;
    var e := Entry(k, v, now + c.ttlMs);
    var w := Without(s, k);
    NewerThanAppend(w, k, e);
    KeysAppend(w, e);
    TrimKeepsNewest(c, w + [e], k);
  }

  lemma TrimKeepsNewest<V>(c: Config, t: Store<V>, k: string)
    requires c.Valid() && k in Keys(t) && NewerThan(t, k) == {}
    ensures Find(Trim(c, t), k) == Find(t, k) && NewerThan(Trim(c, t), k) == {}
  {
  }

  lemma PutAddsOneKey<V>(c: Config, s: Store<V>, o: string, v: V, now: int)
    ensures Keys(Put(c, s, o, v, now)) <= Keys(s) + {o}
  {
    hide Without, Keys, Trim;
    KeysAppend(Without(s, o), Entry(o, v, now + c.ttlMs));
    TrimDropsKeys(c, Without(s, o) + [Entry(o, v, now + c.ttlMs)]);
  }

  lemma TrimDropsKeys<V>(c: Config, t: Store<V>)
    ensures Keys(Trim(c, t)) <= Keys(t)
  {
  }

  // ------------------------------------------------------------ remembering over a run

  /** `k` was last written with the given deadline, and since then only keys of
      `others` have been written: it is still stored with nothing but those
      behind it, unless there have been enough of them to fill the map. */
  ghost predicate Remembers<V>(c: Config, s: Store<V>, k: string, deadline: int, others: set<string>) {
    || |others| >= c.maxEntries
    || (k in Keys(s) && Find(s, k).value.expiresAt >= deadline && NewerThan(s, k) <= others)
  }

  lemma RemembersMeansLive<V>(c: Config, s: Store<V>, k: string, deadline: int, others: set<string>, now: int)
    requires Remembers(c, s, k, deadline, others) && now < deadline && |others| < c.maxEntries
    ensures Live(s, k, now).Some? && Touch(s, k, now) == s
  {
  }

  lemma RemembersOwnWrite<V>(c: Config, s: Store<V>, k: string, v: V, now: int, deadline: int, others: set<string>)
    requires c.Valid() && deadline <= now + c.ttlMs
    ensures Remembers(c, Put(c, s, k, v, now), k, deadline, others)
  {
    WriteIsNewest(c, s, k, v, now);
  }

  lemma RemembersOtherWrite<V>(
      c: Config, s: Store<V>, k: string, deadline: int, others: set<string>, o: string, v: V, now: int)
    requires c.Valid() && Distinct(s) && |s| <= c.maxEntries && o != k
    requires Remembers(c, s, k, deadline, others)
    ensures Remembers(c, Put(c, s, o, v, now), k, deadline, others + {o})
    ensures |others + {o}| < c.maxEntries ==> Find(Put(c, s, o, v, now), k) == Find(s, k)
  {
    SubsetSize(others, others + {o});
    if |others| < c.maxEntries {
      hide Keys, NewerThan, Find, Put;
      EvictionIsExact(c, s, k, o, v, now);
      SubsetSize(NewerThan(s, k) + {o}, others + {o});
    }
  }

  lemma RemembersOtherRemoval<V>(c: Config, s: Store<V>, k: string, deadline: int, others: set<string>, o: string)
    requires o != k && Remembers(c, s, k, deadline, others)
    ensures Remembers(c, Without(s, o), k, deadline, others)
  {
    NewerThanWithout(s, k, o);
  }

  lemma RemembersRead<V>(c: Config, s: Store<V>, k: string, deadline: int, others: set<string>, x: string, now: int)
    requires now < deadline && Remembers(c, s, k, deadline, others)
    ensures Remembers(c, Touch(s, x, now), k, deadline, others)
    ensures |others| < c.maxEntries ==> Find(Touch(s, x, now), k) == Find(s, k)
  {
    if x != k {
      RemembersOtherRemoval(c, s, k, deadline, others, x);
      NewerThanWithout(s, k, x);
    }
  }

  // ------------------------------------------------------------ and exactly that

  /** `k` was last written with the given deadline, and since then exactly the keys of
      `others`: they are the keys behind it, or they have filled the map and it is gone. */
  ghost predicate HoldsExactly<V>(c: Config, s: Store<V>, k: string, deadline: int, others: set<string>) {
    if |others| < c.maxEntries
    then k in Keys(s) && Find(s, k).value.expiresAt == deadline && NewerThan(s, k) == others
    else k !in Keys(s)
  }

  lemma {:induction false} NewerExpiresLater<V>(s: Store<V>, k: string, o: string)
    requires Distinct(s) && ByExpiry(s) && k in Keys(s) && o in NewerThan(s, k)
    ensures o in Keys(s) && o != k && Find(s, o).value.expiresAt >= Find(s, k).value.expiresAt
  {
    if s[0].key == k {
      assert Find(s[1..], o).value in s[1..];
    } else {
      NewerExpiresLater(s[1..], k, o);
      assert Find(s[1..], o).value in s[1..];
    }
  }

  lemma OtherReadHoldsExactly<V>(
      c: Config, s: Store<V>, o: string, now: int, k: string, deadline: int, others: set<string>)
    requires Sound(c, s, now) && now < deadline && HoldsExactly(c, s, k, deadline, others)
    ensures HoldsExactly(c, Touch(s, o, now), k, deadline, others)
    ensures Find(Touch(s, o, now), k) == Find(s, k)
    ensures Live(s, o, now).None? && o != k && |others| < c.maxEntries ==> o !in others
  {
    hide Without, Keys, NewerThan, Distinct, ByExpiry;
    if o != k {
      NewerThanWithout(s, k, o);
      if |others| < c.maxEntries && o in others { NewerExpiresLater(s, k, o); }
    }
  }

  lemma OtherWriteHoldsExactly<V>(
      c: Config, t: Store<V>, o: string, v: V, now: int, k: string, deadline: int, others: set<string>)
    requires c.Valid() && Distinct(t) && |t| <= c.maxEntries && o != k
    requires HoldsExactly(c, t, k, deadline, others)
    ensures HoldsExactly(c, Put(c, t, o, v, now), k, deadline, others + {o})
    ensures k in Keys(Put(c, t, o, v, now)) ==> Find(Put(c, t, o, v, now), k) == Find(t, k)
  {
    hide Put, Keys, NewerThan, Find, Distinct;
    SubsetSize(others, others + {o});
    PutAddsOneKey(c, t, o, v, now);
    if |others| < c.maxEntries { EvictionIsExact(c, t, k, o, v, now); }
  }

  /** A read and a write of another key, at any time. */
  lemma OtherUseHoldsExactly<V>(
      c: Config, s: Store<V>, o: string, v: V, now: int, k: string, deadline: int, others: set<string>)
    requires c.Valid() && Distinct(s) && |s| <= c.maxEntries && o != k
    requires HoldsExactly(c, s, k, deadline, others)
    ensures HoldsExactly(c, Put(c, Touch(s, o, now), o, v, now), k, deadline, others + {o})
    ensures var s' := Put(c, Touch(s, o, now), o, v, now); k in Keys(s') ==> Find(s', k) == Find(s, k)
  {
    hide Put, Keys, NewerThan, Find, Distinct, Without;
    var t := Touch(s, o, now);
    WithoutKeepsOrder(s, o);
    NewerThanWithout(s, k, o);
    SubsetSize(others, others + {o});
    PutAddsOneKey(c, t, o, v, now);
    if |others| < c.maxEntries {
      assert k in Keys(t);
      EvictionIsExact(c, t, k, o, v, now);
    }
  }

  lemma WriteIsHeldExactly<V>(c: Config, s: Store<V>, k: string, v: V, now: int)
    requires c.Valid()
    ensures HoldsExactly(c, Put(c, s, k, v, now), k, now + c.ttlMs, {})
  {
    WriteIsNewest(c, s, k, v, now);
  }
}
