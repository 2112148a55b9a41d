/** The session storage: a cache that answers at once, and a debounced chain of writes that
    follows it to disk. */
module BufferedStorage {
  import opened Wrappers
  import opened Runs

  type Contents<V> = map<string, V>

  /** `chain` holds the snapshots whose writes are not over, oldest first; `landed` tells
      that the first is on disk but its continuation has yet to run. After a rejected
      write the chain is broken: what is in it never runs. */
  datatype Storage<V> = Storage(
    cache: Contents<V>, dirty: bool, timer: bool,
    chain: seq<Contents<V>>, landed: bool, broken: bool, done: nat, disk: Contents<V>)

  /** The file found at construction. */
  datatype File<V> = Missing | Blank | Corrupt | Holds(contents: Contents<V>)

  datatype LoadError = ParseError

  function Opened<V>(f: File<V>): Result<Storage<V>, LoadError> {
    match f
    case Corrupt => Err(ParseError)
    case Holds(contents) => Ok(Storage(contents, false, false, [], false, false, 0, contents))
    case _ => Ok(Storage(map[], false, false, [], false, false, 0, map[]))
  }

  function WrittenNow<V>(s: Storage<V>): Storage<V> {
    if !s.dirty then s else s.(dirty := false, chain := s.chain + [s.cache])
  }

  function Changed<V>(s: Storage<V>, cache: Contents<V>): Storage<V> {
    s.(cache := cache, dirty := true, timer := true)
  }

  function Fired<V>(s: Storage<V>): Storage<V> { if s.timer then WrittenNow(s.(timer := false)) else s }

  predicate Writing<V>(s: Storage<V>) { s.chain != [] && !s.landed && !s.broken }

  function Landed<V>(s: Storage<V>): Storage<V>
    requires Writing(s)
  {
    s.(disk := s.chain[0], landed := true)
  }

  /** The continuation of a write, with its own chance to flush again. */
  function Continued<V>(s: Storage<V>): Storage<V>
    requires s.landed && s.chain != []
  {
    var s := s.(chain := s.chain[1..], landed := false, done := s.done + 1);
    if s.dirty && !s.timer then WrittenNow(s) else s
  }

  /** A rejected write may leave anything behind. */
  function Rejected<V>(s: Storage<V>, leaves: Contents<V>): Storage<V>
    requires Writing(s)
  {
    s.(broken := true, disk := leaves)
  }

  class BufferedFileStorage<V> {
    var cache: Contents<V>
    var dirty: bool
    var timer: bool
    var chain: seq<Contents<V>>
    var landed: bool
    var broken: bool
    var done: nat
    var disk: Contents<V>

    function Now(): Storage<V>
      reads this
    {
      Storage(cache, dirty, timer, chain, landed, broken, done, disk)
    }

    constructor (contents: Contents<V>)
      ensures Ok(Now()) == Opened(Holds(contents))
    {
      cache, dirty, timer, chain, landed, broken, done, disk := contents, false, false, [], false, false, 0, contents;
    }

    method Set(key: string, value: V)
      modifies this`cache, this`dirty, this`timer
      ensures Now() == Changed(old(Now()), old(cache)[key := value])
    {
      cache := cache[key := value];
      ScheduleFlush();
    }

    method Get(key: string) returns (value: Option<V>)
      ensures value == if key in cache then Some(cache[key]) else None
    {
      value := if key in cache then Some(cache[key]) else None;
    }

    method Delete(key: string)
      modifies this`cache, this`dirty, this`timer
      ensures Now() == Changed(old(Now()), old(cache) - {key})
    {
      cache := cache - {key};
      ScheduleFlush();
    }

    method Clear()
      modifies this`cache, this`dirty, this`timer
      ensures Now() == Changed(old(Now()), map[])
    {
      cache := map[];
      ScheduleFlush();
    }

    method ScheduleFlush()
      modifies this`dirty, this`timer
      ensures Now() == Changed(old(Now()), cache)
    {
      dirty := true;
      if timer { return; }
      timer := true;
    }

    /** Resolves once `ticket` writes are over; a broken chain rejects it. */
    method FlushNow() returns (ticket: nat)
      modifies this`timer, this`dirty, this`chain
      ensures Now() == Fired(old(Now())) && ticket == done + |chain|
    {
      if timer {
        timer := false;
        WriteNow();
      }
      return done + |chain|;
    }

    method FireTimer()
      requires timer
      modifies this`timer, this`dirty, this`chain
      ensures Now() == Fired(old(Now()))
    {
      timer := false;
      WriteNow();
    }

    method WriteNow()
      modifies this`dirty, this`chain
      ensures Now() == WrittenNow(old(Now()))
    {
      if !dirty { return; }
      dirty := false;
      chain := chain + [cache];
    }

    method LandWrite()
      requires Writing(Now())
      modifies this`disk, this`landed
      ensures Now() == Landed(old(Now()))
    {
      disk := chain[0];
      landed := true;
    }

    method Continue()
      requires landed && chain != []
      modifies this`dirty, this`chain, this`landed, this`done
      ensures Now() == Continued(old(Now()))
    {
      chain, landed, done := chain[1..], false, done + 1;
      if dirty && !timer { WriteNow(); }
    }

    method RejectWrite(leaves: Contents<V>)
      requires Writing(Now())
      modifies this`broken, this`disk
      ensures Now() == Rejected(old(Now()), leaves)
    {
      broken, disk := true, leaves;
    }
  }

  method Open<V>(f: File<V>) returns (r: Result<BufferedFileStorage<V>, LoadError>)
    ensures r.Ok? ==> fresh(r.value) && Opened(f) == Ok(r.value.Now())
    ensures r.Err? ==> Opened(f) == Err(r.error)
  {
    if f.Corrupt? { return Err(ParseError); }
    var s := new BufferedFileStorage(if f.Holds? then f.contents else map[]);
    return Ok(s);
  }

  // ------------------------------------------------------------ runs

  datatype Op<V> =
    | Set(key: string, value: V) | Delete(key: string) | Clear
    | FlushNow | FireTimer | Land | Continue | Reject(leaves: Contents<V>)

  ghost function Step<V>(s: Storage<V>, op: Op<V>): Storage<V> {
    match op
    case Set(key, value) => Changed(s, s.cache[key := value])
    case Delete(key) => Changed(s, s.cache - {key})
    case Clear => Changed(s, map[])
    case FlushNow => Fired(s)
    case FireTimer => Fired(s)
    case Land => if Writing(s) then Landed(s) else s
    case Continue => if s.landed && s.chain != [] then Continued(s) else s
    case Reject(leaves) => if Writing(s) then Rejected(s, leaves) else s
  }

  ghost function After<V>(f: File<V>, r: Run<Op<V>>): Storage<V>
    requires !f.Corrupt?
  {
    match r
    case Start => Opened(f).value
    case Then(before, op) => Step(After(f, before), op)
  }

  /** What the disk will hold once the chain is through. */
  ghost function Destined<V>(s: Storage<V>): Contents<V> {
    if s.chain == [] then s.disk else s.chain[|s.chain| - 1]
  }

  /** A change is waiting exactly when a timer is; otherwise the cache is on its way to
      disk, or there. */
  ghost predicate Agrees<V>(s: Storage<V>) {
    && (s.dirty <==> s.timer)
    && (!s.dirty ==> Destined(s) == s.cache)
    && (s.landed ==> s.chain != [] && s.disk == s.chain[0])
    && (s.broken ==> s.chain != [] && !s.landed)
  }

  lemma StepKeepsAgreement<V>(s: Storage<V>, op: Op<V>)
    requires Agrees(s)
    ensures Agrees(Step(s, op))
  {
  }

  lemma {:induction false} RunsAgree<V>(f: File<V>, r: Run<Op<V>>)
    requires !f.Corrupt?
    ensures Agrees(After(f, r))
  {
    if r.Then? {
      hide Step, Agrees;
      RunsAgree(f, r.before);
      StepKeepsAgreement(After(f, r.before), r.last);
    }
  }

  /** The continuation of a write never flushes again: by then either nothing has changed,
      or a timer is pending. */
  lemma ReflushNeverRuns<V>(f: File<V>, r: Run<Op<V>>)
    requires !f.Corrupt?
    ensures var s := After(f, r);
            s.landed && s.chain != [] ==> Continued(s) == s.(chain := s.chain[1..], landed := false, done := s.done + 1)
  {
    RunsAgree(f, r);
    hide After;
  }

  // ------------------------------------------------------------ what is stored, and how often it is written

  /** Only a corrupt file cannot be opened; a missing or a blank one is an empty storage. */
  lemma OpensUnlessCorrupt<V>(f: File<V>)
    ensures Opened(f).Err? <==> f.Corrupt?
    ensures f.Missing? || f.Blank? ==> Opened(f).value.cache == map[] && Opened(f).value.disk == map[]
  {
  }

  /** The value last given to a key, unless it was deleted, or everything cleared, since. */
  ghost function Latest<V>(f: File<V>, r: Run<Op<V>>, key: string): Option<V> {
    match r
    case Start => if f.Holds? && key in f.contents then Some(f.contents[key]) else None
    case Then(before, Set(k, value)) => if k == key then Some(value) else Latest(f, before, key)
    case Then(before, Delete(k)) => if k == key then None else Latest(f, before, key)
    case Then(before, Clear) => None
    case Then(before, _) => Latest(f, before, key)
  }

  /** Whatever is flushed, written or rejected meanwhile, a key has its latest value. */
  lemma {:induction false} CacheIsLatest<V>(f: File<V>, r: Run<Op<V>>, key: string)
    requires !f.Corrupt?
    ensures var cache := After(f, r).cache;
            Latest(f, r, key) == if key in cache then Some(cache[key]) else None
  {
    if r.Then? { CacheIsLatest(f, r.before, key); }
  }

  /** Something was changed and no flush has begun since. */
  ghost predicate ChangePending<V>(r: Run<Op<V>>) {
    match r
    case Start => false
    case Then(before, op) =>
      op.Set? || op.Delete? || op.Clear? || (!op.FlushNow? && !op.FireTimer? && ChangePending(before))
  }

  /** The flushes that had something to write. */
  ghost function Writes<V>(r: Run<Op<V>>): nat {
    match r
    case Start => 0
    case Then(before, op) =>
      Writes(before) + if (op.FlushNow? || op.FireTimer?) && ChangePending(before) then 1 else 0
  }

  /** Changes are written together: any number of them between two flushes makes one write, and a flush
      without a change makes none. */
  lemma {:induction false} OneWriteAFlush<V>(f: File<V>, r: Run<Op<V>>)
    requires !f.Corrupt?
    ensures var s := After(f, r);
            s.done + |s.chain| == Writes(r) && (s.dirty <==> ChangePending(r))
  {
    if r.Then? {
      OneWriteAFlush(f, r.before);
      RunsAgree(f, r.before);
      StepWrites(After(f, r.before), r.last);
      hide Step, Agrees;
    }
  }

  lemma StepWrites<V>(s: Storage<V>, op: Op<V>)
    requires Agrees(s)
    ensures var s', flushes := Step(s, op), op.FlushNow? || op.FireTimer?;
            && s'.done + |s'.chain| == s.done + |s.chain| + (if flushes && s.dirty then 1 else 0)
            && (s'.dirty <==> op.Set? || op.Delete? || op.Clear? || (!flushes && s.dirty))
  {
  }

  // ------------------------------------------------------------ flushing

  ghost predicate Quiet<V>(r0: Run<Op<V>>, r: Run<Op<V>>) {
    r == r0 || (r.Then? && !r.last.Set? && !r.last.Delete? && !r.last.Clear? && Quiet(r0, r.before))
  }

  /** From `ticket` on: the write that holds the cache is number `ticket`, or is done. */
  ghost predicate Flushed<V>(s: Storage<V>, cache: Contents<V>, ticket: nat) {
    && !s.dirty && s.cache == cache && s.done + |s.chain| == ticket
  }

  lemma {:induction false} QuietKeepsTicket<V>(f: File<V>, r0: Run<Op<V>>, r: Run<Op<V>>)
    requires !f.Corrupt? && Quiet(r0, r) && !After(f, r0).dirty
    ensures Flushed(After(f, r), After(f, r0).cache, After(f, r0).done + |After(f, r0).chain|)
  {
    if r != r0 {
      QuietKeepsTicket(f, r0, r.before);
      RunsAgree(f, r.before);
      hide After;
    }
  }

  /** Once `flushNow` has resolved with no change since, the disk holds the cache. */
  lemma FlushReachesDisk<V>(f: File<V>, r0: Run<Op<V>>, r: Run<Op<V>>)
    requires !f.Corrupt? && Quiet(Then(r0, FlushNow), r)
    requires var s := After(f, Then(r0, FlushNow)); After(f, r).done >= s.done + |s.chain|
    ensures After(f, r).disk == After(f, r).cache == After(f, r0).cache
  {
    var r1 := Then(r0, Op<V>.FlushNow);
    hide After, Agrees, Quiet, Destined;
    FlushLeavesClean(f, r0);
    QuietKeepsTicket(f, r1, r);
    RunsAgree(f, r);
    FlushedIsOnDisk(After(f, r), After(f, r1).cache, After(f, r1).done + |After(f, r1).chain|);
  }

  lemma FlushLeavesClean<V>(f: File<V>, r0: Run<Op<V>>)
    requires !f.Corrupt?
    ensures var s := After(f, Then(r0, FlushNow)); !s.dirty && s.cache == After(f, r0).cache
  {
    RunsAgree(f, r0);
    FiredIsClean(After(f, r0));
  }

  lemma FlushedIsOnDisk<V>(s: Storage<V>, cache: Contents<V>, ticket: nat)
    requires Agrees(s) && Flushed(s, cache, ticket) && s.done >= ticket
    ensures s.disk == s.cache == cache
  {
  }

  lemma FiredIsClean<V>(s: Storage<V>)
    requires Agrees(s)
    ensures !Fired(s).dirty && Fired(s).cache == s.cache
  {
  }

  /** A rejected write is the last: nothing that changes later reaches the disk, and no
      later flush that has something to wait for resolves. */
  lemma {:induction false} RejectionFreezesDisk<V>(f: File<V>, r0: Run<Op<V>>, r: Run<Op<V>>)
    requires !f.Corrupt? && Extends(r, r0) && After(f, r0).broken
    ensures var s, s0 := After(f, r), After(f, r0);
            && s.broken && s.disk == s0.disk && s.done == s0.done
            && s.done < s.done + |s.chain|
  {
    RunsAgree(f, r);
    if r != r0 {
      RejectionFreezesDisk(f, r0, r.before);
      RunsAgree(f, r.before);
      hide After;
    }
  }

  /** An input that loses changes: a value is set and flushed, the write is rejected, and a
      later value is set and flushed. The cache has it, the disk never will. */
  lemma RejectionLosesChanges<V>(k: string, v: V, w: V, leaves: Contents<V>)
    ensures var rejected := Then(Then(Then(Start, Op.Set(k, v)), FlushNow), Reject(leaves));
            var later := Then(Then(rejected, Op.Set(k, w)), FlushNow);
            && After(Missing, rejected).broken
            && After(Missing, later).cache == map[k := w] && After(Missing, later).disk == leaves
            && forall r | Extends(r, later) :: After(Missing, r).disk == leaves
  {
    var r1 := Then(Start, Op.Set(k, v));
    assert After(Missing, r1) == Storage(map[k := v], true, true, [], false, false, 0, map[]);
    var r2 := Then(r1, Op<V>.FlushNow);
    assert After(Missing, r2) == Storage(map[k := v], false, false, [map[k := v]], false, false, 0, map[]);
    var r3 := Then(r2, Reject(leaves));
    assert After(Missing, r3) == After(Missing, r2).(broken := true, disk := leaves);
    var r4 := Then(r3, Op.Set(k, w));
    assert After(Missing, r4) == After(Missing, r3).(cache := map[k := w], dirty := true, timer := true);
    var r5 := Then(r4, Op<V>.FlushNow);
    assert After(Missing, r5).broken && After(Missing, r5).disk == leaves;
    hide After;
    forall r | Extends(r, r5) ensures After(Missing, r).disk == leaves {
      RejectionFreezesDisk(Missing, r5, r);
    }
  }

  // ------------------------------------------------------------ what the disk may hold

  ghost predicate NoneRejected<V>(r: Run<Op<V>>) {
    r.Then? ==> !r.last.Reject? && NoneRejected(r.before)
  }

  /** `c` was the whole cache at some point of `r`. */
  ghost predicate WasCache<V>(f: File<V>, r: Run<Op<V>>, c: Contents<V>)
    requires !f.Corrupt?
  {
    After(f, r).cache == c || (r.Then? && WasCache(f, r.before, c))
  }

  /** No write mixes two states: as long as none is rejected, the disk holds what was once
      the whole cache, and so does everything in the chain. */
  lemma {:induction false} DiskWasTheCache<V>(f: File<V>, r: Run<Op<V>>)
    requires !f.Corrupt? && NoneRejected(r)
    ensures WasCache(f, r, After(f, r).disk)
    ensures forall i | 0 <= i < |After(f, r).chain| :: WasCache(f, r, After(f, r).chain[i])
  {
    if r.Then? {
      DiskWasTheCache(f, r.before);
      RunsAgree(f, r.before);
      var s, s' := After(f, r.before), After(f, r);
      StepQueuesTheCache(s, r.last);
      hide After, Step;
      forall i | 0 <= i < |s'.chain| ensures WasCache(f, r, s'.chain[i]) {
        if s'.chain[i] != s.cache {
          var j :| 0 <= j < |s.chain| && s.chain[j] == s'.chain[i];
        }
      }
    }
  }

  lemma StepQueuesTheCache<V>(s: Storage<V>, op: Op<V>)
    requires Agrees(s) && !op.Reject?
    ensures var s' := Step(s, op);
            && (s'.disk == s.disk || (s.chain != [] && s'.disk == s.chain[0]))
            && (forall x | x in s'.chain :: x in s.chain || x == s.cache)
  {
  }
}
