# Verified model of the race-to-reply worker

The worker answers chat messages before anyone else does: it hears a message on several
paths, decides once whether to answer, and sends the reply over the fastest of a pool of
HTTP/2 lanes. This project models the parts whose correctness is an argument about
sequences of events, and proves those arguments in Dafny 4.11.

- **Dispatch** (`ttl_map`, `claims`, `rate_limit`, `jobs`, `pipeline`, `dispatch`,
  `job_window`, `gate_keys`): what an expiring, bounded map may forget, and what the claim
  gates, the job registry and the token buckets built on it still guarantee over whole runs;
  and, on the fields of the events, what each gate takes to be the same.
- **Lane router** (`lane`, `lane_pool`, `lane_choice`, `lane_runs`, `lane_wire`, `lane_rules`,
  `lane_results`): routing is total and keeps to its bands, the margin-based folds stay near
  the fastest lane, a pin on a fast lane stays, and the lanes' counters are those of the
  requests on the wire; every choice, and every effect of a result, on the lanes' own numbers.
- **Square poll** (`square_poll`, `square_poll_runs`, `square_poll_cursor`,
  `square_poll_pace`): overlapping fetches that finish in any order share one cursor and one
  bounded dedupe window; exactly when the next one may go.
- **Fast forms of simple things** (`matcher`, `ring`, `canonical`, `stride`): each equals
  its simple form.
- **Control plane** (`write_behind`, `buffered_storage`, `alerts`, `alert_rules`, `recovery`,
  `users_store`, `bot_registry`, `account_rules`): state machines under every interleaving,
  and the rules they follow.
- **Shared** (`wrappers`, `runs`, `sets`, `windows`, `sorting`, `modulo`).

An object of the source that updates its fields is a class here. Each method states its
whole new state by a function on values, such as `LanePool.AfterSend` or `TtlMap.Put`. The
properties are lemmas about those functions and about runs, which are histories of
operations (`Runs.Run`). Clocks, random ids, hashes, network results and the outcomes of
writes are parameters of the operations. Wall-clock times are integers and monotonic times
are reals, in milliseconds. What lies between two awaits is one step; an awaited call is a
step that starts it and a later step that ends it, with anything in between. Theorems
about times take clocks that do not run back (`InOrder`).

`dafny verify dfyconfig.toml` checks everything.

Where the code and its comments differ, the model follows the code:

- The comment on the job registry says that a redelivered event resolves to the same record
  and is not dispatched again. The same message is stopped earlier, at the incoming gate.
  Another message with the same job id reaches the registry: it is not dispatched, but the
  call rejects with an illegal transition rather than resolving
  (`JobWindow.SameJobIdRejects`), until the job is settled; then the call does resolve
  (`JobWindow.RepeatResolvesIffSettled`).
- The recovery ceiling limits climbing only; an alert may enter above it, at the bottom of the
  ladder or within an incident (`Recovery.StaysUnderTheCeilingIff`).
- `WriteBehindQueue.close` does not flush everything if a flush is under way
  (`WriteBehind.CloseEmptiesIff`, with an input in `WriteBehind.CloseStrandsOne`).
- The re-flush branch of `BufferedFileStorage` is never taken
  (`BufferedStorage.ReflushNeverRuns`), and one rejected write is the last
  (`BufferedStorage.RejectionFreezesDisk`, with an input in
  `BufferedStorage.RejectionLosesChanges`).
- The ring's mean is that of its lifetime, not of its window (`Ring.MeanIsInsideIff`).
- Recycling a lane does not forget the requests in flight. One that began before a recycle and
  ends after it enters the fresh profile, although the comments say that a fresh route is
  measured anew (`LaneWire.StraddlerExists`; exactly when, `LaneWire.RecordsOnlyLaterIff`).
- A slow streak saturates at 255, so a longer `slowSamplesBeforeCooldown` never parks a lane
  (`LaneWire.LongStreaksNeverPark`; exactly when one is parked, `LaneWire.ParkedIff`).
- `canonicalize` does not tell undefined, null and non-finite numbers apart, so a
  configuration can change without a new hash (`Canonical.ConflatedWithNull`).

## Model

| member | source | states |
|---|---|---|
| TtlMap.BoundedTtlMap.constructor | apps/worker/src/lib/bounded-ttl-map.ts:29-35 | an empty map with the given TTL and capacity, both positive |
| TtlMap.BoundedTtlMap.Get | apps/worker/src/lib/bounded-ttl-map.ts:45-86 | answers the unexpired value of the key, and removes that entry, and no other, if it has expired |
| TtlMap.BoundedTtlMap.Set | apps/worker/src/lib/bounded-ttl-map.ts:50-55 | the key becomes the newest entry with a fresh deadline; one entry too many costs exactly the oldest |
| TtlMap.BoundedTtlMap.EvictOldest | apps/worker/src/lib/bounded-ttl-map.ts:88-91 | drops the first entry in insertion order, if there is one |
| TtlMap.BoundedTtlMap.Delete | apps/worker/src/lib/bounded-ttl-map.ts:57-59 | removes the key's entry, and tells whether there was one |
| TtlMap.BoundedTtlMap.Prune | apps/worker/src/lib/bounded-ttl-map.ts:66-76 | one pass keeps exactly the unexpired entries in their order, and counts the others |
| TtlMap.RemovalsKeepSound | apps/worker/src/lib/bounded-ttl-map.ts:57-86 | a read or a deletion keeps the map sound: one entry a key, insertion order is expiry order, within capacity |
| TtlMap.PutKeepsSound | apps/worker/src/lib/bounded-ttl-map.ts:50-55 | a write keeps the map sound as long as the clock does not run back |
| TtlMap.EvictionTakesTheOldest | apps/worker/src/lib/bounded-ttl-map.ts:50-91 | a write evicts a live entry of another key only if nothing stored expires earlier, so never while an expired entry is kept |
| TtlMap.EvictionIsExact | apps/worker/src/lib/bounded-ttl-map.ts:50-91 | writing another key loses k exactly when k then has as many newer keys as the map holds entries; otherwise k keeps its entry |
| TtlMap.WriteIsNewest | apps/worker/src/lib/bounded-ttl-map.ts:50-55 | a written key is found with its value and deadline, with no newer key behind it |
| TtlMap.RemembersOtherWrite | apps/worker/src/lib/bounded-ttl-map.ts:50-91 | a key stays stored through writes of others until at least maxEntries distinct others were written |
| TtlMap.RemembersRead | apps/worker/src/lib/bounded-ttl-map.ts:78-86 | reading any key at a time before the deadline loses nothing of a remembered key |
| Claims.ClaimStore.constructor | apps/worker/src/core/dedupe/claim-store.ts:16-18 | an empty store |
| Claims.ClaimStore.TryClaim | apps/worker/src/core/dedupe/claim-store.ts:22-26 | acquires exactly when no unexpired claim of the key is stored, and then stores one |
| Claims.ClaimStore.Release | apps/worker/src/core/dedupe/claim-store.ts:29-31 | drops the claim of the key and nothing else |
| Claims.Gates.constructor | apps/worker/src/core/dedupe/claims.ts:26-30 | three separate empty stores |
| Claims.Gates.IncomingMessage | apps/worker/src/core/dedupe/claims.ts:32-34 | a claim on bot, surface and message in the incoming store alone |
| Claims.Gates.Reply | apps/worker/src/core/dedupe/claims.ts:36-38 | a claim on bot, room, rule and message in the reply store alone |
| Claims.Gates.RoomAnswer | apps/worker/src/core/dedupe/claims.ts:40-42 | a claim on owner, room and message in the room store alone |
| Claims.Gates.ReleaseIncoming | apps/worker/src/core/dedupe/claims.ts:45-47 | drops the incoming claim of that bot, surface and message |
| Claims.ClaimKeyInjective | apps/worker/src/core/dedupe/claim-store.ts:4-7 | joined keys of NUL-free ids are equal only for the same list of ids, whatever the lengths |
| Claims.ClaimKeyNeedsNulFree | apps/worker/src/core/dedupe/claim-store.ts:4-7 | for every two strings, a NUL moved from one id to its neighbour gives the same key: the comment's premise is needed |
| Claims.RunsAreSound | apps/worker/src/lib/bounded-ttl-map.ts:50-91 | over every run of claims and releases the store stays sound |
| Claims.ClaimIsRemembered | apps/worker/src/core/dedupe/claim-store.ts:22-31 | an acquired, unreleased claim is stored with only later claims behind it, unless these filled the store |
| Claims.ClaimWindow | apps/worker/src/core/dedupe/claim-store.ts:22-31 | a key acquired twice within the TTL and not released in between needs maxEntries distinct other claims in between |
| Claims.ClaimWindowIsExact | apps/worker/src/core/dedupe/claim-store.ts:22-26 | when nothing is released, a claimed key can be claimed again within the TTL if and only if maxEntries distinct others were claimed meanwhile |
| Claims.ClaimLastsExactly | apps/worker/src/core/dedupe/claim-store.ts:22-26 | with nothing released, a claimed key can be claimed again, at any later time, if and only if the TTL is over or maxEntries distinct others were claimed |
| Claims.ReleasedIsFree | apps/worker/src/core/dedupe/claim-store.ts:29-31 | a released key can be claimed at once |
| RateLimit.RateLimiter.constructor | apps/worker/src/core/ratelimit/limiter.ts:36-45 | an empty set of buckets with the given limits |
| RateLimit.RateLimiter.TryAdmit | apps/worker/src/core/ratelimit/limiter.ts:48-57 | refills the pair's bucket, admits exactly when it holds a whole token, spends it, and stores the bucket anew either way |
| RateLimit.IdealIsBounded | apps/worker/src/core/ratelimit/limiter.ts:63-69 | a bucket never goes below zero nor above its capacity |
| RateLimit.ExpiryIsUnobservable | apps/worker/src/core/ratelimit/limiter.ts:48-69 | if the idle TTL covers a full refill and other keys crowd the bucket out only when it would be full again, every answer is that of a bucket kept for ever |
| RateLimit.ShortTtlIsObservable | apps/worker/src/core/ratelimit/limiter.ts:41-69 | for every shorter TTL there is a run on which the limiter admits what a bucket kept for ever would refuse |
| RateLimit.CrowdingIsUnobservableIff | apps/worker/src/core/ratelimit/limiter.ts:41-69 | the answers to a burst are those of a bucket kept for ever if and only if other keys have not filled the map since the last ask, or the bucket would be full again |
| RateLimit.CrowdingLetsABurstThrough | apps/worker/src/core/ratelimit/limiter.ts:41-69 | a full burst, as many other keys as the map holds, and another full burst at the same time: all of it is admitted |
| RateLimit.TokenBudget | apps/worker/src/core/ratelimit/limiter.ts:48-69 | admissions since a point of a run plus the tokens left never exceed the capacity plus the refill of the time since |
| RateLimit.RateBound | apps/worker/src/core/ratelimit/limiter.ts:48-69 | in any interval of any run a pair gets at most the capacity plus the interval times the refill rate, if it is crowded out only when it would be full again |
| RateLimit.RefillComposes | apps/worker/src/core/ratelimit/limiter.ts:63-69 | refilling at a time and again later gives what one refill at the later time gives |
| RateLimit.RefusalsKeepTheLevel | apps/worker/src/core/ratelimit/limiter.ts:48-57 | any number of refused asks leaves the level as it would have been without them |
| RateLimit.EarnedTokenIsAdmitted | apps/worker/src/core/ratelimit/limiter.ts:48-69 | an ask made one token's refill time after the last admission is admitted, however many were refused between |
| RateLimit.EarnedIsTime | apps/worker/src/core/ratelimit/limiter.ts:63-69 | what a wait earns is its milliseconds times the refill rate |
| Jobs.JobKeyIdentifiesTheJob | apps/worker/src/core/jobs/job-key.ts:30-37 | two keys agree if and only if the trimmed explicit ids agree or, with none, message, sender, room and rule all agree; the two forms never collide |
| Jobs.JobRegistry.constructor | apps/worker/src/core/jobs/job-registry.ts:37-40 | an empty registry |
| Jobs.JobRegistry.Ensure | apps/worker/src/core/jobs/job-registry.ts:47-54 | answers the live record, or creates one in `waiting` |
| Jobs.JobRegistry.KnownTerminal | apps/worker/src/core/jobs/job-registry.ts:56-59 | holds exactly when a live record is won, lost or unknown |
| Jobs.JobRegistry.Transition | apps/worker/src/core/jobs/job-registry.ts:79-92 | moves along an allowed edge, does nothing for the state it is in, and refuses every other edge, having created the record if needed |
| Jobs.OverCannotBegin | apps/worker/src/core/jobs/job-registry.ts:61-92 | a job that was handed out or settled cannot begin again: the registry refuses and changes nothing |
| Jobs.BeginSucceedsUnlessOver | apps/worker/src/core/jobs/job-registry.ts:61-92 | eligible and then dispatched succeeds if and only if no live record is dispatched or settled |
| Jobs.BegunTracks | apps/worker/src/core/jobs/job-registry.ts:61-67 | a begun job is recorded as over until its TTL, with nothing newer behind it |
| Jobs.SettledTracks | apps/worker/src/core/jobs/job-registry.ts:71-92 | settling a job that was handed out keeps it recorded as over |
| Jobs.TrimmedIs | apps/worker/src/core/jobs/job-key.ts:31 | what is left of an explicit id has no white space at either end, and nothing but white space was removed |
| Jobs.MovesIff | apps/worker/src/core/jobs/job-registry.ts:18-92 | a transition succeeds exactly along the five allowed moves or to the state the job is in; state, times and deadline after it; a refused one names both states and leaves a known job alone |
| Pipeline.Worker.constructor | apps/worker/src/pipeline/process-inbound.ts:25-36 | empty stores for every gate |
| Pipeline.Worker.RunGates | apps/worker/src/pipeline/process-inbound.ts:151-189 | the gates run in their fixed order on the class's five stores, and a stop leaves the later stores untouched |
| Pipeline.Worker.ProcessInbound | apps/worker/src/pipeline/process-inbound.ts:82-101 | an event that clears the gates is sent under its job key, or rejected by the job registry, and nothing else is |
| Dispatch.JobStoreIsSound | apps/worker/src/core/jobs/job-registry.ts:33-92 | over every run of events and outcomes the job store stays sound |
| Dispatch.JobIsTracked | apps/worker/src/pipeline/process-inbound.ts:82-189 | after a send the job's record is stored as over until its TTL, unless maxEntries other jobs were written |
| Dispatch.OneSendAJob | apps/worker/src/pipeline/process-inbound.ts:82-189 | two sends under one job key within the job TTL need maxEntries other jobs written in between, whatever messages carry the key |
| Dispatch.PassedIsSentUnlessOver | apps/worker/src/pipeline/process-inbound.ts:87-101 | an event that clears the gates is sent if and only if no live record says that its job is out already; else the call rejects |
| Dispatch.GateIsAClaimStore | apps/worker/src/pipeline/process-inbound.ts:151-189 | over every run each of the three gates behaves as a claim store asked by the events that reach it |
| Dispatch.OneSendAGateKey | apps/worker/src/pipeline/process-inbound.ts:151-189 | two sends with the same gate key within that gate's TTL need as many other claims in between as the gate holds |
| Dispatch.BucketsAreALimiter | apps/worker/src/pipeline/process-inbound.ts:183-187 | over every run the buckets are those of a limiter asked by the events that reach it |
| Dispatch.SendRate | apps/worker/src/pipeline/process-inbound.ts:183-188 | a bot answers a room at most capacity plus refill times in any interval of any run, if its bucket is crowded out only when it would be full again and the TTL covers a refill |
| JobWindow.JobIsHeld | apps/worker/src/pipeline/process-inbound.ts:82-189 | after a send the job's record is stored with exactly the jobs recorded since behind it, or gone once these fill the store |
| JobWindow.JobWindowIsExact | apps/worker/src/pipeline/process-inbound.ts:82-189 | a job neither settled nor answered again is answered to another event that clears the gates within the TTL if and only if maxEntries other jobs were recorded meanwhile; otherwise the call rejects |
| JobWindow.RepeatResolvesIffSettled | apps/worker/src/pipeline/process-inbound.ts:87-189 | while fewer other jobs were recorded, no event under a sent key is sent within the TTL: one that reaches the job gate is stopped there, and the call resolves, if and only if an outcome was reported since; else the call rejects if the event clears the other gates too |
| JobWindow.SettledRepeatResolves | apps/worker/src/pipeline/process-inbound.ts:176-176 | with an outcome reported in between, the second of two messages with the same job id is stopped at the job gate |
| JobWindow.SameJobIdRejects | apps/worker/src/pipeline/process-inbound.ts:87-100 | two different messages with the same job id in a new core: the first is answered and the call for the second rejects |
| GateKeys.SameIncomingIff | apps/worker/src/core/dedupe/claims.ts:32-34 | for NUL-free fields two events share the incoming key if and only if bot, surface and message agree |
| GateKeys.SameReplyIff | apps/worker/src/core/dedupe/claims.ts:36-38 | two share the reply key if and only if bot, room, rule and message agree |
| GateKeys.SameRoomIff | apps/worker/src/core/dedupe/claims.ts:40-42 | two share the room key if and only if owner, room and message agree, whatever the bots |
| GateKeys.SameBucketIff | apps/worker/src/core/ratelimit/limiter.ts:48-49 | two share a bucket if and only if bot and room agree |
| GateKeys.SameJobIff | apps/worker/src/pipeline/process-inbound.ts:168-174 | two share a job if and only if they carry the same trimmed id, or none and message, sender, room and rule agree, whatever the bots |
| GateKeys.AnsweredAgainNeedsOthers | apps/worker/src/pipeline/process-inbound.ts:151-189 | at each gate, two replies to events with the same fields within the gate's TTL need maxEntries other combinations of these fields to have been heard in between |
| GateKeys.OneAnswerAMessage | apps/worker/src/pipeline/process-inbound.ts:180-182 | two replies with the same owner, room and message within the room TTL, whatever bots, rules and jobs, need maxEntries other messages to have been heard in between |
| GateKeys.EventsEndThere | apps/worker/src/pipeline/process-inbound.ts:82-189 | the verdict on every event, by the fields and the stores: the first gate that objects, in this order, else a rejection if the job is out, else the reply |
| GateKeys.GatesBehindAreUntouched | apps/worker/src/pipeline/process-inbound.ts:151-189 | an event claims at each gate it gets to, even if it ends there or later, and leaves every store behind the gate it ends at alone |
| GateKeys.SiblingIsStopped | apps/worker/src/pipeline/process-inbound.ts:180-182 | two bots of one owner hear the same message in a new core: the first answers, the second is stopped at the room gate, and its tokens are not spent |
| Lane.Lane.constructor | apps/worker/src/transport/lane.ts:128-137 | a ready lane with no samples and nothing in flight |
| Lane.Lane.Begin | apps/worker/src/transport/lane.ts:249-251 | counts the request in, and tells whether it had company |
| Lane.Lane.Measure | apps/worker/src/transport/lane.ts:253-314 | the response's round trip enters the profile of its kind, scores if it is a send, and counts as contended with company at either end |
| Lane.Lane.ScoreSend | apps/worker/src/transport/lane.ts:316-320 | a fast send is a rabbit even with company; a slow one is contended with company and else a turtle |
| Lane.Lane.End | apps/worker/src/transport/lane.ts:264-266 | counts the request out |
| Lane.Lane.CountFailure | apps/worker/src/transport/lane.ts:261-263 | one more failure in a row |
| Lane.Lane.Drain | apps/worker/src/transport/lane.ts:271-274 | a lane that is not dead is draining |
| Lane.Lane.Recycle | apps/worker/src/transport/lane.ts:278-294 | profiles, score and failures start afresh and the lane is ready, while requests in flight stay counted |
| Lane.Lane.Close | apps/worker/src/transport/lane.ts:296-299 | the lane is dead |
| Lane.TailRankInRange | apps/worker/src/transport/lane.ts:310-313 | the 95th percentile's rank lies in the window at or above the median's, and is the last exactly below 20 samples |
| Lane.RanksAreOrdered | apps/worker/src/transport/lane.ts:310-313 | median and tail are samples of the window, in this order, and below 20 samples the tail is the maximum |
| Lane.PredictionIsBetween | apps/worker/src/transport/lane.ts:209-214 | the prediction lies between median and tail |
| Lane.ProfilesAreWindows | apps/worker/src/transport/lane.ts:241-314 | over every run a profile holds exactly the last sampleWindow round trips of its kind since the last recycle, and its numbers are theirs |
| Lane.ScoresCountSends | apps/worker/src/transport/lane.ts:241-320 | over every run rabbits are the fast sends since the last recycle, the three scores add up to all of them, and inFlight is what began less what ended (LaneWire.InFlightIsOnTheWire ties it to the requests) |
| Lane.RanksCount | apps/worker/src/transport/lane.ts:310-313 | at most half the samples are below the median and more than half are no greater; fewer than 95% are below the tail and at least 95% no greater |
| Lane.CountsDecide | apps/worker/src/transport/lane.ts:310-313 | these counts admit one median and one tail |
| Lane.ProfilesDescribeWindows | apps/worker/src/transport/lane.ts:253-314 | over every run median, tail, last round trip and its time are, by these counts, those of the last sampleWindow round trips of the kind since the last recycle |
| Lane.TurtlesWereAlone | apps/worker/src/transport/lane.ts:253-320 | over every run turtles are the slow sends that had the lane to themselves, and failures are those in a row since the last response or recycle; connected says that one came |
| LanePool.LanePool.constructor | apps/worker/src/transport/lane-pool.ts:165-242 | numbered fresh lanes, nothing parked, bypassed or pinned |
| LanePool.LanePool.Pick | apps/worker/src/transport/lane-pool.ts:382-470 | fails only without a candidate or for a forced lane it may not use; otherwise it names the lane of the ladder for that traffic and touches nothing but pin and bypasses |
| LanePool.LanePool.PickSend | apps/worker/src/transport/lane-pool.ts:491-555 | takes the first rung that has a lane, and moves the pin there unless the pinned lane is only busy or the lane is overflow |
| LanePool.LanePool.PinSend | apps/worker/src/transport/lane-pool.ts:585-598 | the pin is on the lane, and the breach that moved it is forgotten |
| LanePool.LanePool.ReactToSend | apps/worker/src/transport/lane-pool.ts:705-760 | one reply's result changes bypass, pin, streak and cooldown of its own lane only |
| LanePool.LanePool.ReactToBreach | apps/worker/src/transport/lane-pool.ts:717-738 | a material breach bypasses and a breach unpins, if the lane had the reply to itself; anything less lifts the bypass |
| LanePool.LanePool.CountSlow | apps/worker/src/transport/lane-pool.ts:744-754 | enough slow replies in a row park the lane, unless it is the last routable one |
| LanePool.LanePool.ReactToFailure | apps/worker/src/transport/lane-pool.ts:762-774 | a transient failure drops the pin and replaces the lane with a fresh, unparked one; after close it only drains |
| LanePool.LanePool.Begin | apps/worker/src/transport/lane-pool.ts:313-329 | the request is counted on its lane |
| LanePool.LanePool.Finish | apps/worker/src/transport/lane-pool.ts:319-330 | the sample is recorded, the pool reacts to a send, and the request is counted out |
| LanePool.LanePool.End | apps/worker/src/transport/lane.ts:264-266 | the request is counted out |
| LanePool.LanePool.Fail | apps/worker/src/transport/lane.ts:261-266 | the failure is counted and the request counted out; the reaction comes later |
| LanePool.LanePool.React | apps/worker/src/transport/lane-pool.ts:331-334 | the pool reacts to the error of a request, or of cancelling its body; a maintenance request also ends its lane's parking (as at lines 784-796) |
| LanePool.LanePool.RecycleStale | apps/worker/src/transport/lane-pool.ts:798-825 | the oldest stale idle receive lane is replaced, at most one a gap, never the last routable one |
| LanePool.LanePool.Close | apps/worker/src/transport/lane-pool.ts:377-380 | every lane is dead |
| LaneChoice.ChoiceIsFromThePool | apps/worker/src/transport/lane-pool.ts:491-555 | the lane for a reply is one of the pool's |
| LaneChoice.PickIsTotal | apps/worker/src/transport/lane-pool.ts:382-470 | a pick names a candidate, and while some lane is ready an unforced pick succeeds |
| LaneChoice.PickStaysInBand | apps/worker/src/transport/lane-pool.ts:382-389 | while the request's own band has a ready unparked lane, the picked lane is ready, unparked and in that band |
| LaneChoice.OverCapOnlyWhenFull | apps/worker/src/transport/lane-pool.ts:414-431 | receive traffic goes over the in-flight cap only if every candidate is at the cap |
| LaneChoice.ChoiceCases | apps/worker/src/transport/lane-pool.ts:508-554 | a reply goes to an eligible primary, or to a spare when no eligible primary is idle |
| LaneChoice.SparesAreForOverflow | apps/worker/src/transport/lane-pool.ts:522-531 | with a primary in the pool a spare is chosen only if every eligible primary is busy, and the pin stays |
| LaneChoice.EvidenceOutranksProbes | apps/worker/src/transport/lane-pool.ts:533-549 | while an idle eligible primary has a reply measurement, the chosen lane is idle and has one |
| LaneChoice.FoldDrift | apps/worker/src/transport/lane-pool.ts:570-664 | a margin-based fold over any list in any order ends within one margin a comparison of every lane in it |
| LaneChoice.FoldIsNearTheFastest | apps/worker/src/transport/lane-pool.ts:570-664 | among n measured lanes in any order the winner is at most n - 1 margins behind the fastest, strictly less for two or more |
| LaneChoice.ReplyIsNearTheFastest | apps/worker/src/transport/lane-pool.ts:518-572 | a reply that finds fast idle primaries and no pinned one among them goes to one within that bound of the fastest |
| LaneChoice.FoldDriftIsTight | apps/worker/src/transport/lane-pool.ts:637-649 | for every n and every step below the margin there are n + 1 lanes on which the fold drifts n such steps |
| LaneRuns.RunsAreWell | apps/worker/src/transport/lane-pool.ts:313-335 | over every run lanes keep their numbers and settled profiles, and all are ready until the pool is closed |
| LaneRuns.RoutingIsTotal | apps/worker/src/transport/lane-pool.ts:382-470 | in every reachable state before close every lane is ready, and every unforced pick finds a lane |
| LaneRuns.ReplyUsesEvidence | apps/worker/src/transport/lane-pool.ts:533-549 | in every reachable state a reply goes to a measured idle lane while an idle eligible primary is measured |
| LaneRuns.PickHonoursThePin | apps/worker/src/transport/lane-pool.ts:491-555 | while the pin holds, an idle pinned lane gets the reply, and no pick of any kind moves the pin |
| LaneRuns.FinishHolds | apps/worker/src/transport/lane-pool.ts:705-760 | a reply within the threshold on the pinned lane, or any result elsewhere, keeps the pin holding |
| LaneRuns.ReactHolds | apps/worker/src/transport/lane-pool.ts:762-774 | the reaction to a failure elsewhere, or to one that is not the connection's, keeps the pin holding |
| LaneRuns.MaintainHolds | apps/worker/src/transport/lane-pool.ts:798-825 | maintenance never replaces a fast pinned lane |
| LaneRuns.RequestHolds | apps/worker/src/transport/lane-pool.ts:382-470 | a request of any kind keeps the pin holding |
| LaneRuns.PinStays | apps/worker/src/transport/lane-pool.ts:491-825 | once a pin holds it holds for ever under any traffic elsewhere; each reply asked for while the lane is idle goes to it, and overflow never moves it |
| LaneRuns.FastReplyHolds | apps/worker/src/transport/lane-pool.ts:705-749 | a fast reply on a pinned primary without slow samples makes the pin hold, and lifts any bypass |
| LaneRuns.FirstReplyPins | apps/worker/src/transport/lane-pool.ts:491-760 | for every configuration the first reply of a new pool makes the pin hold if it is fast, so PinStays applies |
| LaneRuns.UnpinnedExactlyBy | apps/worker/src/transport/lane-pool.ts:705-760 | a reply's result drops the pin if and only if the lane was not shared and the reply was over the threshold, left a losing tail or completed a slow streak |
| LaneRules.EligibleAreWorthy | apps/worker/src/transport/lane-pool.ts:492-503 | the primaries a reply chooses from are, on ids, deadlines and tails, those below the spares, not bypassed unless all are, without a losing tail unless all have one |
| LaneRules.ReplyKeepsToTheRules | apps/worker/src/transport/lane-pool.ts:491-655 | every choice for a reply, on ids, requests in flight and measurements: the first of the seven kinds of lane that exists, near the fastest of its kind; and exactly when the pin moves there |
| LaneRules.UntriedIsBestByProbes | apps/worker/src/transport/lane-pool.ts:603-614 | among lanes without a reply the preflight decides, else a warm sample that is fresh enough, else the load |
| LaneRules.OverflowsIff | apps/worker/src/transport/lane-pool.ts:522-531 | with a primary in the pool a spare is chosen if and only if every eligible primary is busy and a spare is idle; it is then idle and the pin stays |
| LaneRules.AvoidedOnlyIfAll | apps/worker/src/transport/lane-pool.ts:493-503 | a bypassed primary is chosen only if all primaries are bypassed, one with a losing tail only if every unbypassed one has one |
| LaneRules.TwoLanes | apps/worker/src/transport/lane-pool.ts:640-649 | between two lanes in either order a margin decides a reply, within it the better record, then the lighter load |
| LaneRules.TwoProbed | apps/worker/src/transport/lane-pool.ts:653-664 | between two lanes without a record a margin decides, within it the lighter load |
| LaneRules.CandidatesAreOnOffer | apps/worker/src/transport/lane-pool.ts:382-389 | the candidates are the ready, unparked lanes, or all ready ones if all are parked, and of these the request's own band, or all if it is empty |
| LaneRules.BoundedAreUncapped | apps/worker/src/transport/lane-pool.ts:414-424 | receive traffic keeps to the lanes on offer under their cap, or to all of them if each is at it |
| LaneRules.ForcedPickIff | apps/worker/src/transport/lane-pool.ts:390-412 | a request for a named lane gets it if and only if it is a reply preflight and the lane is on offer; the errors of all others |
| LaneRules.PickKeepsToTheRules | apps/worker/src/transport/lane-pool.ts:382-470 | any other request gets a lane its rules allow while one is ready; only a reply moves the pin, exactly by its rule, and only bypasses that ran out are dropped |
| LaneRules.WarmingKeepsToTheRules | apps/worker/src/transport/lane-pool.ts:432-448 | warming goes to the idle lane warmed longest ago, or to such a busy one if none is idle |
| LaneRules.OthersKeepToTheRules | apps/worker/src/transport/lane-pool.ts:453-470 | other traffic goes to a lane not measured of late, by load and then by age, and else to one near the fastest |
| LaneRules.RequestsKeepToTheRules | apps/worker/src/transport/lane-pool.ts:382-655 | in every reachable state before close each unforced request of any kind gets a lane its rules allow, and moves the pin exactly by its rule |
| LaneRules.RepliesOverflowIff | apps/worker/src/transport/lane-pool.ts:522-531 | in every reachable state before close, with a primary on offer, a reply gets a spare if and only if every eligible primary has a request in flight and an idle spare is on offer; the spare is idle and the pin stays |
| LaneRules.RepliesShunTheAvoided | apps/worker/src/transport/lane-pool.ts:493-503 | in every reachable state before close no reply goes to a bypassed primary, or one with a losing tail, while one is on offer that is neither |
| LaneResults.BypassedIff | apps/worker/src/transport/lane-pool.ts:717-726 | exactly when any lane is bypassed after any result, at any time, on round trip, tail, contention and the earlier bypass; other lanes' bypasses stay |
| LaneResults.RestsIff | apps/worker/src/transport/lane-pool.ts:740-754 | exactly when any lane is parked after any result, at any time, and what its streak is |
| LaneResults.PinGoesIff | apps/worker/src/transport/lane-pool.ts:705-754 | the pin goes if and only if a reply on the pinned lane, which it had to itself, was over the threshold, left a losing tail or parks the lane |
| LaneResults.ContendedIsCompany | apps/worker/src/transport/lane.ts:249-260 | in every reachable state a request counts as contended if and only if it shared its lane when it began or another is on the wire there when it ends |
| LaneResults.SharedIsCompany | apps/worker/src/transport/lane.ts:249-251 | in every reachable state a request shares its lane from the start if and only if another is on the wire there, and keeps lane, kind and time of its launch |
| LaneResults.FailureRenewsIff | apps/worker/src/transport/lane-pool.ts:762-774 | a connection failure before close gives the lane a new connection, unmeasured, not bypassed, parked, pinned or with a streak; after close the lane only stops serving; other errors change nothing |
| LaneResults.FailureIsLocal | apps/worker/src/transport/lane-pool.ts:762-774 | what is known of the other lanes stays |
| LaneResults.MaintainsIff | apps/worker/src/transport/lane-pool.ts:798-822 | a lane is replaced if and only if the gap is over, an old, idle, unreserved one that is not the fast pin exists, and another lane serves; it is the one opened first |
| LaneResults.MaintenancePrimes | apps/worker/src/transport/lane-pool.ts:780-825 | the replaced lane has a new connection and is parked with its priming request on the wire; the gap starts anew, and other lanes stay |
| LaneResults.ClosedIsFinal | apps/worker/src/transport/lane-pool.ts:377-393 | once closed every lane is dead for good, and every request is refused |
| LaneWire.InFlightIsOnTheWire | apps/worker/src/transport/lane.ts:249-266 | in every reachable state a lane's inFlight is the number of requests on the wire on it, across recycles, failures, maintenance and close |
| LaneWire.RecordsOnlyNewIff | apps/worker/src/transport/lane.ts:276-293 | a recycled lane records only requests launched after the recycle, in every continuation until the next, if and only if it left none on the wire |
| LaneWire.RecordsOnlyLaterIff | apps/worker/src/transport/lane.ts:276-293 | by the clock: all it records began at or after openedAt if and only if nothing it left on the wire had begun earlier |
| LaneWire.MaintenanceLeavesNone | apps/worker/src/transport/lane-pool.ts:798-825 | a lane recycled for its age leaves nothing on the wire |
| LaneWire.FailureLeavesSomeIff | apps/worker/src/transport/lane-pool.ts:331-334 | a lane recycled after a failure leaves a request on the wire if and only if it carries one when the pool reacts, which is after the failed request has left |
| LaneWire.StraddlerExists | apps/worker/src/transport/lane-pool.ts:762-774 | two requests on the only lane, of which the first fails: the fresh profile gets the sample of the second, which began before the lane was opened |
| LaneWire.ParkedIff | apps/worker/src/transport/lane-pool.ts:740-754 | a reply parks its lane if and only if it was slow and had the lane to itself, another lane is routable, and it completes a streak of at most 255 |
| LaneWire.LongStreaksNeverPark | apps/worker/src/transport/lane-pool.ts:748-750 | with more than 255 slow samples asked for no reply of any run parks a lane; only priming does |
| LaneWire.SlowRepliesParkIff | apps/worker/src/transport/lane-pool.ts:744-753 | on the only reply lane as many slow replies in a row as the option asks for park it if and only if the option is at most 255 |
| SquarePoll.SquarePoll.constructor | apps/worker/src/adapters/linejs/square-poll.ts:156-180 | nothing fetched, drained or emitted |
| SquarePoll.SquarePoll.StartRound | apps/worker/src/adapters/linejs/square-poll.ts:237-271 | a round launches its racers on the current cursor |
| SquarePoll.SquarePoll.RacerAnswers | apps/worker/src/adapters/linejs/square-poll.ts:280-303 | the first page wins: it moves the cursor and is drained or emitted; a later page changes nothing but the count |
| SquarePoll.SquarePoll.Deliver | apps/worker/src/adapters/linejs/square-poll.ts:295-304 | before the drain is over a page is only counted, and an empty one ends the drain; afterwards all of it is emitted |
| SquarePoll.SquarePoll.EmitAll | apps/worker/src/adapters/linejs/square-poll.ts:302-302 | emits the page in order |
| SquarePoll.SquarePoll.ObserveRtt | apps/worker/src/adapters/linejs/square-poll.ts:449-453 | the smoothed round trip |
| SquarePoll.SquarePoll.LoseRacer | apps/worker/src/adapters/linejs/square-poll.ts:285-290 | a racer that fails or times out; the round is lost with the last one |
| SquarePoll.SquarePoll.SettleStraggler | apps/worker/src/adapters/linejs/square-poll.ts:272-278 | an abandoned call settles |
| SquarePoll.SquarePoll.EndRound | apps/worker/src/adapters/linejs/square-poll.ts:221-234 | the pause until the next round, stretched after a failure and reset by a success |
| SquarePoll.SquarePoll.TryLaunch | apps/worker/src/adapters/linejs/square-poll.ts:333-345 | launches exactly when a slot is free, the spacing has passed and no hold is on |
| SquarePoll.SquarePoll.FirstSighting | apps/worker/src/adapters/linejs/square-poll.ts:438-447 | true exactly for an id outside the window, which then enters it and pushes the oldest of 512 out |
| SquarePoll.SquarePoll.Answer | apps/worker/src/adapters/linejs/square-poll.ts:367-398 | a page moves the cursor only forward, its first sightings are emitted in order, and the slot is kept |
| SquarePoll.SquarePoll.Adopt | apps/worker/src/adapters/linejs/square-poll.ts:382-385 | a newer launch takes the cursor; an undefined token keeps the old one |
| SquarePoll.SquarePoll.EmitFirstSightings | apps/worker/src/adapters/linejs/square-poll.ts:386-391 | emits exactly the first sightings of the page, in order |
| SquarePoll.SquarePoll.Abandon | apps/worker/src/adapters/linejs/square-poll.ts:372-379 | a timeout gives up on the page but keeps the slot |
| SquarePoll.SquarePoll.Settle | apps/worker/src/adapters/linejs/square-poll.ts:399-403 | the real call has settled without a page |
| SquarePoll.SquarePoll.Release | apps/worker/src/adapters/linejs/square-poll.ts:346-361 | the slot goes free; success resets the backoff, failure holds and doubles it up to its maximum |
| SquarePoll.SquarePoll.Stop | apps/worker/src/adapters/linejs/square-poll.ts:206-210 | every page still waited for is given up |
| SquarePollRuns.RunsAreBounded | apps/worker/src/adapters/linejs/square-poll.ts:212-365 | over every run rounds and staggered fetches exclude each other, each within its bound |
| SquarePollRuns.OpenCallsAreBounded | apps/worker/src/adapters/linejs/square-poll.ts:241-278 | at most pollRaceWidth calls are unsettled in a round and at most pollStagger otherwise, timeouts included |
| SquarePollRuns.EmissionIsReference | apps/worker/src/adapters/linejs/square-poll.ts:386-447 | with overlapping fetches what is emitted is the sighted sequence without each message whose id is among the last 512 emitted |
| SquarePollRuns.NothingIsLost | apps/worker/src/adapters/linejs/square-poll.ts:387-391 | every sighted message goes out under its id |
| SquarePollRuns.RepeatsAreFarApart | apps/worker/src/adapters/linejs/square-poll.ts:438-447 | in the deduped sequence equal ids are more than 512 places apart |
| SquarePollRuns.NoEarlyRepeat | apps/worker/src/adapters/linejs/square-poll.ts:436-447 | over any run an id is emitted again only after 512 other messages with 512 different ids |
| SquarePollRuns.SentAgainIff | apps/worker/src/adapters/linejs/square-poll.ts:438-447 | a sighted message goes out if and only if its id was not among the last 512 emitted |
| SquarePollRuns.BacklogIsSilent | apps/worker/src/adapters/linejs/square-poll.ts:295-304 | nothing is emitted or staggered before an empty page has come back, and draining ends exactly then |
| SquarePollRuns.RoundsEmitEverything | apps/worker/src/adapters/linejs/square-poll.ts:301-304 | without staggering every live message is emitted, with no dedupe |
| SquarePollCursor.CursorFollowsReturns | apps/worker/src/adapters/linejs/square-poll.ts:380-385 | once the backlog is drained the cursor is moved by returned staggered fetches alone |
| SquarePollCursor.CursorIsNewest | apps/worker/src/adapters/linejs/square-poll.ts:380-385 | the cursor holds the newest of the returned fetches, the first to return among equal launch times, and its token if it carried one |
| SquarePollCursor.OrderDoesNotMatter | apps/worker/src/adapters/linejs/square-poll.ts:380-385 | for distinct launch times, and a newest fetch with a token, every order of completion gives the same cursor |
| SquarePollCursor.OrderDoesNotMatterIff | apps/worker/src/adapters/linejs/square-poll.ts:380-385 | for any number of fetches launched at different times every order of completion gives the same cursor if and only if the newest is no news or carries a token, or no fetch that is news brings a token the cursor lacks |
| SquarePollCursor.SwapMattersIff | apps/worker/src/adapters/linejs/square-poll.ts:382-385 | the smallest input: two fetches end differently when swapped if and only if the newer came without a token and the older brought another one |
| SquarePollCursor.LaunchRateIsBounded | apps/worker/src/adapters/linejs/square-poll.ts:333-345 | k launches in any stretch of any run take at least k - 1 times the interval over pollStagger |
| SquarePollPace.RunsBackOff | apps/worker/src/adapters/linejs/square-poll.ts:213-233 | over every run the backoff is minBackoffMs doubled once for each failure since the last success, up to maxBackoffMs |
| SquarePollPace.RunsWaitForAll | apps/worker/src/adapters/linejs/square-poll.ts:325-361 | over every run the poll waits for the latest of all failures' backoffs, hits' quiet windows and rounds' pauses |
| SquarePollPace.RunsRemember | apps/worker/src/adapters/linejs/square-poll.ts:345-375 | over every run each open fetch has the time and cursor of its launch, the last launch is the last, and the round trip is the smoothed one, four parts old to one new |
| SquarePollPace.LaunchesIff | apps/worker/src/adapters/linejs/square-poll.ts:333-345 | a staggered fetch may go if and only if the backlog is drained, a slot is free, the last launch is a share of round trip plus interval ago, and everything that holds back is over |
| SquarePollPace.RoundStartsIff | apps/worker/src/adapters/linejs/square-poll.ts:212-234 | a round may start if and only if none is on, the poll is not stopped or staggering, and everything that holds back is over |
| SquarePollPace.NothingIsAskedBefore | apps/worker/src/adapters/linejs/square-poll.ts:212-345 | in every continuation nothing is asked before a hold is over |
| SquarePollPace.FailureHoldsBack | apps/worker/src/adapters/linejs/square-poll.ts:352-360 | after a staggered fetch failed nothing is asked before the backoff is over, the least one doubled for each failure since the last success |
| SquarePollPace.HitHoldsBack | apps/worker/src/adapters/linejs/square-poll.ts:347-351 | after one that brought something nothing is asked in the quiet window, and earlier failures are forgotten |
| SquarePollPace.RoundHoldsBack | apps/worker/src/adapters/linejs/square-poll.ts:221-233 | after a lost round nothing is asked before the backoff is over, after a won one before the interval and, if it brought something, the quiet window are |
| SquarePollPace.OnlyTheWinnerMoves | apps/worker/src/adapters/linejs/square-poll.ts:286-304 | in rounds the winner's page alone moves the cursor, and the round brought something exactly if that page did after the backlog |
| SquarePollPace.RoundsWaitForAWinner | apps/worker/src/adapters/linejs/square-poll.ts:89-96 | a round goes on until somebody has won or nobody is waited for |
| SquarePollPace.CallsAreBounded | apps/worker/src/adapters/linejs/square-poll.ts:237-405 | over every run the calls made less the calls settled are those the poll knows of, and within its bounds |
| SquarePollPace.StopIsFinal | apps/worker/src/adapters/linejs/square-poll.ts:206-210 | after a stop nothing is asked, nothing goes out and the cursor stays, whatever comes back |
| Matcher.BestIsUnique | apps/worker/src/core/rules/compile.ts:111-119 | at most one answer is best: none if no rule passes, else the passing rule that beats every other |
| Matcher.NaiveIsBest | apps/worker/src/core/rules/compile.ts:111-119 | a fold over all the rules finds the best |
| Matcher.CompilesIffWellFormed | apps/worker/src/core/rules/compile.ts:121-137 | no rule is refused if and only if each is sane and their ids differ |
| Matcher.CompileAll | apps/worker/src/core/rules/compile.ts:23-75 | compiles exactly the well-formed rule lists, and otherwise reports the first bad rule, a repeated id before anything else |
| Matcher.IndexExact | apps/worker/src/core/rules/compile.ts:84-97 | each text leads to the best of the exact rules it satisfies, or to nothing |
| Matcher.OnlyNonExact | apps/worker/src/core/rules/compile.ts:30-30 | exactly the rules that are not exact |
| Matcher.SelectBest | apps/worker/src/core/rules/compile.ts:111-119 | a candidate that no candidate beats |
| Matcher.CandidatesAreEnough | apps/worker/src/core/rules/compile.ts:99-119 | the best of the indexed exact rule and the other passing rules is the naive answer over all rules |
| Matcher.RuleSet.constructor | apps/worker/src/core/rules/compile.ts:29-34 | index and rest agree with the rules, and the cache is empty |
| Matcher.RuleSet.Match | apps/worker/src/core/rules/compile.ts:38-45 | after any history of matches the answer is the naive one on the normalised text, and at most 500 entries are cached |
| Matcher.RuleSet.Cached | apps/worker/src/core/rules/compile.ts:40-41 | finds the cached decision for the text, if there is one |
| Matcher.RuleSet.CollectCandidates | apps/worker/src/core/rules/compile.ts:99-109 | the indexed exact rule and every other rule that passes |
| Matcher.RuleSet.Remember | apps/worker/src/core/rules/compile.ts:53-63 | the decision goes to the end, at the cost of the oldest when 500 are held |
| Matcher.CompileRules | apps/worker/src/core/rules/compile.ts:18-46 | a rule set for exactly the well-formed rule lists |
| Matcher.AnswerIsTheBestSpec | apps/worker/src/core/rules/compile.ts:65-119 | the answer is the earliest of the highest-priority author rules that hold of the text, and none if none holds |
| Matcher.NormalizesInOrder | apps/worker/src/core/rules/normalize.ts:10-16 | NFC, then lower case unless case matters, then collapsed and trimmed if asked for |
| Matcher.SpellingsAreOne | apps/worker/src/core/rules/normalize.ts:5-16 | spellings that compose alike, or have the same lower case unless case matters, are one |
| Matcher.RefusedIff | apps/worker/src/core/rules/compile.ts:126-137 | which of the five reasons a rule is refused for, in their order |
| Canonical.UnescapeEscape | apps/worker/src/release/manifest.ts:46-51 | a quoted string, lone surrogates and escapes included, can be read back whatever follows it (section 7 of RFC 8259) |
| Canonical.QuoteUnique | apps/worker/src/release/manifest.ts:46-51 | quoted strings tell strings apart, and themselves from what follows |
| Canonical.PrintUnique | apps/worker/src/release/manifest.ts:45-52 | printed values are unambiguous even when something is printed behind them |
| Canonical.SortedKeepsMeaning | apps/worker/src/release/manifest.ts:48-50 | sorting the entries loses and changes none |
| Canonical.SortedAscends | apps/worker/src/release/manifest.ts:50-50 | the entries come out in strictly ascending order of their keys |
| Canonical.NormalMeansTheSame | apps/worker/src/release/manifest.ts:45-52 | the sorted form of a value means what the value means |
| Canonical.MeaningIsUnique | apps/worker/src/release/manifest.ts:48-51 | what a value means determines its sorted form, so the order of insertion does not show |
| Canonical.CanonicalizeIsInjective | apps/worker/src/release/manifest.ts:42-52 | two values are printed alike if and only if they are equal up to key order, undefined entries being none and other undefined or non-finite values null |
| Canonical.ConflatedWithNull | apps/worker/src/release/manifest.ts:46-46 | undefined, null and a non-finite number are printed alike |
| Canonical.LessIsLexicographic | apps/worker/src/release/manifest.ts:50 | keys are ordered by their first different code unit, a beginning before the whole |
| Canonical.UnitsAreWritten | apps/worker/src/release/manifest.ts:46-51 | which code units are written as themselves, which by a short name, and which by four lower-case hexadecimal digits |
| Canonical.LiteralsAreJson | apps/worker/src/release/manifest.ts:45-51 | null, booleans, the empty list and the empty object, to the letter |
| Canonical.UndefinedIsLeftOut | apps/worker/src/release/manifest.ts:46-51 | an undefined item is null and an undefined entry is none |
| Canonical.ListsAreJson | apps/worker/src/release/manifest.ts:47 | a list is its items in brackets with commas and no space |
| Canonical.ObjectsAreJson | apps/worker/src/release/manifest.ts:48-51 | an object is its defined entries in braces, in order of their keys, with colons and commas and no space |
| Stride.GcdOneIffCoprime | apps/worker/src/transport/h2-transport.ts:43-43 | the recursion computes 1 exactly for numbers without a common divisor |
| Stride.NeighboursAreCoprime | apps/worker/src/transport/h2-transport.ts:44-47 | count - 1 always qualifies, so the search never falls through |
| Stride.VisitsAllIffCoprime | apps/worker/src/transport/h2-transport.ts:39-46 | a stride visits every address once before repeating if and only if its gcd with the count is 1 |
| Stride.LaneAddressStride | apps/worker/src/transport/h2-transport.ts:41-48 | for every count of at least one, a stride that visits every address before repeating; from three on the least such stride from 2 on, so that the last fallback is never reached |
| Ring.LatencyRing.constructor | apps/worker/src/metrics/ring.ts:35-40 | an empty ring |
| Ring.LatencyRing.Add | apps/worker/src/metrics/ring.ts:47-54 | the sample enters the window, at the cost of the oldest in a full ring; a non-finite number changes nothing |
| Ring.LatencyRing.Snapshot | apps/worker/src/metrics/ring.ts:56-70 | the numbers are those of the window, although the raw array is sorted from an arbitrary rotation |
| Ring.RotationSortsAlike | apps/worker/src/metrics/ring.ts:58-58 | the filled part of the raw array sorts to what the window sorts to |
| Ring.WindowIsASuffix | apps/worker/src/metrics/ring.ts:47-54 | over every run the window is exactly the last capacity finite samples, and count and total are the lifetime's |
| Ring.PercentileIsNearestRank | apps/worker/src/metrics/ring.ts:77-80 | a percentile is a sample with at least p% of the window no greater and fewer than p% less |
| Ring.SnapshotIsOrdered | apps/worker/src/metrics/ring.ts:59-69 | min, p50, p95, p99 and max ascend, and min and max bound every sample of the window |
| Ring.MeanIsInsideUntilOverwritten | apps/worker/src/metrics/ring.ts:67-67 | the mean lies between min and max as long as nothing was overwritten |
| Ring.MeanLeavesTheWindow | apps/worker/src/metrics/ring.ts:67-67 | for a ring of any capacity and every greater number of finite samples there are samples that leave the mean below the window's minimum |
| Ring.MeanIsInsideIff | apps/worker/src/metrics/ring.ts:47-67 | n finite samples, whatever they are, leave the mean between min and max if and only if the ring holds them all |
| Ring.SnapshotDescribesTheRun | apps/worker/src/metrics/ring.ts:56-81 | over every run p50, p95 and p99 are, by counting, those percentiles of the last capacity finite samples; min, max, last, count and the lifetime's mean |
| WriteBehind.WriteBehindQueue.constructor | apps/worker/src/persistence/write-behind.ts:54-69 | an empty open queue |
| WriteBehind.WriteBehindQueue.Enqueue | apps/worker/src/persistence/write-behind.ts:76-88 | the item joins, the oldest goes if the cap is passed, and a full batch starts a flush while less arms the timer; after close nothing happens |
| WriteBehind.WriteBehindQueue.StartFlush | apps/worker/src/persistence/write-behind.ts:92-97 | takes a batch from the front unless one is on its way or nothing is queued |
| WriteBehind.WriteBehindQueue.EndFlush | apps/worker/src/persistence/write-behind.ts:98-110 | counts the batch as written or failed, never queues it again, and arms the timer if items wait |
| WriteBehind.WriteBehindQueue.Fire | apps/worker/src/persistence/write-behind.ts:126-129 | the timer fires once and flushes |
| WriteBehind.WriteBehindQueue.Arm | apps/worker/src/persistence/write-behind.ts:124-130 | at most one timer, and none after close |
| WriteBehind.WriteBehindQueue.Close | apps/worker/src/persistence/write-behind.ts:114-118 | accepts nothing more, disarms and starts emptying; a second call runs a second loop beside the first |
| WriteBehind.WriteBehindQueue.TurnClose | apps/worker/src/persistence/write-behind.ts:117-119 | one turn of the closing loop, up to its await |
| WriteBehind.WriteBehindQueue.ResumeClose | apps/worker/src/persistence/write-behind.ts:119-121 | goes on after the await, or gives up if the queue did not shrink |
| WriteBehind.OrderIsKept | apps/worker/src/persistence/write-behind.ts:76-97 | over every run what was accepted is what left the front, dropped or taken, followed by the queue, in order |
| WriteBehind.NothingIsMissing | apps/worker/src/persistence/write-behind.ts:76-111 | accepted = written + lost in failed batches + dropped + on its way + queued, and at most one flush has not ended |
| WriteBehind.RunsAreAlive | apps/worker/src/persistence/write-behind.ts:76-130 | the queue never exceeds maxQueued, batches are neither empty nor too big, and waiting items of an open queue have a flush or a timer |
| WriteBehind.CloseEmptiesTheQueue | apps/worker/src/persistence/write-behind.ts:114-122 | after a close that finds no flush on its way, or nothing to write, and without outside flushes, the queue is empty when every close is done |
| WriteBehind.CloseStrandsTheQueue | apps/worker/src/persistence/write-behind.ts:93-121 | closes that each find a flush on its way and items behind it give up, and those items stay for good |
| WriteBehind.CloseEmptiesIff | apps/worker/src/persistence/write-behind.ts:113-122 | when every close is done, the queue is empty if and only if one of them found no flush on its way or nothing to write |
| WriteBehind.CloseStrandsOne | apps/worker/src/persistence/write-behind.ts:93-121 | batches of one, two items and a close leave the second item in the queue |
| WriteBehind.EnqueueRule | apps/worker/src/persistence/write-behind.ts:76-88 | an item added to an open queue: a full one loses its oldest, from a full batch on exactly one batch goes at once unless one is on its way, and with less the timer is set |
| WriteBehind.FlushRule | apps/worker/src/persistence/write-behind.ts:92-97 | a flush takes the first batchSize items, or all if there are fewer, unless one is on its way; the timer that fired is off |
| WriteBehind.EndRule | apps/worker/src/persistence/write-behind.ts:98-111 | a written batch is counted item by item, a failed one as a failure and given up; waiting items of an open queue set the timer |
| WriteBehind.ClosedRule | apps/worker/src/persistence/write-behind.ts:76-116 | a closed queue takes nothing more and has no timer |
| BufferedStorage.BufferedFileStorage.constructor | apps/worker/src/adapters/linejs/buffered-storage.ts:47-66 | the cache is what the file holds |
| BufferedStorage.BufferedFileStorage.Set | apps/worker/src/adapters/linejs/buffered-storage.ts:68-72 | the value is in the cache at once, and a flush is scheduled |
| BufferedStorage.BufferedFileStorage.Get | apps/worker/src/adapters/linejs/buffered-storage.ts:74-76 | the cached value |
| BufferedStorage.BufferedFileStorage.Delete | apps/worker/src/adapters/linejs/buffered-storage.ts:78-82 | the key leaves the cache at once, and a flush is scheduled |
| BufferedStorage.BufferedFileStorage.Clear | apps/worker/src/adapters/linejs/buffered-storage.ts:84-88 | the cache is empty at once, and a flush is scheduled |
| BufferedStorage.BufferedFileStorage.ScheduleFlush | apps/worker/src/adapters/linejs/buffered-storage.ts:113-120 | dirty, with one timer pending |
| BufferedStorage.BufferedFileStorage.FlushNow | apps/worker/src/adapters/linejs/buffered-storage.ts:104-111 | a pending change is chained now, and the answer resolves with the last chained write |
| BufferedStorage.BufferedFileStorage.FireTimer | apps/worker/src/adapters/linejs/buffered-storage.ts:116-119 | the timer is gone and a pending change is chained |
| BufferedStorage.BufferedFileStorage.WriteNow | apps/worker/src/adapters/linejs/buffered-storage.ts:126-136 | a snapshot of the whole cache joins the chain, if there is a change |
| BufferedStorage.BufferedFileStorage.LandWrite | apps/worker/src/adapters/linejs/buffered-storage.ts:130-136 | the oldest snapshot is on disk |
| BufferedStorage.BufferedFileStorage.Continue | apps/worker/src/adapters/linejs/buffered-storage.ts:137-142 | the write is over, and flushes again only for a change without a timer |
| BufferedStorage.BufferedFileStorage.RejectWrite | apps/worker/src/adapters/linejs/buffered-storage.ts:130-136 | the chain is broken |
| BufferedStorage.Open | apps/worker/src/adapters/linejs/buffered-storage.ts:47-66 | a missing or blank file is an empty storage, a corrupt one an error |
| BufferedStorage.RunsAgree | apps/worker/src/adapters/linejs/buffered-storage.ts:113-143 | over every run a change is waiting exactly when a timer is pending, and otherwise the newest snapshot, or the disk, equals the cache |
| BufferedStorage.ReflushNeverRuns | apps/worker/src/adapters/linejs/buffered-storage.ts:137-142 | in no reachable state does the continuation of a write flush again |
| BufferedStorage.FlushReachesDisk | apps/worker/src/adapters/linejs/buffered-storage.ts:100-111 | once flushNow has resolved with no change since, the disk holds the cache |
| BufferedStorage.RejectionFreezesDisk | apps/worker/src/adapters/linejs/buffered-storage.ts:130-142 | after a rejected write the disk never changes again and no later flush with something to wait for resolves |
| BufferedStorage.RejectionLosesChanges | apps/worker/src/adapters/linejs/buffered-storage.ts:126-142 | a value set, flushed and rejected, and a later one set and flushed: the cache has it and the disk never will |
| BufferedStorage.DiskWasTheCache | apps/worker/src/adapters/linejs/buffered-storage.ts:122-136 | while no write is rejected the disk holds what was once the whole cache, never a mixture |
| BufferedStorage.OpensUnlessCorrupt | apps/worker/src/adapters/linejs/buffered-storage.ts:52-66 | only a corrupt file fails to open, and a missing or blank one is empty |
| BufferedStorage.CacheIsLatest | apps/worker/src/adapters/linejs/buffered-storage.ts:68-88 | over every run a key has the value last given to it, unless it was deleted or everything cleared since |
| BufferedStorage.OneWriteAFlush | apps/worker/src/adapters/linejs/buffered-storage.ts:104-130 | over every run there is one write for each flush that follows a change, however many changes it collects, and none for any other |
| UsersStore.UsersStore.constructor | apps/worker/src/admin/users-store.ts:236-252 | one admin account |
| UsersStore.UsersStore.Create | apps/worker/src/admin/users-store.ts:90-112 | appends a member with the trimmed name, or refuses an empty name, a short password or a taken name, in this order |
| UsersStore.UsersStore.SetPassword | apps/worker/src/admin/users-store.ts:114-132 | changes one account's password, or refuses a short one or an unknown account |
| UsersStore.UsersStore.SetRole | apps/worker/src/admin/users-store.ts:134-148 | changes one account's role, but never demotes the last admin |
| UsersStore.UsersStore.SetBotId | apps/worker/src/admin/users-store.ts:153-170 | gives one account the bot, but never one that belongs to someone else |
| UsersStore.UsersStore.Remove | apps/worker/src/admin/users-store.ts:172-184 | removes one account, but never the last admin |
| UsersStore.SeedIsSound | apps/worker/src/admin/users-store.ts:236-252 | the seed has an admin, and nobody is there twice |
| UsersStore.CreateKeepsSound | apps/worker/src/admin/users-store.ts:90-112 | creating keeps an admin, distinct names whatever their case, distinct ids and one owner a bot |
| UsersStore.ReplaceKeepsSound | apps/worker/src/admin/users-store.ts:114-170 | so does changing an account's password, role or bot |
| UsersStore.RemoveKeepsSound | apps/worker/src/admin/users-store.ts:172-194 | and so does removing one, which is then gone |
| BotRegistry.BotRegistry.constructor | apps/worker/src/bots/bot-registry.ts:77-85 | the primary is live and filed under its id |
| BotRegistry.BotRegistry.Ask | apps/worker/src/bots/bot-registry.ts:145-149 | the stored record decides, or the caller's if none is stored |
| BotRegistry.BotRegistry.List | apps/worker/src/bots/bot-registry.ts:162-167 | the primary if nobody owns it and the user may claim it, else the bot of the user's own id |
| BotRegistry.BotRegistry.Assign | apps/worker/src/bots/bot-registry.ts:168-175 | the bot is recorded as the user's, or the resolution fails |
| BotRegistry.BotRegistry.Reach | apps/worker/src/bots/bot-registry.ts:150-151 | a live host of the bot is the answer |
| BotRegistry.BotRegistry.Build | apps/worker/src/bots/bot-registry.ts:153-159 | a new host for the bot, filed under it, is the answer |
| BotRegistry.BotRegistry.Release | apps/worker/src/bots/bot-registry.ts:124-131 | the user's bot is no longer live, unless it is the primary |
| BotRegistry.BotRegistry.CloseAll | apps/worker/src/bots/bot-registry.ts:133-137 | nothing is live |
| BotRegistry.RunsAreWell | apps/worker/src/bots/bot-registry.ts:93-176 | whatever interleaves with a resolution: an admin exists, names are distinct whatever their case, no bot (the primary included) has two owners, and each host is filed under its own bot |
| BotRegistry.AnswerIsOwnHost | apps/worker/src/bots/bot-registry.ts:145-160 | a returned host is live, and its bot is the one the user owns, if the user is still stored |
| BotRegistry.BotIsKept | apps/worker/src/bots/bot-registry.ts:145-150 | a stored user's bot never changes |
| BotRegistry.SameUserSameHost | apps/worker/src/bots/bot-registry.ts:91-97 | two answers to the same user are the same host, as long as the account stays and the bot is not released |
| BotRegistry.DifferentUsersDifferentHosts | apps/worker/src/bots/bot-registry.ts:6-19 | two stored users are never answered with the same host, whenever they ask |
| BotRegistry.AssignFailsIff | apps/worker/src/bots/bot-registry.ts:162-168 | an assignment fails if and only if the account is gone or another account has the bot |
| AccountRules.CreatesExactly | apps/worker/src/admin/users-store.ts:90-112 | a new account, field by field: trimmed name, hashed password, member unless said otherwise, no bot; and exactly when it is refused, and why |
| AccountRules.SetsPasswordExactly | apps/worker/src/admin/users-store.ts:114-132 | one account's hash and time change and nothing else; exactly when it is refused, and why |
| AccountRules.SetsRoleExactly | apps/worker/src/admin/users-store.ts:134-148 | one account's role and time change and nothing else; refused if it would leave no admin, or for an unknown id |
| AccountRules.SetsBotExactly | apps/worker/src/admin/users-store.ts:153-170 | one account's bot and time change and nothing else; refused if another account has the bot, or for an unknown id |
| AccountRules.RemovesExactly | apps/worker/src/admin/users-store.ts:172-184 | the account goes and the others stay in their order; refused for the only admin, or for an unknown id |
| AccountRules.OwnBotIs | apps/worker/src/bots/bot-registry.ts:67 | an account's own bot is u- and at most twelve characters of its id, without hyphens |
| AccountRules.OwnBotOfUuid | apps/worker/src/bots/bot-registry.ts:67 | of a UUID these are its first two groups |
| AccountRules.AssignsExactly | apps/worker/src/bots/bot-registry.ts:162-182 | the primary is assigned if and only if nobody owns it and the account has the configured owner's name whatever its case, or none is configured and it is an admin's; else the account's own bot is |
| AccountRules.ReleasesExactly | apps/worker/src/bots/bot-registry.ts:124-131 | a release ends that user's host and no other, and never the primary's |
| AccountRules.BotsAreOwnedRightly | apps/worker/src/bots/bot-registry.ts:162-182 | over every run, with an owner configured, only an account of that name owns the primary, and every other bot is its owner's own |
| Alerts.AlertEvaluator.constructor | apps/worker/src/monitoring/alerts.ts:95-98 | nothing pending |
| Alerts.AlertEvaluator.SetBaseline | apps/worker/src/monitoring/alerts.ts:102-105 | a new baseline, and the regression's streak starts anew |
| Alerts.AlertEvaluator.Evaluate | apps/worker/src/monitoring/alerts.ts:111-250 | the six rules look in order, and their alerts (kind, severity, observed value, threshold, duration) are returned in order |
| Alerts.AlertEvaluator.Push | apps/worker/src/monitoring/alerts.ts:116-134 | a rule that is fine forgets its streak, a bad one keeps the start of it and alerts when it is long enough |
| Alerts.RulesAreApart | apps/worker/src/monitoring/alerts.ts:116-134 | a rule touches only its own streak, and alerts only of its own kind |
| Alerts.PendingIsTheStreak | apps/worker/src/monitoring/alerts.ts:124-131 | over every run the stored start is that of the unbroken streak of bad looks |
| Alerts.AlertFiresIff | apps/worker/src/monitoring/alerts.ts:116-134 | a rule alerts if and only if its condition holds now and held at every look of a streak that goes back at least the required time |
| Alerts.OneLookIsNoAlert | apps/worker/src/monitoring/alerts.ts:10-14 | a single bad look raises nothing |
| AlertRules.WeakestIsThat | apps/worker/src/monitoring/alerts.ts:173-175 | the count compared is, by ranks, the least of the racedSources largest |
| AlertRules.RulesReadThat | apps/worker/src/monitoring/alerts.ts:111-250 | each kind's condition and severity on the snapshot's own numbers, and when there is nothing to look at |
| AlertRules.AlertsExactlyWhen | apps/worker/src/monitoring/alerts.ts:111-250 | an alert fires if and only if its condition holds and has held, at every look that could see, since the required time ago |
| AlertRules.AlertsSayHowLong | apps/worker/src/monitoring/alerts.ts:116-157 | an alert says whether it is critical and exactly how long its condition has held, with the threshold and the number of its rule |
| AlertRules.AlertsReport | apps/worker/src/monitoring/alerts.ts:136-259 | the threshold and the number each kind reports, to three decimals |
| Recovery.RecoveryPlanner.constructor | apps/worker/src/monitoring/recovery.ts:90-96 | at the bottom |
| Recovery.RecoveryPlanner.Next | apps/worker/src/monitoring/recovery.ts:111-146 | waits out the cooldown, jumps to a worse alert's entry, else climbs one rung under the ceiling |
| Recovery.RecoveryPlanner.Reset | apps/worker/src/monitoring/recovery.ts:149-155 | back to the bottom |
| Recovery.RecoveryPlanner.ObserveClean | apps/worker/src/monitoring/recovery.ts:157-163 | enough clean checks end the incident |
| Recovery.RecoveryPlanner.EnterRung | apps/worker/src/monitoring/recovery.ts:165-172 | the rung is entered now, as one more step |
| Recovery.ActionsAreSpaced | apps/worker/src/monitoring/recovery.ts:111-172 | over every run the step counts the incident's actions, the rung is at least that high, and the last action came a cooldown for each but the first after the first |
| Recovery.KthActionWaits | apps/worker/src/monitoring/recovery.ts:129-145 | the k-th action of an incident goes up and comes at least k - 1 cooldowns after the first, and there are at most five |
| Recovery.RestartIsAClimb | apps/worker/src/monitoring/recovery.ts:35-46 | the worker is restarted only by a climb from the rung below |
| Recovery.RegressionsClimbOneByOne | apps/worker/src/monitoring/recovery.ts:111-146 | with latency regressions alone the rung is the number of actions |
| Recovery.RegressionsRestartLate | apps/worker/src/monitoring/recovery.ts:14-18 | with latency regressions alone the worker is restarted only four cooldowns after the incident's first action |
| Recovery.ClimbsStayUnderTheCeiling | apps/worker/src/monitoring/recovery.ts:135-145 | a climb is by one rung and stays under the ceiling; any other action is the entry of an alert that is there |
| Recovery.CeilingHoldsForLowEntries | apps/worker/src/monitoring/recovery.ts:62-66 | the ceiling holds over every run whose alerts enter at or under it |
| Recovery.StaysUnderTheCeilingIff | apps/worker/src/monitoring/recovery.ts:126-145 | from any planner under the ceiling an evaluation passes it if and only if an alert enters above it at the bottom of the ladder or, within an incident, after the cooldown |
| Recovery.RunStaysUnderTheCeilingIff | apps/worker/src/monitoring/recovery.ts:111-146 | a whole run stays under the ceiling if and only if each of its evaluations meets that condition |
| Recovery.CeilingIsPassedByEntry | apps/worker/src/monitoring/recovery.ts:126-137 | with the lowest ceiling, readiness loss at the bottom of the ladder still reconnects the session |
| Recovery.CeilingIsPassedByJump | apps/worker/src/monitoring/recovery.ts:132-137 | and so does readiness loss within an incident that began under the ceiling |
| Recovery.CleanChecksAreTheStreak | apps/worker/src/monitoring/recovery.ts:157-163 | over every run the counter is the number of clean evaluations since the last other one |
| Recovery.RecoversIff | apps/worker/src/monitoring/recovery.ts:157-163 | an incident ends by itself if and only if the last clearAfterCleanChecks evaluations, at least one, were clean |
| Recovery.WorstIsHighest | apps/worker/src/monitoring/recovery.ts:35-46 | the worst alert is the one of greatest height: regression 1, no lane and failure rate 2, missed events 3, readiness loss 4, the budget none |
| Recovery.PlannerLeadsThere | apps/worker/src/monitoring/recovery.ts:111-170 | every evaluation leads to one rung, by heights, cooldown, ceiling and clean checks, and the action names it, its cause and its step |

## Left out

- The network, LINE calls, `fetch`, the HTTP/2 sidecar, login and session files: a
  transport either answers after some time or fails, transiently or not.
- Floating-point rounding: round trips, tokens, percentiles and times are exact. Ranks such
  as `ceil(0.95 * n)` are computed exactly, and JavaScript numbers in canonical JSON are
  their shortest texts.
- Unicode normalisation, case folding and trimming of rule texts and user names are
  parameters of the models; so are password hashing and the allowlist.
- The sending of the reply itself: a run of `Dispatch` ends an event where the source calls
  `sender.send`, and an outcome is settled by a separate operation.
- Logging, metrics counters, dashboard statistics, the `poll hit` diagnostics and the
  rounding of the round trip stored with an unpin.
- `RacingInboundAdapter`: its offer is one more claim store.
- `ReadinessFsm` and `ExperimentRegistry`: small machines whose documented repair path and
  concurrency ceiling the code does not enforce.
- Confidence intervals, JSON parsing, atomic renames, config parsing, HTTP routing,
  cookies, admin pages: outside the model.
- LaneRuns.PinStays: assumes that `sampleWindow` is at least 1, which the constructor does
  not check, and that the fast threshold is at most the slow threshold and the tail limit,
  as by default.
- LaneRuns.RoutingIsTotal: assumes that `sampleWindow` is at least 1.
- LaneRules.RequestsKeepToTheRules: assumes that `sampleWindow` is at least 1 and that the
  switch margin is not negative.
- SquarePollPace.FailureHoldsBack: and the other statements about pace assume that the interval
  and the bounds of the backoff are not negative.
- AccountRules.BotsAreOwnedRightly: is stated with an owner of the primary configured; without
  one any admin may be assigned it while it is free (`AccountRules.AssignsExactly`).
- JobWindow.JobWindowIsExact: is stated for a job that is neither settled nor answered again
  meanwhile, as both renew its record; what becomes of a repeat of a settled job is in
  `RepeatResolvesIffSettled`.
- Lane.ProfilesAreWindows: assumes that `sampleWindow` is at least 1; `contended` looks at
  the start and the end of a request only, and the model claims no more.
- Dispatch.SendRate: requires that other pairs crowd the bucket out only when it would be full
  again, because a full map evicts live buckets and starts them afresh
  (`RateLimit.CrowdingLetsABurstThrough`).
- Claims.ClaimWindowIsExact: and `ClaimLastsExactly` are stated for stretches without releases; with releases
  `ClaimWindow` gives the one direction that is promised.
- SquarePoll.SquarePoll.EndRound: holds the next round back until its pause is over; that
  the sleep also ends early when the adapter stops does not show, as nothing starts then.
- BufferedStorage.FlushReachesDisk: takes a snapshot to be the value it was made from, so
  the text form on disk is not modelled; `getAll` and `migrate` are left out.
- Canonical.CanonicalizeIsInjective: covers what JSON covers, with one entry a key; array
  holes, big integers and functions are left out.
- UsersStore.UsersStore.SetRole: and the other updates are single steps, as the store
  serialises them; failing reads and writes of the file are left out.
- BotRegistry.DifferentUsersDifferentHosts: speaks of stored users; a record that is no
  longer stored is answered from the record itself. Starting hosts, their readiness and
  the text of the config files are left out.
- Alerts.AlertEvaluator.Evaluate: the text of an alert's message, which only words the other
  fields, is left out.
- Matcher.CompileAll: takes ids, replies and patterns to be strings, as their types say.
