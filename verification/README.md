# tonic-iroh-transport: a verified model

This project models the parts of tonic-iroh-transport whose correctness lies in how several steps fit
together, and proves what they promise.

**The connection pool** (`PoolTable`, `PoolProtocol`, `PoolInvariant`, `PoolSteps`, `PoolTheorems`,
`PoolAnswers`, `PoolRuns`, `PoolEviction`, `PoolShutdown`, `PoolLosses`, `PoolClient`, `PoolRetry`,
`PoolRuntime`). `PoolTable.PoolActor` is the pool actor's data, updated in place, each method proved against a
function on table values. `PoolProtocol` is the whole pool as a labelled transition system: the pool actor, one
connection actor per generation, callers with their leases, bounded FIFO mailboxes, a lease counter with a
one-permit notification, and a shutdown flag with a notification of those waiting, split at every await, so that
sending a shutdown to the pool and answering the caller are separate steps. `PoolInvariant.Inv` is kept by every
step (`PoolSteps.StepKeepsInv`), and `PoolTheorems` draws from it what holds in every run: retries see newer
generations, no slot is dead, no wakeup is lost, no connection is closed under a lease, every request is in one
place and answered at most once. `PoolAnswers` says what the answer is, by the events of the run: which connect
succeeded or failed, and how, and which remote side closed. `PoolEviction`, `PoolShutdown` and `PoolLosses` show
runs in which three promises fail, and say exactly when. `PoolClient` has the callers' retry loops, `PoolRetry`
plays them in runs, and `PoolRuntime` has the double-checked start of the pool actor.

**Signed advertisements and their publishers** (`Bytes`, `Postcard`, `Record`, `AdOrder`, `Merge`,
`MergeLaws`, `Trim`, `BucketStore`, `Publisher`, `PublisherRuns`, `Shards`, `Window`). The postcard bytes of
ads, envelopes and buckets are written out and decoded again. Merging is a join with a canonical result;
`BucketStore.ServiceBucket` upserts and trims in place. Publishers of one shard interleave on a register
that accepts a put by the rule of BEP 44. Signatures are ideal where a lemma says so (`Record.SignsOnly`),
SHA-256 is any function.

**Discovery and HTTP/2 bodies** (`Engine`, `Locator`, `Message`, `Upload`, `Download`). The engine's
deduplication over any interleaving of feeds, the locator's bounded attempts, and both directions of a
body against the message format of section 8.1 of RFC 9113.

## Where the code and its documentation differ

- `max_connections` is documented as the maximum of concurrent connections (src/pool.rs:61). It bounds the
  slot table: a connection lives on without a slot until its actor stops or its remote side closes it.
  `PoolEviction.LimitDoesNotBoundLiveConnections` is a run with one slot and two live connections, one of them
  evicted; `PoolEviction.ClosingConnectionStillCounts` one where the first has given up its slot and has yet to be
  closed. By `PoolEviction.LimitHoldsExactlyWhen` a run keeps the documented limit, counting connections that
  are being opened or that neither side has closed, if and only if it never handles a request that spawns an
  actor while there are as many as the limit; `PoolEviction.SpawnsNext` is that guard, read off the table and the
  slot's actor before the message is handled.
- The pool loop waits for its connection actors after a shutdown (src/pool.rs:640), but an actor whose connect
  failed waits on a mailbox of which it holds a sender (src/pool.rs:329), so it ends only if it acts on the
  shutdown. On an open pool it never ends (`PoolShutdown.FailedConnectNeverEndsOnOpenPool`). It never ends
  either if it finds the flag already set when it enters its loop (`PoolShutdown.ShutdownGetsStuck` is such a
  run), or if it is not waiting at the one moment when those waiting are notified
  (`PoolShutdown.ShutdownIsMissed`). `PoolShutdown.FailedEndsExactlyWhen` says that these are the only causes,
  `PoolShutdown.FailedConnectHoldsUpShutdown` what follows for the rest of the run; a connected actor that has
  seen the flag ends by itself (`PoolShutdown.DrainsByItself`).
- A caller can get `PoolError::Shutdown` (src/pool.rs:713) from a pool that is not shut down: its request is lost with
  the actor that was about to stop. `PoolLosses.RequestIsLostOnOpenPool` is such a run. By
  `PoolLosses.AnsweredExactlyWhen` a request in a mailbox can still be answered if and only if the actor's phase
  still leads to its select and, once the remote side has closed, the request is next;
  `PoolLosses.DoomedIsNeverAnswered` says that any other one is never answered.
- The DHT feed's burst reads the clock twice (src/swarm/peers.rs:146-147), so it misses a minute if the minute
  changes in between: `Window.BurstCoversOneMinute`; `Window.BurstCanMissAMinute` is an example.

## Model

| member | source | states |
|---|---|---|
| `PoolTable.PoolActor.constructor` | src/pool.rs:497-514 | a new pool actor has no slot, nothing idle and hands out generation 1 first |
| `PoolTable.PoolActor.AddIdle` | src/pool.rs:516-519 | the peer's entry moves to the back of the idle list, once |
| `PoolTable.PoolActor.RemoveIdle` | src/pool.rs:521-523 | no entry of the peer is left, every other entry is, and of any two of those the earlier stays the earlier |
| `PoolTable.PoolActor.RemoveConnectionIfMatch` | src/pool.rs:531-536 | slot and idle entry go together, and only for the current generation |
| `PoolTable.PoolActor.NextGeneration` | src/pool.rs:538-540 | on a valid table the generation returned is larger than every slot's, and the counter moves past it |
| `PoolTheorems.GenerationsNeverRepeat` | src/pool.rs:538-589 | in every run a later spawned actor has a larger generation than any earlier one |
| `PoolTable.PoolActor.EvictIdleConnection` | src/pool.rs:542-551 | the in-place loop computes `Evict`: pop until an entry names a current slot, then free it |
| `PoolTable.PoolActor.SpawnOrRefuse` | src/pool.rs:574-602 | a request without a usable slot gets a fresh generation and the slot, or is refused, after at most one eviction |
| `PoolTable.PoolActor.Handle` | src/pool.rs:553-615 | one message in place is `HandleMsg`, for every outcome of `try_send`, and keeps the table invariant |
| `PoolTable.PoolActor.FinishSpawn` | src/pool.rs:600-602 | a first request that cannot be delivered takes its slot with it, and no newer slot of the peer |
| `PoolTable.PoolActor.Clear` | src/pool.rs:637-640 | the end of the loop leaves no slot and nothing idle, and generations are not reused |
| `PoolTable.EvictTakesOldest` | src/pool.rs:542-551 | under the table invariant eviction succeeds exactly when something is idle, always on its first pop |
| `PoolTable.HandleKeepsTable` | src/pool.rs:553-615 | every message keeps: at most `limit` slots, distinct generations below the counter, idle ids distinct and naming current slots |
| `PoolTable.HandleFrame` | src/pool.rs:553-615 | one message creates at most one slot, with a fresh generation and a spawned actor; every other slot left is unchanged |
| `PoolTable.HandleKeepsIdle` | src/pool.rs:516-551 | an idle slot stays listed until it is asked for or loses its slot |
| `PoolTable.StaleMessageIsIgnored` | src/pool.rs:525-536 | a message about a generation without slot changes nothing |
| `PoolTable.RefusedMeansFullAndNothingIdle` | src/pool.rs:574-579 | `TooManyConnections` is answered if and only if the peer has no slot, the table is full and nothing is idle |
| `PoolTable.MarkedIdleIsLast` | src/pool.rs:516-519 | a connection marked idle goes behind all that are idle already |
| `PoolTable.IdleOrderStays` | src/pool.rs:516-551 | no message changes the order of two connections that stay idle, so the longest idle one is evicted first |
| `PoolTable.SpawnsExactlyWhen` | src/pool.rs:559-598 | an actor is spawned if and only if a peer with a closed mailbox is asked for, or one without slot while there is room or something idle |
| `PoolTable.SlotLostExactlyWhen` | src/pool.rs:555-613 | a slot is lost if and only if its shutdown is handled, its closed mailbox is asked for, or it is the oldest idle one when a new peer finds the table full |
| `PoolSteps.StepKeepsInv` | src/pool.rs:325-475 | every enabled step of actors, callers, network, clock and pool keeps the protocol invariant |
| `PoolSteps.RunKeepsInv` | src/pool.rs:617-641 | so it holds in every state of every run |
| `PoolTheorems.RequestLifecycle` | src/pool.rs:396-433 | a request only moves on: queue, hand-over, one mailbox, answer; what an actor makes of it is fixed by its connection: a lease while both sides have it open, the error of its failed connect, or held back and refused as closed; an answer never changes |
| `PoolAnswers.TakenRequestGets` | src/pool.rs:396-430 | in every run, a request taken from the mailbox of generation g gets `Lease(g)`, then outstanding, if and only if g's connect has succeeded and its remote side has not closed; the refusal e if and only if the connect failed with exactly e; and is held back otherwise |
| `PoolAnswers.OnlyItsActorAnswers` | src/pool.rs:386-475 | a request leaves a mailbox only when its own actor takes it from the front or stops |
| `PoolAnswers.HeldRequestGets` | src/pool.rs:400-408 | a request held back is refused as closed before reuse, after the pool was told |
| `PoolAnswers.HandledRequestGoes` | src/pool.rs:555-603 | the next queued request joins its peer's mailbox if the actor is there with fewer than 64 waiting and is refused as `Busy` if it has 64; else a new actor gets it if there is a slot to replace, room or something idle; else it is refused as `TooManyConnections` |
| `PoolAnswers.RequestGets` | src/pool.rs:555-579 | the same for every state of slot, mailbox and table: accepted is forwarded to the slot's generation, full is busy, else spawned or refused |
| `PoolTheorems.RefusedIsAnnounced` | src/pool.rs:349-357 | when a caller is refused by a generation, its `Shutdown` is in the FIFO queue, handled, or the pool has stopped |
| `PoolTheorems.AnnouncedFrom` | src/pool.rs:581-589 | for the rest of the run, once a generation's end is announced, its `Shutdown` is still queued, its slot is gone, or the pool has stopped |
| `PoolTheorems.RetryFreshness` | src/pool.rs:396-408 | after generation g refused a caller or was invalidated, every lease from a request for that peer sent later is of a newer generation, in every run |
| `PoolTheorems.SupersededFrom` | src/pool.rs:538-540 | a generation that has lost its slot never gets it back |
| `PoolTheorems.LateMessagesAreHarmless` | src/pool.rs:525-536 | for the rest of the run, no late message about such a generation changes table or idle list |
| `PoolTheorems.NoDeadSlots` | src/pool.rs:457-465 | every slot has a running actor of its peer, or its `Shutdown` is queued, or the shutdown flag is set |
| `PoolTheorems.IdleListComplete` | src/pool.rs:435-455 | when no actor, mailbox or notification can move, every slot is connecting, leased or on the idle list |
| `PoolTheorems.RefusedOnlyWhenNothingEvictable` | src/pool.rs:574-579 | so `TooManyConnections` from such a state means every slot was connecting or leased |
| `PoolTheorems.CounterCountsLeases` | src/pool.rs:839-868 | the counter is the number of outstanding leases, and an armed idle timer means there is none |
| `PoolTheorems.CloseOnlyWhenUnleased` | src/pool.rs:457-473 | a connection that the remote side has not closed is closed only with no lease outstanding |
| `PoolTheorems.NoLostWakeup` | src/pool.rs:411-455 | a connected actor at its select that has issued a lease and has none outstanding has a stored or coming notification or an armed timer |
| `PoolTheorems.RequestConservation` | src/pool.rs:553-603 | each request is in exactly one place: queue, hand-over, one mailbox, one actor's hands, answered, dropped |
| `PoolTheorems.AnsweredAtMostOnce` | src/pool.rs:396-433 | no two steps of a run answer the same request |
| `PoolTheorems.DroppedExactlyWhen` | src/pool.rs:457-475 | a step loses a request if and only if it stops the actor whose mailbox holds it, hands it to a stopped actor, or drops the stopped pool's queue |
| `PoolTheorems.StepsAreAlwaysPossible` | src/pool.rs:876-881 | the conditions under which a step is modelled exclude nothing: in every reachable state a lease can be dropped, a hand-over finds its actor, every slot names an actor, and each phase of an actor, the pool actor and the callers has the steps the code has there |
| `PoolTheorems.EvictedOnlyDrains` | src/pool.rs:542-551 | for the rest of the run, no request enters the mailbox of an actor that has lost its slot |
| `PoolEviction.LimitDoesNotBoundLiveConnections` | src/pool.rs:61 | a run of a pool with limit 1 that ends with two live connections |
| `PoolEviction.ClosingConnectionStillCounts` | src/pool.rs:457-473 | a run of a pool with limit 1 that has two connections up without an eviction: an expired one is closed only after its slot is reused |
| `PoolEviction.ExceedsExactlyWhen` | src/pool.rs:574-598 | counting connections that are being opened or that neither side has closed: from a state within the limit, a step leads beyond it if and only if it handles a request that spawns while the limit is reached |
| `PoolEviction.LimitHoldsExactlyWhen` | src/pool.rs:61-62 | a run never has more such connections than the limit if and only if no step of it is such a one |
| `PoolEviction.AccountedExactlyWhen` | src/pool.rs:574-615 | while every actor that has not announced its end holds its slot, a step keeps that if and only if it does not evict, shut down or clear the slot of such an actor |
| `PoolEviction.LimitHoldsUntilUnslotted` | src/pool.rs:574-615 | until the first such step there are no more actors that have not announced their end than the limit, each with its slot |
| `PoolShutdown.DrainsWithLastLease` | src/pool.rs:372-442 | a connection that has seen the flag and granted a lease is about to be woken once its last lease is gone, and a wakeup ends it if and only if no lease is outstanding |
| `PoolShutdown.DrainsByItself` | src/pool.rs:369-442 | a connected actor that has seen the flag ends within a bounded number of steps of its own and of its leases, without the remote side, unless a further request reaches it |
| `PoolShutdown.DrainingCanGoOn` | src/pool.rs:369-442 | in every state of a run where such an actor has not ended, a step of its own or of its leases is enabled, or the pool queue is full and the pool actor can make room |
| `PoolShutdown.CanLeaveExactlyWhen` | src/pool.rs:359-398 | an actor at its select that has seen the flag can still leave its loop, without the remote side, if and only if its connect succeeded |
| `PoolShutdown.FailedConnectNeverEndsOnOpenPool` | src/pool.rs:325-333 | in every run, an actor whose connect failed does not end while the pool is open |
| `PoolShutdown.ShutdownGetsStuck` | src/pool.rs:344-366 | a run in which the actor of a failed connect finds the flag set when it enters its loop |
| `PoolShutdown.ShutdownIsMissed` | src/pool.rs:363-373 | a run in which it loads the flag before the pool is closed and waits only after those waiting were notified |
| `PoolShutdown.FailedEndsExactlyWhen` | src/pool.rs:363-377 | at its select the run can go on to its end if and only if neither has happened: the flag not seen before, the notification not missed |
| `PoolShutdown.FailedConnectHoldsUpShutdown` | src/pool.rs:637-641 | in both cases it stays for the rest of the run, and the pool's wait for its actors never ends |
| `PoolLosses.RequestIsLostOnOpenPool` | src/pool.rs:457-475 | a run in which a request is lost although the pool is open |
| `PoolLosses.LostOnOpenPool` | src/pool.rs:386-466 | on an open pool a request is lost only with an actor that idled out or whose remote side closed |
| `PoolLosses.AnsweredExactlyWhen` | src/pool.rs:396-433 | the run can go on to a step that answers a request in a mailbox if and only if its actor's phase leads to its select and, once the remote side has closed, the request is next |
| `PoolLosses.DoomedIsNeverAnswered` | src/pool.rs:386-475 | any other request in a mailbox is never answered for the rest of the run |
| `PoolClient.GetOrConnect` | src/pool.rs:704-720 | at most two requests, the second exactly after `Closed`; the reply to the last one is passed on as it is, refusal with its own error or lease with its generation, and a lost one or a closed pool is `Shutdown`; the final fall-through is unreachable |
| `PoolClient.OpenStream` | src/pool.rs:728-765 | at most two rounds and four requests; the result is that of the last round, a refusal with its own error, a lease with its stream or its abort; exactly the leases on which no stream opened are invalidated, each granted by the last reply of its round; the fallback error is unreachable |
| `PoolRetry.GrantIsForPeer` | src/pool.rs:555-613 | in every run a lease is granted by an actor of the peer that was asked for |
| `PoolRetry.SecondLeaseIsNewer` | src/pool.rs:704-757 | end to end: played in any run, the second lease of `open_stream` is of a newer generation than the one it invalidated |
| `PoolRuntime.RunKeepsInv` | src/pool.rs:275-303 | the double-checked lock keeps one holder and publishes what it started |
| `PoolRuntime.OnePoolActor` | src/pool.rs:284-302 | however callers race, at most one pool actor is started, successful callers find it, and publishing never finds another |
| `PoolRuntime.CallerSucceedsExactlyWhen` | src/pool.rs:275-303 | a caller succeeds if and only if it finds the pool open at the check that decides, the first or the one under the lock; one that starts the actor always does |
| `Postcard.VarintRoundTrip` | src/swarm/record.rs:213-234 | a 64-bit LEB128 varint decodes to the number and the untouched rest |
| `Postcard.VarintIsLeb128` | src/swarm/record.rs:213-234 | the varint is the base-128 form of its number, every byte but the last marked by its top bit, without a leading zero |
| `Postcard.VarintMonotone` | src/swarm/record.rs:213-215 | a smaller number never has a longer varint |
| `Postcard.TagsRoundTrip` | src/swarm/record.rs:24-30 | a length-prefixed list of UTF-8 tags decodes to itself and the rest |
| `Bytes.LexLessIsBelow` | src/swarm/record.rs:236-246 | the order of node ids is decided by the first byte that differs, a proper prefix coming first |
| `Record.BucketRoundTrip` | src/swarm/dht/publisher.rs:144-145 | the encoded bucket decodes to itself, whatever bytes follow |
| `Record.LayoutExample` | src/swarm/record.rs:213-234 | the layout of ad, envelope and bucket, byte for byte, on an example |
| `Record.SigningMessageInjective` | src/swarm/record.rs:218-234 | two equal envelopes have the same service, minute, shard and ad |
| `Record.VerifiesExactlyAtHome` | src/swarm/record.rs:56-118 | with an ideal signature, a signed ad verifies if and only if namespace and time window are its own |
| `Record.AlteredAdIsRejected` | src/swarm/record.rs:102-118 | its signature on any other ad of the node verifies nowhere |
| `Record.ValidUntilExpiry` | src/swarm/record.rs:102-108 | an ad that verifies goes on verifying until it expires, and not after |
| `AdOrder.KeyTrichotomy` | src/swarm/record.rs:236-246 | the sort key order is total: for any two keys exactly one of before, equal, after |
| `AdOrder.PrecedesByFields` | src/swarm/record.rs:236-246 | an ad precedes another if and only if it was published later, or as late and expires later, or the two are alike and its node id is lower |
| `AdOrder.NotLessTransitive` | src/swarm/record.rs:236-246 | "does not come after" is transitive, so the order is a total one |
| `AdOrder.SortSorts` | src/swarm/record.rs:189-190 | sorting by the preferred key orders the list and keeps its members |
| `Merge.MergeValid` | src/swarm/record.rs:131-165 | the loops over buckets and ads compute the canonical merge; by fields: each node with a valid ad is there once, with one that no valid ad of the node was published after, or as late and expires after, and the list is newest first, then longest valid, then lowest node id |
| `Merge.MergeKeepsNewest` | src/swarm/record.rs:150-164 | the canonical merge keeps the newest ad of each node, in that order |
| `Merge.BestIsBest` | src/swarm/record.rs:150-158 | a node's merged ad is one of its valid ads that no other of its valid ads precedes |
| `Merge.BestOfConcat` | src/swarm/record.rs:140-160 | the best of two lists is the better of their bests, the first on a tie |
| `Merge.MergeUnique` | src/swarm/record.rs:162-164 | the merge is determined by the best ad of each node |
| `Merge.MergeHasDistinctNodes` | src/swarm/record.rs:138-165 | one ad per node, each from the input |
| `MergeLaws.CandidatesAre` | src/swarm/record.rs:140-148 | an ad takes part exactly if it verifies and is in a bucket of the current version |
| `MergeLaws.MergeIdempotent` | src/swarm/record.rs:131-165 | merging a merge gives it back |
| `MergeLaws.MergeInStages` | src/swarm/record.rs:131-165 | merging one part first, either part, equals merging all at once |
| `MergeLaws.KeysIgnoreOrder` | src/swarm/record.rs:131-165 | the keys of the result do not depend on the order of buckets or of ads |
| `MergeLaws.UpsertedMembers` | src/swarm/record.rs:168-180 | after an upsert the other nodes' ads are the same, and the node has the old ad unless the new one precedes it |
| `MergeLaws.UpsertKeepsNewest` | src/swarm/record.rs:168-180 | by fields: afterwards the node has the newest of its old ads and the new one, the old one on a tie; other nodes are untouched |
| `MergeLaws.UpsertIsMerge` | src/swarm/record.rs:131-180 | a sorted upsert of a valid ad into the merge of some buckets is the merge of those buckets and one with that ad |
| `BucketStore.ServiceBucket.Upsert` | src/swarm/record.rs:168-180 | the in-place search and replacement computes `Upserted`: the node is there, with the newest of its ads |
| `BucketStore.ServiceBucket.LastRemovable` | src/swarm/record.rs:197-200 | the last ad that is not the preferred node's, or none |
| `BucketStore.ServiceBucket.EvictUntilItFits` | src/swarm/record.rs:192-210 | the loop evicts from the end only while the bucket is too large, never a preferred ad |
| `BucketStore.ServiceBucket.TrimToSize` | src/swarm/record.rs:185-211 | what is left is the greedy prefix of the preferred-key order, one ad per node as before; by fields: an evicted ad is not preferred, and every other ad that stays is newer, or as new and valid longer, or alike with a lower node id |
| `BucketStore.TrimEvictsOldest` | src/swarm/record.rs:185-211 | so of the ads that are not preferred the oldest are evicted |
| `Trim.ProtectedFirst` | src/swarm/record.rs:248-259 | in preferred-key order the preferred node's ads are exactly a prefix |
| `Trim.TrimKeepsLongest` | src/swarm/record.rs:192-210 | it is the longest prefix that fits and has all preferred ads |
| `Trim.TrimFailsExactlyWhen` | src/swarm/record.rs:182-211 | trimming fails if and only if the preferred ads alone are too large, never without a preferred node, and keeps every preferred ad |
| `Publisher.LocalAdVerifies` | src/swarm/dht/publisher.rs:117-129 | the local ad verifies at once, except at the last instant of the 64-bit clock |
| `Publisher.LatestIsLargest` | src/swarm/dht/publisher.rs:200 | the sequence number used is the largest of the items read, none for none |
| `Publisher.DecodedIs` | src/swarm/dht/publisher.rs:200-210 | what is merged is what the items hold and decodes, nothing else |
| `Publisher.ReadShardState` | src/swarm/dht/publisher.rs:200-215 | a read yields the merge of all decodable buckets and the largest sequence number |
| `Publisher.MakeAttempt` | src/swarm/dht/publisher.rs:133-153 | one attempt puts the trimmed merge with the local ad, one past the number read, conditional on it |
| `PublisherRuns.PublishShard` | src/swarm/dht/publisher.rs:132-171 | at most four attempts, each from its own read, retried exactly after contention; each put publishes the writer's ad as `AttemptIsPublished` says; each result says how the last attempt ended |
| `PublisherRuns.EvictedIsPreceded` | src/swarm/record.rs:185-211 | an ad that is trimmed is not the writer's and comes after every other node's ad that stays |
| `PublisherRuns.AttemptLosesNothing` | src/swarm/dht/publisher.rs:133-142 | for every valid ad read, an ad of its node that is no older was prepared and is kept, or had to go: not the writer's, every other ad that stayed is listed before it, and with one ad more the bucket exceeds 1000 bytes |
| `PublisherRuns.PutIsGood` | src/swarm/dht/publisher.rs:137-153 | a put is at most 1000 bytes, decodes, has one ad per node and one for the writer that its local ad does not precede |
| `PublisherRuns.AttemptIsPublished` | src/swarm/dht/publisher.rs:117-153 | by fields: the put decodes to a bucket with an ad of the writer's node, its configured tags, published now, expiring 120 s later, signed for the namespace, unless an ad of the node was read that is no older, which is kept then; it is numbered one past the largest number read and conditional on it |
| `PublisherRuns.RunKeepsInv` | src/swarm/dht/publisher.rs:132-169 | in every interleaving of publishers, stored sequence numbers strictly increase and everything stored is well written |
| `PublisherRuns.AcceptedPutSawStored` | src/swarm/dht/publisher.rs:148-156 | an accepted put comes from a read that contained the item it replaces |
| `PublisherRuns.NoLostUpdate` | src/swarm/dht/publisher.rs:132-169 | an accepted put keeps or supersedes by one no older every ad of the replaced bucket valid at the writer's time, or trims it in order because one ad more exceeds 1000 bytes |
| `PublisherRuns.StoredIsWellFormed` | src/swarm/dht/publisher.rs:137-153 | what is stored always decodes, fits 1000 bytes and has one ad per node |
| `PublisherRuns.ResolvesToUnexpired` | src/swarm/dht/resolver.rs:64-83 | a put bucket, decoded and merged at any later time, yields exactly its unexpired ads, newest first, then longest valid, then lowest node id |
| `PublisherRuns.PublisherIsFound` | src/swarm/dht/publisher.rs:117-149 | so the publisher's node is found until its stored ad expires: the one made now with its tags, or one read that is no older |
| `Shards.PreimageInjective` | src/swarm/dht/mod.rs:25-44 | the hash input of key or salt determines service, minute and shard |
| `Shards.LittleEndianIsValue` | src/swarm/dht/mod.rs:25-44 | the minute enters the hash input with its lowest byte first |
| `Shards.RankPreimageInjective` | src/swarm/dht/mod.rs:83-88 | the hash input of the ranking determines node, service and shard |
| `Shards.PreimagesDisjoint` | src/swarm/dht/mod.rs:25-88 | key, salt and ranking never hash the same bytes |
| `Shards.ChoiceIsBestRanked` | src/swarm/dht/mod.rs:74-98 | the choice is min(k, n) distinct shards below n, in rank order, each ranked before every other: its hash is lower at the first byte that differs, or equal and its index smaller |
| `Shards.NodeHasTwoShards` | src/swarm/dht/mod.rs:46-50 | a node publishes a service into two different shards of sixteen |
| `Shards.FewerReplicasIsPrefix` | src/swarm/dht/mod.rs:94-97 | asking for fewer replicas gives a prefix |
| `Shards.AddingShardMovesAtMostOne` | src/swarm/dht/mod.rs:74-98 | one more shard leaves the choice as it is, or enters it and pushes out only its last member |
| `Window.BurstCoversOneMinute` | src/swarm/peers.rs:145-147 | ads up to a minute old are all in the buckets asked for if and only if the minute does not change between the burst's two clock readings |
| `Window.BurstCanMissAMinute` | src/swarm/peers.rs:145-147 | a burst that reads the clock at 119 and at 120 does not ask for the minute of the ad published at 59 |
| `Window.BurstCoversNoMore` | src/swarm/peers.rs:145-147 | for every age above a minute there is a time at which the burst misses such an ad |
| `Window.OffsetIsClamped` | src/swarm/dht/mod.rs:66-72 | an offset is added to a minute within the range of 64 bits |
| `Window.LatestPublication` | src/swarm/dht/publisher.rs:71-79 | a node that publishes at a fixed period has a latest publication at every time |
| `Window.PublisherStaysInWindow` | src/swarm/dht/mod.rs:58-72 | with a period of at most 60 s the latest ad's minute is asked for (exact condition) and the ad passes the time checks for at least a minute |
| `Engine.SwarmEngine.PollNext` | src/swarm/engine.rs:80-98 | one poll yields the next peer not yet seen or the next error, skips the local node and repeats, waits only when the stream itself has nothing ready, and ends only with all feeds |
| `Engine.Drain` | src/swarm/engine.rs:80-98 | polling to the end yields the outputs of the merged stream, no more and no less |
| `Engine.YieldedAtFirstOccurrence` | src/swarm/engine.rs:84-93 | an arriving peer is yielded exactly if it is not local and none with its id came before; an error always |
| `Engine.EmittedIds` | src/swarm/engine.rs:84-93 | the yielded ids are distinct, and are those that arrive except the local one and those seen before |
| `Engine.InterleavingHasAllIds` | src/swarm/engine.rs:55-74 | an interleaving of feeds has exactly the peers of the feeds |
| `Engine.EachPeerOnce` | src/swarm/engine.rs:55-98 | for every interleaving of the matching feeds each distinct remote peer is yielded exactly once |
| `Engine.MatchingFeeds` | src/swarm/peers.rs:253-258 | only feeds for any service or for this one contribute peers |
| `Locator.AttemptConserves` | src/swarm/locator.rs:219-234 | beginning an attempt for a discovered peer keeps the account: each peer taken is attempted once, each attempt is in flight, delivered or lost, and the bound on those in flight holds |
| `Locator.LocatorState.Run` | src/swarm/locator.rs:163-217 | attempts and discovery errors equal results sent, lost and in flight, and the errors passed on or lost are the very ones taken; never more than `max_inflight` in flight; with a live receiver nothing is lost without a timeout and at most one message with one, cut off in its send; with a live receiver and no timeout it ends only when all is done |
| `Locator.OutcomeCount` | src/swarm/locator.rs:180-201 | every message on the result channel is one attempt's result or one discovery error |
| `Locator.DiscoverAndLocate` | src/swarm/locator.rs:163-217 | end to end: each distinct remote peer of the matching feeds is attempted once and its result delivered once, and so is each discovery error |
| `Locator.First` | src/swarm/locator.rs:57-73 | the first success, else the last error, else the fixed one |
| `Upload.PumpBody` | src/channel.rs:190-229 | success means the whole body is on the wire in order, ended exactly once by trailers or an empty DATA; it goes on while window is granted and sends are accepted, stops at the first answer where not, and its error says whether the body failed, the stream closed or HTTP/2 failed |
| `Upload.Call` | src/channel.rs:132-171 | for every behaviour of the connection: a successful call sent a complete message; a failed one sent nothing, a complete one, or one it reset, with the error of the pump or of the response; the head has the origin's scheme and authority, or the fixed defaults, and the request's path |
| `Upload.OpenEnds` | src/channel.rs:211-225 | the closing frame makes the message complete by section 8.1 of RFC 9113 and equal in content to the body |
| `Upload.OpenAborts` | src/channel.rs:152-158 | a reset message never signalled its end and carried a prefix of the body |
| `Download.ResponseBody.PollFrame` | src/channel.rs:272-331 | one poll steps the body's state machine: a ready chunk is given, or an error if its window is refused; then trailers, error or end; it waits only for what is not ready, and releases exactly the bytes it yields |
| `Download.ReadsWhatThereIs` | src/channel.rs:278-329 | however it is polled, the body gives every chunk in order, then trailers or an error; a reader told the end has had all of it |
| `Download.ReadyIsAnswered` | src/channel.rs:278-329 | a stream that is ready is never answered by waiting: a ready chunk is given, or, if its window is refused, an error that ends the body |
| `Download.ReadyGivesChunks` | src/channel.rs:278-310 | poll k of a stream that stays ready gives chunk k |
| `Download.ReadyIsReadToTheEnd` | src/channel.rs:278-329 | a stream that stays ready is read to its end within its number of chunks and two more polls, and all there was has been shown |
| `Download.NothingAfterTheEnd` | src/channel.rs:311-328 | after trailers, an error or the end, only the end is answered |
| `Download.FramedBodyIsReadBack` | src/channel.rs:278-319 | what `PumpBody` framed is read back: all bytes in order, then the trailers if there were any |
| `Download.Read` | src/channel.rs:272-331 | over a whole reading the window released equals the data yielded |

## Left out

- `run_connection` is given as the steps of a transition system rather than as one method with a loop, because every property of it is about how its steps interleave with others; its future is not modelled as an object in memory.
- The `biased` order of select arms is not used: any ready arm may be taken, so the theorems cover every order and say nothing about priority.
- The notification of a shutdown reaches any subset of the actors that are at their select, since that phase begins just before the wait; when an actor that was reached acts on it is left open, and the pool loop's own wait is only said to be able to end once the flag is set.
- The shutdown flag is set by an arbitrary step; the strong-count test in the drop of `ConnectionPool` is not part of this model.
- A reply to a caller that has gone away is an immediate drop of its lease; callers sending on a full pool queue simply wait.
- Generations are unbounded, while the code counts in 64 bits; sequence numbers of mutable items are unbounded, while the code has a signed 64-bit number and would overflow at its end.
- `PoolRuntime` covers who starts the pool actor; the poisoning of its lock is not part of this model.
- The network is one register per shard, with honest publishers, whose reads return any items ever stored; other writers, replication and loss of items are not part of this model, and neither is the signature of the mutable item itself.
- A read that fails yields the same as an empty one; a publisher whose first attempt ends in a failed put stops, as in the code.
- A signature is its 64 bytes in the encoding; whether a node id is a valid key, what a signature verifies, and the hash are parameters.
- Publications are exactly one period apart in `Window.LatestPublication`; missed ticks and publishing time are not part of this model.
- The DHT feed's loop over shard queries, its tag filter and its periodic poll are left out as simple; so are the mDNS, static and exchange feeds beyond being sequences of peers.
- Feeds are finite sequences; an endless feed is covered through the prefixes that a timed run may stop after.
- The order in which the merged stream prefers ready feeds, and with it the sort of feeds by priority, is any order.
- An attempt of the locator has any result at any time; its timeouts and the channel it builds are not part of this model, and an aborted task is a run that stops.
- What the connection grants and accepts while a body is pumped is an input of `Upload.PumpBody`, for each answer of the body; that waiting for window may last for ever is not modelled, nor how much a granted window holds.
- A body's claim to be at its end is taken at its word, as in the code: `Upload.Call` then sends headers only.
- The receiving stream delivers chunks, then an end; that h2 itself accepts only well-formed messages is assumed in what it delivers, not proved.
- Validity of the rewritten request URI is a parameter of `Upload.Call`.
- Builders, I/O wrappers, error mapping, tracing, the service registry, the server side, user data codecs and the command-line examples would add only easy members.
