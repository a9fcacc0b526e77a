# tinyray membership, verified

tinyray keeps a soft-state roster. Members send beats to a registry; the registry keeps one
pool per name, gives each change a version, answers with deltas, and forgets whoever stops
beating. Clients keep replicas of the pools they watch, freeze rounds out of them, and wait
on them. This project models that core in Dafny and proves what it promises.

Run `dafny verify dfyconfig.toml` to check everything.

## How it is laid out

- `Values`, `Protocol`: labels and how a filter compares them; members, beats, deltas, the
  roster fingerprint.
- `PoolModel`, `DeltaCache`, `Pool`, `Cost`, `Registry`: one pool as a value, then the mutable pool,
  its delta cache and the registry, each method tied to the value it stands for.
- `History`, `Replica`, `System`, `Agreement`, `Moments`, `Convergence`, `Confirmation`: what a
  pool has been at each version; one client, a lossy and reordering network and registries that
  restart, as one state machine; what holds over all its runs.
- `Scenario`, `Overlap`, `Restarts`: the runs that show what does not.
- `Runs`, `Fencing`, `Shape`, `Publication`, `Heartbeat`: runs of one pool under beats and
  sweeps; tenures, goodbyes, exclusive seats, shape, publications, leases.
- `Holding`, `Waiting`, `CacheWaiter`, `Flushing`, `Epoch`: held replies, waiters and frozen
  rounds, as interleavings and as the methods themselves.
- `FilterIndex`, `Identity`, `Reservoir`, `CachedPool`, `Shared`: the client's cache and
  everything derived from it.
- `Wire`: framing on a byte stream.

## What holds only under a condition

- Replica agreement holds as long as no incremental delta is taken by a cache that is behind
  its cursor (`NotBehind`, checked against the cache when a reply is taken);
  `LandsExactlyWhenNotBehind` says that for one delta nothing less will do. The beat loop,
  alone, always meets it (`SerialRunsAreGuarded`), and so does a registry that never
  restarts. The goodbye of `leave`, sent beside the loop's held beat across a restart, does
  not: `OverlappingBeatsCanMixEpochs` ends with the right version, the right fingerprint and
  the wrong members.
- After a restart it takes two answers to catch up, unless the first brings the pool in full
  (`OneDeliveryCatchesUp`, `TwoDeliveriesCatchUp`, `OneDeliveryCanFallShort`). In between
  the cache can be empty, and a frozen round counts as valid whoever sits in the pool
  (`EmptiedCacheKeepsRound`, `RoundStandsWhileOccupantsDo`).
- A cached pool has the size its registry's pool has at that version if anyone is in it, and
  its methods unless it then had none (`ShapeAgrees`). Beyond that a change of shape reaches a
  cache only with the next change of members (`ShapeCatchesUp`).
- A confirmed publication was stored exactly if the beat that confirmed it was not a goodbye
  (`ConfirmedIsStored`, `GoodbyeConfirmsUnstored`); it need not be stored by the process that
  answers now (`RestartForgets`).
- A goodbye fences its tenure for good only for seated members. Without a seat a later
  goodbye of a lower tenure is accepted and replaces the memory
  (`UnseatedGoodbyeCanBeLowered`); `StragglersRefused` says exactly who is refused.
- Publications never roll back while the member is stored. Once its lease has lapsed an old
  one can come back (`RollbackAfterExpiry`).
- A lease survives up to n lost requests in a row exactly when the network leaves `Slack` for
  n (`SurvivalIsSlack`). A sweep at the very moment a lease ends counts as dropping it.
- A pool that is empty, or has no methods yet, can be reshaped without a new version and so
  without anyone being told, by a goodbye or even a refused beat; any other cannot
  (`ReshapedAloudExactly`, `RefusedBeatReshapesQuietly`). Its policy and size are safe as
  soon as somebody is in it (`ResizedAloudWhileOccupied`). `RefusalChangesNothing` covers
  members, versions and memories, not policy, size and methods.
- Past its first look a wait notices its deadline before its condition, so it can time out
  with the condition true (`PassAnswer`).
- A wait for a replacement tells tenures apart, not processes: another member in the seat
  under an equal tenure goes unnoticed (`ReplacesExactly`).
- Rounds are complete short of a collision of XOR-folded 64-bit hashes; the collision is
  named as a hypothesis (`NoCollision`), and `SuccessorShows` is a case where there is none.

Time is a number that each beat, sweep and look is given. Reads, writes and scheduling are
nondeterministic. The random generator, the msgpack encoder, the digest and the length of an
encoded state are function parameters.

## Model

| member | source | states |
|---|---|---|
| `Values.MixedComparisonIsExact` | crates/tinyray-proto/src/lib.rs:120-130 | An integer matches a float exactly when they are the same real number, at every bound the casts care about |
| `Values.SameNumberIsEquality` | crates/tinyray-proto/src/lib.rs:100-107 | Number comparison over all four integer/float pairings is equality of exact values |
| `Values.SameValueIsEquality` | crates/tinyray-proto/src/lib.rs:100-118 | The recursive comparison holds exactly when both values denote the same nested structure with numbers read as numbers |
| `Values.SameValueIsEquivalence` | crates/tinyray-proto/src/lib.rs:100-118 | The comparison is reflexive, symmetric and transitive at any depth |
| `Values.MatchingIsExtension` | crates/tinyray-proto/src/lib.rs:46-53 | A non-empty object filter matches exactly the states whose own fields agree in meaning with every field of the filter |
| `Protocol.FingerprintRemove` | crates/tinyray-proto/src/lib.rs:30-44 | The fingerprint is a function of the set of occupants: any occupant can be folded in last |
| `Protocol.RosterWithout` | crates/tinyray-registry/src/state.rs:338-351 | XOR-ing a stored member out leaves the fingerprint of everyone else |
| `Protocol.RosterWith` | crates/tinyray-registry/src/state.rs:372-396 | XOR-ing a newcomer in gives the fingerprint of the enlarged roster |
| `Protocol.RosterSameTenure` | crates/tinyray-registry/src/state.rs:352-371 | Rewriting a record of the same tenure leaves the fingerprint alone |
| `Protocol.FoldRosterIsFingerprint` | crates/tinyray-membership/src/cache.rs:39-45 | Folding a list of distinct members gives the fingerprint of their occupants, whatever the order |
| `Protocol.InsertedContents` | crates/tinyray-membership/src/cache.rs:378-398 | Upserting a list of distinct members gives exactly the old members with the listed ones replaced or added |
| `PoolModel.BeatKeepsWellFormed` | crates/tinyray-registry/src/state.rs:269-399 | Any beat keeps the change log contiguous up to the version, every record under its own id and the XOR-maintained fingerprint equal to the fingerprint of the members |
| `PoolModel.SweepKeepsWellFormed` | crates/tinyray-registry/src/state.rs:461-491 | So does any sweep, in whatever order the table yields the dead |
| `PoolModel.RefusalChangesNothing` | crates/tinyray-registry/src/state.rs:284-333 | A beat that is not accepted changes no member, version, log, watermark, goodbye or waiter |
| `PoolModel.PublishingKeepsFingerprint` | crates/tinyray-registry/src/state.rs:352-371 | A stored tenure can publish anything about itself without changing the occupants or the fingerprint |
| `PoolModel.FastScanIsFullScan` | crates/tinyray-registry/src/state.rs:191-196 | Starting the scan at version minus oldest finds exactly the ids that a scan of the whole log finds |
| `DeltaCaches.DeltaCache.Get` | crates/tinyray-registry/src/delta.rs:72-77 | Finds the delta stored under the cursor exactly when there is one |
| `DeltaCaches.DeltaCache.Clear` | crates/tinyray-registry/src/delta.rs:102-105 | Retires everything, in order |
| `Pools.Pool.Bump` | crates/tinyray-registry/src/state.rs:145-155 | One version up, one log entry, the log cut at its cap, the delta cache emptied, all waiters taken |
| `Pools.Pool.Delta` | crates/tinyray-registry/src/state.rs:157-174 | Whatever the cache holds, one entry per cursor, the answer is the one a fresh build would give: nothing for the present version, an incremental delta inside the log window, a full roster otherwise |
| `Pools.Pool.Reshape` | crates/tinyray-registry/src/state.rs:284-314 | An empty pool takes the shape of the beat, an occupied one only learns methods; no cached delta survives a change of shape |
| `Pools.Pool.Depart` | crates/tinyray-registry/src/state.rs:338-351 | A goodbye removes the member if stored and is remembered until the lease would have ended |
| `Pools.Pool.Renew` | crates/tinyray-registry/src/state.rs:352-371 | The same tenure renews its lease; its payload moves only with a newer publication, or an unnumbered change |
| `Pools.Pool.Arrive` | crates/tinyray-registry/src/state.rs:372-396 | A newcomer or successor takes the seat |
| `Pools.Pool.Raise` | crates/tinyray-registry/src/state.rs:397-399 | A seated beat raises the watermark of its seat |
| `Pools.Pool.TakeBeat` | crates/tinyray-registry/src/state.rs:284-399 | One beat, step by step, is the single transition on the abstract pool, with the verdict and the waiters to ring |
| `Pools.Pool.Sweep` | crates/tinyray-registry/src/state.rs:466-487 | Drops exactly the members whose lease ended, one version each, and forgets old goodbyes and dead waiters |
| `Registries.Registry.DeltasFor` | crates/tinyray-registry/src/state.rs:443-457 | Answers exactly the watched pools that exist and have news |
| `Registries.Registry.BeatShared` | crates/tinyray-registry/src/state.rs:269-421 | Inadmissible beats change nothing; others move one pool and are answered from the state they leave behind |
| `Registries.Registry.Park` | crates/tinyray-registry/src/state.rs:427-436 | The bell is listed in every watched pool, opening those that do not exist yet |
| `Registries.Registry.Sweep` | crates/tinyray-registry/src/state.rs:461-491 | Every pool is swept on its own; the count is the number of lapsed leases and the bells are those of the pools that lost someone |
| `Histories.LogTellsHistory` | crates/tinyray-registry/src/state.rs:161-196 | Inside its window the log names exactly the ids that changed in the history |
| `Histories.DeltaRecounts` | crates/tinyray-registry/src/state.rs:176-224 | Every delta built retells its pool's history since its cursor |
| `Histories.UntouchedStays` | crates/tinyray-registry/src/state.rs:145-155 | An id no change names between two versions is the same at both |
| `Histories.FullLands` | crates/tinyray-membership/src/cache.rs:369-411 | A full delta takes any replica to the roster at its version |
| `Histories.DeltaLands` | crates/tinyray-membership/src/cache.rs:369-411 | A delta from s to w takes the roster at any c with s <= c <= w to the roster at w |
| `Histories.LandsExactlyWhenNotBehind` | crates/tinyray-membership/src/cache.rs:369-411 | It lands right on every history if and only if the replica is not behind the cursor |
| `Histories.BeatChronicled` | crates/tinyray-registry/src/state.rs:269-399 | Every beat extends the history by at most the one id it touched |
| `Histories.SweepChronicled` | crates/tinyray-registry/src/state.rs:461-491 | Every sweep extends the history by one change per dropped member |
| `Replicas.QuietAckChangesNothing` | crates/tinyray-membership/src/shared.rs:430-502 | If an acknowledgement rings nobody, neither the cache nor the fencing flag moved |
| `Replicas.LoudAckBringsSomething` | crates/tinyray-membership/src/shared.rs:430-502 | If it rings, the cache was emptied, the seat was lost or a delta was taken |
| `Replicas.EmptyAckIsQuiet` | crates/tinyray-membership/src/shared.rs:430-502 | An answer with no news from a known process rings nobody and changes nothing |
| `Replicas.FencedForGood` | crates/tinyray-membership/src/shared.rs:443-449 | No acknowledgement gives a fenced member its seat back |
| `Replicas.NeverGoesBack` | crates/tinyray-membership/src/shared.rs:483-491 | Within one epoch no cached pool is lost or moves to a lower version |
| `Agreement.CacheNeverGoesBack` | crates/tinyray-membership/src/shared.rs:483-491 | Over any step that keeps the epoch, cached versions only rise, even with beats overlapping |
| `PoolRuns.SweepSeats` | crates/tinyray-registry/src/state.rs:466-487 | A sweep keeps exactly the leases and goodbyes that have not run out |
| `PoolRuns.BeatElsewhere` | crates/tinyray-registry/src/state.rs:335-399 | A beat leaves every other seat as it was |
| `PoolRuns.BeatAtSeat` | crates/tinyray-registry/src/state.rs:335-399 | What an accepted beat leaves at its own seat |
| `PoolRuns.AcceptanceBounds` | crates/tinyray-registry/src/state.rs:316-333 | What acceptance implies about the tenure against watermark, holder and goodbye |
| `PoolRuns.StoredAsSent` | crates/tinyray-registry/src/state.rs:372-396 | A tenure that is taken in is stored exactly as its beat sent it: seat, tenure, payload, number, size and lease |
| `PoolRuns.SeatOfOrigin` | crates/tinyray-registry/src/state.rs:335-399 | Over every run, whoever is stored was brought in by one accepted beat and sits where that beat said, whatever has happened since |
| `PoolRuns.RenewalExactly` | crates/tinyray-registry/src/state.rs:352-371 | A renewal always runs the lease anew; payload, number and size move together, exactly when the number rises or none was seen |
| `PoolRuns.StoredLengthIsTrue` | crates/tinyray-registry/src/state.rs:352-396 | Over every run of beats that measure their state truly, each record holds the length of the state it stores |
| `PoolRuns.BeatMovesVersionExactly` | crates/tinyray-registry/src/state.rs:335-399 | A beat takes a version if and only if it changes what subscribers are told of the members |
| `PoolRuns.SweepMovesVersionExactly` | crates/tinyray-registry/src/state.rs:466-487 | A sweep takes exactly one version for each lease that has run out |
| `PoolRuns.BeatTakesWaitersExactly` | crates/tinyray-registry/src/state.rs:145-155 | A beat takes every parked caller off the list if it moves the version, and nobody otherwise |
| `PoolRuns.SweepTakesWaitersExactly` | crates/tinyray-registry/src/state.rs:466-487 | A sweep that drops somebody empties the list; any other keeps exactly the callers still there |
| `PoolRuns.CursorExactly` | crates/tinyray-registry/src/state.rs:162-165 | A position is answered with what changed if and only if the log still holds every version after it |
| `Fencing.TenuresNeverDecrease` | crates/tinyray-registry/src/state.rs:316-399 | Over every run of beats and sweeps, tenures accepted for a seat never decrease |
| `Fencing.GoodbyeRemembered` | crates/tinyray-registry/src/state.rs:338-351 | A goodbye stays remembered until its lease would have ended or another goodbye replaces it |
| `Fencing.StragglersRefused` | crates/tinyray-registry/src/state.rs:316-333 | While it is, a late beat is a straggler if and only if its tenure is not above the goodbye's |
| `Fencing.SeatFencing` | crates/tinyray-registry/src/state.rs:316-399 | For seated members, after a goodbye no beat of that tenure or an earlier one is accepted for a lease |
| `Fencing.UnseatedGoodbyeCanBeLowered` | crates/tinyray-registry/src/state.rs:316-351 | Without a seat a second, lower goodbye is accepted and lets a fenced tenure back in |
| `Fencing.OthersAreRefused` | crates/tinyray-registry/src/state.rs:316-333 | An exclusive beat of another tenure is refused while the seat is held |
| `Fencing.HolderKeepsSeat` | crates/tinyray-registry/src/state.rs:316-399 | A holder stays stored, with its lease dated from its last accepted beat, until it says goodbye or a sweep finds the lease over |
| `Fencing.NobodyElseGetsIn` | crates/tinyray-registry/src/state.rs:316-399 | Until then every accepted exclusive beat for the seat is the holder's |
| `Shapes.OccupiedKeepsShape` | crates/tinyray-registry/src/state.rs:284-314 | No beat, sweep or parking changes the policy or size of an occupied pool, or takes back methods it has learned |
| `Shapes.VersionNamesShape` | crates/tinyray-registry/src/state.rs:284-314 | Over every run a version that names an occupied roster names one policy and one size, so deltas cut at it agree on the shape |
| `Shapes.EmptyTakesShape` | crates/tinyray-registry/src/state.rs:284-314 | An admissible beat gives an empty pool its whole shape, accepted or not |
| `Shapes.MethodsAreLearned` | crates/tinyray-registry/src/state.rs:309-314 | An occupied pool learns methods exactly if it has none and the beat agrees with its policy and size |
| `Shapes.RefusedBeatReshapesQuietly` | crates/tinyray-registry/src/state.rs:284-333 | An emptied pool can be resized by a refused beat with no new version and nobody told |
| `Publications.Published.SetState` | crates/tinyray-client/src/lib.rs:553-572 | A payload that differs gets the next number, one that does not gets none |
| `Publications.Published.SetStateOnly` | crates/tinyray-client/src/lib.rs:574-586 | The same, leaving readiness alone |
| `Publications.Published.SetUrl` | crates/tinyray-client/src/lib.rs:634-645 | The same for the address |
| `Publications.Published.Show` | crates/tinyray-membership/src/shared.rs:391-392 | The payload and the number shown belong together |
| `Publications.HighestPublicationShows` | crates/tinyray-registry/src/state.rs:352-371 | Over every run, a resident shows the payload of the highest publication accepted since it arrived, whatever the order of arrival |
| `Publications.RollbackAfterExpiry` | crates/tinyray-registry/src/state.rs:372-396 | After the lease lapses a delayed older publication is shown again |
| `Holding.NoLostWakeup` | crates/tinyray-registry/src/server.rs:59-86 | In every interleaving a suspended held reply with no bell rung and none owed has nothing to report on any watched pool |
| `Holding.StepKeepsInv` | crates/tinyray-registry/src/state.rs:427-491 | Register-then-look keeps every held caller either listed everywhere or about to be rung |
| `Holding.SweepOwes` | crates/tinyray-registry/src/state.rs:461-491 | The bells a sweep hands back cover every live caller parked on a pool it moved |
| `Heartbeats.HoldFitsTimeoutFitsLease` | crates/tinyray-membership/src/heartbeat.rs:23-36 | A quiet hold with its jitter ends before the beat gives up, and the beat gives up within half a lease |
| `Heartbeats.HeldWithinHalfLease` | crates/tinyray-registry/src/server.rs:59-70 | However long a caller asks to be held, it is for half a lease and an eighth of that at most |
| `Heartbeats.JitterSpreads` | crates/tinyray-registry/src/server.rs:67-70 | Callers held alike are let go apart, a millisecond each up to an eighth of the hold |
| `FilterIndexes.KeysNameOneFilter` | crates/tinyray-membership/src/cache.rs:171-232 | An index key stands for one filter |
| `FilterIndexes.FilterIndexCache.NextClock` | crates/tinyray-membership/src/cache.rs:254-263 | The clock never stamps below an existing entry, wrap-around included |
| `FilterIndexes.FilterIndexCache.Get` | crates/tinyray-membership/src/cache.rs:265-271 | Returns the stored ids and makes the entry the most recent |
| `FilterIndexes.FilterIndexCache.Evict` | crates/tinyray-membership/src/cache.rs:285-300 | Makes room by dropping least recently used entries only, and always succeeds |
| `FilterIndexes.FilterIndexCache.Insert` | crates/tinyray-membership/src/cache.rs:273-315 | Keeps the entry unless it is oversized; the byte counter is the sum over entries and both bounds hold |
| `FilterIndexes.FilterIndexCache.Invalidate` | crates/tinyray-membership/src/cache.rs:317-321 | Empties the index |
| `Identities.IdentityReadsBack` | crates/tinyray-membership/src/cache.rs:129-149 | A printed identity parses back into pool, key and tenure, for every pool name, exactly when key and tenure fit 64 bits |
| `Identities.PlusAndZerosAreRead` | crates/tinyray-membership/src/cache.rs:129-149 | A number in an identity is read with a plus or zeros in front just as without |
| `Identities.IdentityNamesOne` | crates/tinyray-membership/src/cache.rs:135-149 | An identity matches exactly the members of that pool with that key and tenure |
| `CachedPools.Freeze` | crates/tinyray-membership/src/cache.rs:34-56 | The frozen list is sorted by id and keeps every member; id and slot indices point where they say and the fingerprint is the list's |
| `CachedPools.CachedPool.Put` | crates/tinyray-membership/src/cache.rs:378-398 | An upsert keeps the slot index the exact inverse of the members' slots |
| `CachedPools.CachedPool.Remove` | crates/tinyray-membership/src/cache.rs:350-367 | So does a removal, leaving no empty bucket |
| `CachedPools.CachedPool.Apply` | crates/tinyray-membership/src/cache.rs:369-411 | A delta patches the members and leaves every derived listing, index, frozen view and digest either right or empty |
| `CachedPools.CachedPool.IdList` | crates/tinyray-membership/src/cache.rs:413-429 | The lazily built listing is the sorted ids |
| `CachedPools.EveryoneListed` | crates/tinyray-membership/src/cache.rs:413-429 | The listings leave nobody out: everyone, or everyone who is ready |
| `CachedPools.CachedPool.Count` | crates/tinyray-membership/src/cache.rs:553-564 | Counts what the direct scan finds |
| `CachedPools.CachedPool.Native` | crates/tinyray-membership/src/cache.rs:573-585 | The cached frozen view is the present listing's |
| `CachedPools.CachedPool.FrozenView` | crates/tinyray-membership/src/cache.rs:587-595 | The whole pool at one version |
| `CachedPools.CachedPool.Filtered` | crates/tinyray-membership/src/cache.rs:597-622 | The frozen view of exactly what the direct scan finds |
| `CachedPools.CachedPool.SerializedList` | crates/tinyray-membership/src/cache.rs:624-645 | The rendering and fold of the present listing, cached or not |
| `CachedPools.CachedPool.FieldDigest` | crates/tinyray-membership/src/cache.rs:647-678 | The digest of the present listing, cached or not |
| `CachedPools.CachedPool.SlotHolder` | crates/tinyray-membership/src/cache.rs:470-475 | The lowest id in the slot that is wanted |
| `CachedPools.CachedPool.Get` | crates/tinyray-membership/src/cache.rs:477-492 | A member with that identity, and none only if there is none |
| `SharedState.Shared.Compose` | crates/tinyray-membership/src/shared.rs:391-418 | The beat reports the versions cached for watched pools and a payload under its own number |
| `SharedState.Shared.Take` | crates/tinyray-membership/src/shared.rs:483-491 | A delta is taken unless it is older than the cache or incremental after a restart |
| `Epochs.LookEpoch` | crates/tinyray-membership/src/shared.rs:293-365 | The status is exactly the one the view calls for, and a round in hand is sound |
| `Epochs.ReadyExactly` | crates/tinyray-membership/src/shared.rs:287-388 | A round is found if and only if the seat is held, the registry heard within the lease, enough are ready, and the ready have the pool's fingerprint |
| `Epochs.WaitEpoch` | crates/tinyray-membership/src/shared.rs:287-389 | The wait answers for the view it stopped at; a round is handed out only while the seat is held, and it runs out only at the deadline with no round there |
| `Epochs.RoundIsEveryone` | crates/tinyray-membership/src/shared.rs:344-361 | Short of a fingerprint collision, a frozen round is the whole roster with everybody ready |
| `Epochs.RanksAgree` | crates/tinyray-membership/src/shared.rs:344-361 | Two ranks that freeze under one fingerprint have the same occupant at every rank |
| `Waiting.CapturedIsNotReplaced` | crates/tinyray-membership/src/wait.rs:138-176 | A baseline just captured is never reported as its own replacement |
| `Waiting.AcceptedNeverReturns` | crates/tinyray-membership/src/shared.rs:443-449 | Fencing is final in every interleaving |
| `Waiting.DoneIsFinal` | crates/tinyray-membership/src/wait.rs:217-263 | A finished wait stays finished |
| `Waiting.FencedNeverReady` | crates/tinyray-membership/src/wait.rs:217-263 | Past its first look a fenced waiter never reports ready |
| `Wire.BigEndianReadsBack` | crates/tinyray-proto/src/wire.rs:225 | A length reads back from its four bytes |
| `Wire.BigEndianNamesOne` | crates/tinyray-proto/src/wire.rs:225 | and four bytes from the length they name |
| `Wire.BigEndianOrders` | crates/tinyray-proto/src/wire.rs:211-252 | Prefixes sort as the lengths they stand for |
| `Wire.LengthJudgedExactly` | crates/tinyray-proto/src/wire.rs:211-252 | An announced length is taken if and only if it is from one to the limit |
| `Wire.SendableIsReadable` | crates/tinyray-proto/src/wire.rs:275-313 | What one end may send is exactly what the other takes |
| `Wire.ReadFrameLength` | crates/tinyray-proto/src/wire.rs:211-233 | However the prefix arrives, the answer is the one its bytes parse to |
| `Wire.ReadFrameBody` | crates/tinyray-proto/src/wire.rs:235-254 | However the body arrives, exactly its bytes, or how many came before the end |
| `Wire.ReadFrame` | crates/tinyray-proto/src/wire.rs:256-264 | One frame, leaving the stream at the next |
| `Wire.WriteFrameBytes` | crates/tinyray-proto/src/wire.rs:275-313 | Refuses exactly the empty and the oversized with nothing sent; otherwise the whole frame goes out, or a strict prefix and an error |
| `Wire.FrameReadsBack` | crates/tinyray-proto/src/wire.rs:256-313 | A written frame reads back as its body |
| `Wire.CutStream` | crates/tinyray-proto/src/wire.rs:211-264 | Frames cut off anywhere read back as the whole ones and then a clean end or the matching error, never a wrong body |
| `Wire.StreamReadsBack` | crates/tinyray-proto/src/wire.rs:211-313 | Frames written one after another read back one after another and then end cleanly |
| `Protocol.NeighboursHashApart` | crates/tinyray-proto/src/lib.rs:32-44 | The hash moves with the seat and with the tenure: occupants that differ in one byte of either, whichever it is, never share a hash |
| `Protocol.NextTenureDiffers` | crates/tinyray-proto/src/lib.rs:32-44 | Counting a tenure up is such a difference unless its low-order byte carries |
| `Protocol.SuccessorShows` | crates/tinyray-proto/src/lib.rs:32-44 | An occupant replaced by one that differs in a single byte always changes the fingerprint, whoever else is there |
| `PoolModel.SupersededBelowFloor` | crates/tinyray-registry/src/state.rs:316-333 | A beat is superseded exactly below one floor, the highest of watermark, stored tenure and remembered goodbye, or as an exclusive rival |
| `DeltaCaches.DeltaCache.Insert` | crates/tinyray-registry/src/delta.rs:79-100 | Retires oldest first and no further than needed; the byte counter is the sum of the entries and both bounds hold; an oversized delta is not kept; the pop never meets an empty queue |
| `Pools.Pool.ChangesSince` | crates/tinyray-registry/src/state.rs:191-209 | Splits the ids touched since a cursor into present members and removals, each once and in order, and adds up their cost |
| `Pools.Pool.WholeRoster` | crates/tinyray-registry/src/state.rs:211-221 | Lists every member exactly once and adds up their cost |
| `Pools.Pool.BuildDelta` | crates/tinyray-registry/src/state.rs:176-224 | The delta for a cursor says exactly what changed since it, or everything, at the cost it is cached for |
| `Costs.CostCoversText` | crates/tinyray-registry/src/state.rs:66-71 | A delta is never longer, written out as JSON with any escaping, than it is reckoned to cost |
| `Agreement.StepKeepsInv` | crates/tinyray-membership/src/shared.rs:430-502 | The system invariant survives every step: beats, sweeps, held replies, restarts, lost, repeated and reordered acknowledgements |
| `Agreement.ReplicaAgreement` | crates/tinyray-membership/src/shared.rs:430-502 | In every state of every run in which no cache takes an incremental delta it is behind, each cached pool is the roster, and carries the fingerprint, that its registry process had at the cached version |
| `Moments.CacheIsCut` | crates/tinyray-membership/src/cache.rs:369-411 | Over every run, losses and overlaps included, a cached pool has the version, size and methods its registry process had together at one moment |
| `Moments.SameVersionSamePool` | crates/tinyray-registry/src/state.rs:284-399 | Over every run of the whole system, a pool found twice at one version has the same members and, if any, the same policy and size |
| `Moments.ShapeAgrees` | crates/tinyray-membership/src/cache.rs:407-410 | A cached pool that has reached its registry's version has its size if anyone is in it, and its methods unless the pool then had none |
| `Moments.ReplicaIsAMoment` | crates/tinyray-membership/src/cache.rs:369-411 | Over guarded runs each cached pool is one moment of the registry's pool: members, fingerprint, version, size and methods |
| `Agreement.GenerationNotBehind` | crates/tinyray-membership/src/shared.rs:391-502 | A cache is never behind the answer to a beat composed since it was last emptied |
| `Agreement.WithoutRestartsEveryRunIsGuarded` | crates/tinyray-membership/src/shared.rs:430-502 | Without a registry restart no cache is ever behind, however many beats overlap |
| `Agreement.SerialRunsAreGuarded` | crates/tinyray-membership/src/heartbeat.rs:190-237 | A loop with one beat in flight is never behind, restarts included |
| `Convergence.OneDeliveryCatchesUp` | crates/tinyray-membership/src/shared.rs:391-502 | In a serial run, once a pool is quiet, one accepted answer to a beat composed since, held or not, makes the cached pool exactly the registry's, with its size if anyone is in, if and only if it is not the first from a new process or brings the pool in full; and keeps it so |
| `Convergence.TwoDeliveriesCatchUp` | crates/tinyray-membership/src/shared.rs:391-502 | From any cache the second answer does it, with any losses and unanswered beats in between |
| `Convergence.ShapeCatchesUp` | crates/tinyray-membership/src/cache.rs:407-410 | Once the shape stands still too, the cached size and methods become the registry's if and only if the answer brings the pool or they already were; and stay so |
| `Convergence.QuietWhenUpToDate` | crates/tinyray-registry/src/state.rs:157-161 | An answer to a beat composed when the cache had reached a quiet pool's version leaves that pool out |
| `Restarts.OneDeliveryCanFallShort` | crates/tinyray-membership/src/shared.rs:435-485 | A serial run in which the first such answer after a restart leaves the pool unknown |
| `Overlap.OverlappingBeatsCanMixEpochs` | crates/tinyray-client/src/lib.rs:976-987 | A run in which the goodbye of leave overlaps the held beat across a restart and the cache ends with the registry's version and fingerprint and the wrong members |
| `Confirmations.ConfirmedWasAccepted` | crates/tinyray-membership/src/heartbeat.rs:265-277 | A confirmed number was shown by one beat, accepted in one arrival by one registry process, whose answer, at once or held, one delivery took |
| `Confirmations.AcceptedIsConfirmed` | crates/tinyray-membership/src/heartbeat.rs:275-277 | An accepted answer confirms what its beat showed at once, however many numbers it skips, and for good |
| `Confirmations.ConfirmedExactly` | crates/tinyray-membership/src/heartbeat.rs:265-277 | Over every run a number is confirmed if and only if an accepted answer that showed it or a later one has been delivered |
| `Confirmations.ConfirmedIsStored` | crates/tinyray-membership/src/heartbeat.rs:265-277 | In every run, that process stored the confirmed publication or a later one at that arrival, and shows it for as long as it keeps the record, if and only if the beat was not a goodbye |
| `Confirmations.ArrivalHoldsOn` | crates/tinyray-registry/src/state.rs:335-399 | The same of every accepted arrival, confirmed or not |
| `Confirmations.RestartForgets` | crates/tinyray-membership/src/heartbeat.rs:251-277 | Over every run, from a restart until a beat of that tenure reaches the new process, nothing of it is stored there, while the confirmed number stands |
| `Confirmations.GoodbyeConfirmsUnstored` | crates/tinyray-membership/src/heartbeat.rs:369-385 | A run in which a goodbye confirms a publication that was never stored |
| `Publications.ConfirmedStaysPublished` | crates/tinyray-registry/src/state.rs:352-371 | A publication that was accepted is never rolled back while the member stays stored |
| `SharedState.Shared.TakeReply` | crates/tinyray-membership/src/heartbeat.rs:250-287 | Taking a reply is the abstract step on cache, epoch and seat, sets the interval and the hold from the lease, and confirms the highest publication an accepted beat has shown |
| `SharedState.Shared.Apply` | crates/tinyray-membership/src/shared.rs:430-502 | Applying an acknowledgement is the abstract step; it rings whenever something a waiter can see moved |
| `Shapes.GoodbyeReshapesQuietly` | crates/tinyray-registry/src/state.rs:284-351 | Any goodbye for nobody installs its shape in an empty pool, or its methods in an occupied one that has none, with no new version and nobody told |
| `Shapes.ReshapedAloudExactly` | crates/tinyray-registry/src/state.rs:284-314 | No beat changes policy, size or methods without a new version if and only if somebody is in the pool and it has methods |
| `Shapes.ResizedAloudWhileOccupied` | crates/tinyray-registry/src/state.rs:284-314 | For policy and size alone, if and only if somebody is in the pool |
| `Heartbeats.BeatLoop` | crates/tinyray-membership/src/heartbeat.rs:190-320 | Once paced, the loop plays one turn per event until it is refused or the member has left, no more and no fewer, and never cancels two requests in a row |
| `Heartbeats.WokenEndsAtWake` | crates/tinyray-membership/src/heartbeat.rs:217-248 | A held request woken before its exchange is over ends at the wake; the next is not held and begins at the later of the wake and the gap |
| `Heartbeats.LoopStopsExactly` | crates/tinyray-membership/src/heartbeat.rs:278-287 | The loop stops at a refusal it has taken, and goes on after one it dropped or missed |
| `Heartbeats.EndsWhenOver` | crates/tinyray-membership/src/heartbeat.rs:217-248 | Any other ends with its answer, or as soon as it breaks or has taken too long |
| `Heartbeats.PublishGetsOut` | crates/tinyray-membership/src/heartbeat.rs:190-320 | In every loop the request that carries a publish begins within the gap of it, or within one unheld exchange |
| `Heartbeats.PublishDelayIsShort` | crates/tinyray-membership/src/heartbeat.rs:8-36 | Which is never more than a hold or a quarter of the lease |
| `Heartbeats.KeepsTheGap` | crates/tinyray-membership/src/heartbeat.rs:8-21 | Requests keep the gap unless something new cuts short the pause after an answer |
| `Heartbeats.Spawn` | crates/tinyray-membership/src/heartbeat.rs:190-320 | Before the first answer nothing is held and polls are at most 1750ms apart; after it, unless it refuses, the paced loop until it is stopped |
| `Heartbeats.PollsSoon` | crates/tinyray-membership/src/heartbeat.rs:300-313 | A failed poll is over when it breaks or after 750ms, and whatever is new cuts the nap after it short |
| `Heartbeats.ArrivalsWithinLease` | crates/tinyray-membership/src/heartbeat.rs:4-36 | Two arrivals with at most n lost requests between them are less than a lease apart |
| `Heartbeats.LeaseSurvival` | crates/tinyray-membership/src/heartbeat.rs:190-320 | For every lease from 200ms up, every coalescing setting and publisher: with slack for n losses in a row and no more of them, the lease runs at every moment between arrivals |
| `Heartbeats.LapseWithoutSlack` | crates/tinyray-membership/src/heartbeat.rs:23-36 | Without that slack some run with n losses in a row lets the lease lapse |
| `Heartbeats.SurvivalIsSlack` | crates/tinyray-membership/src/heartbeat.rs:23-36 | For every n, all runs with timely delivery and at most n losses in a row survive if and only if the slack is there |
| `Heartbeats.SmallDelaysSuffice` | crates/tinyray-membership/src/heartbeat.rs:23-36 | Delays below seven sixteenths of the hold always leave slack for one loss |
| `Heartbeats.PublisherCannotStarve` | crates/tinyray-membership/src/heartbeat.rs:202-247 | If only cancelled requests are lost, no two in a row are, however fast the publisher |
| `Heartbeats.RenewalAccepted` | crates/tinyray-registry/src/state.rs:284-333 | The renewals of a member the pool keeps are accepted, in the policy and size it joined with |
| `Heartbeats.NeverSwept` | crates/tinyray-registry/src/state.rs:461-491 | Over every run of the pool no sweep drops a member whose loop keeps the slack, and every renewal of it is accepted, unless it leaves or a rival insists |
| `Heartbeats.ServedForLong` | crates/tinyray-membership/src/heartbeat.rs:190-320 | A run that meets all of this past several arrivals, losses and sweeps and the end of the first lease |
| `FilterIndexes.KeyOf` | crates/tinyray-membership/src/cache.rs:208-232 | A filter has a key exactly if it is an object of one to eight scalar fields within the byte bound, and the key is its own |
| `CachedPools.CachedPool.MatchingIds` | crates/tinyray-membership/src/cache.rs:431-453 | For every indexable filter the direct scan's answer, whatever the index holds; none for any other |
| `CachedPools.CachedPool.Choose` | crates/tinyray-membership/src/cache.rs:494-518 | Chooses the member the generator draws from what the direct scan finds, in one draw or a throw for each, and none only if it finds none |
| `CachedPools.ChooseScanning` | crates/tinyray-membership/src/cache.rs:507-517 | The scanning choice is the one the generator's throws for the matching members pick |
| `Reservoirs.ChoiceIsFair` | crates/tinyray-membership/src/cache.rs:507-517 | Of the n! outcomes of those dice each of the n members is picked by (n - 1)! |
| `Epochs.RoundIsARoster` | crates/tinyray-membership/src/shared.rs:287-389 | Over every guarded run a frozen round is the complete roster its registry had at that version |
| `Epochs.RoundStandsWhileOccupantsDo` | crates/tinyray-membership/src/shared.rs:277-285 | Over every guarded run a round stays valid if and only if the seat is held and the pool is uncached or has the same occupants, collisions aside |
| `Restarts.EmptiedCacheKeepsRound` | crates/tinyray-membership/src/shared.rs:277-285 | A run in which a round counts as valid, the cache being empty after a restart, while the registry seats others |
| `Waiting.StepsAreApplied` | crates/tinyray-membership/src/shared.rs:430-502 | The steps an acknowledgement is applied in are together the whole, and ring exactly when it does |
| `Waiting.NoLostWakeup` | crates/tinyray-membership/src/wait.rs:217-263 | In every interleaving, half-applied acknowledgements and spurious wakeups included, a sleeping waiter with no ring due is open, seated and unsatisfied |
| `Waiting.ClosedNeverReady` | crates/tinyray-membership/src/wait.rs:295-299 | Closed between passes, a waiter never reports ready |
| `CacheWaiters.CacheWaiter.Observe` | crates/tinyray-membership/src/wait.rs:98-183 | A look finds the condition true exactly when it is, with how many matched, the view that goes with it and the size and version of the pool |
| `CacheWaiters.CountLook` | crates/tinyray-membership/src/wait.rs:105-123 | A count is reached if and only if the pool is known and at least so many are ready and match; the look counts and shows exactly those |
| `CacheWaiters.DepartureLook` | crates/tinyray-membership/src/wait.rs:124-137 | A departure is seen if and only if the pool is known and no member in it is the one the identity reads as |
| `CacheWaiters.DepartedMember` | crates/tinyray-membership/src/wait.rs:124-137 | Of a printed identity: if and only if nobody in the pool has that key and tenure |
| `CacheWaiters.ReplacementLook` | crates/tinyray-membership/src/wait.rs:138-181 | A wait yet to capture its baseline says only whether the seat is taken; one that has shows the whole pool with a replacement |
| `CacheWaiters.PassAlone` | crates/tinyray-membership/src/wait.rs:200-263 | A pass nobody interferes with ends where the interleaved steps take it |
| `CacheWaiters.LateIsNotReady` | crates/tinyray-membership/src/wait.rs:217-263 | Past its first look an overdue wait never reports that it is ready, and it runs out only then |
| `CacheWaiters.CacheWaiter.Check` | crates/tinyray-membership/src/wait.rs:200-215 | Closed, then fenced unless this is the first look, then the look and all that goes with it |
| `CacheWaiters.CacheWaiter.Wait` | crates/tinyray-membership/src/wait.rs:217-263 | The answer, with its view and counts, is what the view at the turn it stopped on calls for, to the condition as its looks have left it; it stops at the first turn it was closed before, and runs out only at the deadline |
| `CacheWaiters.CapturedAtFirstSight` | crates/tinyray-membership/src/wait.rs:149-161 | A baseline is captured once, from the first view that holds the pool |
| `CacheWaiters.ReplacedMeansNewTenure` | crates/tinyray-membership/src/wait.rs:162-181 | Such a wait is satisfied if and only if the seat has a holder whose tenure is not that of the holder first seen |
| `CacheWaiters.ReplacesExactly` | crates/tinyray-membership/src/cache.rs:135-149 | Of two members in one seat the second replaces the first if and only if its tenure is another; another process under an equal tenure goes unnoticed |
| `Flushing.NoLostWakeup` | crates/tinyray-membership/src/shared.rs:207-264 | In every interleaving of waits with replies being taken, a wait for registration or for a publication that sleeps with no ring due has nothing to wake for |
| `Flushing.DoneMeansMet` | crates/tinyray-membership/src/shared.rs:226-264 | A wait that reports success is right, then and in every later state |
| `Flushing.MetIsNeverMissed` | crates/tinyray-membership/src/shared.rs:226-264 | A goal met before the last look is never reported missed, whatever the deadline |
| `Flushing.TakenIsTook` | crates/tinyray-membership/src/heartbeat.rs:262-287 | The steps in which a reply is taken do together what taking the acknowledgement does, and leave a ring owed |
| `Flushing.ConfirmedForGood` | crates/tinyray-membership/src/shared.rs:244-250 | Once a reply is confirmed, a wait for any publication up to the one it showed is met for good |
| `Wire.SendAll` | crates/tinyray-proto/src/wire.rs:275-313 | Frames written one after another are the stream of them |
| `Wire.ReadAll` | crates/tinyray-proto/src/wire.rs:256-264 | Frames read one after another are what the bytes drain to, however they arrive |
| `Wire.Converse` | crates/tinyray-proto/src/wire.rs:211-313 | What one end writes the other reads, under any chunking in either direction |

## Left out

- RPC calls, blobs, streams and the worker pool of the core crate: a separate subsystem.
- The Python package and the PyO3 bindings, except the numbering of publications and `leave`.
- msgpack envelopes and operation names around a frame; the number of a request identifies it.
- Sockets, connection reuse and admission, idle timeouts, file-descriptor tables and forks.
- The worklist that bounds the nesting depth of a state (`crates/tinyray-proto/src/lib.rs:65-82`): input validation.
- The asynchronous form of a wait: the same shape as the waits modelled.
- Overflow of 64-bit versions and publication numbers, and saturation of the cost of a delta.
- The text of a refusal: it is a flag here.
- That a draw of the random generator is uniform.
- CachedPools.CachedPool.Native: the in-place sort and the deduplication of listings are functions on sequences.
- Heartbeats.BeatLoop: what an acknowledgement does to the cache is in Shared, not here.
- CacheWaiters.CacheWaiter.Wait: acknowledgements and closing come between looks; their interleaving with the steps of a look is in Waiting.
- Holding.NoLostWakeup: the deadline of a held reply is a step that may happen at any moment.
