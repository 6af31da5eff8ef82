# A verified model of the SRT live server's data path and admission control

The server relays live MPEG-TS: each stream key has one publisher (or a pulling relay) and any number of players.
Bytes go through a wrapping broadcast ring per stream; listeners decide who may publish and who may watch; workers tear
roles down; limiters bound bitrate, webhooks and log lines. This project models that logic in Dafny and proves what it
promises, or, where the code does less than it promises, exactly when it does keep the promise.

Every component appears twice: as functions on immutable values, over which the theorems are stated, and as a class
that updates fields, arrays and maps in place and is proved equal to those functions.

| file | component |
|---|---|
| `Base.dfy` | return codes, positions in a wrapping buffer |
| `RecycleArray.dfy` | the broadcast ring and its reader tokens; the append-only log it stands for |
| `TwoStepPut.dfy` | the ring with the byte counter published after the lock is released |
| `StreamStore.dfy`, `MapData.dfy` | the map of rings, its budget, and the machine of all rings and all readers |
| `StreamLogs.dfy` | one log per ring incarnation, and the proof that the rings refine it |
| `BitrateLimit.dfy` | the sliding-window bitrate limiter |
| `Teardown.dfy` | registration and teardown of publishers and pullers, one lock acquisition per step |
| `Listener.dfy` | held, closed and handed-off sockets, takeover, the publisher map, several listeners over it |
| `Admission.dfy` | whole runs of those listeners: who gets a key, who loses it, who is kicked |
| `PlayerKeys.dfy`, `RateLimit.dfy` | the player-key cache; the per-address webhook limiter |
| `Relays.dfy` | the pusher's reconnect queue; the puller's round-robin |
| `ByteFifo.dfy` | the growable byte FIFO |
| `LogRateLimit.dfy` | the escalating log limiter |

Time is an explicit argument, nondecreasing where a theorem says so. Webhook answers, `connect()` results, socket events
and the JSON parser are inputs. Integers are unbounded: the 64-bit counters are assumed not to overflow, and the
limiter's tolerance is a real number rather than a `float`.

## What turned out not to hold as stated

- A read between the two halves of a `put` can go wrong in two ways: a reader that joins there is later offered the
  whole ring (`TwoStepPut.AnchorInGapIsOfferedWholeRing`), and a reader that the pending bytes overtake by a lap is given
  bytes a lap too new (`TwoStepPut.LappedInGapReadsALapAhead`). `TwoStepPut.GapReadIsLogReadIff` gives the exact
  condition for one read and `TwoStepPut.FollowsLogIffDisciplined` for a whole run.
- A ring does not always hold one latency window: a fraction of a second is cut off (`StreamStore.RingHoldsWindowIff`).
  `SLSMapData.hpp` speaks of two windows; the code and its own comment use one, and the model follows the code.
- A puller's teardown, and a publisher that lost the race to register and finds the key free when it checks, can delete
  the ring of the next owner (`Teardown.UntameStepCanSteal`). `Teardown.StealsExactly` names the stealing steps, and
  `Teardown.OneStepTeardownIsSafe` shows that without those two no run steals.
- `reconnect_all` can report success with URLs still queued (`Pushers.OkWithUrlsLeft`); the worker then drops the manager
  from its retry list.
- A successful round-robin call moves on by as many upstreams as it tried, not by one (`Pullers.CallsRotate`,
  `Pullers.OneSuccessCanMoveTwo`).
- An address that finds the limiter's table full is not limited at all, and a limit of 0 lets one webhook per window
  through (`RateLimits.FullTableLiftsTheLimit`, `RateLimits.ZeroLimitLetsOneThrough`).
- The FIFO's growth branch loses its place unless the buffer was full and the put is at least 4096 bytes
  (`ByteFifos.GrowthKeepsRelationIff`); a later over-read leaves a negative count, after which a put can vanish or be
  undefined (`ByteFifos.PutAfterOverread`).
- A log line that opens a new window forgets what was suppressed before it (`LogRateLimits.ReportIsExactIff`).
  The header of that class describes an every-Nth policy; the code, and the model, follow the escalating one.
- A publisher refused by its webhook has its socket closed one tick before its entry leaves the pending list, and
  listener teardown closes held publishers but not held players (`Listeners.TickLeavesOnlyWaiting`,
  `Listeners.TeardownLeavesHeldPlayers`).
- A bitrate window shorter than a second can under-report (`BitrateLimits.ShortWindowUndershoots`).

## Model

| member | source | states |
|---|---|---|
| RecycleArrays.StoreExtends | src/core/SLSRecycleArray.cpp:128-150 | after an accepted put the buffer holds exactly the last N bytes of the log extended by the new bytes, each at its wrapped position, and the head is the wrapped count |
| RecycleArrays.ReadyIsLag | src/core/SLSRecycleArray.cpp:254-275 | for every lag in 1..N-1, wrap included, the ready length read off the two positions is the counter lag |
| RecycleArrays.CopyOutIsSlice | src/core/SLSRecycleArray.cpp:267-299 | copying out with at most one wrap yields the contiguous log bytes from the reader's count on |
| RecycleArrays.GetRefinesLog | src/core/SLSRecycleArray.cpp:156-323 | every get is the log read: the next contiguous bytes, aligned down; a reader resyncs exactly when its lag reaches the buffer size; a first or stale reader joins at the end |
| RecycleArrays.LogGet | src/core/SLSRecycleArray.cpp:170-285 | a read jumps if and only if it is a first or stale one, or its lag is not below the buffer size; otherwise it delivers the lag or the caller's size, whichever is less, aligned down, from the log at its count |
| RecycleArrays.ReaderCatchesUp | src/core/SLSRecycleArray.cpp:254-322 | n reads in a row with no put between deliver, in order, as much of the backlog as n times the caller's size allows |
| RecycleArrays.BacklogIsNextDrain | src/core/SLSRecycleArray.cpp:330-340 | for an anchored reader the gauge is the size of its next drain, and it is at the clamp exactly when that drain resyncs |
| RecycleArrays.RecycleArray.constructor | src/core/SLSRecycleArray.cpp:58-75 | a zeroed default-size buffer with a fresh identity and an empty log |
| RecycleArrays.RecycleArray.SetSize | src/core/SLSRecycleArray.cpp:95-111 | replaces the buffer by a zeroed one with a new identity and an empty log |
| RecycleArrays.RecycleArray.StoreLocked | src/core/SLSRecycleArray.cpp:128-146 | the in-place copy, wrapping at most once, equals the value-level store |
| RecycleArrays.RecycleArray.Put | src/core/SLSRecycleArray.cpp:113-154 | appends to the log and keeps the buffer representing it, or refuses an empty or oversized put unchanged |
| RecycleArrays.RecycleArray.Drain | src/core/SLSRecycleArray.cpp:254-322 | the branchy copy-out and token update compute the specified bytes and token |
| RecycleArrays.RecycleArray.Get | src/core/SLSRecycleArray.cpp:156-323 | the reader receives the log read, its token keeps tracking the ring, overruns are counted once per resync, the ring is untouched |
| TwoStepPut.HeadFollowsCount | src/core/SLSRecycleArray.cpp:128-150 | in every run, reads in the gap included, the head is the wrapped count plus what is stored and not yet counted |
| TwoStepPut.DisciplinedRunsReadTheLog | src/core/SLSRecycleArray.cpp:128-150 | with bytes and count as two steps, every run whose gap reads are anchored, not ahead of the counter and less than a lap behind returns exactly the log reads; runs with no gap read are among them |
| TwoStepPut.GapReadIsLogReadIff | src/core/SLSRecycleArray.cpp:170-300 | inside the gap, a read returns the log's bytes and leaves the reader at the log's place if and only if the reader is anchored, not ahead of the counter and less than a lap behind the head |
| TwoStepPut.FollowsLogIffDisciplined | src/core/SLSRecycleArray.cpp:128-300 | a run follows the log, read by read in bytes and place, if and only if every one of its gap reads is of that kind |
| TwoStepPut.LappedInGapReadsALapAhead | src/core/SLSRecycleArray.cpp:204-300 | an anchored reader that the pending bytes put more than a lap behind is not resynced: it gets the log from a lap further on and books it as its next bytes |
| TwoStepPut.GapReadKeepsPlace | src/core/SLSRecycleArray.cpp:170-237 | for a put shorter than a lap, a read inside the gap keeps the reader's position and count in step, right bytes or not, if and only if it is anchored and its counted lag is in 0..N-1 |
| TwoStepPut.AnchorInGapIsOfferedWholeRing | src/core/SLSRecycleArray.cpp:170-182 | for every ring and every put shorter than a lap, a reader that joins in the gap has nothing unread and is then offered all N bytes |
| TwoStepPut.JoinDuringPutExample | src/core/SLSRecycleArray.cpp:170-300 | the 8-byte ring and the put of 3: eight bytes delivered, five of them never put |
| StreamStore.RingSize | src/core/SLSMapData.cpp:94-117 | the chosen size is always between 8 MB and 32 MB |
| StreamStore.RingHoldsWindowIff | src/core/SLSMapData.cpp:82-117 | the ring holds one latency window if and only if the default suffices, or the window is at most a second or whole seconds and fits the cap |
| StreamStore.RingIsNoLarger | src/core/SLSMapData.cpp:94-117 | beyond the default a ring is never larger than one window, or one second if the window is shorter |
| StreamStore.FractionalSecondIsCut | src/core/SLSMapData.cpp:99-104 | a concrete bitrate and latency whose window does not fit |
| StreamStore.AddKeepsBudget | src/core/SLSMapData.cpp:44-164 | add, re-add and both refusals keep counters, caps, sizes and continuity keys in step with the rings |
| StreamStore.AddRefusesIff | src/core/SLSMapData.cpp:44-164 | a new key is refused if and only if its ring would take the stream count or the bytes past a non-zero cap; admitted, it has an empty ring of the right size; how many identities each outcome uses up |
| StreamStore.AddAgainIsIdle | src/core/SLSMapData.cpp:44-82 | adding a key that is there changes nothing |
| StreamStore.RemoveKeepsBudget | src/core/SLSMapData.cpp:251-288 | remove, of a present or absent key, keeps them in step |
| StreamStore.SetCapsKeepsBudget | src/core/SLSMapData.cpp:166-172 | caps changed later are respected exactly when the live totals already fit |
| StreamStore.BudgetConserved | src/core/SLSMapData.cpp:44-172 | over every run of add, remove, clear, put and get: stream count is the number of rings, bytes the sum of their sizes, both under any non-zero cap, every ring 8 to 32 MB, continuity keys the ring keys |
| StreamStore.Step | src/core/SLSMapData.cpp:316-408 | every step of the store keeps identities unique, non-zero and ahead of no source, and every token inside its buffer |
| StreamStore.IdentitiesNeverReturn | src/core/SLSRecycleArray.cpp:53-111 | a ring identity seen at two moments of a run was on the same ring under the same key at every moment between: no identity is reused or moved |
| MapDatas.MapData.SetCaps | src/core/SLSMapData.cpp:166-172 | sets the caps and nothing else |
| MapDatas.MapData.Add | src/core/SLSMapData.cpp:44-164 | the value-level add, return code included |
| MapDatas.MapData.Remove | src/core/SLSMapData.cpp:251-288 | the value-level remove, return code included |
| MapDatas.MapData.Clear | src/core/SLSMapData.cpp:410-437 | frees every ring and refunds each one |
| MapDatas.MapData.RefundAll | src/core/SLSMapData.cpp:413-423 | the freeing loop takes off one stream and one ring size per ring, in any order |
| MapDatas.MapData.Put | src/core/SLSMapData.cpp:316-377 | changes only the ring of its key |
| MapDatas.MapData.Get | src/core/SLSMapData.cpp:379-408 | changes no ring and delivers the log read of the ring of its key |
| StreamLogs.StepKeepsLogInv | src/core/SLSRecycleArray.cpp:186-237 | every step keeps each reader's sessions exact slices of their logs, in order and without overlap |
| StreamLogs.SimulateStep | src/core/SLSMapData.cpp:44-164 | one step of all rings and tokens is one step of the logs, with the same answer |
| StreamLogs.RingsRefineLogs | src/core/SLSRecycleArray.cpp:113-323 | over every run of add, remove, clear, resize, put, join and get with any number of readers, the rings answer call by call as the logs do |
| StreamLogs.IncarnationIsolation | src/core/SLSRecycleArray.cpp:186-202 | with tokens surviving their rings, all the bytes a reader's calls on the rings returned are, stretch by stretch, contiguous slices of what was put into the incarnation it was anchored on; stretches never overlap or go back; live identities are distinct and never 0 |
| StreamLogs.SessionsAreDeliveries | src/core/SLSRecycleArray.cpp:156-323 | the recorded stretches of a reader hold exactly the bytes its calls returned, in order |
| BitrateLimits.WindowIsSuffix | src/core/SLSBitrateLimit.cpp:87-108 | over every run the queue is exactly the history since (last cleanup - window) and the byte total its sum |
| BitrateLimits.FrontAge | src/core/SLSBitrateLimit.cpp:103-119 | the oldest point is at most window + 1000 ms old |
| BitrateLimits.LazyDominatesExact | src/core/SLSBitrateLimit.cpp:103-122 | for a window of a second or more the computed kbps is never below the exact sliding-window kbps |
| BitrateLimits.ShortWindowUndershoots | src/core/SLSBitrateLimit.cpp:110-122 | for every window below a second there is a run where it is |
| BitrateLimits.NeverFalseAlarm | src/core/SLSBitrateLimit.cpp:87-128 | a stream whose every block stays within the limit over its span or a second is never flagged, if tolerance >= (window + 1000) / window |
| BitrateLimits.DefaultsMeetTheBound | src/core/SLSPublisher.cpp:80-86 | with the 5000 ms window that bound is exactly the default tolerance 1.2 |
| BitrateLimits.SteadyFalseAlarm | src/core/SLSBitrateLimit.cpp:103-128 | for every window and limit, a compliant steady stream fast enough that the extra second in the queue carries it past the tolerance is flagged |
| BitrateLimits.LowerToleranceFalseAlarms | src/core/SLSBitrateLimit.cpp:103-128 | so at every window, for a limit of any multiple of 8008 kbit/s, every tolerance 0.2 percent or more below (window + 1000) / window flags some compliant stream |
| BitrateLimits.DisconnectIsExact | src/core/SLSBitrateLimit.cpp:127-186 | OK if and only if the check does not exceed; DISCONNECT if and only if it does and its maximal unbroken run of exceeding checks began at least the threshold earlier |
| BitrateLimits.VerdictIsByRate | src/core/SLSBitrateLimit.cpp:110-128 | a check is OK if and only if the rate over its lazy window is at most the limit times the tolerance, rounded down |
| BitrateLimits.OverloadIsFlagged | src/core/SLSBitrateLimit.cpp:103-186 | for a window of a second or more, a rate above the spike limit in the exact sliding window is never answered OK, from the first check on |
| BitrateLimits.LastingOverloadDisconnects | src/core/SLSBitrateLimit.cpp:130-150 | and if every check over the threshold finds it so, the last one disconnects |
| BitrateLimits.UnlimitedKeepsExactWindow | src/core/SLSBitrateLimit.cpp:92-101 | without a limit every check is OK and the queue is exactly the last window |
| BitrateLimits.RunStart | src/core/SLSBitrateLimit.cpp:130-138 | the start of that run: everything from it on exceeds, the check before it does not |
| BitrateLimits.BitrateLimit.Init | src/core/SLSBitrateLimit.cpp:56-85 | rejects bad parameters unchanged, otherwise starts empty |
| BitrateLimits.BitrateLimit.Cleanup | src/core/SLSBitrateLimit.cpp:188-197 | the pruning loop drops exactly the old prefix and its bytes |
| BitrateLimits.BitrateLimit.Check | src/core/SLSBitrateLimit.cpp:87-186 | the value-level check, verdict included |
| Teardown.OwnerLeavesByItself | src/core/SLSMapPublisher.cpp:65-89 | over any run, a key that changes or loses its owner does so through that owner's own removal |
| Teardown.RegisteredPublisherNeverSteals | src/core/SLSPublisher.cpp:112-153 | however steps interleave, a publisher that registered never deletes the ring of another owner of its key |
| Teardown.NoRingLeaks | src/core/SLSPublisher.cpp:112-153 | in every state of every run each ring belongs to a role that streams into it or is on its way to removing it, so an ended broadcast leaves none behind |
| Teardown.FreeKeyIsTaken | src/core/SLSMapPublisher.cpp:65-89 | from every state with the key free, a publisher or puller can register and gets its ring |
| Teardown.FailedAddLetsGo | src/core/SLSPullerManager.cpp:231-240 | a puller refused its ring gives the key up at once, a publisher holds it until its own teardown |
| Teardown.TheftIsTheOnlyLoss | src/core/SLSPublisher.cpp:114-146 | a streaming role loses its ring in a step if and only if the step deletes it from under a foreign owner |
| Teardown.StealsExactly | src/core/SLSPublisher.cpp:112-153 | in every state of every run a step deletes another owner's ring if and only if the key has a ring and an owner and the step is the ring removal of a publisher that never registered and whose owner check found nobody, or the second removal of a puller |
| Teardown.OneStepTeardownIsSafe | src/core/SLSPublisher.cpp:114-127 | if pullers remove both entries in one step and a publisher that lost the race to register still finds the key owned when it checks, no run steals a ring and every streaming role has one; the owner check is what makes it so |
| Teardown.UntameStepCanSteal | src/core/SLSPuller.cpp:56-70 | in every state, a puller's map removal, or a losing publisher's check that finds the key free, can be continued by one newcomer into the loss of the ring that newcomer streams into |
| Teardown.PullerReachesUntame | src/core/SLSPullerManager.cpp:220-240 | a run from the start in which a puller gets to that step |
| Teardown.LoserReachesUntame | src/core/SLSListenerHandler.cpp:893-904 | a run from the start in which a publisher whose registration failed gets to that check |
| Listeners.SocketsConserved | src/core/SLSListenerHandler.cpp:129-851 | in every run of any number of listeners and until a listener is torn down, a socket is in exactly as many of its closed, handed off, held publisher and held player places as that listener accepted it times |
| Listeners.TeardownLeavesHeldPlayers | src/core/SLSListenerCore.cpp:66-80 | listener teardown accounts for every socket except the held players |
| Listeners.TickLeavesOnlyWaiting | src/core/SLSListenerHandler.cpp:1276-1343 | after a tick no held player is past its deadline or has a live cache answer, and a held publisher waits on a live request or was refused at this very tick |
| Listeners.PlayersAreSettled | src/core/SLSListenerHandler.cpp:1276-1343 | a tick hands off exactly the held players whose key a live cache entry approves and whose stream has room, keeps exactly those with no live entry and time left, and closes the others |
| Listeners.PlayerAtTheDoor | src/core/SLSListenerHandler.cpp:551-610 | a new player is handed off, held with the webhook timeout and 2000 ms, or closed, by the door checks, the live cache entry, the cap of 1024 and the room |
| Listeners.OnlyRequestedAreKept | src/core/SLSListenerHandler.cpp:1248-1274 | a tick keeps only publishers that had a request in flight, so a refused one is gone at the next |
| Admissions.AdmissionIsSafe | src/core/SLSListenerHandler.cpp:744-934 | in every run of any number of listeners over one map: every owner got its key at a call that found the key free, a relay by registering, a broadcaster by coming for it and, with a webhook, through a request of its own whose first answer seen was a yes, before the deadline; each listener's pending keys are distinct and at most 1024, none without a webhook |
| Admissions.FreeKeyIsGranted | src/core/SLSListenerHandler.cpp:744-906 | without a webhook, or with a yes already there, an accept on a free key makes the publisher its owner and hands it off |
| Admissions.UnansweredIsHeld | src/core/SLSListenerHandler.cpp:744-851 | with room and no pending twin, an unanswered publisher is held for 4000 ms |
| Admissions.YesIsAdmitted | src/core/SLSListenerHandler.cpp:1248-1274 | the converse of AdmissionIsSafe, after any run: a publisher waiting for its answer that gets its yes in time owns its key after that tick, if the key is free, and is handed off |
| Admissions.PlayersInWereApproved | src/core/SLSListenerHandler.cpp:1284-1312 | a player let in from the pending list had, as its key's most recent answer, a 200 with a stream id that is still within its time to live |
| Admissions.PlayerInWasApproved | src/core/SLSListenerAuth.cpp:263-295 | the same for a player let in at the door by its key |
| Admissions.HeldPlayerWaits | src/core/SLSListenerHandler.cpp:553-582 | in every run a held player stays held until a tick sees a live answer or the deadline |
| Admissions.AnswerLetsIn | src/core/SLSListenerHandler.cpp:1298-1312 | and the tick that sees an approving one lets it in, if the stream has room |
| Admissions.OwnerLeavesByItself | src/core/SLSMapPublisher.cpp:65-89 | in every such run a key that changes or loses its owner was first given up by that owner's own teardown |
| Admissions.RolesComeAndGo | src/core/SLSMapPublisher.cpp:158-176 | a relay gets a free key and never a taken one; a teardown frees the key of the role that owns it and no other |
| Admissions.TakeoverIsExact | src/core/SLSListenerHandler.cpp:866-904 | after any run, an authorised newcomer on a taken key is closed and changes no owner; the owner is kicked unless it came in after the look-up or is a broadcaster with a media receipt in the run's last 1000 ms |
| Admissions.ActiveBroadcastersAreSpared | src/core/SLSListenerHandler.cpp:868-893 | after any run, no kick of the next call or tick of any listener, however many it settles, hits a broadcaster with a receipt in the last 1000 ms |
| Listeners.PublisherMap.SetPush | src/core/SLSMapPublisher.cpp:65-89 | registers a free key, never replaces an owner |
| Listeners.PublisherMap.Remove | src/core/SLSMapPublisher.cpp:158-176 | erases one entry holding this very role and touches no other role's |
| Listeners.Listener.FinishPublisherAccept | src/core/SLSListenerHandler.cpp:853-934 | refuses, kicks and refuses, fails to insert when another owner came in after the look-up, or registers, as specified |
| Listeners.Listener.HandlePublisher | src/core/SLSListenerHandler.cpp:738-851 | cap, duplicate and dispatch checks, then the first poll |
| Listeners.Listener.HandlePlayer | src/core/SLSListenerHandler.cpp:551-610 | holds an uncached key under the cap, otherwise closes or finishes |
| Listeners.Listener.DrivePendingPublishers | src/core/SLSListenerHandler.cpp:1248-1274 | the erase-while-iterating loop settles every held publisher once, in order |
| Listeners.Listener.DrivePendingPlayers | src/core/SLSListenerHandler.cpp:1276-1343 | the same for held players |
| Listeners.Listener.OnWorkerTick | src/core/SLSListenerHandler.cpp:1230-1246 | nothing on a listener that is shutting down; otherwise the cache sweep, one processing step per arrived answer, then publishers, then players against the cache as it is by then |
| Listeners.RoleStates.Received | src/core/SLSRole.cpp:531-537 | stamps the role with the time of its latest media |
| PlayerKeys.EntryFor | src/core/SLSListenerAuth.cpp:351-462 | an answer is cached as valid if and only if it is a 200 with a stream id of legal length; valid entries live for the full time to live, negative ones a quarter; a player limit is kept if and only if the answer is valid and carries an integer of at least -1 |
| PlayerKeys.InsertBounded | src/core/SLSListenerAuth.cpp:35-70 | an insertion never takes the cache past 50000 entries |
| PlayerKeys.CacheIsLatestAnswers | src/core/SLSListenerAuth.cpp:35-86 | over every run each cached entry is its key's latest answer, and the size stays within the cap |
| PlayerKeys.HitIsLatestAnswer | src/core/SLSListenerAuth.cpp:263-305 | a live hit is the most recently processed answer for the key, still within its own time to live |
| PlayerKeys.WithoutEvictionExact | src/core/SLSListenerAuth.cpp:72-86 | as long as nothing is evicted, sweeps and lookups included, the cache hits exactly when an unbounded one would |
| PlayerKeys.HitIff | src/core/SLSListenerAuth.cpp:263-305 | as long as nothing is evicted, a key hits if and only if its latest answer's lifetime is not over |
| PlayerKeys.ProcessedIsCached | src/core/SLSListenerAuth.cpp:35-70 | an answer is in the cache once it is processed, whatever had to make room |
| PlayerKeys.SweepIsExact | src/core/SLSListenerAuth.cpp:72-86 | a due sweep keeps exactly the live entries, any other keeps all |
| PlayerKeys.LookupIsExact | src/core/SLSListenerAuth.cpp:263-295 | a lookup erases the entry it finds expired and nothing else |
| PlayerKeys.OnlyTheSoonestIsEvicted | src/core/SLSListenerAuth.cpp:45-68 | a live entry is lost only by eviction from a cap full of live entries, and only the soonest to expire |
| PlayerKeys.PlayerKeyCache.EraseExpired | src/core/SLSListenerAuth.cpp:48-54 | the erase loop leaves exactly the live entries |
| PlayerKeys.PlayerKeyCache.FindVictim | src/core/SLSListenerAuth.cpp:57-67 | the scan finds an entry of minimal expiry |
| PlayerKeys.PlayerKeyCache.Process | src/core/SLSListenerAuth.cpp:351-462 | one processed answer, eviction included |
| PlayerKeys.PlayerKeyCache.SweepExpired | src/core/SLSListenerAuth.cpp:72-86 | the time-gated sweep |
| PlayerKeys.PlayerKeyCache.Drain | src/core/SLSListenerAuth.cpp:464-482 | folds in every arrived answer, one legal step each |
| PlayerKeys.PlayerKeyCache.Find | src/core/SLSListenerAuth.cpp:263-295 | finds exactly the live entries and erases an expired one |
| RateLimits.RateIsBounded | src/core/SLSListenerAuth.cpp:122-238 | in every run in which each dispatch of an address finds room in the table, whatever happens to other addresses, that address sends at most max(1, limit) webhooks in any closed window, although check and record happen at different times and old entries are collected at two windows |
| RateLimits.AttemptKeepsSpacing | src/core/SLSListenerAuth.cpp:256-261 | one validation keeps any max(1, limit) + 1 consecutive charges to an address more than a window apart |
| RateLimits.LimitedIff | src/core/SLSListenerAuth.cpp:122-159 | for a limit of at least 1 an address is refused if and only if it was charged that often in the closed window that ends now |
| RateLimits.DispatchesIff | src/core/SLSListenerAuth.cpp:240-329 | over every run in which the address is tracked, its next validation is charged if and only if fewer than the limit fall into that window, its key is neither cached nor in flight, and fewer than 1024 are in flight |
| RateLimits.IdleAddressesAreCollected | src/core/SLSListenerAuth.cpp:209-238 | a collection that is due forgets exactly the other addresses with no charge in the last two windows |
| RateLimits.UntrackedIsNeverLimited | src/core/SLSListenerAuth.cpp:181-204 | from every state whose table is full of live addresses, an address outside it sends any number of webhooks in one instant |
| RateLimits.FullTableLiftsTheLimit | src/core/SLSListenerAuth.cpp:161-207 | such a state is reached from the empty one by 100000 addresses asking once, so the bound needs the room |
| RateLimits.ZeroLimitLetsOneThrough | src/core/SLSListenerAuth.cpp:138-159 | at limit 0 an unknown address gets its first request through, and no later one within the window |
| RateLimits.PendingBounded | src/core/SLSListenerAuth.cpp:307-323 | never more than 1024 validations in flight, one per key |
| RateLimits.PendingIsInFlight | src/core/SLSListenerAuth.cpp:307-329 | a key is pending if and only if a webhook for it was sent and not resolved since |
| RateLimits.RateLimiter.TrimFront | src/core/SLSListenerAuth.cpp:145-149 | the per-address trim loop |
| RateLimits.RateLimiter.Collect | src/core/SLSListenerAuth.cpp:209-238 | the map-wide loop trims every address and erases the empty ones |
| RateLimits.RateLimiter.IsRateLimited | src/core/SLSListenerAuth.cpp:122-159 | the value-level check |
| RateLimits.RateLimiter.Update | src/core/SLSListenerAuth.cpp:161-207 | the value-level record, full table included |
| RateLimits.RateLimiter.Attempt | src/core/SLSListenerAuth.cpp:256-350 | check, cache outcome, pending bound, charge, URL length and dispatch in the code's order |
| Pushers.EmptiedMeansOk | src/core/SLSPusherManager.cpp:346-409 | an emptied retry queue is always reported as OK |
| Pushers.PassIsExact | src/core/SLSPusherManager.cpp:346-409 | a pass removes an entry if and only if it is due, there is a publisher and its connect succeeds; due entries that stay are stamped now, others keep their time |
| Pushers.NoPublisherNoConnect | src/core/SLSPusherManager.cpp:369-384 | without a publisher a pass connects nothing, stamps every due entry and reports OK only of an empty queue |
| Pushers.OkWithUrlsLeft | src/core/SLSPusherManager.cpp:346-409 | OK is reported with URLs still queued if and only if the first entry is attempted, every attempt connects and some entry is not due |
| Pushers.OkWithUrlsLeftExample | src/core/SLSPusherManager.cpp:364-368 | two URLs, one connected, one not due: OK, and the second still queued |
| Pushers.PusherManager.ReconnectAll | src/core/SLSPusherManager.cpp:346-409 | the queue loses exactly the connected URLs, not-due times are kept, all others are set to now; OK if and only if every attempt succeeded and nothing was skipped before the first attempt |
| Pullers.StopsAtFirstSuccess | src/core/SLSPullerManager.cpp:72-110 | all upstreams tried before the last one failed, and the last one did not unless all were tried |
| Pullers.CandidatesDistinct | src/core/SLSPullerManager.cpp:68-75 | no upstream is tried twice in a call |
| Pullers.StartsAtTheNext | src/core/SLSPullerManager.cpp:64-75 | a manager that never connected tries upstream 0 first, any other the one after its stored index |
| Pullers.CallsRotate | src/core/SLSPullerManager.cpp:64-111 | after any sequence of calls the stored index has gone round by the sum of what each call tried, calls stopped by an over-long URL counting 0 |
| Pullers.ImmediateSuccessesRotate | src/core/SLSPullerManager.cpp:64-111 | m calls that each connect on their first attempt move on by exactly m upstreams, wrapping |
| Pullers.OneSuccessCanMoveTwo | src/core/SLSPullerManager.cpp:90-111 | one successful call past a dead upstream moves on by two |
| Pullers.PullerManager.TryFrom | src/core/SLSPullerManager.cpp:71-110 | the endless loop ends within n attempts, in the order cur+1..n-1, 0..cur, with the code of the last one tried |
| Pullers.PullerManager.ConnectLoop | src/core/SLSPullerManager.cpp:50-113 | stores the index where it stopped; a URL that does not fit fails and moves nothing |
| ByteFifos.GetTakesOldest | src/core/SLSArray.cpp:139-201 | while write = (read + count) mod size holds, get returns the oldest bytes and leaves the rest, in order |
| ByteFifos.PutAppends | src/core/SLSArray.cpp:109-130 | a put that fits appends |
| ByteFifos.GrowthKeepsRelationIff | src/core/SLSArray.cpp:88-107 | growth copies held and new bytes in order, but restores that relation if and only if the buffer was full and the put is at least 4096 bytes |
| ByteFifos.BrokenGrowthOverreads | src/core/SLSArray.cpp:97-106 | otherwise the next large get returns uninitialised bytes and the count goes negative |
| ByteFifos.PutAfterOverread | src/core/SLSArray.cpp:88-126 | a put after that is undefined if and only if it is longer than the buffer and the junk together; otherwise it goes in place, and one of exactly the junk's length can never be read |
| ByteFifos.DefinedUntilOverread | src/core/SLSArray.cpp:88-126 | as long as the count is not negative no put copies outside the buffer |
| ByteFifos.RunIsFifo | src/core/SLSArray.cpp:78-201 | on every run that keeps to the guard, bytes got followed by bytes held are the bytes put |
| ByteFifos.ByteFifo.Get | src/core/SLSArray.cpp:133-201 | the value-level get |
| ByteFifos.ByteFifo.Put | src/core/SLSArray.cpp:78-131 | the value-level put, growth branch as written and negative counts included, for every put that does not copy outside the buffer |
| ByteFifos.ByteFifo.Clear | src/core/SLSArray.cpp:71-76 | resets positions and count, keeps the buffer |
| LogRateLimits.LinesAreBounded | src/core/SLSLogRateLimiter.cpp:65-102 | at most max(1, threshold) + window / interval lines per window at any event rate; logged plus suppressed is the event count |
| LogRateLimits.LogsExactlyWhen | src/core/SLSLogRateLimiter.cpp:50-102 | over every run, by the clock alone: a line is written if and only if the event opens a window, is among its first threshold events, or comes minIntervalMs after the last line; the count it reports is the events of the window |
| LogRateLimits.ReportIsExactIff | src/core/SLSLogRateLimiter.cpp:67-96 | a line reports exactly the events suppressed since the previous line if and only if it does not open a window while some are pending |
| LogRateLimits.WindowOpeningForgets | src/core/SLSLogRateLimiter.cpp:67-77 | a run where one suppressed event is never reported |
| LogRateLimits.CleanupIsInvisible | src/core/SLSLogRateLimiter.cpp:122-138 | no cleanup cuts a live window short: callers see the same verdicts and figures with and without cleanups |
| LogRateLimits.CleanupIsExact | src/core/SLSLogRateLimiter.cpp:122-138 | a cleanup erases exactly the keys silent for more than ten windows |
| LogRateLimits.LogRateLimiter.CleanupOldEntries | src/core/SLSLogRateLimiter.cpp:122-138 | the erase loop leaves exactly the unexpired entries |
| LogRateLimits.LogRateLimiter.ShouldLog | src/core/SLSLogRateLimiter.cpp:34-102 | the value-level decision for this key, every hundredth call of any limiter after a cleanup of this one, other keys untouched |

## Left out

- Sockets, epoll, HTTP, DNS, configuration, signals, statistics and logging output: foreign calls or plumbing.
- The stream-id parsing, ACL scan, latency checks and player-limit overrides of the listener: each ends in one of the accept outcomes the model takes as input.
- The TS continuity and timecode scanners: the model keeps only the set of keys with continuity state; timecode state is not modelled.
- Diagnostic gauges of the ring and the limiter (high-water backlog, backpressure, drops, statistics, log times): plain counters.
- `reset_stats` of the bitrate limiter outside `init`: nothing in the server calls it there.
- Lock release and reacquisition inside `CSLSMapData`, memory ordering of the atomics: one locked section is one step; only the split `put` and the two-map teardown are interleaved.
- Null pointers and negative lengths: an empty sequence stands for both on the put side, buffer capacities are natural numbers.
- Teardown: the look-up, registration, ring and map steps interleave; in module Listeners a call is atomic except that another owner may come in between its look-up and insertion.
- RateLimits.RateIsBounded: does not cover an address that is charged while the table has no room for it, because the code then leaves it unlimited.
- ByteFifos.ByteFifo.Put: does not cover puts that copy a negative length or past the buffer, possible only after an over-read, because their effect is undefined.
- Pullers.PullerManager.ConnectLoop: requires a stored index below the number of upstreams, which holds because a manager's upstream list is set once, at creation.
- `connect_all`, `connect_hash`, the relay map, the role list and the worker's list of managers to retry.
