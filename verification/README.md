# Verified models of px

px is a local HTTP proxy that evaluates PAC scripts, authenticates against an upstream proxy on behalf of its
clients and relays CONNECT tunnels. This project models its hardest logic in Dafny and proves properties of it for
every input, every interleaving and every reachable state. `dafny verify dfyconfig.toml` checks all of it.

| files | what they model |
|---|---|
| `ResultCache`, `CacheHistory`, `CacheObject` | the PAC result cache: the operations on values, what every history of operations leads to, and the mutable map-and-list object that refines them |
| `Evaluator`, `EvaluatorInvariant`, `EvaluatorTheorems`, `EvaluatorAnswers`, `EvaluatorTermination` | the PAC evaluator as a labelled transition system: any number of callers, loaders and closers, with a mutex, a condition variable, an atomically swapped pool, slot channels and the cache |
| `Relay`, `Semaphore` | the two pumps of a CONNECT tunnel, and the counting channel that bounds concurrent requests |
| `Challenges`, `Sessions`, `Upstream`, `UpstreamLogs`, `UpstreamConnect`, `UpstreamPolicy` | the retry loop against an upstream proxy that answers 407 (sections 11.7 and 15.5.8 of RFC 9110), its sessions, and what the log of an exchange says |
| `Basics`, `Text`, `Routes`, `Routing` | shared notions; from a PAC script's answer to a route and to the connection of a tunnel |
| `Glob`, `Addresses` | `shExpMatch`, `isInNet` and the address matcher |
| `Lists`, `Decimals`, `Binary64`, `Layers`, `Config`, `ConfigTyped`, `ConfigLoading`, `ConfigNames`, `ConfigRoundTrip`, `ConfigNormal`, `SaveAndLoad` | applying keyed settings in a fixed order, and saving and loading the configuration |

The concurrent parts are transition systems with one step per atomic action of the program; the clock, the script, the
fetch, the network and the security libraries are parameters or nondeterministic steps. Sequential code that updates
objects is written as classes and methods with loops, each proved against a function on values.

Five results say where the code departs from what one would expect, each with the exact condition:

- A cache key identifies URL and host only for hosts without NUL (`ResultCaches.KeysCollideIff`).
- A wildcard such as `10.*.0.1` accepts addresses that do not match it (`Addresses.RangeIsExactIff`).
- A timeout saved as tenths of a second may come back one nanosecond short, because the product of the parsed
  number with 1e9 is truncated: 4.1 s becomes 4099999999 ns (`Binary64.LoadedExactIff`, `SaveAndLoad.AllRestoredIff`).
- The first 407 is answered with the last challenge of the chosen scheme and later ones with the first mention of it
  (`Challenges.FirstAndLastOffer`, with `Challenges.RepeatedDigest` and `Challenges.TabbedDigest`).
- Opening a tunnel returns an error with the connection still open when the peer sends a challenge that cannot be
  answered (`UpstreamConnect.AbandonedIff`, with `UpstreamPolicy.BareChallengeAbandons`).

Where the comment on `connBodyCloser` in internal/proxy/handler.go:25-27 says the response body owns the connection, the
code closes it by the deferred call on every return; the model follows the code. `writeConnectRequest` has a branch
that would pass on the client's own Proxy-Authorization when authentication is off, but the header is skipped as
hop-by-hop first (internal/proxy/handler.go:475-480); the model follows the code there too.

## Model

| member | source | states |
|---|---|---|
| `ResultCaches.GetKeeps` | internal/pac/cache.go:49-63 | a get keeps keys distinct, size within capacity and every entry in the current generation (so its generation test never fires), and adds nothing |
| `ResultCaches.PutKeeps` | internal/pac/cache.go:77-105 | a guarded put keeps the cache coherent and adds at most the new entry, in the current generation |
| `ResultCaches.GuardedPutIsFound` | internal/pac/cache.go:77-105 | a guarded put of the current generation is found by every lookup of its key within one TTL |
| `ResultCaches.StalePutIsIgnored` | internal/pac/cache.go:80-82 | a guarded put of another generation changes nothing |
| `ResultCaches.NewCacheSettings` | internal/pac/cache.go:9-43 | positive settings are kept, others become 30 seconds and 4096 entries |
| `ResultCaches.KeysCollideIff` | internal/pac/cache.go:45-47 | two different hosts can share a key exactly when one ends with NUL followed by the other |
| `ResultCaches.CacheKeyInjective` | internal/pac/cache.go:45-47 | for NUL-free hosts equal keys mean equal URL and host |
| `ResultCaches.CacheKeyNotInjective` | internal/pac/cache.go:45-47 | a concrete collision when a host contains NUL |
| `CacheHistory.HistoryRepresented` | internal/pac/cache.go:49-122 | after any sequence of operations each stored entry is the latest put of its key in the current generation, and the cache is coherent |
| `CacheHistory.HitIsLatestPut` | internal/pac/cache.go:49-105 | a hit returns the latest put of the key in this generation, made at most one TTL ago whatever was read since |
| `CacheHistory.PutIsRetained` | internal/pac/cache.go:49-105 | a put, plain or guarded in the current generation, is still found within its TTL as long as fewer than capacity other keys were touched and nothing invalidated |
| `CacheHistory.ListIsRecencyPrefix` | internal/pac/cache.go:49-105 | for any access sequence in which no lookup finds an expired entry, however long, the list is the first min(cap, n) keys of the recency order of all keys accessed |
| `CacheHistory.LargerCacheContainsSmaller` | internal/pac/cache.go:86-105 | under the same accesses, without expiry in either, a larger cache holds everything a smaller one holds, in the same order |
| `CacheHistory.FrequentNeverExpires` | internal/pac/cache.go:57-57 | when lookups of a key are never more than one TTL apart nothing expires, for every capacity and length of the run |
| `CacheObjects.ResultCache.ViewIsCoherent` | internal/pac/cache.go:14-28 | a valid object's map and list hold the same elements, and its value is coherent |
| `CacheObjects.ResultCache.constructor` | internal/pac/cache.go:30-43 | a new object represents the empty cache with the effective TTL and capacity |
| `CacheObjects.ResultCache.Get` | internal/pac/cache.go:49-63 | the in-place get has the result and effect of the operation on values |
| `CacheObjects.ResultCache.Generation` | internal/pac/cache.go:65-69 | returns the generation of the represented cache |
| `CacheObjects.ResultCache.Put` | internal/pac/cache.go:71-75 | the in-place put refines the operation on values in the current generation |
| `CacheObjects.ResultCache.PutIfGen` | internal/pac/cache.go:77-84 | the in-place guarded put refines the operation on values, which stores in the current generation and ignores any other |
| `CacheObjects.ResultCache.PutLocked` | internal/pac/cache.go:86-105 | overwriting and moving, or evicting and pushing, refines one put |
| `CacheObjects.ResultCache.EvictToFit` | internal/pac/cache.go:95-97 | the eviction loop drops exactly the least recent entries that do not fit |
| `CacheObjects.ResultCache.Invalidate` | internal/pac/cache.go:107-113 | the generation grows by one and nothing stays stored |
| `CacheObjects.ResultCache.RemoveElement` | internal/pac/cache.go:115-122 | removing an element takes it out of map and list and leaves the rest in order |
| `PacInvariant.StepKeepsInv` | internal/pac/pac.go:74-265 | every step of every thread keeps the joint invariant of control, publication, closing, slots, cache, answers and throttling |
| `PacInvariant.RunInv` | internal/pac/pac.go:54-265 | the invariant holds at every point of every run from a fresh evaluator |
| `PacInvariant.ReleaseNeverBlocks` | internal/pac/pac.go:92-93 | returning a slot never waits: the slot's own pool has room, even after a swap |
| `PacInvariant.WindowIsEmpty` | internal/pac/pac.go:244-246 | in every state between invalidate and the pool store the cache is empty |
| `PacTheorems.CachedEntriesAreCurrent` | internal/pac/pac.go:85-105 | each cached entry was computed by the pool last published, whose generation is the current one |
| `PacTheorems.GenerationsIncrease` | internal/pac/pac.go:239-248 | published generations are strictly increasing |
| `PacTheorems.ReplacedPoolIsNeverCached` | internal/pac/pac.go:103-104 | a put by an evaluation on a replaced pool leaves the cache as it is |
| `PacTheorems.ParkedHasLoader` | internal/pac/pac.go:170-194 | a thread parked on the condition variable coexists with a live loader that will broadcast |
| `PacTheorems.EmptyPoolHasHolder` | internal/pac/pac.go:92-93 | a pool without free slots has a thread holding one of its slots |
| `PacTheorems.SomeoneCanStep` | internal/pac/pac.go:74-265 | while some thread is unfinished some thread can step: no deadlock and no lost wakeup |
| `PacTheorems.Freshness` | internal/pac/pac.go:74-106 | a call started after a generation was published returns DIRECT or a result of that generation or a later one; `PacAnswers.AnswerIff` says which |
| `PacTheorems.FailedLoadIsInvisible` | internal/pac/pac.go:198-237 | a failed load changes neither pool, generation nor cached entries |
| `PacTheorems.CloseIsFinal` | internal/pac/pac.go:108-114 | after Close no pool is published and the generation is frozen, even with a load in flight |
| `PacTheorems.AnswersAfterClose` | internal/pac/pac.go:77-88 | answers given after Close are DIRECT or computed by a pool published before it |
| `PacTheorems.DrainedThenDirect` | internal/pac/pac.go:77-114 | once evaluations have drained and one TTL has passed, every new call returns DIRECT |
| `PacTheorems.SingleFlight` | internal/pac/pac.go:150-216 | `reloading` holds exactly when one loader is active, and loads never overlap |
| `PacTheorems.ReloadsAreSpaced` | internal/pac/pac.go:142-159 | any two soft reload starts are at least the reload interval apart, failed reloads included |
| `PacTheorems.AnswerIsForOwnQuery` | internal/pac/pac.go:74-106 | with NUL-free hosts an answer other than DIRECT was computed for the very URL and host asked |
| `PacAnswers.AnswerIff` | internal/pac/pac.go:77-105 | a call returns an answer exactly when one of its own steps decided so: its cache hit, the result of its own run of the script, or DIRECT because there was no pool at its load or its run failed |
| `PacAnswers.ScriptResultIsReturned` | internal/pac/pac.go:97-105 | what the script returns is what the call returns, whatever happens in between |
| `PacAnswers.MissGoesOn` | internal/pac/pac.go:77-85 | a lookup that misses goes on to the loading check, the second one to the pool |
| `PacAnswers.LoadGoesOn` | internal/pac/pac.go:85-92 | a call that finds a pool goes on to a slot of that pool |
| `PacAnswers.RunsLoadedPool` | internal/pac/pac.go:85-97 | the script a call runs is that of the pool it loaded |
| `PacAnswers.CurrentResultIsCached` | internal/pac/pac.go:103-104 | a result of the pool published last, put outside the window of a reload, is found by every lookup of its key within one TTL |
| `PacAnswers.ReloadStartsIff` | internal/pac/pac.go:142-185 | an age check starts a background reload exactly when the evaluator is open and loaded, the load is old enough and none is under way |
| `PacAnswers.ReloadRuns` | internal/pac/pac.go:158-158 | the reload runs as a thread of its own that begins by fetching the script |
| `PacAnswers.ColdStartLoads` | internal/pac/pac.go:164-196 | without a pool the first call loads it and calls that come meanwhile wait |
| `PacAnswers.SuccessfulLoadIsPublished` | internal/pac/pac.go:239-248 | the pool of a load that succeeded is published by the time the swap is over, unless the evaluator was closed |
| `PacAnswers.AgeIsReset` | internal/pac/pac.go:202-247 | the age of the load counts from the last swap or failed background reload |
| `PacAnswers.PoolSizes` | internal/pac/pac.go:251-265 | every pool has as many slots as configured, or the default |
| `PacAnswers.CallStarts` | internal/pac/pac.go:74-77 | a call starts with a lookup for its own query |
| `PacAnswers.CloseTakesEffect` | internal/pac/pac.go:108-114 | when Close returns the evaluator is closed and has no pool |
| `PacTermination.StepDecreasesWork` | internal/pac/pac.go:74-265 | every thread step decreases a measure, so without new calls a run ends |
| `PacTermination.EveryoneCanFinish` | internal/pac/pac.go:74-265 | from every reachable state there is a schedule in which all threads finish |
| `PacTermination.StuckIffFinished` | internal/pac/pac.go:74-265 | no thread can step exactly when all have finished |
| `TunnelRelay.DeliveredIsPrefix` | internal/proxy/tunnel.go:22-57 | at every moment the bytes delivered in a direction are a prefix of its stream |
| `TunnelRelay.OtherDirectionUntouched` | internal/proxy/tunnel.go:22-57 | an EOF or write failure in one direction leaves the other direction's connections usable |
| `TunnelRelay.WholeStreamDelivered` | internal/proxy/tunnel.go:22-57 | without read errors, a direction with successful writes delivers its whole stream |
| `TunnelRelay.DeliveryGuaranteedIff` | internal/proxy/tunnel.go:22-57 | every run delivers a direction's whole stream exactly when the stream is empty or neither its reads and writes nor the other direction's reads can fail |
| `TunnelRelay.ReadErrorStopsOther` | internal/proxy/tunnel.go:22-57 | whenever the other pump's reads can fail and there is something to deliver, some run ends with this direction cut short |
| `TunnelRelay.NoWriteAfterHalfClose` | internal/proxy/tunnel.go:16-57 | no pump writes to a connection whose write side is closed, nor after it has half-closed its destination |
| `TunnelRelay.HalfClosesOnce` | internal/proxy/tunnel.go:16-49 | a pump that has ended has half-closed its destination, once; the write side of a connection is closed exactly when its pump has ended and it can half-close |
| `TunnelRelay.FailedReadCloses` | internal/proxy/tunnel.go:22-57 | a failed read closes the connection it came from |
| `TunnelRelay.ClosedOnReturn` | internal/proxy/tunnel.go:22-57 | both connections are closed and both pumps have ended when the relay returns |
| `TunnelRelay.StepDecreasesWork` | internal/proxy/tunnel.go:22-57 | every step keeps the invariant and uses up work, an idle read excepted |
| `TunnelRelay.NeverStuck` | internal/proxy/tunnel.go:22-57 | until the relay returns some step can be taken |
| `TunnelRelay.RelayReturns` | internal/proxy/tunnel.go:22-57 | a run has a bounded number of steps other than idle reads, and until the relay has returned another such step is possible |
| `RequestSemaphore.OccupancyIsSetupCount` | internal/proxy/server.go:209-221 | occupancy equals the number of requests in setup or forwarding and never exceeds the threads |
| `RequestSemaphore.ReceiveNeverBlocks` | internal/proxy/handler.go:96-106 | a release finds a token in the channel |
| `RequestSemaphore.ReleasedExactlyOnce` | internal/proxy/handler.go:96-151 | on every exit path a slot is released once, and a relaying tunnel holds none |
| `RequestSemaphore.BusyOnlyWhenFull` | internal/proxy/server.go:209-221 | a request is turned away only while `threads` requests are in their setup phase |
| `RequestSemaphore.AdmittedIffFree` | internal/proxy/server.go:209-221 | an arrived request can be admitted exactly while fewer than `threads` are in setup, and is turned away exactly otherwise |
| `RequestSemaphore.AdmittedIsServed` | internal/proxy/server.go:209-221 | an admitted request takes one slot and is set up as a tunnel or forwarded, as it asks |
| `RequestSemaphore.TunnelRelays` | internal/proxy/handler.go:145-150 | a tunnel that has been set up reaches its end only through the relay |
| `RequestSemaphore.PhasesInOrder` | internal/proxy/handler.go:96-151 | no phase of a tunnel's setup is skipped; leaving early leads to the deferred release |
| `RequestSemaphore.RequestsFinish` | internal/proxy/handler.go:96-151 | an unfinished request can always step, and each of its steps brings it closer to the end |
| `Challenges.CollectHoldsLast` | internal/auth/auth.go:76-92 | the map built from challenges holds a scheme exactly when it is offered, with its last offer |
| `Challenges.ParseChallenges` | internal/auth/auth.go:76-92 | the loop builds that map from the header values |
| `Challenges.Select` | internal/auth/auth.go:66-74 | the choice is the first preferred scheme on offer, with its last offer; none exactly when nothing preferred is offered |
| `Challenges.ChooseScheme` | internal/auth/auth.go:66-74 | the program's loop makes that choice in the order of the preference, which the next rows state |
| `Challenges.AnyPrefersSafe` | internal/auth/auth.go:96-100 | the default and ANY take the first offered one of NEGOTIATE, NTLM, DIGEST, BASIC, and nothing when none of the four is offered |
| `Challenges.BasicIsLastResort` | internal/auth/auth.go:96-100 | under the default BASIC is chosen exactly when it is offered and no safe scheme is |
| `Challenges.AnySafePrefers` | internal/auth/auth.go:101-102 | ANYSAFE takes the first offered one of the safe three |
| `Challenges.SafeNoPrefers` | internal/auth/auth.go:107-109 | SAFENOx takes the first offered one of the safe three but x |
| `Challenges.NoPrefers` | internal/auth/auth.go:110-112 | NOx takes the first offered one of the four but x |
| `Challenges.OnlyTakesNamed` | internal/auth/auth.go:105-106 | ONLYx takes x exactly when x is offered |
| `Challenges.NameTakesItself` | internal/auth/auth.go:103-115 | a bare name is taken exactly when it is offered, and NONE takes nothing |
| `Challenges.ChoiceRespectsPreference` | internal/auth/auth.go:94-126 | what the preference rules out (NONE, ANYSAFE, ONLYx, SAFENOx, NOx) is never chosen |
| `Challenges.ChallengeForScheme` | internal/proxy/handler.go:368-379 | the loop returns the text of the first value naming the scheme |
| `Challenges.FirstAndLastOffer` | internal/proxy/handler.go:289-290 | for every list of values in which the scheme is offered, the texts used for the first and for later replies agree exactly when the last offer and the first mention carry the same text |
| `Challenges.MentionIsOffer` | internal/proxy/handler.go:368-379 | a value whose first word ends in no white space offers a scheme exactly when it mentions it |
| `Challenges.RepeatedDigest` | internal/auth/auth.go:76-92 | with `DIGEST a` and `DIGEST b` the first text is `b`, the later one `a` |
| `Challenges.TabbedDigest` | internal/auth/auth.go:76-92 | with a single value whose scheme is followed by a tab the first text is the rest, the later one empty |
| `AuthSessions.DigestSession.Token` | internal/auth/digest.go:22-60 | each call counts `nc` up by one and never fails |
| `AuthSessions.NTLMSession.Token` | internal/auth/ntlm.go:22-47 | Type1, then Type3 from the challenge, then nothing; a failure leaves the stage |
| `AuthSessions.NegotiateSession.Token` | internal/auth/auth.go:229-265 | tokens until SSPI reports completion, then nothing |
| `AuthSessions.NewSession` | internal/auth/auth.go:50-64 | a fresh session starts in its scheme's initial state |
| `AuthSessions.TokensInClosedForm` | internal/auth/ntlm.go:22-47 | the header of call i of a session, for every scheme, said without its state |
| `AuthSessions.FailureInClosedForm` | internal/auth/basic.go:16-22 | a call fails exactly for a missing user name, a blank NTLM challenge or a library error before completion |
| `Upstream.Send` | internal/proxy/handler.go:253-265 | one request is written to the open connection, its reply read from it, and a failure closes it |
| `Upstream.HandleChallenge` | internal/proxy/handler.go:271-302 | a 407 opens the one session or continues it; the connection is closed exactly when an answered challenge announced a close or an error occurred, and stays open when no scheme is acceptable |
| `Upstream.RoundTripProxy` | internal/proxy/handler.go:225-305 | against any peer: at most four requests, all with the same body and the prescribed headers, the outcome and the number of requests that configuration and peer call for, and a log that obeys the connection and session rules and leaves nothing open |
| `Upstream.OneOutcome` | internal/proxy/handler.go:225-305 | configuration and peer determine the outcome and the number of requests |
| `UpstreamLogs.UsedConnectionIsOpen` | internal/proxy/handler.go:246-265 | whatever is written, read or closed is the connection dialled last and not closed since |
| `UpstreamLogs.DialledIsClosed` | internal/proxy/handler.go:226-237 | every dialled connection is closed by the return, and before another is dialled |
| `UpstreamLogs.RedialNeedsClose` | internal/proxy/handler.go:298-303 | a second connection is dialled only after a reply that announced a close |
| `UpstreamLogs.OneSession` | internal/proxy/handler.go:238-243 | at most one session is opened, and it is closed exactly once, later |
| `UpstreamLogs.NTLMHeaders` | internal/proxy/handler.go:284-290 | the headers are a prefix of none, Type1, Type3 from the reply to Type1, none |
| `UpstreamLogs.BasicHeaders` | internal/auth/basic.go:16-22 | the headers are a prefix of none, h, h, h |
| `UpstreamLogs.DigestHeaders` | internal/auth/digest.go:22-27 | the headers are a prefix of none and digests with `nc` 1, 2, 3, each for the challenge just received |
| `UpstreamLogs.NegotiateHeaders` | internal/auth/auth.go:229-248 | a header is absent exactly after SSPI reported completion |
| `UpstreamLogs.OffMeansPassThrough` | internal/proxy/handler.go:449-468 | with authentication off every exchange writes one request unless dialling fails, with the client's own value, opens no session and returns the first reply, a 407 included |
| `UpstreamLogs.OtherReplyIsReturned` | internal/proxy/handler.go:267-270 | a reply other than a 407 is returned after one request |
| `UpstreamLogs.OneAnswerIsEnough` | internal/proxy/handler.go:271-295 | Basic and Digest: a 407, one answer made from it, and the reply to that is returned |
| `UpstreamLogs.NTLMHandshakeSucceeds` | internal/proxy/handler.go:271-295 | the NTLM handshake writes none, Type1, Type3 and returns the reply to the last |
| `UpstreamLogs.ReplyAfterChallenges` | internal/proxy/handler.go:245-295 | after up to three answered challenges any other reply is returned |
| `UpstreamLogs.GivesUpAfterFour` | internal/proxy/handler.go:303-304 | after four answered challenges the call gives up |
| `UpstreamConnect.ConnectViaProxy` | internal/proxy/handler.go:307-366 | the result, the number of CONNECT requests and their headers are those that configuration and peer call for; one connection and one session at most, the session closed once; on return the connection is open exactly when the peer grants the tunnel or sends a challenge that cannot be answered |
| `UpstreamConnect.OneResult` | internal/proxy/handler.go:307-366 | configuration and peer determine the result and the number of requests |
| `UpstreamConnect.ConnectedIff` | internal/proxy/handler.go:331-333 | the tunnel is granted exactly when the peer, after challenges that were answered, replies 200 |
| `UpstreamConnect.GrantCounts` | internal/proxy/handler.go:320-333 | a 200 in any of the first four replies grants the tunnel |
| `UpstreamConnect.AbandonedIff` | internal/proxy/handler.go:340-360 | an error return leaves the connection open exactly when a 407 finds no acceptable scheme, an unknown one, or a session that cannot make a token |
| `UpstreamPolicy.BareChallengeAbandons` | internal/proxy/handler.go:342-345 | a peer that answers 407 without any challenge makes the call return an error with the connection open |
| `UpstreamPolicy.ListedChoiceIsSupported` | internal/auth/auth.go:50-64 | a scheme picked from a list always has a session |
| `UpstreamPolicy.DefaultUsesStrongest` | internal/auth/auth.go:94-100 | under the default preference the session is of the strongest offered scheme, and there is none when none is offered |
| `UpstreamPolicy.FirstTextIsLastOffer` | internal/proxy/handler.go:273-284 | the text given to a new session is that of the last value that offers the chosen scheme |
| `UpstreamPolicy.LaterTextIsFirstMention` | internal/proxy/handler.go:289-290 | the text given to it later is that of the first value that mentions the scheme |
| `UpstreamPolicy.NTLMUsesMention` | internal/proxy/handler.go:289-290 | Type3 is made from the first value of the second reply that mentions NTLM |
| `UpstreamPolicy.DigestUsesOffer` | internal/proxy/handler.go:273-284 | the first digest is made from the last value of the first reply that offers Digest |
| `UpstreamPolicy.SafeNeverSendsBasic` | internal/auth/auth.go:94-116 | under ANYSAFE or SAFENOx no exchange writes Basic credentials, whatever the upstream answers |
| `Routes.NormalizeProxyResult` | internal/pac/pac.go:321-347 | the loops compute the rewriting, splitting and cleaning of an answer |
| `Routes.ParsePACResult` | internal/proxy/handler.go:392-411 | the loop yields the addresses in the fields of an answer, in order |
| `Routes.ReplaceAcross` | internal/pac/pac.go:326-333 | a replacement without the separator in it works on each entry by itself |
| `Routes.PipelineYieldsTargets` | internal/pac/pac.go:321-347 | normalising and parsing any printed list of entries gives their targets in order with the right scheme prefix |
| `Routes.PipelineKeepsProxiesIff` | internal/proxy/handler.go:392-411 | every proxy entry survives exactly when no host reads DIRECT behind PROXY or HTTP |
| `Routes.ParsedAsWritten` | internal/proxy/handler.go:392-411 | parsing an answer that was not normalised gives the hosts without their kinds, in order |
| `Routes.NormalizedShape` | internal/pac/pac.go:321-347 | a normalised answer is never empty and a list of trimmed non-empty parts |
| `Routing.Server.EnsurePlatformPAC` | internal/proxy/handler.go:205-215 | an evaluator once set stays, whatever source is reported later |
| `Routing.Server.ResolveRoute` | internal/proxy/handler.go:153-197 | the route and the evaluator kept are those of the decision order, which the next rows state |
| `Routing.ScriptIsTheRoute` | internal/proxy/handler.go:162-190 | when an evaluator decides, the proxies that the script's entries name are the route, in their order, and Direct when it names none |
| `Routing.AnswerIsTheRoute` | internal/proxy/handler.go:162-190 | whatever the evaluator answers, the route is the list of addresses in the answer |
| `Routing.OthersDecideInOrder` | internal/proxy/handler.go:158-196 | a noproxy match goes direct whatever else is known; configured servers decide without an evaluator; platform servers only when nothing else is known |
| `Routing.DiscoveryIff` | internal/proxy/handler.go:175-180 | a request puts an evaluator in place exactly when there is none and it discovers one |
| `Routing.DialRoute` | internal/proxy/handler.go:116-129 | the upstream is that of the first address that answers, an error is reported exactly when there is none, and only an empty route gives neither |
| `Routing.Server.OpenTunnel` | internal/proxy/handler.go:110-133 | a tunnel goes on exactly when it has an upstream: never with a nil one |
| `Routing.RouteIsNeverEmpty` | internal/proxy/handler.go:153-197 | a route through proxies names at least one, for all answers and settings |
| `Routing.AddressesNonEmptyIff` | internal/proxy/handler.go:153-197 | a route holds an empty address exactly when the deciding server list does |
| `Routing.FirstDiscoveryWins` | internal/proxy/handler.go:205-215 | over any run of requests the first PAC discovered is kept and decides every later request without a noproxy match |
| `ShellGlob.ThreePassesAreOne` | internal/pac/pacutils.go:46-48 | the three sequential rewrites equal one pass over the characters |
| `ShellGlob.TranslationParses` | internal/pac/pacutils.go:45-50 | the translated pattern parses as the intended pieces |
| `ShellGlob.TranslationPreservesMeaning` | internal/pac/pacutils.go:45-50 | for plain patterns and every URL the expression accepts exactly what the glob with line terminators excluded from wildcards accepts |
| `ShellGlob.TranslationIsGlobMatch` | internal/pac/pacutils.go:45-50 | for URLs without line terminators that is the glob itself |
| `ShellGlob.LineTerminatorBreaksGlob` | internal/pac/pacutils.go:45-50 | a URL with a line terminator for which the two differ |
| `ShellGlob.MetacharacterBreaksGlob` | internal/pac/pacutils.go:45-50 | a pattern with another metacharacter for which the two differ |
| `Addresses.CompareAddr` | internal/network/network.go:184-196 | octet-wise comparison is the numeric order |
| `Addresses.WildcardRange` | internal/network/network.go:159-182 | a pattern has a range exactly when it has four parts, from its lowest to its highest match |
| `Addresses.MatchesAreInRange` | internal/network/network.go:159-182 | every address matching a wildcard lies in its range |
| `Addresses.RangeIsExactIff` | internal/network/network.go:159-182 | the range holds only matches exactly when everything after the first star is a star |
| `Addresses.ConvertAddrIsNum` | internal/pac/pacutils.go:17-20 | the signed 32-bit shifts and ors build the number of the address |
| `Addresses.ThreeViewsAgree` | internal/pac/pacutils.go:21-35 | for a contiguous mask the script's test, the matcher's prefix and the numeric interval accept the same addresses |
| `Addresses.IsInNetOfName` | internal/pac/pacutils.go:22-30 | a pattern or mask that is no address matches nothing, and a host name counts as the address it resolves to |
| `Addresses.PrefixIsInterval` | internal/network/network.go:37-42 | a masked prefix is the interval from network to broadcast (section 3.1 of RFC 4632) |
| `Addresses.MatchIP` | internal/network/network.go:72-91 | an address matches exactly when the matcher takes all, one of its prefixes contains it, or one of its ranges does |
| `Lists.SplitCSV` | internal/config/config.go:679-692 | the loop yields the trimmed non-empty parts |
| `Lists.SplitListInvertsJoinIff` | internal/config/config.go:679-692 | splitting undoes joining exactly when no item contains a comma |
| `Lists.NormalizeCSV` | internal/config/config.go:662-677 | the loop yields the normalised list |
| `Lists.NormalizedMeans` | internal/config/config.go:662-677 | the result holds each trimmed non-empty value once |
| `Lists.NormalizedFixedIff` | internal/config/config.go:662-677 | normalising changes nothing exactly on lists of distinct trimmed items |
| `Layers.FieldIsLastWrite` | internal/config/config.go:415-543 | without errors each field holds what its last writer wrote, or what it held before |
| `Layers.FirstErrorStops` | internal/config/config.go:432-437 | an error leaves exactly what the keys before it applied |
| `Layers.OrderIsIrrelevant` | internal/config/config.go:408-414 | when all keys agree on shared fields every order gives the same result |
| `Layers.OrderMatters` | internal/config/config.go:408-414 | when two keys disagree swapping them changes the result |
| `Config.OverridingShares` | internal/config/config.go:421-539 | the rival pairs (proxy/server, quiet/silent, verbose with log, foreground or log_level) do share a field |
| `Config.OthersDoNotShare` | internal/config/config.go:421-539 | no other two keys can write the same field |
| `ConfigTyped.FlagIff` | internal/config/config.go:638-645 | a flag is set by exactly the words 1, true, yes, y and on, in any letter case and with blanks around them |
| `ConfigTyped.PaddedFlagIff` | internal/config/config.go:638-645 | the same for a word with any white space around it |
| `ConfigTyped.LevelIff` | internal/config/config.go:647-660 | a level is read from exactly its name in any letter case, warning for WARN and nothing for INFO |
| `ConfigTyped.VerboseWrites` | internal/config/config.go:532-537 | a true verbose sets log number, foreground and level, any other value nothing |
| `ConfigTyped.FlagKeyWrites` | internal/config/config.go:438-441 | each flag key sets the flag named like it, silent that of quiet |
| `ConfigTyped.NumberKeyWrites` | internal/config/config.go:432-437 | a number key writes exactly 64-bit numbers and is in error otherwise |
| `ConfigTyped.SecondsKeyWrites` | internal/config/config.go:472-477 | idle and reload times are whole seconds |
| `ConfigTyped.LevelKeyWrites` | internal/config/config.go:500-505 | the level key writes the level that is spelt |
| `ConfigTyped.ServerKeyWrites` | internal/config/config.go:422-425 | both names for the servers write the list split at commas |
| `ConfigTyped.ListenKeyWrites` | internal/config/config.go:430-431 | the listen key writes the list split at commas |
| `ConfigTyped.TextKeyWrites` | internal/config/config.go:426-429 | a text key writes its value as it is to the field named like it |
| `ConfigTyped.TestKeyWrites` | internal/config/config.go:510-515 | a true test means all, any other text is the URL |
| `ConfigTyped.EmptyValueWrites` | internal/config/config.go:418-420 | an empty value clears ten fields and leaves all others alone |
| `ConfigLoading.Store.ApplyValues` | internal/config/config.go:407-545 | from any enumeration of the map the result is that of the keys in the order of their names |
| `ConfigLoading.SortedKeys` | internal/config/config.go:410-414 | the keys, taken out in any order, end up sorted |
| `ConfigNames.RankIsNameOrder` | internal/config/config.go:414-414 | the order of the keys is the string order of their names |
| `ConfigNames.InOrderIffNamesAscend` | internal/config/config.go:410-415 | values are applied in order exactly when their names ascend as strings |
| `ConfigLoading.KeysCommute` | internal/config/config.go:407-545 | without rivals among the keys the order of application does not matter |
| `ConfigLoading.LaterNameWins` | internal/config/config.go:408-414 | among rivals the key with the later name decides |
| `Decimals.AtoiInvertsItoa` | internal/config/config.go:368-388 | every 64-bit number survives being printed and parsed |
| `Decimals.AtoiIff` | internal/config/config.go:432-437 | a number is read exactly from an optional sign and digits that denote a 64-bit number |
| `Decimals.LeadingZero` | internal/config/config.go:432-437 | zeros in front do not change the number |
| `Binary64.LoadedExactIff` | internal/config/config.go:478-483 | k tenths of a second are loaded exactly if and only if k does not slip, for every k below 2^61 ns; a slip below 2^27 units costs one nanosecond |
| `Binary64.FourPointOneSlips` | internal/config/config.go:478-483 | 4.1 s is loaded as 4099999999 ns |
| `ConfigRoundTrip.RunKeepsTypes` | internal/config/config.go:407-545 | applying values keeps every field present and of its type |
| `SaveAndLoad.PrintReads` | internal/config/config.go:341-390 | every storable value survives being printed and read, timeouts up to binary64 |
| `SaveAndLoad.NormalizeInPlace` | internal/config/config.go:147-184 | the in-place normalisation of the fields |
| `ConfigNormal.AuthMeans` | internal/config/config.go:153-160 | a blank name becomes the default; any other is kept in upper case without the blanks around it |
| `ConfigNormal.AuthSpelt` | internal/config/config.go:153-160 | a name in any letter case and padding becomes the name in upper case |
| `ConfigNormal.ListenMeans` | internal/config/config.go:149-152 | the addresses to listen on are the normalised ones, or the local one exactly when all are blank |
| `ConfigNormal.PACMeans` | internal/config/config.go:167-184 | nothing, a URL in any letter case or an absolute path is kept, a relative path is joined to the base |
| `ConfigNormal.NormalizeIdempotent` | internal/config/config.go:147-184 | normalising a second time changes nothing, when joining gives trimmed absolute paths |
| `SaveAndLoad.PersistedIff` | internal/config/config.go:557-587 | every field but those of one run of the program is persisted, under the key named like it |
| `SaveAndLoad.SavedFieldIsRestored` | internal/config/config.go:557-595 | saving, loading over the defaults and normalising restores every persisted field but the timeout |
| `SaveAndLoad.SavedTimeoutIsLoaded` | internal/config/config.go:582-582 | the timeout comes back as its tenths are loaded |
| `SaveAndLoad.SaveThenLoad` | internal/config/config.go:341-390 | the round trip on objects, with the keys in any order |
| `SaveAndLoad.AllRestoredIff` | internal/config/config.go:557-595 | everything persisted is restored exactly when the timeout does not slip |
| `SaveAndLoad.DefaultIsSavable` | internal/config/config.go:86-107 | the defaults are normalised, valid and savable, so the round trip applies to them |
| `SaveAndLoad.TextIsStable` | internal/config/config.go:380-382 | saving a loaded timeout again writes the same text, for every number of tenths below 2^61 ns |

## Left out

- Wrap-around of the 64-bit cache generation: generations are naturals.
- The doubly linked list inside container/list: the recency list is a sequence of shared elements.
- The PAC script engine, DNS, fetching and decoding of the script: an evaluation may return anything, a fetch may fail or succeed, and both end.
- Hand-over of the connection to the response body: the code closes the connection by the return.
- NTLM, Kerberos and SSPI message contents, the digest hash and base64: a header says which message it is and which challenge it was made from.
- parseDigestChallenge and the fields of a digest header: hashing makes their values opaque to the model.
- Client authentication, server start and shutdown, header copying, logging and the command line: plumbing or foreign libraries.
- dateRange, timeRange and weekdayRange: they depend on the JavaScript Date object.
- IPv6 in ranges and wildcards with octets above 255: the source panics or compares only the IPv4 form.
- Matching host names against the noproxy list: whether it matches is a parameter of a request.
- handleHTTP's loop over proxies: it is the dial loop of `Routing.DialRoute` around `Upstream.RoundTripProxy`.
- Parsing the text of address lists into addresses, prefixes and ranges: the matcher is modelled from its parsed items.
- Regular expression metacharacters other than those of a glob: `ShellGlob.MetacharacterBreaksGlob` shows that they change the meaning.
- Letter case outside ASCII and code units beyond the basic plane.
- TOML and INI syntax, environment files and file discovery: a saved file gives back the typed values put into it.
- Config: keys are the lower-case names that all callers pass; unknown keys, which the source ignores, are not represented.
- Config.WritesOf: texts of a timeout other than digits with one decimal are read by a parameter.
- SaveAndLoad.NormalizeInPlace: the new values are computed first and stored together; the order of the single assignments is not observable.
- ConfigRoundTrip.NearestTenth: rounds the exact duration; the float error of Duration.Seconds matters only at odd twentieths of a second.
- Binary64.LoadedExactIff: says nothing above 2^61 ns (73 years), where whole tenths are no longer binary64 numbers themselves.
