# A verified model of zitadel-grpc-auth

This project models the parts of the repository where its correctness is decided and
proves properties of them:

* **The introspection cache** (`cache.dfy`, `cache_runs.dfy`, `cache_lru.dfy`): the bounded map with its
  lazily cleaned eviction queue as a class, and what holds over whole runs of it.
* **`resolve` under concurrency** (`resolve.dfy`, `resolve_invariant.dfy`,
  `resolve_theorems.dfy`, `resolve_spacing.dfy`, `resolve_progress.dfy`,
  `resolve_alone.dfy`, `resolve_repeats.dfy`): any number of
  callers interleave clock readings, lookups, the per-key singleflight, introspections
  with arbitrary answers, stores and deliveries. An invariant of every step carries the
  theorems about provenance, freshness, mutual exclusion, spacing and termination.
* **The authorization decision** (`policy.dfy`, `glob.dfy`, `bearer.dfy`, `server.dfy`,
  `interceptor.dfy`, `admission.dfy`): policy trees, the glob helper, the bearer header,
  construction of the enforcer, and `authorize` on top of the interleaved protocol.
* **Reconciling and verifying a Zitadel instance** (`pagination.dfy`,
  `authorizations.dfy`, `drift.dfy`, `verify_roles.dfy`, `metadata.dfy`,
  `web_application.dfy`, `ensure_application.dfy`): paging loops, the three reconcilers
  against a remote service that may stop answering at any call, and the separately
  written verifier.

`text.dfy`, `wrappers.dfy` and `auth_types.dfy` hold string functions of the Go standard
library, an option type and the shared vocabulary.

Go code that changes state is modelled by methods with the same loops and branches; a
function beside each one says what it does to the state, and the theorems are about that
function. Clock readings, answers of the identity provider, answers of leaf policies, the
hash, JSON encoding, rendering of enumeration values and normalisation of a single URI are
parameters about which nothing is assumed unless a lemma says so (`CollisionFree`,
`TellsApart`). `time.Duration` saturates; every other quantity stays far from its limits
in the source and is unbounded here. A Go map read in arbitrary order is a set read in
arbitrary order.

## Where the code and its documentation differ

The model follows the code. Each difference below is a lemma.

* `server/cache.go:24` calls the cache LRU. A hit never moves a key, so that is true of
  every run only of a cache with one slot (`AlwaysLRUIff`); in larger ones it is true of
  runs that use nothing twice (`WithoutReuseIsLRU`). Eviction follows the queue
  (`VictimIsOldestIff`, `EvictionIsFifo`), and with a stale slot still queued the victim
  need not be the oldest entry either (`NotAlwaysFifo`).
* `server/cache.go:82` says the cost of stale slots is bounded; expired keys stay in the
  queue until an eviction, so it grows without bound while the map stays below its limit
  (`QueueIsUnboundedIff`). The eviction loops are cheap on average all the same
  (`SlotsAreConserved`).
* The repository's `README.md:352-353` says a token is never served past its own expiry.
  Expiry is judged at an earlier clock reading, so `resolve` can do that in every
  configuration (`MayReturnPastExpiry`, `MayDeliverPastExpiry`); `ServedPastExpiryIff` and
  `HitPastExpiryIff` say exactly when. The interceptor checks the expiry claim again
  (`AdmissionIff`).
* `server/cache.go:24-27` says concurrent requests for one token lead to exactly one
  introspection. `ExactlyOneCall` has the conditions, `AsksAgainIff` says exactly when a
  flight asks again, and `ConcurrentCallsMayAskTwice` that concurrency alone is not enough.
* The repository's `README.md:355` says transport errors are not cached; they are, for at most a second
  (`LifetimeBounds`), as `README.md:341-343` says.
* `server/server.go:106-108` says both that a zero `CacheMaxEntries` disables caching and
  that it stands for 10,000; the code does the latter, and only a
  non-positive `CacheTTL` does (`CachingOffIff`).
* `policy.go:48-50` says `Any` allows if some member does; it also allows when it has
  members and all of them are nil (`AnyAllowsIff`).
* `policy.go:145` speaks of "*" anywhere; an interior star is literal
  (`MatchesLikeWildcardsIff`).
* `internal/bearer/bearer.go:21-22` says no white space inside a token; that holds of ASCII
  only (`SpaceIsAcceptedIff`, `AcceptedSpaceIff`, `AcceptedAsciiHasNoSpace`).
* A method with policies bypasses them when it is a reflection method and unauthenticated
  reflection is on; `validateMethodSets` does not look at that (`GuardedIsPublicIff`).
* With no roles desired the reconciler keeps a single authorization without roles and the
  verifier reports it (`QuietIffClean`, `NoRolesDesired`). The reconciler reads one page of
  authorizations only; on a list that hides some of the user's it does not converge
  (`ConvergesIff`).
* `reconcileMetadata` takes a not-found deletion for success. Against a service that
  refuses a whole deletion when one key is missing, that leaves a stale key behind in one
  case (`MetadataConvergesIff`).
* The update of an OIDC application carries no version: one at another version than 1.0 is
  updated by every run and never matches (`EnsureConvergesIff`, `OtherVersionNeverMatches`).

## Model

| member | source | states |
|---|---|---|
| IntrospectionCache.Cache.Lookup | server/cache.go:70-86 | The in-place lookup is `Get`: disabled and absent keys miss without effect, an expired entry misses and is deleted with its slot left queued, an entry is still served at its exact expiry. |
| IntrospectionCache.Cache.Insert | server/cache.go:89-102 | The in-place store is `Put`: only a new key can evict and is queued; an existing key is overwritten in its slot. |
| IntrospectionCache.Cache.EvictOldestLocked | server/cache.go:105-115 | The popping loop leaves the state `Evict` describes, and turns as often as `EvictionCost` says. |
| IntrospectionCache.Cache.Resolve | server/cache.go:149-202 | One uncontended `resolve`, with both clock readings and every lifetime rule: claims, error, whether the provider was asked and the new state are those of `ResolveAlone`. |
| IntrospectionCache.EvictDropsFirstLive | server/cache.go:105-115 | Eviction in closed form: everything up to the first live slot leaves the queue and exactly that entry leaves the map; without a live slot the queue is emptied and the map untouched. |
| IntrospectionCache.EvictRemovesOne | server/cache.go:95-115 | In a well-formed non-empty cache eviction always succeeds, removes exactly one entry, the live key with the earliest slot, and keeps the cache well-formed. |
| IntrospectionCache.GetKeeps | server/cache.go:70-86 | Lookups keep every live key queued and the size bound. |
| IntrospectionCache.PutKeeps | server/cache.go:88-102 | Stores keep both as well, make their key live and touch no other entry than one eviction victim. |
| IntrospectionCache.BoundTTLIsMinimum | server/cache.go:117-133 | Without an expiry the time to keep is ttl; with one it ends at exactly the earlier of now + ttl and the token's expiry, saturating subtraction included, and is nothing exactly when the expiry is not in the future. |
| IntrospectionCache.LifetimeBounds | server/cache.go:135-191 | An error is kept if and only if caching is on, authentication failures for all of ttl and others for min(ttl, 1 s); a positive result is kept if and only if caching is on and the token has not expired when the introspection starts, for all of ttl if it has no expiry and otherwise to the earlier of start + ttl and the expiry. |
| IntrospectionCache.LookupSays | server/cache.go:70-86 | A lookup hits if and only if caching is on, the key is there and it is not past its end; then it returns the entry. It deletes nothing but that one entry, only past its end and only with caching on, and never touches the queue. |
| IntrospectionCache.StoredIsFound | server/cache.go:89-102 | What is stored is found again, until it expires, if and only if caching is on, whatever the cache held; a new key gets the last slot, a known one keeps its own. |
| IntrospectionCache.SecondCallIsCachedIff | server/cache.go:149-202 | Of two calls in a row, the first answered by the provider, the second is answered from the cache, with the same claims and error, if and only if caching is on and it comes within ttl (or 1 s, or the token's expiry) of the first one's clock reading, for each kind of answer. |
| CacheRuns.RunIsReplay | server/cache.go:70-115 | The store of a run with its history is the fold of the cache's own `Get` and `Put` from the empty cache, so that everything below is about these. |
| CacheRuns.RunConsistent | server/cache.go:70-115 | Invariant of every run of lookups and stores: size bound, every live key queued, slot stamps ascending, every live key born with its current slot, slots and eviction turns accounted for. |
| CacheRuns.SlotsAreConserved | server/cache.go:80-83 | Conservation over any run: queue length = live entries + lazy expiries - stale slots popped; all eviction loops together turn at most once per stored new key. |
| CacheRuns.VictimIsOldestIff | server/cache.go:104-115 | After any run the victim is the live key with the earliest slot; it is the oldest insertion if and only if no other live key's current slot precedes its own current slot. |
| CacheRuns.QueueHasNoDuplicates | server/cache.go:80-99 | The queue has no duplicates in every run that never stores a key anew while a stale slot of it is queued. |
| CacheRuns.EvictionIsFifo | server/cache.go:42-42 | In every such run the victim is the oldest-inserted live entry. |
| CacheRuns.NotAlwaysFifo | server/cache.go:80-83 | A run in which the victim is not the oldest entry, because of a stale slot. |
| CacheRuns.QueueIsUnbounded | server/cache.go:80-83 | For every n and every enabled cache there is a run that leaves no entry and n queued slots. |
| CacheRuns.QueueIsUnboundedIff | server/cache.go:80-83 | The queue can reach every length if and only if caching is on. |
| CacheLRU.AlwaysLRUIff | server/cache.go:24-27 | In every run the key an eviction would remove was last stored or hit no later than any other live key if and only if the cache is off or its maximum size is one. |
| CacheLRU.FirstInLastUsed | server/cache.go:88-115 | For every larger cache, a run at whose end the next victim is not the least recently used key: fill it, then look up the first key. |
| CacheLRU.WithoutReuseIsLRU | server/cache.go:88-115 | Eviction is least-recently-used in every run in which no live key is hit or stored again and no key is stored over a stale slot of it. |
| ResolveInvariant.StepKeeps | server/cache.go:149-202 | Every atomic step of the concurrent protocol keeps the invariant: phases, flights, open keys, cached entries and log agree. |
| ResolveInvariant.Reachable | server/cache.go:149-202 | The invariant holds in every state of every interleaving, whatever the provider answers. |
| ResolveProtocol.ReadingsAreNow | server/cache.go:149-191 | Every time a step records (a call's first reading, a flight's start, the beginning and end of an introspection, the end of a flight, a return) is the clock's at that step; only the clock's own step moves the clock, and what is logged is the answer to that flight's token. |
| ResolveProtocol.AnyOrderIsPossible | server/cache.go:149-202 | Which steps are possible when, exactly: time may pass, a new call may come for any token and the provider may answer anything at any time; callers and flights go on as soon as they have come so far. |
| ResolveTheorems.EveryResultWasIntrospected | server/cache.go:149-202 | Every returned (claims, error) is exactly the answer of one logged introspection of the same key (same token, if the hash has no collisions), cached and unexpired at the caller's own timestamp, or delivered by a flight still open during the call that made it itself or found it unexpired at its re-check. |
| ResolveTheorems.ResultsAreFresh | server/cache.go:121-191 | Unless the caller's own flight just made it, a returned result was, when checked, at most ttl old counted from the start of its introspection and at most 1 s for other than authentication failures; a positive one was past the token's expiry when checked if and only if the flight just made it and the expiry was over before that introspection started. |
| ResolveTheorems.ServedPastExpiryIff | server/cache.go:149-202 | In every interleaving a positive result is handed out past the token's expiry, by the clock at return, if and only if the expiry was over between check and return, or over before the introspection the flight made itself. |
| ResolveTheorems.HitPastExpiryIff | server/cache.go:151-154 | In every reachable state the first lookup hands out a positive result past the token's expiry if and only if the entry, which ends at the earlier of start + ttl and that expiry, is unexpired by the caller's earlier clock reading and the expiry is over by the clock. |
| ResolveTheorems.OneFlightPerKey | server/cache.go:156-192 | In every reachable state at most one flight per key is unfinished and at most one caller leads an unfinished one, and while a flight is between its missed re-check and its store the key is absent, so storing never overwrites. |
| ResolveTheorems.OneIntrospectionPerFlight | server/cache.go:142-145 | A flight asks the provider at most once. |
| ResolveTheorems.IntrospectionsNeverOverlap | server/cache.go:142-145 | Introspections of one key never overlap in time, in any interleaving, also with caching disabled. |
| ResolveProgress.SomeoneCanMove | server/cache.go:149-202 | No deadlock: while a call has not returned, it or the flight it is in has a step to take, the provider's answer included. |
| ResolveProgress.StepsAreBounded | server/cache.go:149-202 | No livelock: in every interleaving there are at most four steps per call and five per flight besides the clock's, and no more flights than calls. |
| ResolveProgress.EveryCallCanReturn | server/cache.go:149-202 | From every reachable state, whatever the provider answers from then on, some steps lead to a state in which every call there was has returned. |
| ResolveSpacing.TrailIsSpaced | server/cache.go:80-115 | In every interleaving, a stored result that was not evicted is still cached or has expired, and no introspection of its key begins before that. |
| ResolveSpacing.UpstreamSpacing | server/cache.go:159-191 | Of any two introspections of one key, where the first was cached, the later one begins strictly after start + lifetime of the first, unless the key was evicted between that store and that beginning. |
| ResolveRepeats.CacheIsRecent | server/cache.go:156-192 | In every interleaving a cached entry is the answer of the latest introspection of its key, not evicted since it was stored. |
| ResolveRepeats.AsksAgainIff | server/cache.go:156-163 | A flight asks about a key introspected before if and only if the latest answer was not kept, was evicted since, had expired by the flight's clock reading, or has expired by now and was removed by another lookup. |
| ResolveRepeats.AskedAgainOnlyIf | server/cache.go:156-192 | A key is introspected again only if the earlier answer was not kept, was evicted after it was stored and before the later introspection began, or had expired by then. |
| ResolveRepeats.ExactlyOneCall | server/cache.go:24-27 | However many calls there were for a key: if one has returned, all answers about the key were kept and are unexpired and it was never evicted, it was introspected exactly once. |
| ResolveRepeats.ConcurrentCallsMayAskTwice | server/cache.go:156-192 | For every configuration and answer that is not kept, an interleaving of two calls that both began before the first introspection and lead to two. |
| ResolveUncontended.RunsAlone | server/cache.go:149-202 | The sequential `Cache.Resolve` is a behaviour of the protocol: from any state in which no flight of its key is open, a call can run to the same result, cache and number of introspections. |
| ResolveUncontended.MayReturnPastExpiry | server/cache.go:151-153 | For every configuration with caching on, every expiry ahead and every delay: an interleaving in which a cached positive result of a token with that expiry is handed out that much after it. |
| ResolveUncontended.MayDeliverPastExpiry | server/cache.go:156-201 | The same for every configuration at all, with a result the caller's own flight obtained. |
| Policies.CallAll | policy.go:34-46 | The loop of `All` returns the error and makes the calls that `EvalAll` describes. |
| Policies.CallAny | policy.go:54-72 | The loop of `Any` does what `Eval` of an `Any` describes, the last error and early return included. |
| Policies.AllAllowsIff | policy.go:29-46 | `All` allows if and only if every non-nil member, called after those before it, allows. |
| Policies.AnyAllowsIff | policy.go:48-72 | `Any` allows if and only if some member is reached and allows, or it has members and all are nil. |
| Policies.AllReportsFirst | policy.go:29-46 | A refusal by `All` is, error and calls, that of its first member to refuse; the members before it allow and no later one is called. |
| Policies.AnyReportsLast | policy.go:48-72 | A refusal by `Any` is that of its last non-nil member. |
| Policies.SinglesSay | policy.go:33-58 | A leaf is called and answers for itself, an empty `All` allows, an empty `Any` calls nothing and forbids. |
| Policies.RefusingLeafDecides | policy.go:36-42 | A leaf that refuses when its turn comes in an `All` is its error, and the last one called. |
| Policies.FlattenAll | policy.go:34-46 | Splicing a nested `All` into the enclosing one keeps the error and the sequence of policies called, in every context. |
| Policies.DropNils | policy.go:37-39 | Dropping nil members from an `All` changes neither. |
| Policies.FlattenAny | policy.go:54-72 | Splicing a nested `Any` that has a non-nil member keeps error and calls, in every context. |
| Policies.FlattenAnyIff | policy.go:54-72 | That condition is exact: splicing is safe in all contexts and environments if and only if the nested `Any` has a non-nil member. |
| Policies.NormalKeepsMeaning | policy.go:34-72 | Splicing and dropping nils at every depth at once (every nested `All`, every nested `Any` with a non-nil member, every nil in an `All` or in such an `Any`) keeps the error and the calls of every policy tree. |
| Policies.FixedIffNormal | policy.go:34-72 | The trees that this leaves alone are exactly those without anything left to splice or drop, and one pass reaches such a tree. |
| Glob.MatchesLikeWildcards | policy.go:145-166 | Where stars are only first and last characters the glob agrees with the usual recursive wildcard matcher on every name. |
| Glob.MatchesLikeWildcardsIff | policy.go:145-166 | It agrees with it on all names if and only if the pattern has no interior star. |
| Glob.InteriorStarIsLiteral | policy.go:145-166 | A pattern with an interior star matches no name without stars. |
| Glob.MatchSays | policy.go:148-166 | For every pattern and name: with stars at both ends the rest (inner stars taken for themselves) occurs in the name, with one at the end or the front it begins or ends the name, and otherwise they are equal. |
| Glob.AuthorizeGlobPatternStrict | policy.go:121-143 | Allows if and only if some allow pattern and no deny pattern matches, a statement about the two sets only; deny wins and names the first deny pattern that matches; an empty allow list refuses. |
| Glob.AuthorizeGlobPattern | policy.go:74-119 | The same whenever the allow list is non-empty; an empty one allows whatever is not denied. |
| Glob.PermitsIsLanguageDifference | policy.go:121-143 | For patterns without interior stars the allowed names are the wildcard language of the allow list minus that of the deny list. |
| Bearer.ParsesIff | internal/bearer/bearer.go:42-60 | A header yields token t if and only if it is the scheme in any letter case, white space, t and white space, with t trimmed and free of control characters, spaces and DEL. |
| Bearer.ParsesIffSpelled | internal/bearer/bearer.go:42-60 | The same character by character: which letters make the scheme, which codes the token may hold. |
| Bearer.OnlyAuthorizationCounts | internal/bearer/bearer.go:29-42 | For every metadata map, whatever else it holds: the token is parsed from the authorization value if there is exactly one, and there is none otherwise. |
| Bearer.HeaderSays | client/client.go:187-196 | The client sends no empty token and any other as it is, after seven characters. |
| Bearer.RoundTripIff | client/client.go:187-196 | The server reads back the token the client attached if and only if it is free of those characters and of white space at its ends. |
| Bearer.B64RoundTrip | internal/bearer/bearer.go:19-24 | Every b64token of section 2.1 of RFC 6750 survives the round trip. |
| Bearer.AcceptedTokensAreStable | internal/bearer/bearer.go:29-61 | An accepted token came from the only authorization value, is clean, and survives being attached and parsed again. |
| Bearer.SpaceIsAcceptedIff | internal/bearer/bearer.go:50-60 | A token with white space in it survives being attached and parsed if and only if it has no control character, space or DEL, none of it at its ends, and the white space is inside it and not ASCII. |
| Bearer.AcceptedSpaceIff | internal/bearer/bearer.go:50-60 | Whatever the header, the parsed token has white space if and only if it has non-ASCII white space in its interior. |
| Bearer.InteriorSpaceMayBeAccepted | internal/bearer/bearer.go:54-59 | A token with Unicode white space inside that is accepted. |
| Bearer.AcceptedAsciiHasNoSpace | internal/bearer/bearer.go:54-59 | No accepted token contains an ASCII white-space character. |
| Server.ValidateMethodSets | server/server.go:268-286 | Reports exactly the methods that are public and have policies. |
| Server.New | server/server.go:186-261 | Passes everything through if and only if authentication is off; enforces if and only if it is on, no method is both public and guarded and an introspector is given or can be built; the enforcer then carries the configuration; otherwise the error is determined: missing fields or scheme, an introspector that cannot be built, or exactly the overlapping methods. |
| Server.CachingOffIff | server/server.go:253-261 | Caching is off if and only if the TTL is not positive. |
| Server.CacheSizeIs | server/server.go:253-261 | A positive CacheMaxEntries is the size used, any other stands for 10,000, and without a positive TTL the size is zero. |
| Server.IntrospectorNeeds | server/server.go:230-246 | The default introspector can be built if and only if issuer, client id and secret are given and the issuer is https or plain http permitted; exactly the missing fields are named, and they are reported before a plain-http issuer. |
| Server.EnforcerCarries | server/server.go:209-222 | Policies, public methods, the reflection switch and both pins reach the enforcer unchanged. |
| Interceptor.StatusesAreSafe | server/interceptor.go:128-165 | Every error and no success becomes an error status: authentication failures Unauthenticated, refusals PermissionDenied, and only caller-facing statuses carry the original text; translating twice changes nothing. |
| Interceptor.OtherErrorsSay | server/interceptor.go:153-164 | An error that wraps neither sentinel keeps its status and text if its code is one of exactly six, and becomes a bare Internal otherwise. |
| Interceptor.MatchAudience | server/interceptor.go:171-183 | True if and only if the two lists share an element. |
| Interceptor.Authorize | server/interceptor.go:41-87 | The step-by-step method driving the mutable cache gives the decision, the question asked and the cache state that `Enter`, `ResolveAlone` and `Conclude` determine. |
| Interceptor.RunPolicies | server/interceptor.go:77-84 | The enforcer's loop is `All` of the slice, with the error translated. |
| Interceptor.AdmittedIff | server/interceptor.go:52-87 | After `resolve` a call is admitted if and only if all conditions hold at once (no error, not expired, issuer, audience, registered method, every non-nil policy), with those claims and after running all its policies; every denial is a status error. |
| Interceptor.GuardedIsPublicIff | server/interceptor.go:89-99 | In an accepted configuration a guarded method is public if and only if it is a reflection method and unauthenticated reflection is on. |
| Interceptor.BypassIff | server/interceptor.go:41-50 | A call proceeds without a token if and only if its method is listed as public or is under one of the two reflection prefixes with the switch on; any other without a token is refused as unauthenticated, and with one `resolve` is asked about that token. |
| Interceptor.ConfiguredBypassIff | server/interceptor.go:89-99 | The same in terms of the configuration the server was built from. |
| Interceptor.DenialSays | server/interceptor.go:52-86 | After `resolve`: its error, translated, denies; an expired token or a missed pin is unauthenticated, an unregistered method is permission denied, both before any policy is called; otherwise the policies decide. |
| Interceptor.RefusingPolicyDenies | server/interceptor.go:77-84 | A leaf policy is asked about the call's method and claims, and if it refuses in its turn the call is denied with what it said. |
| Admission.PlayKeeps | server/interceptor.go:41-87 | Invariant of every interleaving of any number of RPCs: each decision is the pipeline's verdict on that RPC's own header and what `resolve` returned to it. |
| Admission.AdmissionIff | server/interceptor.go:41-99 | End to end, in every interleaving: a non-public call is admitted if and only if its header holds a token and the introspection behind its `resolve` was positive and meets every condition; that introspection was of the same key and fresh when looked up, and all policies were run on its claims. |
| Admission.GuardedMethodsAreGuarded | server/server.go:203-227 | With a configuration that `New` accepts and reflection closed, no method with policies is ever admitted unless all of them were run and agreed on introspected claims. |
| Admission.DecisionIsNow | server/interceptor.go:52-63 | A decision is taken by the clock at that very step, on what `resolve` returned to this call; past the expiry claim it is a denial. |
| Admission.DecisionsAreInTime | server/interceptor.go:52-63 | In every interleaving a call that asked `resolve` is decided no earlier than that returned, so its expiry check never uses an older clock reading. |
| Admission.RequestsStay | server/interceptor.go:41-48 | Each move records at most one new request, as it came, changes no other, and leaves decisions alone. |
| Admission.AnyMoveIsPossible | server/interceptor.go:41-87 | Calls arrive at any time with any metadata, enter `resolve` with their own token only, and are decided at any time after it returned. |
| Admission.UnregisteredIsDenied | server/interceptor.go:72-75 | In every interleaving a call of a method neither public nor registered is denied, as unauthenticated if it has no token. |
| Pagination.Lookup | admin/lookup.go:64-92 | The nested loops of a lookup compute `LookupFrom`: no match, the one match, ambiguous, failed or not advancing. |
| Pagination.LookupIsScan | admin/lookup.go:16-44 | For any page sizes when the true total is reported, and for full pages when none is, a lookup says what a scan of the whole list says: none, the one, or ambiguous. |
| Pagination.LookupEnds | admin/lookup.go:68-90 | Against any service and after any pages read: two items found are ambiguous at once; otherwise a failed request is a failure, a last page (total reached, or fewer than 100 items without a total) gives the one item or none, and an empty page before the end is an error. |
| Pagination.AtMostTotalRequests | admin/lookup.go:107-112 | With a fixed reported total T > 0 a lookup ends within T requests whatever pages come back. |
| Pagination.UnreportedTotalMayNeverEnd | admin/lookup.go:107-112 | Without a reported total no number of requests suffices for every service. |
| Pagination.SomeBudgetSufficesIff | admin/lookup.go:107-112 | For a fixed reported total, some number of requests suffices against every service if and only if the total is positive. |
| Pagination.ListAll | admin/verify.go:259-279 | The listing loop computes `ListFrom`. |
| Pagination.ListIsWhole | admin/verify.go:259-279 | Under the same conditions a listing is the whole list, in order, without repeats. |
| Pagination.ListEnds | admin/verify.go:262-278 | Against any service and after any pages read: a failed request fails the listing, a last page completes it with all items read, an empty page before the end is an error. |
| Pagination.ListAtMostTotalRequests | admin/verify.go:259-279 | With a fixed reported total T > 0 a listing ends within T requests whatever pages come back. |
| Pagination.SomeBudgetListsIff | admin/verify.go:259-279 | For a fixed reported total, some number of requests suffices to list against every service if and only if the total is positive. |
| Authorizations.NormalizeSortedStrings | admin/onboard.go:295-310 | Whatever order the map is read in, the result is `Normalize` of the input. |
| Authorizations.NormalizeMeans | admin/onboard.go:295-310 | That result is sorted, duplicate-free and has exactly the non-empty trimmed values. |
| Text.AtMostIff | admin/onboard.go:308-308 | The order in which strings are sorted is the lexicographic one. |
| Text.SpacesAre | admin/onboard.go:298-298 | The characters that trimming removes, by code point. |
| Authorizations.SameRoleSetIff | admin/onboard.go:312-322 | Counting and membership decide equality of the two sets. |
| Authorizations.ReconcileAuthorizations | admin/onboard.go:102-140 | Against a service that may stop at any call, the run performs exactly a prefix of the planned deletions and creation, of the length the answered calls allow, and succeeds if and only if that is all of it. |
| Authorizations.ConvergesIff | admin/onboard.go:102-140 | For non-empty desired roles a run from any directory ends with exactly one matching authorization with exactly those roles if and only if the list it read showed all of the user's matching authorizations. |
| Authorizations.OthersUntouched | admin/onboard.go:111-129 | Wherever a run stops, and even on an incomplete list, every authorization of another user or another project is as it was. |
| Authorizations.CreatedIs | admin/onboard.go:124-138 | What a writing run creates is one active authorization of that user on that project in that organization with exactly the desired roles; everything it removes was that user's on that project. |
| Authorizations.ReconcileConverges | admin/onboard.go:102-140 | On a complete list: on target from any state, everyone else untouched, and a second run plans no write. |
| Authorizations.RerunAfterStop | admin/onboard.go:124-139 | A run stopped after any number of its writes is made good by the next one: the same target, everyone else as before the first run. |
| Authorizations.NoRolesDesired | admin/onboard.go:121-132 | With no roles desired nothing of the user's remains, except exactly when the user had a single authorization without roles. |
| VerifyRoles.VerifyRoles | admin/verify.go:281-308 | Appends to the report exactly `RoleDrift`: count, state of a single match, sorted roles. |
| VerifyRoles.BlamesRolesIff | admin/verify.go:281-308 | Each of the three fields is reported if and only if, respectively, the count is wrong, the set of listed roles differs from the desired one, or a single match is inactive. |
| VerifyRoles.RoleDriftSays | admin/verify.go:293-307 | Every reported mismatch names the resource, one of the three fields, what was wanted and what is there. |
| VerifyRoles.MatchingSays | admin/verify.go:284-292 | What is counted, and whose roles are collected, are the listed authorizations of that user on that project. |
| VerifyRoles.OnboardThenVerify | admin/onboard.go:102-140 | After an uninterrupted reconciliation to non-empty roles, from any directory, the verifier reports neither count nor roles. |
| VerifyRoles.QuietIffClean | admin/verify.go:281-308 | The reconciler has nothing to write if and only if the verifier reports neither count nor roles, but for a single authorization without roles when none are desired. |
| UserMetadata.SameKeysIff | admin/types.go:217-226 | Reconciler and verifier look at the same keys if and only if the explicit namespace is blank or names the configured one. |
| UserMetadata.KeysDiffer | admin/metadata.go:15-21 | The two kinds of key never coincide, in whatever namespaces. |
| UserMetadata.NamespaceSays | admin/types.go:217-226 | The namespace is the first of the two that is not blank, trimmed, and otherwise the default. |
| UserMetadata.ReconcileMetadata | admin/onboard.go:142-180 | Against a service that may stop at any call, the run performs exactly as many of the planned calls as are answered and succeeds if and only if that is all of them. |
| UserMetadata.FinalIs | admin/onboard.go:142-180 | A completed run sets or removes the two slots as wanted and changes no other slot of any user. |
| UserMetadata.AccessIsStored | admin/onboard.go:142-180 | In terms of the pattern lists: under each of the two spelled-out keys a completed run leaves the encoded access of that kind if there is any pattern, allowed or denied, and nothing otherwise; all else is as it was. |
| UserMetadata.StuckSays | admin/onboard.go:173-178 | The stuck case spelled out: a strict service, no patterns at all, exactly one of the two keys stored. |
| UserMetadata.MetadataConvergesIff | admin/onboard.go:173-178 | It leaves both slots as wanted from any store, except exactly when a strict service is asked to delete both keys and only one of them exists. |
| UserMetadata.OthersKept | admin/onboard.go:142-180 | Wherever a run stops, no other slot has changed. |
| UserMetadata.RerunReachesSame | admin/onboard.go:167-179 | A run stopped between its calls, run again, ends in the very store an undisturbed run reaches; so a second run changes nothing. |
| UserMetadata.GroupEntries | admin/verify.go:321-323 | The grouping loop yields for each key its listed values, in order. |
| UserMetadata.PagedListingShowsStore | admin/verify.go:310-333 | Read through any number of pages, each key shows exactly what is stored under it. |
| UserMetadata.VerifyMetadataEntry | admin/verify.go:342-359 | Appends to the report exactly `EntryDrift`: unwanted, missing, repeated and differing entries. |
| UserMetadata.EntryDriftSays | admin/verify.go:342-359 | The report on one key in all cases: present though unwanted, missing, listed more than once (always reported, with the number), or different as rendered; and nothing else. |
| UserMetadata.VerifyAccessMetadata | admin/verify.go:335-340 | Appends exactly `AccessDrift` for the two keys. |
| UserMetadata.CleanIffLooksRight | admin/verify.go:335-359 | The verifier is silent if and only if each wanted slot holds a payload with the wanted canonical JSON and each unwanted slot is empty. |
| UserMetadata.OnboardThenVerifyMetadata | admin/onboard.go:142-180 | Under the same namespace, after a completed run from any store, the verifier reports nothing about metadata if and only if it was not the one stuck case. |
| UserMetadata.OtherNamespaceSeesNoChange | admin/verify.go:27-28 | Under another namespace the verifier's report is what it was before the run. |
| WebApplication.SameMembers | admin/web_application.go:241-256 | The counting loops decide equality of multisets. |
| WebApplication.RenderedEqualIff | admin/verify.go:381-424 | For an injective rendering, equality of the sorted renderings is equality of multisets too. |
| WebApplication.WebApplicationMatches | admin/web_application.go:218-231 | Decides `Matches`, lists compared as multisets. |
| WebApplication.NormalizeWebURISet | admin/web_application.go:102-118 | The loop computes `NormalizedSet`, failing on the first bad or repeated URI. |
| WebApplication.NormalizedSetMeans | admin/web_application.go:102-118 | A list is accepted if and only if every URI is and no two normalise alike; the result is sorted with each normalised URI once. |
| WebApplication.CompareWebApplication | admin/verify.go:180-202 | After the lookup, leaves exactly the report `VerifiedDrift` describes, missing and non-OIDC applications included. |
| WebApplication.MatchesIffNoDrift | admin/verify.go:184-202 | The reconciler's comparison holds if and only if the verifier's twelve comparisons add nothing to the report. |
| WebApplication.WebDriftSays | admin/verify.go:184-202 | The report holds exactly the mismatches of the twelve fields, each with what was wanted and what is there. |
| WebApplication.OtherwiseSays | admin/verify.go:180-188 | A missing application and each other type of application is reported as such, and nothing else is. |
| WebApplication.GrantsSay | admin/web_application.go:233-239 | A matching application has the authorization code, and the refresh token if and only if refresh tokens are wanted, and no other grant type. |
| EnsureApplication.Service.LookupByName | admin/lookup.go:64-92 | The paged lookup against the service returns what a scan of its applications says. |
| EnsureApplication.EnsureWebApplication | admin/web_application.go:24-68 | A refused run changes nothing; ambiguous names and non-OIDC applications are refused with their error; otherwise the run succeeds if and only if its calls are answered, performs the decided create, update or nothing, and reports Created and Updated accordingly. |
| EnsureApplication.DecideSays | admin/web_application.go:38-66 | A run goes ahead if and only if the application is absent or an OIDC one, with drift or without: it is created exactly when absent and updated exactly when it does not match; every other lookup is refused with its own error. |
| EnsureApplication.RunReports | admin/web_application.go:43-67 | Created is reported exactly for an absent application and Updated exactly for one that did not match, with its id and client id. |
| EnsureApplication.WrittenSays | admin/web_application.go:176-216 | Field by field what a create and an update write; an update keeps client id and version. |
| EnsureApplication.FindSays | admin/web_application.go:38-38 | What is found is of that name in that project, and nothing is found exactly when the list has no such application. |
| EnsureApplication.VerifyWebApplication | admin/verify.go:174-202 | A failed or ambiguous lookup is an error and reports nothing; otherwise the report is `VerifiedDrift` of what a scan of all applications finds. |
| EnsureApplication.RunIs | admin/web_application.go:38-66 | A run appends one application, replaces the configuration of the one it found, or changes nothing. |
| EnsureApplication.EnsureConvergesIff | admin/web_application.go:196-231 | Whenever the application is absent or an OIDC one: after a run it matches, and the next run writes nothing and reports neither Created nor Updated, if and only if it was absent or at version 1.0 before. |
| EnsureApplication.OtherVersionNeverMatches | admin/web_application.go:196-216 | An application at another version still does not match after any number of runs, and the next run updates it again. |
| EnsureApplication.RunKeepsOthers | admin/web_application.go:38-66 | Every other application is unchanged and in its place; the one asked for keeps id, project, name and client id; at most one is added, exactly when none was found. |
| EnsureApplication.EnsureThenVerifyIff | admin/verify.go:174-202 | Whenever the application is absent or an OIDC one: after a run the verifier leaves its report unchanged if and only if it was absent or at version 1.0 before. |
| EnsureApplication.SilentIffNothingToDo | admin/verify.go:174-202 | For an absent or uniquely found application, the verifier is silent if and only if a run would write nothing. |

## Left out

- `Close` and use after it: the cache's last step, after which nothing is stored.
- SHA-256 and the inside of the singleflight package: an arbitrary hash, and the contract of one leader per key whose result its waiters share.
- Cancellation of the context of a leader: one more error the introspector may return.
- The HTTP and SDK introspectors, token acquisition and gRPC wiring, the `unary` and `stream` wrappers included: network and library calls, and one-line uses of `authorize`.
- Sharing of one claims object between callers: claims are values and never change.
- IntrospectionCache.Cache.Resolve: the uncontended call only; interleavings are the steps of the protocol, and `ResolveUncontended.RunsAlone` ties the two together.
- Interceptor.Authorize: likewise a call that meets no other call of its token; `Admission` has the interleavings.
- Invalid UTF-8 in headers and names: strings are sequences of Unicode scalar values.
- Pagination.Lookup and Pagination.ListAll: the source's loops are unbounded; here they carry a budget of requests, and the lemmas say which budget is enough.
- The filters in lookup requests: the service may send anything and the client's own check decides.
- Services that change while a listing is being read, and two administrators at work at the same time.
- EnsureApplication.Service.LookupByName: fails or succeeds as one call, however many pages it reads; `Pagination.Lookup` has failure at every page.
- The state of an authorization and convergence of it: the reconciler never writes it; `BlamesRolesIff` says when it is reported.
- JSON text and the rendering of enumeration values: arbitrary functions, injective where a lemma asks for it.
- Normalisation of a single URI, e-mail addresses, file patterns and namespace characters: parsing in libraries.
- The rendered claim action, its flow trigger, users' profile fields, `Bootstrap`, `Revoke` and logging: plain comparisons and calls without an algorithm.
- Claims accessors, token redaction, generated code, examples and scripts: no behaviour of their own.
