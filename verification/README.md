# Verified model of the NATS web gateway core

This project models, in Dafny 4.11, the parts of the gateway whose correctness
spans several functions, and proves what they promise. `dafny verify
dfyconfig.toml` checks all of it.

* **Security-context connection pool** (`Pool*.dfy`, `SecurityContextPool.dfy`).
  `PoolModel` gives every critical section of the pool as a function on a state
  that also remembers all attempts, connections, leases and armed timers.
  `PoolRuns` lets these sections interleave with connection results, late timers,
  rotating credentials and a moving clock; `PoolInvariant` and `PoolPreservation`
  hold the inductive invariant; `PoolTheorems`, `PoolTimers`, `PoolLifecycle` and
  `PoolGuarantees` state what it means for whole runs; `PoolLookups` and
  `PoolSections` say what each critical section decides in a reachable pool and what
  it leaves there. `SecurityContextPool` is the
  same pool as classes whose methods update entries, maps and leases in place. Each
  public method is a step of a run: it keeps the object's state reachable
  (`Pool.Ready`), so that what `PoolGuarantees` proves holds of the object between
  any two calls. `PoolSession` calls them one after another.
* **Routes** (`Text`, `Templates`, `Regexp`, `PatternErrors`, `RouteConfig`,
  `RouteGrammar`, `Routes`, `RouteRequests`, `RouteTheorems`, `RouteOrder`,
  `RouteOrderExample`). The static checks on templates, parameters, regular
  expressions and overlap and the grammars they add up to, the matcher that runs
  later and which requests it accepts and refuses, why the checks justify it, and
  when the order of the routes matters.
* **Route profiles** (`ProfileModel`, `ProfileChains`, `RouteShapes`, `RouteMerge`,
  `RouteProfiles`). Merging on values, inheritance as a fold along a chain of
  parents, and the memoised resolver over routes that hold slices with spare room,
  maps and pointers.
* **Core SSE streams** (`SseFraming`, `SseBuffer`, `SseTheorems`, `SseSchedules`,
  `CoreSse`). The bounded buffer with its lock-free consumer as interleaving steps,
  the text framing against the event stream parser of sections 9.2.5 and 9.2.6 of
  the WHATWG HTML Living Standard, and the event loop with the plain account of a
  schedule that it follows.
* **Accept negotiation** (`HeaderValues`, `Accept`). The quote-aware splitter
  (section 5.6.4 of RFC 9110) and the choice of a representation (section 12.5.1).
* **Credential identities and shutdown** (`Credentials`, `Lifecycle`).

Conventions: a clock reading, a credential callback's answer, the result of
connecting, the order in which a map is visited and every library call are
parameters, so a statement holds for all of them. Methods with `modifies` are the
imperative code; the functions they are specified by carry the laws.

Four laws that one might expect are false of the code, and the exact condition is
proved instead:

* The order of declared routes can matter, because the matcher answers with an error
  before it has compared later literal segments. No request is answered differently
  in another order exactly when no two routes conflict: share a method, have paths of
  one length, and at some placeholder of the one, which some values of the other do
  not fit, can still agree on everything before
  (`RouteOrder.OrderNeverMattersIff`). For one request it matters exactly when one
  route accepts and another refuses it (`RouteTheorems.OrderIrrelevantIff`);
  `RouteOrderExample.OrderMatters` is an instance.
* A payload does not always become one SSE event with its own text. It does exactly
  when its carriage returns stand only before line feeds or at its end, and then
  those are dropped (`SseFraming.DataRoundTrip`); it comes back unchanged exactly
  when it has none (`SseFraming.DataUnchangedIff`). A transcript reads back as its
  payloads exactly when this holds of all of them (`SseTheorems.TranscriptDecodes`);
  `SseFraming.InnerReturnCuts` says what else happens.
* A stream can end by its deadline although messages were dropped, because the
  event loop may see the deadline before the terminal signal
  (`SseTheorems.UnreportedLoss`). At a waiting stream every arrival was admitted
  exactly when the terminal slot is empty (`SseTheorems.EndsWithoutLossIff`), and
  every arrival was delivered exactly when the channel is empty too and nothing is
  about to be sent (`SseTheorems.AllDeliveredIff`).
* A zero minimum length does not mean that a grammar matches the empty value:
  `Regexp.ZeroWithoutEmpty` is an instance. The zero test rejects exactly the
  grammars that match it if and only if a zero minimum comes with a tree that
  `EmptyOk`, a recursion over the tree, accepts (`Regexp.ZeroTestExactIff`, for trees
  of every shape). Only a word boundary that is not optional can spoil this
  (`Regexp.ZeroTestExact`).

## Model

| member | source | states |
|---|---|---|
| PoolPreservation.AcquireKeepsInv | security_context.go:66-107 | the lookup section, rotation scan, eviction, grant or new attempt, keeps the pool invariant for every reading and visiting order |
| PoolPreservation.CommitKeepsInv | security_context.go:141-168 | recording a connection result keeps the invariant, also when the observed key differs from the attempt's, the key is taken or the pool is stopping |
| PoolPreservation.ReleaseKeepsInv | security_context.go:177-196 | a release, first or repeated, before or after the entry was removed, keeps the invariant |
| PoolPreservation.ExpireKeepsInv | security_context.go:198-241 | a timer callback, however late or stale, keeps the invariant |
| PoolPreservation.CloseKeepsInv | security_context.go:270-277 | closing the pool, visiting entries in any order, keeps the invariant |
| PoolRuns.StepKeepsInv | security_context.go:57-277 | every step of the interleaved system keeps the invariant |
| PoolRuns.ReachableInv | security_context.go:50-277 | every state reachable from a new pool satisfies the invariant |
| PoolGuarantees.ConnectionLimit | security_context.go:94-106 | in every reachable state entries plus attempts, and the open connections themselves, never exceed MaxConnections |
| PoolGuarantees.ClosedWhenLetGo | security_context.go:141-168 | in every reachable state a connection has been closed exactly once if neither a pooled entry nor an attempt holds it, and never otherwise |
| PoolGuarantees.OneAttemptPerKey | security_context.go:94-106 | each key has at most one attempt under way, and an attempt is signalled once, when it finishes |
| PoolGuarantees.ReferencesAreLeases | security_context.go:183-196 | an entry's references are exactly its handed-out, unreleased leases |
| PoolGuarantees.LeasesHold | security_context.go:171-181 | every lease started strictly before it expires; while it is unreleased and the pool open, its entry is pooled and its connection open |
| PoolGuarantees.ReleaseAfterRemoval | security_context.go:186-188 | once an entry has left the pool, in every continuation a release of one of its leases changes nothing but that lease |
| PoolGuarantees.ReleasedForGood | security_context.go:176-178 | a released lease stays released in every run, and calling its release again changes nothing |
| PoolLifecycle.GrantedLease | security_context.go:62-91 | from a state of the invariant, a granted lease comes from the unexpired entry under exactly the caller's key, with that entry's connection and expiry, and leaves it unexpired |
| PoolGuarantees.GrantsAreCurrent | security_context.go:62-91 | in every run a granted lease comes from the entry stored under exactly the key the refresh returned, and that entry's identity showed the key at the generation that this section's scan read |
| PoolLookups.LookupOutcome | security_context.go:66-107 | in any reachable pool a lookup grants exactly when the entry under its key is unexpired, of the generation just read, younger than its lifetime and connected; it asks to reconnect exactly when such an entry is not connected or an unusable one is still leased; otherwise it waits for the attempt in flight or a new one, and fails exactly when leased, current and attempted connections fill the limit |
| PoolLookups.GrantLeaves | security_context.go:86-91 | a grant adds one reference, stamps the last use, arms the timer in time and appends the lease; every other entry stays or is retired by the scan |
| PoolLookups.RefusalLeaves | security_context.go:74-85 | a lookup that asks to reconnect changes nothing but what the scan retires, and expires an entry that is past its lifetime |
| PoolLookups.MissLeaves | security_context.go:94-106 | a lookup that finds nothing usable leaves nothing under its key, sweeps idle entries only when the limit is reached without that, and starts an attempt only when none is in flight |
| PoolLookups.DroppedIsClosed | security_context.go:243-268 | whatever a lookup takes out of a reachable pool has its connection closed exactly once |
| PoolSections.ReleaseDecides | security_context.go:183-196 | a release takes its entry out exactly when it was the last one and the entry is expired or past its lifetime; otherwise the entry stays pooled with one reference less and a timer due in time |
| PoolSections.CallbackDecides | security_context.go:220-241 | a callback takes an entry out exactly when it is unreferenced and past its lifetime or idle time; before that it stays, expired exactly if it was or its lifetime is over |
| PoolSections.AttemptEnds | security_context.go:141-169 | a finished attempt leaves flight and is signalled once, as failed exactly when its dial failed or the pool is stopping |
| PoolSections.CommitDecides | security_context.go:141-168 | its connection becomes a new unreferenced entry under the observed key if that is free in an open pool, and is closed otherwise |
| PoolTheorems.RunAges | security_context.go:73-91 | no run changes an entry's connection, identity, generation or creation time, clears its expiry, or brings back an entry that left the pool |
| PoolGuarantees.NoLeaseAfterExpiry | security_context.go:74-81 | from the moment an entry is expired, no run leases it again, even after it left the pool |
| PoolGuarantees.NoneStranded | security_context.go:198-241 | in every reachable state a pooled entry is expired and referenced, or has a launched callback, or a timer armed in the past that is due, at the latest, now or at its lifetime and idle limits plus the time spent arming it |
| PoolTimers.RunArmed | security_context.go:198-218 | in every run, the timers of pooled entries were armed at or before the present |
| PoolGuarantees.QuietPoolIsEmpty | security_context.go:198-241 | after any run, however late and stale its callbacks: with all leases released and everything that was due run, the pool is empty |
| PoolGuarantees.DueCallbackRemoves | security_context.go:220-241 | with all leases released, any callback that runs on a pooled entry at or after its limits removes it |
| PoolGuarantees.ReleasedPoolDrains | security_context.go:198-241 | from any reachable state with all leases released, some run of timers alone empties the pool |
| PoolGuarantees.ClosedPoolSettles | security_context.go:270-277 | after close no run grants a lease, stores an entry or starts an attempt, and once the attempts under way have finished every connection ever opened was closed exactly once |
| PoolLifecycle.EvictChangedMarks | security_context.go:251-260 | the rotation scan leaves no unexpired entry whose tracker has left the entry's generation |
| PoolLifecycle.LastReleaseRemoves | security_context.go:189-194 | the last release of an expired entry removes it and closes its connection |
| SecurityContextPool.Pool.constructor | security_context.go:50-55 | a new pool is the empty pool of the model and a state that runs start from |
| SecurityContextPool.Pool.RemoveLocked | security_context.go:262-268 | takes exactly that entry out of the map and closes its connection |
| SecurityContextPool.Pool.ScheduleLocked | security_context.go:198-218 | rearms the entry's timer for the earlier of its lifetime and, if unreferenced, idle limit |
| SecurityContextPool.Pool.EvictChangedLocked | security_context.go:251-260 | in any map order, retires exactly the entries whose identity changed |
| SecurityContextPool.Pool.EvictIdleLocked | security_context.go:243-249 | in any map order, removes exactly the unreferenced entries that are expired or idle |
| SecurityContextPool.Pool.GrantLocked | security_context.go:86-91 | counts the reference, reschedules and hands out a lease that expires with the entry |
| SecurityContextPool.Pool.Acquire | security_context.go:66-107 | the whole lookup section, in place, is the model's step; it grants exactly when a usable, connected entry object is pooled under the key, and the lease is a new object of that entry, which has one more reference and was used now; earlier leases stay |
| SecurityContextPool.Pool.Commit | security_context.go:141-168 | the whole commit section, in place, is the model's step; an entry it stores is a new object, and the leases stay |
| SecurityContextPool.Pool.Release | security_context.go:176-196 | a release through the lease object, in place, is the model's step; every other lease stays as it is |
| SecurityContextPool.Pool.Expire | security_context.go:220-241 | a timer callback, in place, is the model's step; the leases stay |
| SecurityContextPool.Pool.Dial | security_context.go:139 | a connection attempt returns, in place: the model's step |
| SecurityContextPool.Pool.Fire | security_context.go:217 | an entry's timer launches its callback, in place: the model's step |
| SecurityContextPool.Pool.Close | security_context.go:270-277 | removes every entry in any map order and leaves the pool stopping and empty |
| PoolSession.GiveBack | security_context.go:176-196 | of two leases handed out, releasing the one leaves the other handed out, and releasing both spends both |
| PoolSession.Connect | security_context.go:131-169 | an attempt for any credential, observed while it dials: an opened connection is stored under the key and generation shown by then, or exactly it is closed when that key is taken or the pool stops; entries and leases otherwise stay |
| PoolSession.ConnectRefreshed | security_context.go:148-166 | a tracked credential that shows a new key between dial and commit is stored under the new key, with the new generation |
| PoolSession.RequestThenClose | security_context.go:57-277 | after any request, for a fixed or a tracked credential, the pool can be closed, is then empty, and with no attempt under way has closed each connection it opened exactly once |
| Regexp.SafePatternMinimumLength | config.go:479-544 | the recursion with its loops computes the analysis, with the error of the first child that fails |
| Regexp.ConcatMinimum | config.go:506-515 | the loop over a concatenation adds up the children's minima |
| Regexp.AlternateMinimum | config.go:516-527 | the loop over an alternation keeps the least of the children's minima |
| Regexp.AnalysisSound | config.go:464-549 | whatever an accepted expression matches is made of safe characters and at least as long as the returned minimum |
| PatternErrors.AcceptsIff | config.go:479-544 | an expression is accepted exactly when every expression in it is harmless: no dead or unsupported operation, no folded literal, and no character or range outside the safe ones |
| PatternErrors.ErrorShown | config.go:479-544 | every error names a part that stands in the expression and deserves it |
| Regexp.SafeIs | config.go:546-549 | the safe characters are the word characters of the pattern language and the hyphen |
| Regexp.MinimumAttained | config.go:479-544 | the minimum is exact: where the tree's condition `Attains` holds, some string of that very length is matched wherever it stands, or at the edges of the value for the parts that anchors hold there |
| Regexp.WholeMinimumAttained | config.go:464-544 | for a whole grammar that meets the condition, anchors included, some value of the minimal length is matched |
| Regexp.PlainAttains | config.go:479-544 | every expression without assertions and dead parts meets the condition |
| Regexp.AnchoredAttains | config.go:464-544 | so does every concatenation of such parts between the two anchors, as the parser builds it |
| Regexp.EmptyOkIff | config.go:464-477 | whether the empty value is matched can be read off the tree, whatever its shape |
| Regexp.ZeroTestExactIff | config.go:464-477 | for every grammar the zero test rejects exactly those that match the empty value if and only if a zero minimum comes with a tree that can be empty |
| Regexp.ZeroTestExact | config.go:464-477 | without a word boundary outside optional parts the zero test is exact, for trees of every shape |
| Regexp.EmptyGivesZero | config.go:464-477 | every grammar, whatever its tree, that matches the empty value has the minimum zero and is rejected |
| Regexp.ZeroWithoutEmpty | config.go:464-477 | an anchored word boundary has the minimum zero although it does not match the empty value |
| Templates.ScanIffSegments | config.go:399-425 | the scan of the whole string accepts exactly the templates whose every segment is a placeholder or brace-free, and finds the names in order |
| Templates.CheckMatches | config.go:405-424 | the loop over the placeholders accepts exactly distinct names that fill their segments |
| Templates.ValidateTemplate | config.go:399-425 | accepts exactly the well-formed templates and returns their parameters in order |
| RouteConfig.ValidatePath | config.go:376-387 | accepts exactly the acceptable paths and returns their parameters |
| RouteConfig.PathSegmentsOk | config.go:639-645 | the segments of an acceptable path are non-empty, well formed and hold the same parameters |
| RouteConfig.PathSegmentsJoin | internal/routes/routes.go:86-91 | for any path after its first slash, the segments have no slash and join to the rest of it, a trailing slash included |
| RouteConfig.PathSegmentsAre | internal/routes/routes.go:86-91 | no other list of slash-free texts joins to it |
| RouteConfig.PathSplits | internal/routes/routes.go:86-91 | split whole, a path has an empty part before its first slash and its segments after it |
| RouteGrammar.PathGrammar | config.go:376-425 | a path is accepted exactly if it is a slash, or a slash before each of one or more pieces, placeholders or plain text, that name no parameter twice |
| RouteGrammar.SubjectGrammar | config.go:389-425 | a subject is accepted exactly if it is one or more such pieces between dots that name no parameter twice |
| RouteGrammar.NameIs | config.go:31 | a parameter name is word characters of the pattern language that start with a letter |
| RouteConfig.ValidateSubject | config.go:389-397 | accepts exactly the acceptable subjects and returns their parameters |
| RouteConfig.ValidateParameters | config.go:427-462 | accepts exactly when every used name is declared with an acceptable source and grammar and every declared name is used |
| RouteGrammar.ParameterPlaces | config.go:427-462 | in an accepted route a parameter is read from the path exactly if its placeholder stands there, and else stands in the subject; its grammar matches nothing empty or unsafe |
| RouteConfig.HasPlaceholderIffIs | config.go:630-631 | on segments of accepted templates the unanchored placeholder test agrees with the whole-segment test |
| RouteConfig.PathsOverlap | config.go:623-637 | on accepted paths it is true if and only if some list of segments fits both templates |
| RouteConfig.PairwiseDisjoint | config.go:237-243 | any two routes of an accepted list have disjoint methods or no segments that fit both |
| RouteConfig.ValidateRoutes | config.go:225-245 | accepts exactly the non-empty lists of acceptable routes with distinct names and no overlap |
| Routes.PlaceholderName | internal/routes/routes.go:93-98 | on segments of accepted templates the matcher's placeholder test finds exactly the validator's placeholders |
| Routes.ReplaceInSubject | internal/routes/routes.go:75-77 | replacing the text of one placeholder in the whole subject changes exactly the tokens that are that placeholder |
| Routes.Substitute | internal/routes/routes.go:74-78 | the replacement loop gives the simultaneous substitution for every map order |
| Routes.EntireValueSafe | internal/routes/routes.go:81-84 | a value that spans the whole match of an accepted grammar is safe and not empty |
| Routes.MatchSegments | internal/routes/routes.go:47-63 | the first segment that is not fine decides between no match and a refusal; otherwise the values are the decoded placeholders |
| Routes.PathValueIs | internal/routes/routes.go:47-63 | the value of a path placeholder is the decoded segment in its place |
| Routes.MatchQuery | internal/routes/routes.go:64-73 | accepts exactly when every query parameter occurs once with an acceptable value |
| Routes.ValuesGood | internal/routes/routes.go:46-73 | for an accepted request exactly the declared parameters have values, and all are safe and non-empty |
| Routes.Match | internal/routes/routes.go:38-79 | accepted exactly when every check passes, with the simultaneously substituted subject; refused exactly when a bad segment comes first or a query value is bad; in both cases path and declared path have equally many slashes |
| RouteRequests.UnescapeIff | internal/routes/routes.go:48-51 | a segment decodes exactly if every percent sign in it stands before two hexadecimal digits |
| RouteRequests.UnescapeEncoded | internal/routes/routes.go:48-51 | a percent sign and two digits stand for the character with that code, wherever they stand in text that decodes |
| RouteRequests.PassesIff | internal/routes/routes.go:38-79 | a request is accepted exactly if its method is declared, its path, split whole at the slashes, has as many parts as the declared one, each decoding to the same literal or to a value that the whole grammar spans, and each query parameter occurs once with such a value |
| RouteRequests.RefusesIff | internal/routes/routes.go:38-73 | it is refused exactly if method and number of slashes agree and the first part that does not fit is badly encoded or outside its grammar, or all parts fit and the query does not |
| RouteRequests.PathParameterIs | internal/routes/routes.go:46-63 | a path parameter has the decoded text that stands where its placeholder stands in the declared path |
| RouteRequests.QueryValueIs | internal/routes/routes.go:64-73 | a query parameter has the one value of the query parameter that it reads |
| RouteRequests.NoTrailingSlash | internal/routes/routes.go:42-63 | no request with a trailing slash is accepted, unless its path is just a slash |
| RouteTheorems.SubjectTokens | internal/routes/routes.go:74-78 | the published subject splits into the template's tokens, each filled in its place |
| RouteTheorems.SubjectSound | config.go:389-461 | every accepted request publishes to the template's number of non-empty tokens without separators, wildcards, braces or whitespace; literals are unchanged and placeholders are the supplied safe values |
| RouteTheorems.SubjectInjective | internal/routes/routes.go:74-78 | equal subjects of one route imply equal values of every parameter in the subject |
| RouteTheorems.AtMostOnePasses | config.go:237-243 | at most one route of an accepted list gives any request a subject |
| RouteTheorems.Dispatch | gateway.go:361-373 | the route loop answers with the first route that accepts or refuses, among those that do not stream from JetStream |
| RouteTheorems.AnsweringOk | gateway.go:362-365 | the routes that the loop answers from meet, pair by pair, everything that was checked of the whole list |
| RouteTheorems.OrderIrrelevantIff | gateway.go:361-373 | every order of the routes answers a request alike if and only if no route accepts it while another refuses it |
| RouteOrder.OrderNeverMattersIff | internal/routes/routes.go:47-73 | for an accepted list, no request at all depends on the order if and only if no two routes conflict: a condition on their methods, segments and grammars alone |
| RouteOrder.ConflictRequest | internal/routes/routes.go:47-73 | from every conflict of two routes a request can be built that one accepts and the other refuses |
| RouteOrder.PlainlyApartNeverMatters | internal/routes/routes.go:47-61 | routes that share no method, differ in length or part in their literals before any placeholder can be declared in any order |
| RouteOrderExample.OrderMatters | internal/routes/routes.go:47-61 | two accepted routes, letters before digits, and a request that the first refuses and the second accepts |
| ProfileModel.MergeAssociative | profiles.go:91-156 | overrides that neither clear nor extend can be merged in any grouping |
| ProfileModel.ClearAllOkIff | profiles.go:97-105 | clearing succeeds exactly for distinct shareable fields |
| ProfileModel.ClearedFields | profiles.go:158-221 | clearing resets exactly the named fields, down to the parts of response, core_sse, security_context and downstream_identity, and leaves the rest; an object is present afterwards exactly if it was and was not cleared, or a part of it was cleared later |
| ProfileModel.MergedFields | profiles.go:107-155 | every field of a merged route, also within the nested objects, is the override's if set, else zero if cleared, else inherited; lists and maps are then extended |
| ProfileModel.MergeOkIff | profiles.go:97-105 | a merge without extension fails exactly for an unacceptable clear list |
| ProfileModel.DuplicateParameterIff | profiles.go:291-299 | an extension fails on a parameter exactly when it repeats a key that is inherited and not cleared, or overridden |
| ProfileModel.DuplicateStatusIff | profiles.go:304-312 | an extension fails on a status exactly when it repeats no parameter but a status that is inherited and not cleared, or overridden |
| ProfileModel.ExtendingMergeOkIff | profiles.go:91-156 | an extending merge succeeds exactly when its clear list is acceptable and it repeats no key |
| ProfileModel.ResolvedAgain | config.go:719-725 | a resolved route resolves to itself |
| ProfileModel.ResolvedFields | profiles.go:76-87 | a resolved route has its own name, path and methods, and every other field from itself if set, else zero if cleared, else from its base, then extended; no inheritance setting is left |
| ProfileModel.ResolveOkIff | profiles.go:82-86 | laying a route over its base succeeds exactly when its clear list is acceptable and it extends no key that is there already |
| ProfileChains.ChainUnique | profiles.go:39-67 | a profile has at most one chain of ancestors |
| ProfileChains.InheritsParent | profiles.go:55-62 | what a profile inherits is its own route merged onto what its parent inherits |
| ProfileChains.ProfileFields | profiles.go:55-62 | every field of what a profile inherits is its own if set, else zero if cleared, else what its parent inherits, then extended |
| ProfileChains.RouteFields | profiles.go:74-87 | every field of a resolved route is the declared one's if set, else zero if cleared, else what the profile it names inherits, then extended |
| ProfileChains.PlainRouteFields | profiles.go:74-87 | a declared route that names no profile inherits the empty route |
| ProfileChains.RouteResolvesIff | profiles.go:74-87 | given what its profile inherits, a declared route resolves exactly when it can be merged onto it |
| ProfileChains.RouteNeedsProfile | profiles.go:77-81 | a declared route resolves only if the profile it names does |
| ProfileChains.CycleUnresolvable | profiles.go:51-53 | a name that comes up again while being resolved has no finite chain |
| ProfileChains.UnresolvableIff | profiles.go:39-68 | a profile does not resolve if and only if its `extends` lead to an unknown name, back to a name already passed, or to a profile whose merge onto what it inherits fails |
| ProfileChains.ByNameIs | profiles.go:22-34 | the profiles of a list with distinct names are found by their names, and nothing else is |
| ProfileChains.FaultUnique | profiles.go:39-68 | that cause is determined by the profile: exactly one error, with one name and one merge error, is true of it |
| ProfileChains.ConfigUnique | profiles.go:69-89 | a configuration resolves to one list of routes whatever the map order |
| ProfileChains.EmittedResolveToThemselves | config.go:719-725 | resolving the emitted routes again, without profiles, gives the same routes |
| RouteShapes.CloneRoute | profiles.go:338-368 | an equal route in storage that existed nowhere before, with slices that share no backing array |
| RouteShapes.Append | profiles.go:301-303 | appends in place or in a new array, with the values of both and nil kept for nothing appended to nil |
| RouteMerge.ClearRouteField | profiles.go:158-221 | resets the field through the route's own pointers, creating absent objects |
| RouteMerge.ClearFields | profiles.go:96-106 | the clear loop gives the fold of the single resets, or the first error |
| RouteMerge.MergeResponse | profiles.go:223-242 | what the override's response sets wins, copied |
| RouteMerge.MergeCoreSse | profiles.go:243-259 | non-zero settings of the override replace the base's, in place |
| RouteMerge.MergeSecurityContext | profiles.go:260-290 | set values of the override replace the base's, in place, down to the downstream identity |
| RouteMerge.ExtendParameters | profiles.go:295-300 | in any map order, adds all entries, or fails exactly when a key is already there |
| RouteMerge.ExtendTables | profiles.go:291-314 | lists are appended and entries added in place, or the first duplicate fails |
| RouteMerge.MergeRoute | profiles.go:91-156 | merges as on values, writes nothing that existed before, and returns a route whose every slice, map and pointer is new |
| RouteProfiles.Resolver.ResolveProfile | profiles.go:39-68 | the memoised recursion returns the fold down the chain, or, exactly when there is none, the error that names the cause: the unknown name, the cycle or the failing merge that the chain leads to |
| RouteProfiles.CollectProfiles | profiles.go:22-34 | accepts exactly valid, distinct names with nothing route-specific |
| RouteProfiles.ResolveProfiles | profiles.go:69-73 | in any map order, succeeds exactly when every profile resolves, and otherwise returns an error that is the cause for one of them |
| RouteProfiles.ResolveRoutes | profiles.go:74-89 | each declared route on what the profile it names inherits, field by field as in `ProfileChains.RouteFields`, all in separate storage; or some route does not resolve |
| RouteProfiles.ResolvedRoutes | profiles.go:21-89 | succeeds exactly when the configuration resolves, with each declared route on what its profile inherits, field by field; the routes returned share no storage and nothing configured is written |
| SseFraming.WriteData | core_sse.go:224-232 | writes the payload's lines, each without one carriage return at its end, and a blank line |
| SseFraming.FramesIndependent | core_sse.go:165-197 | a stream decodes frame by frame, whatever the payloads hold |
| SseFraming.CommentDecodes | core_sse.go:165-182 | comments and heartbeats dispatch no event |
| SseFraming.ControlDecodes | core_sse.go:234-240 | a control frame dispatches exactly its event |
| SseFraming.DataDecodesIff | core_sse.go:224-232 | a payload arrives as one event with its trimmed lines exactly when these hold no carriage return |
| SseFraming.DataUnchangedIff | core_sse.go:224-232 | a payload comes back unchanged exactly when it has no carriage return |
| SseFraming.DataRoundTrip | core_sse.go:224-232 | a payload arrives as one event with its canonical text exactly when its carriage returns stand only before line feeds or at the end, and that text is the payload without them |
| SseFraming.InnerReturnCuts | core_sse.go:224-232 | a payload with a carriage return inside a line arrives cut there, when what follows names no field |
| SseBuffer.StepKeepsInv | core_sse.go:50-82 | every step of producer and consumer keeps the byte count, the order and the failure signal |
| SseBuffer.ReachableInv | core_sse.go:41-82 | every reachable stream satisfies the invariant |
| SseTheorems.BytesExact | core_sse.go:54-82 | the byte count, with a message sent and not yet counted, is the queued sizes plus the received, unreleased one, and stays within the limit |
| SseTheorems.DeadBranches | core_sse.go:63-67 | the send never finds the channel full, and no received message is over the size limit |
| SseTheorems.NoOverflow | core_sse.go:58-81 | no sum or difference the buffer computes leaves the 64-bit range |
| SseTheorems.DeliveredInOrder | core_sse.go:187-196 | delivered messages are arrivals in order, none twice |
| SseTheorems.NoFailureNoGap | core_sse.go:54-76 | while no failure was signalled, delivered and pending messages are all arrivals |
| SseTheorems.DropSignalled | core_sse.go:54-76 | after a drop the first failure's reason is in the terminal slot or was reported |
| SseTheorems.ReportedIsFirst | core_sse.go:178-179 | a reported reason is that of the first failure, and something was dropped |
| SseTheorems.EndsWithoutLossIff | core_sse.go:172-181 | every arrival at a waiting stream is delivered or still on its way exactly when the terminal slot is empty |
| SseTheorems.AllDeliveredIff | core_sse.go:172-181 | a waiting stream that ends now has delivered every arrival exactly when the slot and the channel are empty and nothing is about to be sent |
| SseTheorems.UnreportedLoss | core_sse.go:172-181 | with room for one message, any three payloads have a run that loses the second, delivers the others and ends by its deadline |
| SseTheorems.TranscriptDecodes | core_sse.go:165-197 | the transcript of any run decodes to the delivered payloads' canonical texts in order, then the control event, exactly when all their carriage returns stand at line ends; the texts are then the payloads without those |
| CoreSse.CoreSSEBuffer.Enqueue | core_sse.go:50-76 | admission, send and count in place are the protocol's three steps |
| CoreSse.CoreSSEBuffer.Release | core_sse.go:78-82 | gives back exactly the message's bytes |
| SseSchedules.GoesOn | core_sse.go:172-197 | until an item of the schedule stops it, a stream takes in every arrival in order and writes one heartbeat for every tick |
| SseSchedules.EndsAtFirst | core_sse.go:172-197 | the first failure noticed, deadline, departure or message that is no text is the end of the stream, and nothing is taken in or written after it |
| SseSchedules.MessageTaken | core_sse.go:187-196 | each time a message is ready and one is queued, the oldest is written, or stops the stream if it is no text |
| CoreSse.Serve | core_sse.go:165-200 | the event loop does with any schedule of arrivals and ready channels, item by item, what the account of `SseSchedules` says; it writes the transcript of that run, and a client reads the delivered payloads' canonical texts and the control event from it exactly when their carriage returns stand at line ends |
| CoreSse.StreamDeadline | core_sse.go:85-128 | the deadline never exceeds the maximum duration or the lease's end |
| HeaderValues.SplitIff | response.go:148-171 | a value has at most one split into non-blank, quote-closed pieces with the delimiter only inside quotes: its cut at every unquoted delimiter |
| HeaderValues.CutHeaderValue | response.go:148-171 | the scanning loop finds that cut, and fails exactly for a blank piece or an open quoted string |
| HeaderValues.SplitHeaderValue | response.go:148-171 | succeeds exactly with the one split of the value, if there is one |
| HeaderValues.TrimIs | response.go:74-79 | trimming takes off the white space on both sides, and all of it |
| HeaderValues.PieceSplitsAgain | response.go:73-79 | a trimmed piece never fails another split because of quoting |
| HeaderValues.PieceResplits | response.go:148-171 | a piece splits at the same delimiter to itself |
| Accept.QualityUnique | response.go:46-57 | a media type's quality is determined by its deciding range |
| Accept.QualityFor | response.go:46-57 | the inner loop finds the quality of the most specific, then most parameterised, then earliest matching range |
| Accept.ChosenUnique | response.go:58-65 | at most one representation is the choice |
| Accept.SelectIndex | response.go:43-65 | the nested loops find the first declared type of the greatest positive quality, and none exactly when no quality is positive |
| Accept.ThousandthsExact | response.go:20 | a quality value is exactly its thousandths, between 0 and 1000 |
| Accept.QualityIs | response.go:20 | a quality value is a bare 0 or 1, or one with up to three digits after a point, zeros only after a 1 |
| Accept.MatchesCases | response.go:173-186 | without parameters a range matches every type, one main type or one type; each parameter narrows it to the types that agree on it |
| Accept.ParameterIs | response.go:81-90 | a parameter is its name and value around the first equals sign, with white space around either not part of it |
| Accept.RangeOfIff | response.go:102-121 | a media type denotes exactly the range whose two names make it up around its first slash; a range's specificity counts the names that are no wildcard |
| Accept.ItemMeans | response.go:76-121 | a range has the names and parameters before the first quality parameter of its item, that quality, or one without it, and the item's place; what follows the quality are extensions named by tokens, none of them another quality |
| Accept.PrecedenceIs | response.go:46-57 | of two ranges of a header the one with fewer wildcards takes precedence, then the one with more parameters, then the earlier |
| Accept.ExactDecides | response.go:43-57 | a range without wildcards that matches a type keeps every wildcard range from deciding its quality |
| Accept.ExcludedStays | response.go:43-65 | a type that is matched without wildcards, always with quality 0, is never chosen, whatever the wildcard ranges allow |
| Accept.ParseItem | response.go:76-121 | an item is parsed exactly to the range it denotes, which `Accept.ItemMeans` reads off the item |
| Accept.HeaderUnique | response.go:68-124 | a header denotes at most one list of ranges |
| Accept.ParseAccept | response.go:68-124 | succeeds exactly when the header splits into at most 64 items that all denote ranges; precedence among these goes by wildcards, parameters and place |
| Accept.SelectRepresentation | response.go:31-66 | the first declared type without negotiation or header; else the declarative choice, whose quality the matching range with the fewest wildcards decides, or an error exactly when the header does not parse or nothing is acceptable |
| Credentials.PreimageInjective | internal/credentials/credentials.go:239-241 | the digest's input determines mechanism and credential |
| Credentials.KeysSeparate | internal/credentials/credentials.go:161-240 | accepted presentations have equal keys exactly when they are the same presentation |
| Credentials.ControlsCollide | internal/credentials/credentials.go:330-340 | without the control-character test two different user and password pairs would share a key |
| Credentials.IdentityTracker.Observe | internal/credentials/credentials.go:66-74 | a key that differs starts the next generation, the same key changes nothing, and no earlier generation's key changes |
| Credentials.IdentityTracker.Snapshot | internal/credentials/credentials.go:76-80 | the key returned is the one shown at the generation returned |
| Credentials.RefreshIdentity | internal/credentials/credentials.go:36-49 | returns the tracker's key and generation after the refreshed credential's, which was shown no later, and others' observations in between; the key is the refreshed one if there were none, and a failing callback changes nothing |
| Credentials.IdentityChanged | internal/credentials/credentials.go:61-64 | true exactly when the tracker has moved past the generation |
| Lifecycle.ConnectionLifecycle.SetReady | gateway.go:142-149 | readiness follows the connection until stopping begins, and then never returns |
| Lifecycle.ConnectionLifecycle.BeginStopping | gateway.go:151-161 | nothing is ready afterwards and the stop signal is given once |
| Lifecycle.ConnectionLifecycle.OnClosed | gateway.go:285-288 | a closed connection ends readiness, and its signal is given once |
| Lifecycle.Cleanup | gateway.go:312-322 | readiness ends and the pool is left stopping and empty |

## Left out

- Numbering: generations are natural numbers, so the wrap-around of the 64-bit generation counter is not modelled; connections, entries and attempts are handles numbered in order of creation.
- Acquire loop: one pass of the retry loop is one step; that `acquire` ends is not claimed, since a credential that changes on every call keeps it going until its context ends.
- Pool mutex: each region under the mutex is one step, and the `sync.Once` of a lease is part of its release step.
- Permission waiters: the registry of cancel functions per subject.
- Regular expressions: parsing and searching are parameters; the search is assumed to report only real matches and the parser to give every alternation an alternative. `Repeat` multiplies without the integer overflow of the source.
- Text encoding: strings are sequences of characters; UTF-8 decoding of values and percent escapes above one byte is not modelled, and UTF-8 validity of payloads is a parameter.
- RouteConfig.ValidateRoutes: covers names, paths, methods, subjects and parameters; the grammar of names and method tokens, header deny lists, limits, media types and stream settings are single tests that decide nothing else.
- ProfileModel.ClearAllOkIff: the table of field names is the enumeration of fields; any other string is one constructor.
- RouteShapes.CloneRoute: clear lists and extension blocks are values, because nothing writes through them.
- RouteProfiles.CollectProfiles: the grammar of profile names is a parameter.
- Error texts: which of several duplicate keys or failing profiles is reported depends on map order and is not stated.
- CoreSse.Serve: arrivals come between rounds of the loop, which in the steps of `SseBuffer` they need not; write errors end the transcript early and are not modelled; set-up, quotas and permissions of a stream come before the loop and are left out.
- CoreSse.CoreSSEBuffer.Enqueue: runs whole between two rounds of the loop; that a receive may come between its test, its send and its count is in the steps of `SseBuffer`.
- Accept.ParseItem: media type parsing, token tests and conversion of a quality to floating point are library matters; qualities are compared in thousandths, which order the same.
- Credentials.KeysSeparate: the digest is assumed injective; length limits, header parsing and proofs of possession are left out.
- Lifecycle.Cleanup: closes one route's pool; draining the operator's own connection and its timeout are left out.
- NATS, Caddy and HTTP: connecting, module lifecycle, status codes, reply validation, JSON and request translation are not part of this model.
