# Verified model of the API runtime

A Dafny model of the parts of this repository whose correctness rests on interleaving, aliasing or parsing, with
machine-checked proofs of what they promise. `dafny verify dfyconfig.toml` checks all of it.

- **Realtime transport** (`Realtime*.dfy`, `ConnectionRegistry.dfy`, `EventStream.dfy`). `RealtimeProtocol` is a state
  machine whose steps are the stretches of code between two `await`s of `RealtimeTransport` and the things its
  environment does: publications, answers of the authorizer, timers, client closes, drains. Any number of admissions
  and streams interleave freely. `RealtimeInvariants` and `RealtimeSteps` prove what every step keeps, `RealtimeRuns`
  and `RealtimeMetrics` what holds of every run. `RealtimePatterns` ties the checks on sessions and hints to the regular
  expressions at the head of the file, and `RealtimeRules` tells from requests, sessions and hints alone who is let in, what is
  written to whom, why a stream is closed and what is reported. `RealtimeTransport` and `ConnectionRegistry` are the classes with
  their mutable objects: streams, leases that capture sets by reference, and the insertion-ordered map that `publish`
  iterates while entries are deleted. Each method is proved to make exactly one step of the protocol. `EventStream`
  prints frames and reads them back as a browser does, and `RealtimeDelivery` joins publication to what a client
  dispatches.
  `ReconnectPolicy` is the delay arithmetic of the client.
- **Screen registry validator** (`ScreenRegistry.dfy`, `AliasGraph.dfy`, `ScreenValidator.dfy`,
  `ScreenReports.dfy`). The validator with its maps, error list and recursive search, proved against a declarative rule, an
  exact count of cycles, and an exact description of every other message.
- **Readiness and shutdown** (`HealthProtocol.dfy`, `HealthReadiness.dfy`, `ServerProtocol.dfy`, `Server.dfy`). The probe
  with its cache and timers, traced back to what the database said, the lifecycle, and both composed with the transport at shutdown.
- **Runs and use** (`RealtimeExamples.dfy`, `ServerExamples.dfy`, `Composition.dfy`, `Interleaving.dfy`). Runs that show where a
  promise fails, and two methods that build a server from the classes: one takes it through a stream, a hint and a
  shutdown, the other through two admissions that overlap with each other and with the shutdown.
- **Parsers and limits** (`Strings.dfy`, `Regex.dfy`, `HttpSecurity.dfy`, `HttpLimits.dfy`, `GuestCookies.dfy`,
  `VersionTag.dfy`). `Regex` says what a regular expression matches; each test of the code is proved equal to its expression.

Assumptions, which appear as preconditions or as `Enabled` and `Admissible` in the models:

- A new connection id differs from the ids the same session holds at that moment. With a repeated id a set would hold
  one id for two leases, and counts and limits would be wrong (`FreshIdNeeded`).
- `release` and `unsubscribe` do not throw, and `revalidate` fails only through its promise. A write may throw in
  `publish`, where the code catches it, and in `beginDrain`, where it does not; elsewhere writes are assumed to succeed.
- One transport owns its registry, and the text of a hint, made by JSON.stringify, has no raw line break.
- The clock of the readiness controller does not run backwards.

Where code and intention part, the model follows the code and says exactly when:

- A write that throws during the drain leaves its stream active (`DrainLeaves`, with a run in `DrainLeavesStream`).
- A shared route is overlooked when its owner has an empty id (`PromiseKeptIff`). That takes a schema without a rule for
  `screen_id`; docs/product/screen-registry.schema.json asks for letters and digits, and under it the validator keeps its
  promise (`PromiseKept`).
- The first error of a shutdown may be lost (`FirstErrorReported`): to a telemetry runtime whose promise rejects
  (`MaskedError`), or because it is undefined, or null before a failing close (`LostDrainErrors`). The runtime in
  packages/observability/src/node-telemetry-runtime.ts:130-154 settles with "failed" when its SDK rejects, and rejects only
  if the SDK throws at once; Node's response does not throw undefined or null.
- A socket asked for late opens after the shutdown (`StaysClosedIff`).
- A dot segment right before a query passes the target check (`QueryNormalIff`).
- A bare cookie name divides the two cookie parsers (`ParsersCompared`).

## Model

| member | source | states |
|---|---|---|
| RealtimeRuns.BroadcastRefinement | apps/api/src/realtime.ts:296-318 | In every run, from the step that registers a stream until it stops being live, the hints in its transcript are exactly the safe hints published in that stretch whose `brandId` and `storeId` fields equal those of its session (an absent store equals an absent one only), in order, each once |
| RealtimeRuns.BroadcastStops | apps/api/src/realtime.ts:507-518 | The step that decides the close of a stream (a failed write or anything else) adds no hint to its transcript, and no later step does |
| RealtimeRuns.DeliveredOnce | apps/api/src/realtime.ts:301-317 | In every run a publication returns the number of transcripts it adds to; it adds its hint once to each, they are exactly the live streams with the brand and the store of a safe hint whose write succeeds, and it closes exactly those whose write throws |
| RealtimeRuns.PublishedRun | apps/api/src/realtime.ts:296-300 | The hints that count as published in a run are the safe ones, in the order of their publication |
| RealtimeRuns.Conservation | apps/api/src/realtime.ts:288-294 | In every run the active map has one entry for each live stream, exactly three timers are armed for each entry, the leases held are those of live streams plus those of admissions suspended between `acquire` and registration, and no session has more live streams than leases, nor more leases than the limit |
| RealtimeRuns.SpentForGood | apps/api/src/realtime.ts:421-441 | A lease is given back at most once: an admission that has been answered and holds no lease, because none was granted or because it was returned, never holds one again in any continuation |
| RealtimeRuns.TranscriptShape | apps/api/src/realtime.ts:449-467 | In every run each transcript is a refresh, then hints and heartbeats, then at most one reconnect, which is last and announces the very close that was decided; `end` is called at most once and only when the close has finished |
| RealtimeRuns.OneResultEach | apps/api/src/realtime.ts:519-528 | In every run the number of lifecycle metrics with a given result is the number of streams that ended with it: one for each ended stream |
| RealtimeRuns.ClosedForever | apps/api/src/realtime.ts:507-518 | Once the close of a stream is decided, in every continuation nothing more is written to it, the result stays the one decided first, and the response is ended at most once |
| RealtimeRuns.StreamStep | apps/api/src/realtime.ts:507-529 | What any single step may do to a registered stream: identity and session stay, transcripts only grow, the phase only moves from live to closing to ended |
| RealtimeRuns.RunInv | apps/api/src/realtime.ts:250-529 | Every run keeps the invariant: active map, leases, limits, admissions, permissions, metrics, timers, transcripts and broadcast |
| RealtimeSteps.StepInv | apps/api/src/realtime.ts:250-529 | Every step of every admission, timer, listener, publication, drain and close keeps that invariant |
| RealtimeRuns.DrainLeaves | apps/api/src/realtime.ts:320-331 | What the synchronous part of the first drain leaves live is exactly the set of streams whose reconnect write throws, so the active map is empty if and only if no such write throws |
| RealtimeExamples.DrainLeavesStream | apps/api/src/realtime.ts:325-328 | A run from the start in which the reconnect write of the one stream throws: after the drain the stream is live and in the active map, its lease is held, its three timers are armed, and draining again changes nothing |
| RealtimeExamples.AdmissionRun | apps/api/src/realtime.ts:333-488 | From the start every request that passes the checks, with a sound authorization and connection id, leads through its three awaits to exactly one live stream |
| RealtimeRuns.DrainTerminal | apps/api/src/realtime.ts:320-338 | After `beginDrain` no stream is registered in any run and only those are live whose reconnect write threw; if none threw, the active map is empty at once and stays empty, and when no admission is pending any more the registry holds no lease |
| RealtimeRuns.PendingAdmissionsEnd | apps/api/src/realtime.ts:364-441 | In every run from a draining state each pending admission is resumed at most three times, and what is left for it shrinks with every resumption |
| RealtimeDelivery.ClientReceives | apps/api/src/realtime.ts:195-197 | End to end: a client that interprets the bytes of its stream by the event-stream rules dispatches, control events aside, exactly the safe hints of its scope published since its registration, in order |
| RealtimeDelivery.FirstEvent | apps/api/src/realtime.ts:449 | The first event every client dispatches is `system.refresh` with the reason connected |
| RealtimeDelivery.TenantIsolation | apps/api/src/realtime.ts:383-405 | In every run each stream belongs to an active merchant session with the permission to subscribe, and every hint it was sent is a safe one published for its brand and store |
| RealtimeMetrics.RejectionsReported | apps/api/src/realtime.ts:334-440 | In every run each rejected admission has been reported exactly once: as unavailable for 503, as limited for 429, as denied otherwise |
| RealtimeRules.HintReaches | apps/api/src/realtime.ts:296-318 | In every run a publication writes its hint, once, to exactly the live streams whose session has its brand and its store, other than those whose write throws, and returns their number, if and only if the hint is sound by the expressions; then and only then it counts as published |
| RealtimeRules.FramesWritten | apps/api/src/realtime.ts:301-467 | What every event writes to a stream: a hint as above, a heartbeat of its own timer, a reconnect at the end of its lifetime or at the first drain if its response is not destroyed, and nothing else |
| RealtimeRules.ClosedBy | apps/api/src/realtime.ts:301-529 | Why a live stream is closed, and with what result: a hint for it whose write throws, the end of its lifetime, a revalidation that does not confirm it, its close event, or the first drain, and nothing else; its lease goes with it |
| RealtimeRules.RevalidatedIff | apps/api/src/realtime.ts:165-505 | A live stream survives a revalidation if and only if it is authorized with a sound session of equal kind, key, brand, store and revision that still has the permission; otherwise it is revoked and its lease given back |
| RealtimeRules.ArrivalIff | apps/api/src/realtime.ts:333-363 | A request gets as far as the authorizer if and only if the transport accepts, the three headers are as they must be, the query has no other key than `storeId` and the cursor is short and free of control characters; otherwise it is denied with the first of 503, 403, 400 and 400 that applies, by their codes |
| RealtimeRules.AnswerIff | apps/api/src/realtime.ts:364-424 | What the answer of the authorizer leads to: 503, 401, 403 forbidden or 403 scope denied, told from the fields of session and query, or else `acquire`, which grants a lease if and only if the session has fewer than its limit and an id is drawn |
| RealtimeRules.AdmittedIff | apps/api/src/realtime.ts:370-406 | The checks on the answer deny, and with what, exactly where the fields of session and query say so |
| RealtimeRules.StoreAskedFor | apps/api/src/realtime.ts:370-488 | In every run in which a request arrives, its admission past the authorizer and its stream have a sound merchant session with the permission, and the store that the request asked for |
| RealtimeRules.StreamOfRequest | apps/api/src/realtime.ts:395-404 | The same from the start, field by field: a request with a `storeId` gets no stream but for that very store |
| RealtimeRules.RegisteredIff | apps/api/src/realtime.ts:413-485 | A lease becomes a stream if and only if its id matches the expression, is not in use and the transport accepts; the stream has been sent a refresh and is live unless the subscription threw or its response is gone; otherwise the lease goes back with the denial that applies |
| RealtimeRules.AdmitsIff | apps/api/src/realtime.ts:333-430 | What a request, an authorization and an id must be to be let in from the start |
| RealtimeRules.ReportedInRuns | apps/api/src/realtime.ts:298-527 | In every run every event reports exactly the metrics it should: a delivery if and only if the hint is written to some stream, the end of an admission by its status or as accepted, the end of a stream by its result |
| RealtimePatterns.UuidV7Iff | apps/api/src/realtime.ts:4 | The check for UUIDs accepts exactly what its regular expression matches |
| RealtimePatterns.OpaqueKeyIff | apps/api/src/realtime.ts:5 | The check for keys accepts exactly what its regular expression matches |
| RealtimePatterns.HintTypeIff | apps/api/src/realtime.ts:6 | The automaton for hint types accepts exactly what the regular expression, with its nested repetition, matches |
| RealtimePatterns.ResourceTypeIff | apps/api/src/realtime.ts:7 | The check for resource types accepts exactly what its regular expression matches |
| RealtimePatterns.SafeSessionIff | apps/api/src/realtime.ts:122-136 | A session is safe if and only if it is active, has at most 32 permissions, and its fields match the expressions |
| RealtimePatterns.SafeHintIff | apps/api/src/realtime.ts:150-163 | A hint is safe if and only if its fields match the expressions, its type is not `system.*` and its numbers are positive safe integers |
| EventStream.RoundTrip | apps/api/src/realtime.ts:191-197 | Reading any concatenation of control frames, heartbeats and safe hint frames by sections 9.2.5 and 9.2.6 of the WHATWG HTML Living Standard yields exactly the printed events in order with their ids; heartbeats yield none |
| EventStream.BusinessIsHints | apps/api/src/realtime.ts:150-163 | Among the events meant by a list of frames those not named `system.*` are exactly the hints: no hint passes for a control event and no control event for a hint |
| EventStream.HintsReceived | apps/api/src/realtime.ts:191-197 | Printing, reading and keeping the business events gives back the hints of the frames in order |
| EventStream.WireText | apps/api/src/realtime.ts:191-197 | The text of each frame, letter by letter |
| ConnectionRegistry.InMemoryRegistry.Acquire | apps/api/src/realtime.ts:218-235 | `acquire` refuses exactly when the leases of the session reach the limit, fails if the id factory throws, and otherwise adds exactly one lease, keeping the link between sets captured by leases and sets found by key |
| ConnectionRegistry.InMemoryRegistry.Release | apps/api/src/realtime.ts:234-239 | `release` removes exactly its own lease the first time and does nothing later; deleting a session key never drops the set of another live lease |
| ConnectionRegistry.InMemoryRegistry.ActiveCount | apps/api/src/realtime.ts:243-247 | `activeCount` is the number of leases granted and not yet released |
| ConnectionRegistry.RowSize | apps/api/src/realtime.ts:226-227 | The size of the set mapped for a session is the number of its unreleased leases |
| ConnectionRegistry.FreshIdNeeded | apps/api/src/realtime.ts:226-230 | A grant keeps the size of the mapped set equal to the number of leases if and only if the id factory returns an id the set does not hold |
| ConnectionRegistry.AddConsistent | apps/api/src/realtime.ts:228-230 | Adding a new id and the lease for it keeps mapped sets and leases in one-to-one agreement |
| ConnectionRegistry.RemoveConsistent | apps/api/src/realtime.ts:236-238 | Removing the id of a lease, and the session key with the last id, keeps that agreement: no mapped set is ever empty |
| RealtimeTransport.Transport.Publish | apps/api/src/realtime.ts:296-318 | `publish`, with its iteration over a map whose entries the loop itself deletes, makes exactly the publication step and returns its number of deliveries; leases that remain, those of suspended admissions among them, do not change hands |
| RealtimeTransport.Transport.DeliverAll | apps/api/src/realtime.ts:301-315 | The loop over the live map visits every stream in scope exactly once although entries vanish under it; it only ever gives leases back |
| RealtimeTransport.Transport.DeliverTo | apps/api/src/realtime.ts:303-314 | One turn of that loop writes, or closes the stream if the write throws, or does nothing out of scope; other leases stay |
| RealtimeTransport.Transport.BeginDrain | apps/api/src/realtime.ts:320-331 | `beginDrain` up to its `await` makes exactly the drain step, and nothing the second time; the streams stay the same objects, and leases of suspended admissions stay theirs |
| RealtimeTransport.Transport.DrainStream | apps/api/src/realtime.ts:324-329 | The drain of one stream: a reconnect unless it is destroyed, then its close; a write that throws leaves it as it is; other leases stay |
| RealtimeTransport.Transport.Arrive | apps/api/src/realtime.ts:333-366 | The checks of `#admit` before the authorizer is asked, in their order |
| RealtimeTransport.Transport.ResumeAuthorize | apps/api/src/realtime.ts:364-420 | `#admit` from the authorizer's answer through the body of `acquire`: the denials in their order, or the grant with its lease, which is the only change to the leases held |
| RealtimeTransport.Transport.ResumeAcquire | apps/api/src/realtime.ts:421-488 | `#admit` from the outcome of `acquire`: the guards that give the lease back, with the denial they stand for, or the registration with its close when the subscription throws or the response is gone; earlier streams stay the same objects, and other leases stay |
| RealtimeTransport.Transport.ResumeRelease | apps/api/src/realtime.ts:427-440 | `#admit` after an unusable lease was released: one metric and one 503 |
| RealtimeTransport.Transport.Register | apps/api/src/realtime.ts:443-479 | Registration puts the stream into the map, the lease passes to it, and heap and model agree on all streams, the old ones unchanged and the new one |
| RealtimeTransport.Transport.CloseOne | apps/api/src/realtime.ts:507-520 | `#close` up to its `await`: nothing if the stream is closed, otherwise flag, timers, subscription, listener, map entry and lease all go at once, and no other lease |
| RealtimeTransport.Transport.CloseTail | apps/api/src/realtime.ts:521-528 | `#close` after its `await`: the response is ended unless it was, and the result is reported |
| RealtimeTransport.Transport.HeartbeatTick | apps/api/src/realtime.ts:456-458 | The heartbeat is written only while the stream is not closed |
| RealtimeTransport.Transport.LifetimeOver | apps/api/src/realtime.ts:462-467 | The lifetime timer announces a reconnect if it can and closes the stream as expired; other leases stay |
| RealtimeTransport.Transport.ResumeRevalidate | apps/api/src/realtime.ts:490-505 | A revalidation closes the stream as revoked unless the answer is an authorization equal to the session in all fields that matter; other leases stay |
| RealtimeTransport.Transport.OnClose | apps/api/src/realtime.ts:468-472 | The close listener closes the stream as aborted; other leases stay |
| RealtimeTransport.Transport.ResourceSnapshot | apps/api/src/realtime.ts:288-294 | The reported numbers of active streams and timers are the numbers of live streams and of armed timers |
| RealtimeTransport.SlotCount | apps/api/src/realtime.ts:290 | The size of the insertion-ordered map is the number of active connection ids |
| RealtimeTransport.DeleteMatch | apps/api/src/realtime.ts:518 | Deleting a key empties its entry in place and keeps map entries and active streams in agreement |
| RealtimeTransport.AppendMatch | apps/api/src/realtime.ts:471 | Setting a new key appends an entry and keeps that agreement |
| ReconnectPolicy.Policy.NextDelayMs | apps/api/src/realtime.ts:548-553 | The next delay lies in 1000 .. min(30000, 1000 times 2 to the attempt), is exactly 1000 after creation or reset, and counts the attempt |
| ReconnectPolicy.DelayInWindow | apps/api/src/realtime.ts:549-552 | For every attempt and every real random value the delay lies in that window |
| ReconnectPolicy.CapGrows | apps/api/src/realtime.ts:549 | The cap never shrinks, doubles exactly with each attempt up to the fourth and is constant from the fifth on |
| ReconnectPolicy.EveryDelayReachable | apps/api/src/realtime.ts:551-552 | Every whole number of milliseconds in the window is the delay for some random value in 0 .. 1 |
| ReconnectPolicy.DelayEnds | apps/api/src/realtime.ts:549-552 | Random values of zero and less give the start of the window, those from 0.999999999 on its end, and those between a share of it |
| ReconnectPolicy.DelayMonotone | apps/api/src/realtime.ts:549-552 | A later attempt or a larger random value never gives a shorter delay |
| ScreenValidator.ValidateRegistry | tooling/screen-registry/validate.ts:52-149 | The validator pushes its errors in order and finds a registry valid if and only if the schema does and the rules it applies hold; under a schema that asks for ids these are unique ids, unique routes, sound screens and resolving aliases |
| ScreenValidator.PromiseKept | tooling/screen-registry/validate.ts:57-148 | Under a schema that asks for ids, as the one of this repository does, there are no errors if and only if the schema passes, ids and standalone routes are unique, every screen is in order and every alias chain reaches an existing screen that is no alias |
| ScreenValidator.PromiseKeptIff | tooling/screen-registry/validate.ts:62-69 | Under any schema nothing that is as promised is reported, and where nothing is reported all is as promised if and only if no screen met a route whose owner has an empty id |
| ScreenValidator.Verdict | tooling/screen-registry/validate.ts:57-148 | No errors if and only if the schema passes, ids are unique, routes are owned, every rule for single screens holds and every alias chain reaches an existing screen that is no alias |
| ScreenValidator.CycleCount | tooling/screen-registry/validate.ts:130-147 | The number of alias-cycle errors is the number of distinct cycles of the alias graph |
| ScreenValidator.OrderIrrelevant | tooling/screen-registry/validate.ts:147 | Reordering screens with distinct ids does not change the number of alias-cycle errors |
| ScreenValidator.IndexErrorsNone | tooling/screen-registry/validate.ts:59-70 | The indexing loop reports nothing if and only if ids are unique and every route that is shared is shared only with earlier screens without an id |
| ScreenValidator.SharedRouteUnnoticed | tooling/screen-registry/validate.ts:63-68 | Under a schema that accepts empty ids there is a registry in which two screens share a route and no error is reported |
| ScreenValidator.TakenIff | tooling/screen-registry/validate.ts:63-68 | A route counts as taken if and only if an earlier standalone screen with a non-empty id has it |
| ScreenReports.ReportedIff | tooling/screen-registry/validate.ts:53-137 | A message is reported if and only if there is what it says to report: a schema message, an id that an earlier screen has, a route that the very screen it names owns, a rule that the screen it names breaks with the very value it names, or an alias without a target |
| ScreenReports.UnderIff | tooling/screen-registry/validate.ts:75-89 | A route is on a surface if and only if it starts with one of the prefixes of that surface |
| ScreenValidator.ScreenErrorsNone | tooling/screen-registry/validate.ts:91-128 | The checks on one screen report nothing if and only if its declarative rule holds |
| ScreenValidator.RouteOnOneSurface | tooling/screen-registry/validate.ts:75-89 | In a registry without errors the route of a standalone screen lies on its own surface and on no other |
| ScreenRegistry.OneSurface | tooling/screen-registry/validate.ts:75-89 | No route starts with prefixes of two different surfaces |
| ScreenRegistry.ByIdFinds | tooling/screen-registry/validate.ts:60-61 | Where ids are unique the index finds every screen under its id |
| ScreenValidator.IndexIgnoresOrder | tooling/screen-registry/validate.ts:59-61 | The index of screens with distinct ids does not depend on their order |
| ScreenValidator.Validation.IndexScreens | tooling/screen-registry/validate.ts:59-70 | The indexing loop fills both maps and pushes its errors as specified |
| ScreenValidator.Validation.CheckScreen | tooling/screen-registry/validate.ts:91-128 | The body of the second loop pushes exactly the errors of one screen, in order |
| ScreenValidator.Validation.Visit | tooling/screen-registry/validate.ts:131-146 | The recursive search terminates, measured by ids without a mark, and changes marks and errors exactly as specified |
| AliasGraph.CyclesReportedOnce | tooling/screen-registry/validate.ts:130-147 | Every screen on a cycle of aliases is in some cycle error, no two cycle errors share a screen, each error walks along aliases back to one of its screens, and there are as many as cycles |
| AliasGraph.VisitKeeps | tooling/screen-registry/validate.ts:131-146 | One search keeps the marks of others, reports the cycle it starts on, and leaves no screen marked as being visited beyond its path |
| AliasGraph.NoAliasErrors | tooling/screen-registry/validate.ts:134-147 | The searches add no error if and only if every screen resolves |
| AliasGraph.ResolveIff | tooling/screen-registry/validate.ts:132-141 | Every alias chain resolves if and only if there is no cycle and no alias without an existing target |
| AliasGraph.VisitAdds | tooling/screen-registry/validate.ts:134-136 | A search adds only alias errors, an unknown target only where there is one and with the target it names, and always when it starts there |
| HealthProtocol.SingleFlight | apps/api/src/health-readiness.ts:140-189 | Under every interleaving at most one probe race is open, it is the one in flight, and the timer count is the number of armed timers, 0 or 1 |
| HealthProtocol.CacheFresh | apps/api/src/health-readiness.ts:141-142 | In every run, with a clock that does not run backwards, a status is served from the cache only while the controller accepts, and was found by a finished probe less than its configured time to live ago, which is at most 1000 ms if ready and 250 ms otherwise |
| HealthProtocol.JoinersAgree | apps/api/src/health-readiness.ts:144-151 | In every run all callers that share a probe report what its race ended with, and so the same; a ready report among them needs a probe that answered ready |
| HealthProtocol.ProbeReports | apps/api/src/health-readiness.ts:156-173 | In every run a probe that is decided reports ready if and only if the first of its answers and its timeout was an answer of ready, not ready if and only if it was any other answer or a failure, and a timeout if and only if it was the timer |
| HealthProtocol.CacheReports | apps/api/src/health-readiness.ts:174-181 | In every run the status in the cache was reported by a probe for just that reason |
| HealthProtocol.AnswerReports | apps/api/src/health-readiness.ts:105-152 | In every run an answer goes back to the database: from a probe it is what that probe reports, from the cache what some probe reported, and it says ready only if some database call answered ready before its timeout and before any other answer of its probe |
| HealthProtocol.ReadyIsHeard | apps/api/src/health-readiness.ts:156-173 | If the database answers ready in time while the controller accepts, a caller of the probe is told ready |
| HealthProtocol.CallTakes | apps/api/src/health-readiness.ts:105-151 | A call takes a status from the cache while that is fresh, otherwise waits for the probe in flight, and starts one only if there is none; without a probe to ask, or when not accepting, it is answered not ready at once |
| HealthProtocol.DrainAbsorbs | apps/api/src/health-readiness.ts:87-91 | In every run from a draining state nothing is cached, no probe is started, the state stays draining, and no report made then says ready, even one begun before |
| HealthProtocol.TimeoutReleases | apps/api/src/health-readiness.ts:156-164 | If the database never answers, the timer alone lets a caller of the probe be answered, clears the probe in flight and leaves no timer |
| HealthProtocol.RunInv | apps/api/src/health-readiness.ts:105-189 | Every run keeps the invariant of cache, flight, timers and callers |
| HealthReadiness.HealthReadinessController.BeginDrain | apps/api/src/health-readiness.ts:87-91 | `beginDrain` drains once and drops the cache |
| HealthReadiness.HealthReadinessController.CompleteStartup | apps/api/src/health-readiness.ts:93-95 | `completeStartup` starts accepting only from the starting state |
| HealthReadiness.HealthReadinessController.ReadinessSnapshot | apps/api/src/health-readiness.ts:105-152 | A call takes its status from nowhere, from the cache, from the probe in flight or from a new probe, and makes exactly that step |
| HealthReadiness.HealthReadinessController.TimerFires | apps/api/src/health-readiness.ts:157-161 | The timeout gives back its timer and decides the race if it is open |
| HealthReadiness.HealthReadinessController.RaceOver | apps/api/src/health-readiness.ts:172-188 | The end of a race caches the status only while accepting and gives back a timer that is still armed |
| HealthReadiness.HealthReadinessController.ProbeFinally | apps/api/src/health-readiness.ts:148-150 | The probe in flight is forgotten only if it is this one |
| HealthReadiness.HealthReadinessController.Resume | apps/api/src/health-readiness.ts:112-124 | A snapshot says ready if and only if the controller still accepts when it resumes and the status is ready |
| ServerProtocol.ShutdownOrder | apps/api/src/server.ts:155-260 | For every order of listening, starting up and shutdown calls: at most one drain and one close; the server closes only after the drain has settled, and then, if no write failed, no stream is active and every stream the drain closed has ended |
| ServerProtocol.ShutdownIsFinal | apps/api/src/server.ts:212-224 | Once shutdown was called, in every continuation no new report says ready, no new stream is registered and no second drain happens |
| ServerProtocol.DrainErrorIff | apps/api/src/realtime.ts:320-331 | The drain of a shutdown fails if and only if the write to some live stream whose response is not destroyed throws, and it waits for exactly the streams that were live |
| ServerProtocol.FirstErrorReported | apps/api/src/server.ts:219-257 | In every run the promise of a shutdown reports the first failure, or success without one, if and only if the drain does not fail with undefined, nor with null before a failing close, and the telemetry runtime does not reject with something else |
| ServerProtocol.MaskedError | apps/api/src/server.ts:251-257 | A run in which closing the server fails, the telemetry runtime rejects, and the caller only hears of the latter |
| ServerExamples.LostDrainErrors | apps/api/src/server.ts:219-257 | Runs from the start in which a drain that throws undefined is reported as success, and one that throws null before a failing close is reported as that close |
| ServerProtocol.EndsOpen | apps/api/src/server.ts:203-228 | A run ends with the socket open if and only if the socket came up and the server was not closed after that |
| ServerProtocol.StaysClosedIff | apps/api/src/server.ts:156-228 | After the server was closed its socket stays closed in every continuation if and only if the promise of `listen` had settled by then |
| ServerProtocol.LiftRun | apps/api/src/server.ts:212-224 | Every run of the transport without a drain of its own is a run of the server that changes nothing else |
| ServerProtocol.RunInv | apps/api/src/server.ts:155-260 | Every run keeps the invariant that composes readiness, realtime and the stages of the shutdown |
| Server.ApiServer.Listen | apps/api/src/server.ts:156-209 | Every call of `listen` gets the same promise |
| Server.ApiServer.StartListening | apps/api/src/server.ts:160-205 | The body of the promise of `listen` begins the operation of the startup, registers both listeners and asks for the socket, unless starting telemetry throws, when it does none of these |
| Server.ApiServer.RecordRealtime | apps/api/src/server.ts:220-224 | Whatever steps the transport makes of its own, short of a drain, the server agrees with it again after them |
| Composition.Serve | apps/api/src/server.ts:112-262 | The classes together: for every admissible request, authorization, id and hint a server that is built, listens, admits the stream, publishes the hint and shuts down delivers it once, sends exactly refresh, hint and reconnect, ends the response once, holds no lease any more and reports success |
| Interleaving.ServeTwo | apps/api/src/realtime.ts:364-441 | The classes together with two admissions that overlap: the second acquires its lease first and is suspended while the first is answered, registers, is sent a hint and the server begins to shut down; resumed with that very lease it gives it back and is denied because the transport drains, the first stream is sent exactly refresh, hint and reconnect, no lease is held any more and the shutdown succeeds |
| Server.ApiServer.OnListening | apps/api/src/server.ts:188-202 | A socket that comes up removes both listeners, completes the operation of the startup and the startup of the readiness controller, which has no effect on a draining one |
| Server.ApiServer.OnError | apps/api/src/server.ts:174-187 | A socket that cannot come up removes both listeners and completes the operation of the startup without success |
| Server.ApiServer.Shutdown | apps/api/src/server.ts:212-224 | Every call of `shutdown` gets the same promise; the first drains readiness and transport, later ones change nothing; streams stay the same objects, and leases of suspended admissions stay theirs |
| Server.ApiServer.DrainOver | apps/api/src/server.ts:220-227 | The server is told to close when the drain has settled, whose error is kept |
| Server.ApiServer.CloseOver | apps/api/src/server.ts:226-250 | An error of closing is kept only if none but null or undefined was, and the exit code fails if any value is kept |
| Server.ApiServer.TelemetryOver | apps/api/src/server.ts:251-258 | The outcome of the promise is the first failure if and only if that failure survives |
| HttpSecurity.AcceptedIff | apps/api/src/http-security.ts:34-40 | An absolute target without query passes if and only if it has no encoded separator and remove_dot_segments (section 5.2.4 of RFC 3986) does nothing to it once `%2e` is decoded; then it does nothing to the target itself and decoding makes no separator |
| HttpSecurity.NormalIff | apps/api/src/http-security.ts:36 | For every absolute path the dot-segment expression is silent if and only if the path is a fixed point of remove_dot_segments, plain and decoded |
| HttpSecurity.RemovalIdentity | apps/api/src/http-security.ts:36 | On absolute paths remove_dot_segments is the identity if and only if no segment is one or two dots |
| HttpSecurity.DotSegmentIff | apps/api/src/http-security.ts:36 | The expression matches if and only if a part between slashes is one or two plain or encoded dots |
| HttpSecurity.QueryNormalIff | apps/api/src/http-security.ts:34-40 | For accepted targets with a query or fragment the path is in normal form if and only if its last segment is not one or two dots |
| HttpSecurity.QueryHidesDots | apps/api/src/http-security.ts:36 | The target `/a/..?q` passes although its path is not in normal form |
| HttpSecurity.EncodedSeparatorIff | apps/api/src/http-security.ts:35 | The test for encoded separators is the search for a match of its regular expression |
| HttpSecurity.DotSegmentFound | apps/api/src/http-security.ts:36 | The test for dot segments is the search for a match of the dots of its expression between slashes or ends |
| HttpLimits.LimitRequest | apps/api/src/http-security.ts:28-68 | The middleware passes a request on if and only if the target is short, the target is accepted and the header rule holds; otherwise the first objection is reported; with two fields in conflict, in whatever spelling, it never does |
| HttpLimits.CheckHeaders | apps/api/src/http-security.ts:42-65 | The header part lets pass exactly the lists of at most a hundred fields and 16384 bytes in which no two fields are in conflict, in whatever spelling |
| HttpLimits.Tally | apps/api/src/http-security.ts:48-56 | The loop computes the total size and, for every name, how many fields have it whatever the case; a missing last value is empty |
| HttpLimits.VerdictIgnoresOrder | apps/api/src/http-security.ts:42-65 | Reordering the fields does not change the verdict |
| HttpLimits.VerdictIgnoresCase | apps/api/src/http-security.ts:54 | Changing letters of names from upper to lower case or back, letter by letter, does not change the verdict |
| HttpLimits.Unambiguous | apps/api/src/http-security.ts:58-62 | In an accepted request no two fields are spellings of the same sensitive name, or one of the length and one of the encoding |
| HttpLimits.HeadersOkIff | apps/api/src/http-security.ts:42-65 | The rule for header lists is met if and only if number and size are within bounds and no two fields are in conflict, told from letters and their case alone |
| HttpLimits.LowerSame | apps/api/src/http-security.ts:54 | Two names become equal in lower case if and only if they differ at most in the case of ASCII letters |
| HttpLimits.ByteLengthIs | apps/api/src/http-security.ts:30 | The length of the target is that of its UTF-8 encoding (section 3 of RFC 3629) |
| HttpLimits.EncodeDecode | apps/api/src/http-security.ts:30 | The encoding is one: each character can be read back from it, whatever follows, and takes as many bytes as are counted |
| GuestCookies.ParsersCompared | apps/api/src/customer-quote.ts:67-77 | The quote's parser returns a credential if and only if the cart's parser without its length cap returns it and no trimmed part of the header is the bare cookie name |
| GuestCookies.GuestFound | apps/api/src/customer-cart.ts:213-227 | A valid guest pair anywhere among pairs with other names (section 4.2.1 of RFC 6265) is found by both parsers, by the cart's if and only if the header is within 4096 characters |
| GuestCookies.BareNameDivides | apps/api/src/customer-quote.ts:70-75 | For every credential there is a header with a bare name that the cart accepts and the quote refuses |
| GuestCookies.NameOfPart | apps/api/src/customer-quote.ts:72-73 | A part has the cookie name for the quote if and only if it is the pair the cart looks for or the bare name |
| GuestCookies.CredentialIff | apps/api/src/customer-cart.ts:4 | The check for credentials accepts exactly what its regular expression matches |
| GuestCookies.SpaceIff | apps/api/src/customer-cart.ts:218 | What trimming removes are the white space and line terminators of ECMAScript, code by code |
| GuestCookies.TrimIs | apps/api/src/customer-cart.ts:218 | A trimmed part neither starts nor ends with space, and only space was removed around it |
| GuestCookies.GuestAlone | apps/api/src/customer-cart.ts:8 | A header of nothing but the cookie `__Host-bop-guest` with a credential is read by both parsers |
| VersionTag.ParsePrint | apps/api/src/customer-cart.ts:229-234 | Every version from 1 to 999999999 printed as an entity tag is read back from If-Match |
| VersionTag.PrintParse | apps/api/src/customer-cart.ts:229-234 | Every If-Match that is read has a version in range and prints to the very same text; matching the expression is enough |
| VersionTag.AcceptedIsPrinted | apps/api/src/customer-cart.ts:455 | The tags that are read are exactly those that are printed |
| VersionTag.MatchesIff | apps/api/src/customer-cart.ts:231 | The test for version tags accepts exactly what its regular expression matches |

## Left out

- Express, Node's HTTP server, helmet and the nonce middleware: handlers are modelled from the values they read to the decision they make.
- Response headers and bodies of the stream and of error responses beyond status and code.
- `isUtcInstant` and JSON.stringify: the verdict on `occurredAt` and the text of a hint are inputs.
- Guest connection limits of the realtime transport: a guest session is rejected before a limit is chosen.
- Metrics sinks that throw: the code ignores them and so does the model; the kind of session a metric carries is left out.
- Bounds on the options of the transport: the limit is any number and the lengths of timers are not modelled.
- Compaction of a map's entry list, which ECMAScript does not let a program observe.
- Calls of `subscribeToScopeChanges` and of the revalidation timer: what matters is the answer of the revalidation they start, which may come at any time.
- The raw database call behind a probe may outlive its timeout; single flight is claimed for the race, not for that call.
- Whether a socket that is still being bound when the server is closed comes up is left to the environment; bound or failed are both allowed.
- The drain is only begun by the server: other callers of `beginDrain` are modelled for the transport alone.
- Loggers and durations of the server, and its telemetry operations except that of the startup; calls of them are assumed not to throw.
- Rendering of validator messages as text, reading the registry and its schema from files, and the schema validator itself, whose messages are an input.
- Validation of records that are not shaped like a screen at all: an unknown surface or a missing list of commands makes the code throw.
- The number of unknown-target errors: an alias without target is never marked, so it may be reported more than once; presence and absence are exact.
- UTF-16: text is a sequence of characters, so lengths agree with the code where there are no surrogate pairs, as in header values.
- Letters outside ASCII in header names, which the HTTP parser does not let through, when names are compared ignoring case.
- Doubles in the reconnect policy: delays are computed over the reals, and a random source that returns no number is not modelled.
- Field-by-field shape checks of carts and quotes, money, notes and the other handlers: long, but settled by reading one branch.
- Web clients, service workers and the packages behind authentication and tenancy.
