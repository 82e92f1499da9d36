# A verified model of the MIG gateway core

The Model Interface Gateway daemon (`migd`) keeps all its state in one in-memory service behind one lock: capabilities,
an idempotency cache, cancelled message IDs, quotas, usage counters, an audit log, per-topic event logs with subscriber
channels, live connections, and a small directory of organisations, tenants and gateways. HTTP, WebSocket, gRPC and NATS
fronts drive it concurrently. This project models that service and the loops around it in Dafny and proves what every
interleaving of them keeps.

`dafny verify dfyconfig.toml` checks everything.

## How the model is built

* **Atomic sections are steps.** Invoke is two critical sections with a gap: an admission that only reads, and a commit
  that writes cache, counters and audit log. `Invocation` makes them separate steps of a transition system; any number of
  other steps, or the deadline, may come between. A run is any sequence of steps, so each theorem about runs is about all
  interleavings. `EventLog` does the same for publish, subscribe, receive and the two halves of unsubscribe.
* **The classes refine the steps.** `Services.Service`, `EventBuses.EventBus` (with `Channel` objects),
  `Connections.Registry` and `Directories.Directory` have the service's fields and update them in place; each method is
  proved to perform its step, and a whole Invoke, a whole stream and a whole subscription are proved to be runs of the
  transition systems. The one Go struct is split along field groups that no method mixes; calls between their two sections
  live on goroutine stacks in Go and in a map here.
* **Loops take their interference as input.** Invoke and the stream loops receive the steps of other goroutines, any steps
  but those of the call's own name. The subscription handler receives what others do between any two of its own actions,
  also after its last receive and between the two halves of unsubscribe: publish, subscribe, receive, withdraw, close, with
  old channels or with channels that join meanwhile.
* **Values from outside are parameters**: fresh IDs (nonempty), clock readings, the result of JWT verification, decoded
  frames. JSON values are immutable, so aliasing of Go maps between caller, cache and log is not visible. A string is its
  sequence of code points; error texts are named constructors. Counters are unbounded integers (the int64 counters would
  wrap only after 2^63 commits); deadlines are modelled with their 64-bit wrap-around.

## What is proved

* **Quota.** For every interleaving, used plus in-flight stays at or below quota + overlap - 1; this is reached for every
  quota and overlap; so the quota is never exceeded exactly when at most one call of the tenant is in flight at a time.
* **Idempotency.** Once an answer is cached no call with its key is admitted again; the executions still to come are the
  calls then in flight, less those that expire or remain; one execution per key holds exactly when calls do not overlap.
  `docs/USER-GUIDE.md` line 171 promises deduplication without this condition; the model follows the code.
* **Cancellation.** It is permanent, and the commits that slip past it are exactly the calls then in flight, less those
  that expire or remain; so a cancel is sure to stop its message exactly when no call of it is in flight. Section 8.6 of
  MIG-0001 asks for prompt termination of running work; the code does not do that.
* **Answers.** Each outcome of admission has its exact condition on arguments and ledger. The answer of an Invoke goes with
  what it wrote: Ok exactly if the call is on the books, Timeout exactly if it left nothing; stream answers carry it on.
* **Books.** In every reachable state counters, audit log, exports and usage total agree.
* **Events.** A log is the accepted publishes of its topic, word for word. Every subscriber of every run sees a strictly increasing selection of the log, accounts for every event,
  can read drops off the gaps. In every run a client that resumes any number of times at its last contiguous sequence
  number rebuilds the log without loss or repetition. No publish meets a closed channel.
* **Attribution.** In every run each audit record goes back to one request, no two to the same. In JWT mode, if that
  request came over HTTP, WebSocket or gRPC, its own bearer token names the record's tenant and met the capability's scopes
  at admission, whatever else is in the run. Requests over NATS show no token: where configured, `migd` starts the NATS binding in any
  authentication mode, and its calls pass every scope list, for any tenant they name.
* **Feedback.** With NATS mirror and binding both on, per tenant and topic, looping messages never die out, whatever is
  published from outside and in whatever order the broker delivers.
* **Streams, views, subjects, registries**: see the table.

Where a plain claim is false of the code, the model keeps the code and the lemma is an if-and-only-if:

| claim | fails for | holds exactly when |
|---|---|---|
| a quota is never exceeded | n calls admitted at once (`OvershootReached`) | calls of the tenant do not overlap (`QuotaRespectedIffSerial`) |
| one execution per key | n calls admitted at once | calls on the key do not overlap (`OncePerKeyIffSerial`) |
| an acknowledged cancel stops its message | a call in flight at that moment (`CommitAfterCancel`) | no call of the message is in flight at that moment (`CancelStopsIffNoneInFlight`) |
| in JWT mode a token stands behind every audit record | any call over NATS, for any tenant (`NatsNeedsNoToken`) | the NATS binding is off (`TokenBackedIffNoBinding`) |
| a subscriber gets every event | 33 publishes without a receive (`DropIsReachable`) | no publish of the run finds its buffer full (`EverythingIffNeverFull`) |
| a cache hit is the caller's own answer | tenant "a:b" reads tenant "a"'s answer (`CrossTenantHit`) | of no two served pairs of tenant and capability is one's `tenant:capability:` a prefix of the other's (`HitsAreOwnIffNoClash`) |
| the connection table holds the live connections | an ID is reused (`ReusedIDIsRemoved`) | no operation names the ID of another registration that is live (`AlwaysExactIff`) |
| HTTP and gRPC header checks agree | tenant empty or "unknown" | the cases of `BindingsAgreeIff` |
| a mirrored subject reads back as tenant and topic | dots, slashes, spaces | `MirrorRoundTripIff` |
| a JSON deadline gets its exact timer | 9223372036855 ms (`DeadlinePastBoundIsNegative`) | at most 9223372036854 ms (`DeadlineExactIff`) |

## Model

| member | source | states |
|---|---|---|
| Invocation.CallsConserved | core/pkg/mig/service.go:222-324 | for every class of calls and every run: in flight before + admitted = committed + expired + in flight after |
| InvocationLaws.RunKeepsSound | core/pkg/mig/service.go:238-321 | every reachable state has counters equal to the audit log counted per tenant and per capability, both maps summing to its length; capabilities and cached answers under their own keys; in-flight calls entitled to their capability |
| InvocationLaws.BootedIsSound | core/pkg/mig/service.go:125-155 | the booted service is such a state |
| Decisions.JudgeIff | core/pkg/mig/service.go:222-270 | each outcome of admission exactly when arguments and ledger call for it: invalid, unsupported, forbidden, cancelled, answered from the cache (also with the quota used up), rate limited (never without a quota), admitted |
| Decisions.JudgeDetails | core/pkg/mig/service.go:222-270 | what comes with it: the error with text and advice, the cached answer under the caller's completed header, or the caller's own call with the descriptor of that moment |
| Decisions.CommitWritesDown | core/pkg/mig/service.go:305-321 | a commit adds one audit record with actor, tenant, capability, time and message ID, raises both counters by one, caches the answer under the printed key if there is one, and touches nothing else |
| Decisions.InvokeSettles | core/pkg/mig/service.go:222-324 | the answer of a whole Invoke goes with what it did: Ok with the call's result exactly if it was written down on top of what others did, Timeout exactly if it left nothing, refusal or cache hit with nothing changed |
| Decisions.LastWriterWins | core/pkg/mig/service.go:434-529 | after any run quota, capability and cancel reason are those of the last accepted step that set them, whole, or else as before |
| Decisions.CancelIff | core/pkg/mig/service.go:420-443 | when a cancel is acknowledged, and with what |
| InvocationLaws.AuditIsCommitments | core/pkg/mig/service.go:312-319 | the audit log is append-only and gains exactly one faithful record per commit, in commit order |
| InvocationLaws.ChargedPerCommit | core/pkg/mig/service.go:310-311 | over any run a tenant's counter grows by exactly its commits |
| InvocationLaws.NothingCommittedNothingWritten | core/pkg/mig/service.go:240-293 | refused, cached and expired calls change neither cache nor counters nor audit log |
| InvocationLaws.QuotaBound | core/pkg/mig/service.go:263-270 | with quota at most q and overlap at most n throughout, used + in flight stays within any bound that covers its start and q + n - 1 |
| InvocationTightness.OvershootReached | core/pkg/mig/service.go:263-311 | for every q and n there is a run that ends with exactly q + n - 1 used |
| InvocationTightness.QuotaRespectedIffSerial | core/pkg/mig/service.go:263-311 | over runs with overlap at most n the quota is never exceeded if and only if n <= 1 |
| InvocationTightness.BootedGatewayOvershoots | core/pkg/mig/service.go:518-529 | the same for the booted service after a quota is set |
| InvocationLaws.CachedKeyAdmitsNone | core/pkg/mig/service.go:255-262 | after the first answer under a key no call with it is admitted, in any continuation |
| InvocationLaws.ExecutionsAfterFirstAnswer | core/pkg/mig/service.go:305-309 | executions after the first answer are exactly the calls then in flight on the key, less those that expire or remain |
| InvocationLaws.AnswerIsFinal | core/pkg/mig/service.go:305-309 | with no call on the key in flight the cached answer never changes again |
| InvocationLaws.ExecutionsBoundedByOverlap | core/pkg/mig/service.go:255-309 | from an uncached key: executions at most the overlap, at least one exactly if the answer ends up cached, exactly one when calls do not overlap |
| InvocationTightness.OncePerKeyIffSerial | core/pkg/mig/service.go:255-309 | over runs with overlap at most n a key is executed at most once if and only if n <= 1 |
| InvocationTightness.BootedGatewayRepeats | core/pkg/mig/service.go:255-309 | the same for every tenant and key on the booted service |
| InvocationLaws.CancelledAdmitsNone | core/pkg/mig/service.go:250-254 | after a cancel no call with that message ID is admitted, in any continuation |
| InvocationLaws.CancelLeak | core/pkg/mig/service.go:434-436 | commits after an acknowledged cancel are exactly the calls in flight at that moment, less those that expire or remain |
| InvocationTightness.CancelStopsIffNoneInFlight | core/pkg/mig/service.go:420-443 | no continuation of an acknowledged cancel commits its message if and only if no call of the message is in flight when it is acknowledged |
| InvocationTightness.CommitAfterCancel | core/pkg/mig/service.go:250-321 | the run on the booted service, for any tenant: begin, acknowledged cancel, commit |
| Provenance.PrintKeyInjective | core/pkg/mig/service.go:256 | the printed key determines tenant, capability and key when tenant and capability have no colon |
| Provenance.KeysMeetIff | core/pkg/mig/service.go:256 | two pairs of tenant and capability can print the same key, with nonempty client keys, if and only if one's printed lead is a prefix of the other's |
| Provenance.ColonFreeNeverClash | core/pkg/mig/service.go:256 | pairs without colons never do |
| Provenance.HitIsTheSameCall | core/pkg/mig/service.go:255-262 | in runs of served pairs that do not clash every cache hit conveys, under the caller's header, the result of a committed call of the same tenant, capability and key |
| Provenance.CrossHit | core/pkg/mig/service.go:255-262 | when keys of two pairs print alike, the second caller gets the first one's answer and payload |
| Provenance.CrossTenantHit | core/pkg/mig/service.go:255-262 | the concrete run: tenant "a:b" is answered with tenant "a"'s payload |
| Provenance.HitsAreOwnIffNoClash | core/pkg/mig/service.go:255-309 | for any set of served pairs: every hit of every run is the caller's own answer if and only if no two of the pairs clash |
| Provenance.AuditAttribution | core/pkg/mig/auth.go:138-154 | in JWT mode, over any run: each new audit record belongs to its own request; if that came over HTTP, WebSocket or gRPC, its bearer token verifies and names the record's tenant and actor, and met the capability's scopes in the state that admitted it; if it came over NATS, the record says so and names the tenant of the message |
| Provenance.NatsNeedsNoToken | core/pkg/mig/nats_binding.go:100-115 | for any tenant a message over NATS makes a booted gateway commit a call of a capability that asks for a scope |
| Provenance.TokenBackedIffNoBinding | core/cmd/migd/main.go:55-60 | in JWT mode every audit record of every run is backed by its request's token if and only if the NATS binding is off |
| Provenance.EachCommitHasItsBegin | core/pkg/mig/service.go:238-321 | in every run each committed call goes back to the one step that admitted exactly it, and no step admitted two |
| Auth.BindingsAgreeIff | core/pkg/mig/auth.go:195-217 | the HTTP and the gRPC header check agree exactly in the stated cases, in particular for every principal tenant but the empty one and "unknown" |
| Auth.BindLaws | core/pkg/mig/auth.go:195-217 | which tenant a header gets on each front, what is stamped into its meta data, and when it is forbidden or invalid |
| Auth.JwtBindsTenant | core/pkg/mig/grpc_server.go:370-386 | a granted JWT principal has its own token's nonempty tenant, scopes and subject, and a header that passes either check carries that tenant |
| Fronts.EntersAsItsToken | core/pkg/mig/http.go:78-96 | in JWT mode the call a front makes for a request acts for that request's token, under its tenant and subject |
| Fronts.EnterDescribes | core/pkg/mig/http.go:78-96 | the call a front makes is the request as sent with the checked header, in the name of the principal, else on HTTP of the actor header, else "anonymous" |
| Fronts.HandleInvoke | core/pkg/mig/http.go:78-112 | a request that is not let in leaves the service alone and gets the reason; one that is makes a run of the protocol and gets the answer settled with it; in JWT mode only requests with a good token of their own do |
| Fronts.HandleNatsInvoke | core/pkg/mig/nats_binding.go:100-121 | a message on a matching subject, blanks filled from the subject, makes a run of the protocol as an unauthenticated caller and gets its result |
| Fronts.NatsCallDescribes | core/pkg/mig/nats_binding.go:100-115 | the call is the message's request with tenant and capability from the third and from the fifth token on where it leaves them out, by an unauthenticated caller |
| Auth.JwtGrantedIff | core/pkg/mig/auth.go:122-154 | in JWT mode a request is let in if and only if its bearer token verifies and `tenant_id` or `tenant` holds text, and the tenant header, where present or required, names the same tenant; the principal then has the tenant, subject and scopes that the claims name |
| Auth.TokenLaws | core/pkg/mig/auth.go:139-193 | tenant from `tenant_id`, else `tenant`; subject from `sub`, else "unknown"; a scope is granted exactly if it is a word of `scope` or a trimmed string of `scopes` |
| Auth.BearerLaws | core/pkg/mig/auth.go:123-127 | the token is what stands after the word "Bearer" |
| Auth.AuthCodeIff | core/pkg/mig/auth.go:232-238 | in JWT mode a denial is forbidden exactly if the token was good, and otherwise unauthorized |
| Auth.PrincipalFromAuthHeaders | core/pkg/mig/auth.go:111-158 | grants exactly the admissible requests, with the principal that the token's claims name, or without authentication the anonymous one with the header's tenant; refuses with the first failing check |
| Auth.ApplyPrincipalHeader | core/pkg/mig/auth.go:195-217 | the updates of the header compute the HTTP header check |
| Auth.ApplyPrincipalHeaderFromPrincipal | core/pkg/mig/grpc_server.go:370-386 | the updates of the header compute the gRPC header check |
| Auth.ScopesFromClaims | core/pkg/mig/auth.go:169-193 | the loops collect exactly the words of `scope` and the trimmed strings of `scopes` |
| Headers.AcceptLaws | core/pkg/mig/types.go:40-75 | acceptance depends on version and tenant alone; every field of an accepted header is the caller's or the stated default; accepting again changes nothing |
| Headers.NormalizeHeader | core/pkg/mig/types.go:40-66 | the updates compute the normalized header or the first error; only version and tenant decide, and an accepted header is complete |
| Headers.AcceptHeader | core/pkg/mig/types.go:40-75 | how Invoke, Publish, Cancel and Discover start: the completed header with the two meta entries, or the error |
| Headers.DeadlineExactIff | core/pkg/mig/service.go:272 | a JSON deadline gets its exact nanosecond count if and only if it is at most 9223372036854 ms after defaulting |
| Headers.DeadlinePastBoundIsNegative | core/pkg/mig/service.go:272 | one millisecond more gives a negative timer |
| Headers.DeadlineFromWire | core/pkg/mig/grpc_server.go:436-455 | every uint32 deadline gives a positive exact timer and returns to the wire unchanged, 0 as 30000 |
| Services.Service.constructor | core/pkg/mig/service.go:58-91 | the booted service has the default capability, empty books, and is sound |
| Services.Service.Consider | core/pkg/mig/service.go:222-270 | the validation, the read-locked section and the quota test take the admission decision |
| Services.Service.Begin | core/pkg/mig/service.go:222-270 | performs the Begin step |
| Services.Service.Finish | core/pkg/mig/service.go:299-322 | the write-locked section performs the Finish step and answers the call, keeping the books |
| Services.Service.Expire | core/pkg/mig/service.go:290-293 | performs the Expire step |
| Services.Service.Invoke | core/pkg/mig/service.go:222-324 | with any steps of others in the gap and either outcome of the race with the deadline: the service makes exactly the run begin, others, finish or expire, and the answer is settled with what that run wrote |
| Services.Service.Perform | core/pkg/mig/service.go:222-529 | any sequence of steps, performed on the fields, is the run of the transition system |
| Services.Service.Cancel | core/pkg/mig/service.go:420-443 | when it succeeds; the reason is recorded under the target and nothing else changes |
| Services.Service.SetQuota | core/pkg/mig/service.go:518-529 | when it succeeds; the new quota replaces the old one and nothing else changes |
| Services.Service.AddCapability | core/pkg/mig/service.go:461-472 | when it succeeds; the descriptor as given replaces any older one with its ID and nothing else changes |
| Services.Service.Listed | core/pkg/mig/service.go:206-218 | for any map order: a strictly ID-sorted list of exactly the descriptors that pass |
| Services.Service.ListCapabilities | core/pkg/mig/service.go:474-483 | all descriptors, strictly ID-sorted |
| Services.Service.Discover | core/pkg/mig/service.go:195-220 | exactly the descriptors whose ID has the query in it and that the caller may invoke, strictly ID-sorted, or the header error |
| Services.DiscoverIsFilteredList | core/pkg/mig/service.go:206-219 | Discover's result is ListCapabilities' result with the invisible ones left out, whatever the map order |
| Services.DiscoverAgreesWithInvoke | core/pkg/mig/service.go:211-249 | with an empty query a capability is listed if and only if invoking it is neither unsupported nor forbidden |
| Sorting.StrictlyByIDUnique | core/pkg/mig/service.go:216-218 | a strictly ID-sorted list is determined by its elements, so the listing is deterministic |
| GoStrings.LessIff | core/pkg/mig/service.go:216-218 | the order of strings: a proper beginning, or smaller where they first differ |
| Services.Service.AuditExport | core/pkg/mig/service.go:531-546 | the whole log, or the tenant's records in commit order |
| Services.ExportsPartitionAudit | core/pkg/mig/service.go:531-546 | each record stands in its own tenant's export at its place in commit order and in no other; export lengths are the counters and sum to the log length |
| Services.Service.UsageSnapshot | core/pkg/mig/service.go:595-609 | copies of both maps and a total equal to the audit length for any map order |
| EventLog.PlayKeeps | core/pkg/mig/service.go:326-418 | every interleaving of publish, subscribe, receive, withdraw and close keeps the hub consistent |
| EventLaws.EverySubscriberInEveryRun | core/pkg/mig/service.go:345-417 | for every run and subscriber: at most 32 buffered; a duplicate-free, strictly increasing selection of the log since joining; received + buffered + dropped = published since joining; gaps are exactly drops; replay + kept = log from the start if and only if the buffer was never full |
| EventContents.LogIsItsPublishes | core/pkg/mig/service.go:326-357 | after any run a topic's log is the accepted publishes on it in order, each event with its request's payload, completed header, event ID and time, numbered from 1 |
| EventContents.ReceivedAsPublished | core/pkg/mig/service.go:345-363 | whatever a subscriber of any run has received is, word for word, the publish on its topic with that number |
| EventContents.PublishIff | core/pkg/mig/service.go:326-343 | a publish is accepted exactly if its header is acceptable and its topic, from path or else body, has a dot |
| EventLaws.FateHasItsPublish | core/pkg/mig/service.go:358-363 | each event since joining was kept or dropped at one publish of the run, and kept exactly if the buffer had room at that publish |
| EventLaws.PublishHasItsFate | core/pkg/mig/service.go:358-363 | and each publish to the channel's topic while it is subscribed decides one of them so |
| EventLaws.EverythingIffNeverFull | core/pkg/mig/service.go:358-417 | while subscribed, replay and kept events are the log from the start position if and only if no publish of the run found the buffer full |
| EventLaws.FloodDrops | core/pkg/mig/service.go:358-406 | of n publishes without a receive the first 32 are kept and all later ones dropped |
| EventLaws.DropIsReachable | core/pkg/mig/service.go:358-406 | the run of 33 publishes that loses an event |
| EventLaws.SubscribersAreOpen | core/pkg/mig/service.go:407-416 | after any interleaving every channel in a subscriber set is open |
| EventLaws.PublishIsLocal | core/pkg/mig/service.go:345-372 | an accepted publish adds one event to its topic and touches no other topic's log or channels; a refused one changes nothing |
| EventLaws.LogsAppendOnly | core/pkg/mig/service.go:357 | logs only grow at the end |
| EventLaws.ResumeStartsAt | core/pkg/mig/service.go:383-403 | subscribing with the printed cursor n starts the replay at n |
| EventContents.CursorIff | core/pkg/mig/service.go:375-391 | a subscription starts at the number its cursor denotes, an empty cursor at 0; the error otherwise |
| EventContents.SubscribeFailsIff | core/pkg/mig/service.go:375-391 | it fails exactly for a topic without a dot and for a nonempty cursor that is no numeral of a non-negative int64 |
| EventContents.SubscribeStarts | core/pkg/mig/service.go:393-406 | the new subscription starts at its cursor, or at the end of the log if that is past it, and has nothing yet |
| EventContents.EmptyCursorReplaysAll | core/pkg/mig/service.go:383-403 | a subscriber without cursor is sent the whole log, flagged and otherwise as published |
| EventContents.FlagsTellReplay | core/pkg/mig/service.go:399-403 | in what a session delivers the replay flag stands on exactly the events from before it joined |
| EventContents.ReceiveTakesOldest | core/pkg/mig/http.go:196-202 | a receive takes the oldest buffered event, if any, and moves nothing else |
| EventLaws.StitchRebuildsLog | core/pkg/mig/service.go:383-403 | in any consistent state: sessions each resumed at the last contiguous sequence number have rebuilt a prefix of the log reaching at least to the last join |
| EventLaws.StitchIsStable | core/pkg/mig/service.go:345-417 | what a client has read stays the same prefix along any run in which it reads no more of it |
| EventLaws.ResumingClientRebuildsLog | core/pkg/mig/service.go:383-417 | in every run from boot, with anything else going on: a client that resumes any number of times at its last contiguous sequence number has rebuilt a prefix of the log reaching at least to its last join, and the whole log once the last session is drained |
| EventLaws.DrainedSessionCompletes | core/pkg/mig/service.go:383-417 | if the last session dropped nothing and is drained, the whole log has been rebuilt |
| GoStrings.AtoiItoa | core/pkg/mig/service.go:385 | every printed cursor up to the int64 maximum reads back as itself |
| GoStrings.AtoiIff | core/pkg/mig/service.go:385 | the cursors that read as n are exactly its numerals within int64 |
| EventBuses.Channel.Send | core/pkg/mig/service.go:359-362 | the non-blocking send keeps or drops the event; the channel must be open |
| EventBuses.ValidatePublish | core/pkg/mig/service.go:327-343 | the checks in their order yield the publication or the first error |
| EventBuses.ValidateSubscribe | core/pkg/mig/service.go:375-391 | the checks in their order yield the cursor position, 0 for none, or the first error |
| EventBuses.EventBus.Publish | core/pkg/mig/service.go:326-372 | performs the publish action, mirrors the event if there is a NATS connection, acknowledges the next sequence number |
| EventBuses.EventBus.Record | core/pkg/mig/service.go:345-364 | the locked section: appends the next event to its topic, offers it to every subscriber and mirrors it, keeping the bus consistent |
| EventBuses.EventBus.PublishEventToNATS | core/pkg/mig/service.go:611-621 | sends the event to its mirrored subject if there is a connection |
| EventBuses.EventBus.FanOut | core/pkg/mig/service.go:358-363 | for any order every subscriber of the topic is offered the event once and no other channel changes |
| EventBuses.EventBus.Subscribe | core/pkg/mig/service.go:374-418 | performs the subscribe action and returns the flagged copy of the log from the clamped cursor, or the error |
| EventBuses.EventBus.Flagged | core/pkg/mig/service.go:399-403 | the copy loop yields the log from the start position with the replay flag set |
| EventBuses.EventBus.Leave | core/pkg/mig/service.go:409-414 | withdraws the channel from every subscriber set |
| EventBuses.EventBus.Close | core/pkg/mig/service.go:415 | closes a withdrawn channel |
| EventBuses.EventBus.Receive | core/pkg/mig/http.go:196-202 | takes the oldest buffered event |
| EventHandlers.HandleSubscribe | core/pkg/mig/http.go:133-205 | with others publishing, joining, receiving, leaving and closing at every point: what is sent is the flagged replay and then the received events; the bus makes exactly the session's run |
| EventHandlers.Follow | core/pkg/mig/http.go:133-205 | a client that calls the handler any number of times, each time with the length of its view as cursor, and absorbs what is sent: its view is a prefix of the log that holds all that had been published when the last session began |
| EventHandlers.Forward | core/pkg/mig/http.go:192-204 | what the receive loop sends is what it takes from the channel, in order; the bus makes exactly the scripted run |
| EventHandlers.Enact | core/pkg/mig/service.go:326-418 | whatever another goroutine does to the event log is an action of it that leaves the handler's channel in place |
| EventHandlers.EveryActionIsADeed | core/pkg/mig/service.go:326-418 | every action of the event log, on any channel that others hold or that is about to join, is a deed of theirs |
| EventHandlers.TakeTurn | core/pkg/mig/http.go:192-204 | a turn of the handler takes the oldest buffered event, if there is one; a turn of others sends nothing |
| EventHandlers.Unsubscribe | core/pkg/mig/service.go:409-416 | withdraw then close, with anything of others in between, is safe and performs both actions |
| EventHandlers.HandlePublish | core/pkg/mig/nats_binding.go:123-143 | a message that reaches the handler is published, with blanks filled from the subject, as the feedback model says; a mirrored one is accepted on its own topic |
| Streams.Serve | core/pkg/mig/http.go:278-385 | both stream loops (the gRPC one is grpc_server.go:183-255): one answer per frame in order; a request answered with the payload or the error of its settled Invoke, a cancel acknowledged and recorded, anything else rejected, each with the right stream ID, header and kind; an acknowledged cancel makes every later request with its ID fail; the service makes exactly the stream's run |
| Streams.ReplyLaws | core/pkg/mig/http.go:283-384 | shape of every answer on either front, cancelled requests fail, cancels are recorded |
| Streams.ReplyDescribes | core/pkg/mig/http.go:283-384 | every answer read off the frame, the state it meets and the state it leaves: response exactly if the call was written down or answered from the cache, then with that payload, otherwise the refusal or Timeout; cancels acknowledged as accepted and "cancelled" on both fronts |
| Streams.SaysCancelIff | core/pkg/mig/http.go:326-333 | a WebSocket control frame is a cancel exactly if its action is "cancel" in any case with any white space around |
| StreamRecords.FrameEnters | core/pkg/mig/http.go:299-309 | a request frame makes the call that a request with the connection's credentials would |
| StreamRecords.StreamBeginsEnter | core/pkg/mig/http.go:278-309 | each call a stream begins is the one its own frame, sent with the connection's credentials, leads to |
| StreamRecords.StreamRecordsAttributed | core/pkg/mig/http.go:278-309 | in JWT mode, after any run and with anything else going on, every audit record of a call that a stream begins is attributed by the token the stream was opened with |
| Streams.AnswerWs | core/pkg/mig/http.go:283-384 | one round of the WebSocket loop gives the stated reply and makes the stated steps |
| Streams.AnswerGrpc | core/pkg/mig/grpc_server.go:191-254 | one round of the gRPC loop gives the stated reply and makes the stated steps |
| Streams.AnswerRequest | core/pkg/mig/http.go:299-325 | a request frame is answered with the outcome of its Invoke, and the service makes the run of that Invoke |
| Streams.AnswerCancel | core/pkg/mig/grpc_server.go:230-242 | a cancel frame cancels its own message ID and is acknowledged, or answered with the error |
| GoStrings.TrimCutsBlanks | core/pkg/mig/auth.go:113 | trimming cuts white space off both ends and nothing else |
| GoStrings.FieldsLaws | core/pkg/mig/auth.go:173 | the words are the text without white space, cut exactly where a word ends |
| GoStrings.ContainsIff | core/pkg/mig/service.go:208 | the query test holds exactly if the query occurs somewhere in the ID |
| GoStrings.JoinSplit | core/pkg/mig/nats_binding.go:231-236 | join inverts split on every string |
| Subjects.SubjectIdempotent | core/pkg/mig/service.go:623-627 | sanitizing a subject twice is sanitizing it once |
| Subjects.SegmentIdempotent | core/pkg/mig/service.go:629-635 | sanitizing a segment twice is sanitizing it once |
| Subjects.BlankIsUnknown | core/pkg/mig/service.go:629-635 | a blank tenant is mirrored under the name "unknown" |
| Subjects.MirrorTokens | core/pkg/mig/service.go:615 | the token list of a mirrored subject |
| Subjects.MirrorDecodesIff | core/pkg/mig/nats_binding.go:124-125 | a mirrored subject reads back as sanitized tenant and topic if and only if the tenant has no dot and no slash |
| Subjects.MirrorRoundTripIff | core/pkg/mig/nats_binding.go:124-125 | it reads back as the original tenant and topic if and only if the tenant is nonempty, trimmed and without dot, slash and space, and the topic is without slash and space |
| Subjects.HandlersSliceInRange | core/pkg/mig/nats_binding.go:33-40 | every subject that matches the subscription table is long enough for the slices its handler takes |
| Subjects.MirrorMatchesIff | core/pkg/mig/nats_binding.go:37 | a mirrored subject reaches the publish handler if and only if tenant and topic print without an empty token, and the tenant has no dot and no slash or the second token of its sanitized form is "events" |
| Subjects.NoEmptyTokenIff | core/pkg/mig/service.go:623-627 | a sanitized value has no empty token if and only if it is nonempty and has no dot or slash at its ends or twice in a row |
| Mirror.LocalAddsOne | core/pkg/mig/service.go:357-364 | an accepted publish adds exactly one event to its topic and one mirrored message of its tenant and topic; any other action adds neither |
| EventContents.MirrorCarries | core/pkg/mig/service.go:611-621 | what is mirrored is the event that was added to the log, as it is |
| EventContents.HandlerDescribes | core/pkg/mig/nats_binding.go:123-135 | the publish handler passes on header, topic and payload of the message, with tenant and topic from the subject where they are missing |
| EventContents.EchoRepeats | core/pkg/mig/nats_binding.go:123-143 | a looping message is published again with its own header, topic and payload |
| Mirror.FeedbackIsARun | core/pkg/mig/nats_binding.go:123-143 | with mirror and binding the event log still makes a run of its own actions |
| Mirror.FeedbackLaw | core/pkg/mig/nats_binding.go:123-143 | with mirror and binding on, whatever comes from outside and for every delivery order: each topic's log grows by its outside publishes and its looping deliveries, and the pending messages of each looping tenant and topic change in number only by outside publishes |
| Mirror.FeedbackNeverEnds | core/pkg/mig/nats_binding.go:123-143 | one looping message keeps one of its tenant and topic pending for ever; k looping deliveries on a topic make its log exactly k longer |
| Mirror.NoFeedbackWithoutBinding | core/pkg/mig/service.go:611-621 | with the binding off the event log does exactly what it is told from outside, and each accepted publish adds one event |
| Connections.PresentIff | core/pkg/mig/connections.go:25-36 | a registration is in the table if and only if its own closure has not run and no later operation of another registration named its ID |
| Connections.ExactIff | core/pkg/mig/connections.go:25-36 | after a run the table holds exactly the live registrations if and only if no live one had its ID named by another |
| Connections.AlwaysExactIff | core/pkg/mig/connections.go:25-36 | the table is exact at every moment if and only if no operation names the ID of another registration that is live when it is made |
| Connections.DistinctIDsAreExact | core/pkg/mig/connections.go:15-36 | with distinct IDs the table always holds exactly the live registrations, however often closures run |
| Connections.ReusedIDIsRemoved | core/pkg/mig/connections.go:32-36 | with a reused ID, the old connection's closure removes a registration that is live |
| Connections.Registry.RegisterConnection | core/pkg/mig/connections.go:15-37 | fills in ID and start time, stores, returns the ID; performs the operation |
| Connections.Registry.UnregisterConnection | core/pkg/mig/connections.go:32-36 | removes the ID its registration captured, harmlessly if repeated with distinct IDs; performs the operation |
| Connections.Registry.List | core/pkg/mig/connections.go:39-90 | for any map order: exactly the entries whose fields are the trimmed nonblank filters, each once, newest first; exact total; per protocol, kind and tenant how many have each nonempty value, summing to those that have one; the trimmed filters and the binding flag |
| Directories.EveryGatewayResolves | core/pkg/mig/service.go:548-593 | in every reachable directory, overwrites included, records sit under their IDs and each gateway resolves to an organisation |
| Directories.Directory.CreateOrg | core/pkg/mig/service.go:548-559 | stored as given under its own or the generated ID exactly if it has a name, links kept |
| Directories.Directory.CreateTenant | core/pkg/mig/service.go:561-576 | stored as given under its own or the generated ID exactly if it has a name and a known organisation, links kept |
| Directories.Directory.CreateGateway | core/pkg/mig/service.go:578-593 | stored as given under its own or the generated ID exactly if its fields are filled and its tenant is known, links kept |

## Left out

- HELLO negotiation, HEARTBEAT, schemas, policy validation, conformance health: one-branch behaviour that would only add easy members.
- NATS request/reply handlers other than invoke and publish: they fill blanks from the subject and call the modelled operations without an authenticated principal.
- JWT parsing and signatures, JSON and protobuf codecs, the NATS client, WebSocket upgrade, the gRPC runtime: their results are inputs.
- Enum-to-string tables of the gRPC front, HTTP status codes of operations, metrics, the console page, configuration and process start-up.
- Audit file writing and error metrics: output that no modelled operation reads.
- Failing writes in the stream and subscription loops: the handlers then stop or go on without the lost frame.
- White space other than ' ' in NATS subjects, which the wire protocol would cut at: a subject is its tokens here.
- Error texts that quote the input: the reasons are named, not printed.
- `sort.Slice`: modelled by an insertion sort on a sequence; results that have no ties do not depend on it, and lists with ties are specified as sorted permutations.
- The scope list that the header checks put into `Meta` is a parameter; that it is the sorted scope set is not modelled.
- Aliasing of Go maps (`Meta`, payloads) between caller, cache and log.
