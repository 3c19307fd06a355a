# HubProxy: a verified model

HubProxy receives GitHub webhooks, verifies and stores them in one `events` table, forwards what
is pending to a target, and lets operators replay stored events. This project models that
behaviour in Dafny 4.11 and proves properties of it. `dafny verify dfyconfig.toml` checks it all.

## How the model is built

`Protocol` is the whole program as an interleaving of its actors: webhook handlers, replay
requests, forwarder workers, the metrics goroutine, the ticker, and restarts of the process. A
step is one SQL statement, one exchange with the target, or one channel operation; between two
steps any other actor may run. Everything the environment decides (row order, replies, failing
statements, clocks, uuids) is part of the step, and a step whose actor is not at that point is
skipped, so every sequence of steps is a run and the theorems hold of all of them. The number of
workers, `width`, is arbitrary; the program starts one.

On that machine stand:

- `Redelivery`: exact accounts of how often the target accepts an event, with one worker, and bounds for many.
- `Deliveries`: every mark traced back to its delivery, one to one; exactly when a replay can be overwritten without a delivery.
- `Retries`: exactly when an event can be attempted again; from a request to the attempt, restarts included; never more attempts than calls; a replay that comes to nothing.
- `Provenance`: rows are kept for ever with their fixed columns, and whatever is sent is what was first stored.
- `Interference`: exactly which queries keep their promise when others run between the count and the select.
- `GaugeCache`: the gauges as a cache behind a queue that drops full sends: exactly when they are right, and no lost wakeup.
- `Wakeups`: what a coalesced request to process events brings about, restarts included, and how many passes there can be.
- `EndToEnd`: every request made for the target passes the signature check and repeats what was admitted; an undisturbed `ServeHTTP` is a run.

The components that change state step by step are classes with the source's fields and loops:
`SqlStorage.Storage`, `Metrics.DBMetricsCollector`, `Forwarder.WebhookForwarder`, `Api.Handler`,
`Graphql.Schema`, `WebhookHandler.Handler`. Their methods are proved against functions of the
table (`Events`, `Forwarding`), and `Refinement` proves that those functions are what the machine
computes when nothing disturbs a gather, a pass or a replay, and that the requests the forwarder
makes are the entries of the machine's log. `Undisturbed` does the same for whole operations from
their first step on: replays, gathers, failures, ticks and starts of the process. What the two
replay handlers repeat in their source, listing and writing back, is one method here,
`Api.ReplayListed`. `Hex`, `Signature`, `Headers` and
`Envelope` are the pure parts.

HMAC-SHA256, `encoding/json`, and the two fields taken from a payload are functions in `Env`
about which only `Envelope.Lawful` is assumed: parsing what was printed gives the header map back
up to the replacement of invalid UTF-8, which leaves ASCII alone. `Envelope.FromWire` is what
Go's server guarantees of a header map: names are tokens in canonical form, each with a value.

## Where the documentation and the code differ

The code is followed.

- The repository's README says failed deliveries are queued and retried automatically. In the
  code a pass needs a call of `EnqueueProcessEvents`, which happens only when the process starts
  (`Protocol.Init` and the step `Restart` make it; `EnqueueForward` is a call by anyone else).
  `Retries.RefusedStays` gives the run: one store, one pass, one refusal, and nothing that can
  still happen without a restart or another call attempts the event again. All workers together
  never make more attempts of an event than there were calls (`Retries.AttemptsNeedCalls`). `Retries.TriedAgain` says when an
  attempt can still come, for every reachable state: if and only if a wakeup is on its way or a
  worker has the event ahead of it in its snapshot.
- A replay is not always followed by a delivery. `Retries.ReplaySwallowed` gives a run in which a
  mark under way overwrites it, and `Deliveries.ReplayHonoured` says exactly when that can happen.
- A query that counts and then selects promises a page as long as its total allows.
  `Interference.CountThenListExactly` says which queries keep that under interference: all but
  those that ask for the forwarding state, whatever their limit and offset.
- The gauges are not always the table's counts when all is quiet: `GaugeCache.FailedQueryLeavesStale`
  gives a run, and `GaugeCache.GaugesExact` says exactly when they are.

`Storage.ListEvents` asks for no order, so row order is an arbitrary parameter everywhere.

## Model

| member | source | states |
|---|---|---|
| Hex.DecodeEncode | internal/webhook/handler.go:99-109 | reading printed hex gives the bytes back |
| Hex.EncodeDecode | internal/webhook/handler.go:99-109 | printing what was read gives the lower-case text, so two texts of the same bytes differ only in case |
| Hex.DecodeAccepts | internal/webhook/handler.go:99-103 | hex is rejected exactly for odd lengths and non-digits |
| Hex.DecodeRefuses | internal/webhook/handler.go:99-103 | hex is an error exactly for an odd length or a character outside 0-9, a-f, A-F |
| Hex.EncodeAt | internal/security/security.go:10-14 | byte i prints as two digits, its upper half first, lower-case |
| Signature.HandlerAccepts | internal/webhook/handler.go:79-124 | the handler accepts exactly the `sha256=` values whose lower-cased hex part is the one GenerateSignature prints |
| Signature.FormsAgree | internal/security/security.go:10-20 | the string comparison accepts exactly those values the handler accepts that are in lower case |
| Signature.AcceptedIsAscii | internal/webhook/handler.go:79-124 | an accepted signature value is plain ASCII |
| Signature.SignatureAt | internal/security/security.go:10-14 | the printed signature is `sha256=` and then the HMAC byte by byte in lower-case hex |
| Signature.MacOfPayload | internal/webhook/handler.go:105-121 | only the HMAC of the payload keyed by the secret matters, to the handler and to both functions of the security package |
| Signature.RejectsExactly | internal/webhook/handler.go:79-121 | each of the four refusals of the handler has its exact cause |
| Headers.FillHeader | internal/webhook/forwarder.go:120-124 | the nested loops build the header got by adding every stored value, for any order of the map |
| Headers.HeaderRoundTrip | internal/webhook/forwarder.go:112-124 | for every order of ranging the rebuilt header equals the stored one if and only if all names are canonical and have a value |
| Headers.RebuildKeepsLookups | internal/webhook/forwarder.go:120-137 | with canonical names every lookup answers as before, empty lists included |
| Headers.CanonicalTwice | internal/webhook/forwarder.go:120-124 | canonical header names are fixed points of canonicalisation, which is why a rebuilt header is looked up as the stored one |
| Headers.CanonicalIgnoresCase | internal/webhook/handler.go:127-131 | two token names are the same header if and only if they differ in letter case only |
| Headers.CanonicalLetters | internal/webhook/forwarder.go:120-124 | exactly the letters that come first or after a hyphen are upper-case in a canonical name |
| Headers.GetIgnoresCase | internal/webhook/handler.go:127-131 | a header is found under every spelling of its name |
| Headers.GetAfterAdd | internal/webhook/forwarder.go:120-137 | a lookup gives the value added first under the name in any spelling, and adding under other names does not disturb it |
| Envelope.ForwardsHeader | internal/webhook/handler.go:180-195 | storing and forwarding a request hands on its whole header map |
| Envelope.AddedFromWire | internal/webhook/handler.go:180-184 | header lines with token names, added as they arrive, always make a header map that the end-to-end theorems cover |
| Envelope.ForwardVerifies | internal/webhook/forwarder.go:96-139 | the rebuilt request of an admitted webhook passes the handler's own signature check |
| Events.FilterIsSelection | internal/storage/sql/storage.go:151-217 | a query's rows are the selected ones, each once, as many as the count reports, in any scan order |
| Events.QueryExactly | internal/storage/sql/base.go:252-273 | for arbitrary options, the total and the rows listed are those meeting every condition given (types, repository, sender, both ends of the time range, forwarding state), as many as limit and offset leave |
| Events.RowsOfQuery | internal/storage/sql/storage.go:151-217 | the number of rows listed for every limit and offset, and that a limit no smaller than the count leaves none out |
| Events.ScansAreFree | internal/storage/sql/storage.go:151-176 | no order of visiting the rows is ruled out |
| Events.PendingQuery | internal/webhook/forwarder.go:169-172 | the forwarder's query lists exactly the rows with forwarded_at NULL |
| Events.PageSize | internal/storage/sql/storage.go:168-174 | the number of rows of a page for every limit and offset, limits of zero and below included |
| Events.PageAt | internal/storage/sql/storage.go:168-174 | row i of a page is row offset + i of the list |
| Events.PagesCover | internal/storage/sql/storage.go:168-174 | consecutive pages over one scan order concatenate to the list without gap or repeat |
| Events.StatsConservation | internal/storage/sql/storage.go:219-281 | each type's statistic is its CountEvents, keys are the types with a non-zero count, and the values sum to the total count |
| Events.StoresAddIds | internal/storage/sql/base.go:43-75 | after any run of stores the ids are the old ones plus those stored, and old rows are untouched |
| Events.StoreRunSize | internal/storage/sql/storage.go:101-106 | after any run of stores with fresh uuids the rows are the old ones, one for each distinct new id given, and one for each event stored without an id |
| Events.RowsAreRead | internal/storage/sql/storage.go:151-217 | the rows a query gives are rows of the table, matching, none twice |
| Events.FirstWriteWins | internal/storage/sql/base.go:60-75 | each new id keeps its first write whatever is stored under it later |
| Events.InsertCounts | internal/storage/sql/base.go:43-75 | a new row adds one to every count whose conditions it meets and nothing to the others |
| SqlStorage.Storage.StoreEvent | internal/storage/sql/storage.go:101-106 | an empty id gets a uuid, and the row is inserted unless its id exists |
| SqlStorage.Storage.UpdateEvent | internal/storage/sql/base.go:78-101 | every column but the id is overwritten; a missing row is no error |
| SqlStorage.Storage.MarkForwarded | internal/storage/sql/storage.go:232-250 | one column of one row is set; a missing row is an error |
| SqlStorage.Storage.GetEvent | internal/storage/sql/storage.go:108-149 | the row, or nothing and no error when it is missing |
| SqlStorage.Storage.ListEvents | internal/storage/sql/storage.go:151-217 | the rows and the total of the query (see Events.QueryExactly); an offset without limit is an error except on Postgres |
| SqlStorage.Storage.CountEvents | internal/storage/sql/storage.go:219-230 | the number of selected rows, counted by a scan (see Events.QueryExactly) |
| SqlStorage.Storage.GetStats | internal/storage/sql/storage.go:252-281 | the map filled from the answer's lines is the count of rows by type |
| Metrics.DBMetricsCollector.EnqueueGatherMetrics | internal/storage/metrics.go:48-56 | after the send the slot is full, whether or not it was before |
| Metrics.DBMetricsCollector.GatherMetrics | internal/storage/metrics.go:33-46 | every type counted is set, other gauges stay, and an error changes nothing |
| Forwarder.WebhookForwarder.ForwardEvent | internal/webhook/forwarder.go:96-159 | one counter goes up by one, at most one request is made, and one row is marked only after a status below 400; a target URL or headers that do not parse count as an error without a request |
| Forwarder.AttemptExactly | internal/webhook/forwarder.go:96-159 | an attempt is made exactly when URL and headers parse, succeeds exactly on an answer below 400, and then sets forwarded_at of its row to the time of the mark |
| Forwarder.WebhookForwarder.ForwardAll | internal/webhook/forwarder.go:181-183 | the loop's table, requests and counters are those of one attempt for each event in turn |
| Forwarder.WebhookForwarder.ProcessEvents | internal/webhook/forwarder.go:161-188 | the snapshot is the pending set; what leaves it is what was accepted and marked; the counters rise together by its length |
| Forwarder.WebhookForwarder.EnqueueProcessEvents | internal/webhook/forwarder.go:190-197 | after the send the slot is full, whether or not it was before |
| Forwarding.PassEffect | internal/webhook/forwarder.go:161-188 | an undisturbed pass takes exactly the accepted and marked ids off the pending set and changes no other row or column |
| Forwarding.Draining | internal/webhook/forwarder.go:161-188 | after n undisturbed passes exactly those ids are pending that the target refuses at least n times |
| Forwarding.DrainsInTime | internal/webhook/forwarder.go:161-188 | for any refusal counts some number of passes empties the pending set: a run of that many passes exists, and every such run ends with nothing pending |
| Forwarder.ProcessDrains | internal/webhook/forwarder.go:161-188 | a call of ProcessEvents is such a pass when headers parse, marks succeed and the target refuses each event its number of times |
| Forwarding.ReplayRows | internal/api/handler.go:280-302 | a replay makes exactly the given rows pending again with their stamps, keeps their other columns, and leaves all other rows alone |
| Forwarding.ReplayThenForward | internal/webhook/forwarder.go:161-188 | after a replay a pass lists exactly old pending and replayed rows, each once; accepted and marked, none is left pending (the requests are in Refinement.ReplayThenSend) |
| Forwarding.StampsOnly | internal/api/handler.go:283-293 | replays of the same rows differ only in the stamps they leave |
| Api.PartialReplay | internal/api/handler.go:280-302 | a range replay that stops after k rows has reset exactly the first k it listed |
| Api.WriteBack | internal/api/handler.go:280-302 | the loop writes back exactly the rows before the first failing update and collects their new forms |
| Api.ReplayListed | internal/api/handler.go:267-302 | each outcome has its exact cause, and the table is that of writing back all listed rows or those before a failure |
| Api.RangeReplayed | internal/api/handler.go:280-302 | a replay changes only selected rows, only in the four columns of a replay, and all of them if it does not stop and the limit leaves none out |
| Api.RangeExactly | internal/api/handler.go:203-312 | the same in terms of the time range and filters of the request, for both forms of the range replay |
| Api.Handler.ReplayEvent | internal/api/handler.go:142-201 | each status has its exact cause; only success changes a row, and just its forwarded_at, error and replay stamps |
| Api.Handler.ParseRange | internal/api/handler.go:210-265 | exactly the well-posed requests are accepted, with limit 100 if none is given and the given filters |
| Api.Handler.ReplayRange | internal/api/handler.go:203-312 | each status has its exact cause; every row changed lies in the time range and has the given type, repository and sender; without failures min(qualifying, limit or 100) events are answered, and all qualifying rows are pending if the limit leaves none out |
| Graphql.Schema.ResolveReplayEvent | internal/graphql/resolvers.go:111-152 | each error has its exact cause; only success changes a row, and just its forwarded_at, error and replay stamps |
| Graphql.Schema.ParseArgs | internal/graphql/resolvers.go:156-191 | both ends of the range are required; range and filters are kept whatever the limit, and one that is not positive gives 100 |
| Graphql.Schema.ResolveReplayRange | internal/graphql/resolvers.go:154-231 | every row changed lies in the time range and has the given type, repository and sender; without failures min(qualifying, limit or 100) events are answered, and all qualifying rows are pending if the limit leaves none out |
| Graphql.Schema.ResolveStats | internal/graphql/resolvers.go:86-109 | one list entry for each type with its count, in any order |
| Graphql.SameSelection | internal/graphql/resolvers.go:163-191 | both forms run the same query whenever the REST form accepts the request |
| Graphql.SameEffect | internal/graphql/resolvers.go:204-225 | where REST accepts the request and the same updates fail, both forms stop after the same number of rows with the same effect on the table, up to uuids and the clock |
| WebhookHandler.Handler.ServeHTTP | internal/webhook/handler.go:149-221 | each status has its exact cause; a row enters only for an admitted request, with type, id, header, body, time, repository and sender of that request in their columns; every admitted request gets 200 and asks for metrics even if the insert fails |
| WebhookHandler.StoredIsCounted | internal/webhook/handler.go:186-216 | a stored webhook raises the counts by its payload's repository, its payload's sender and its event type by one, and no count by another repository |
| Protocol.TableExtends | internal/storage/sql/base.go:78-101 | no step drops a row or alters a fixed column, although replays write whole rows read earlier |
| Protocol.InvRun | internal/api/handler.go:157-187 | in every run all copies held by replays and workers, and all events sent, agree with the table on the fixed columns |
| Provenance.RowsAreKept | internal/api/handler.go:157-187 | between any two points of any run rows stay, with their fixed columns unchanged |
| Provenance.ColumnsAreKept | internal/api/handler.go:157-187 | the same column by column: id, type, headers, payload, creation time, repository and sender |
| Provenance.RowsHaveOrigin | internal/webhook/handler.go:186-216 | every row is the one a handler's insert first stored under its id |
| Provenance.SentAsStored | internal/webhook/forwarder.go:161-183 | whatever is sent, from any snapshot, has the columns first stored under its id |
| Provenance.OriginIsUnique | internal/storage/sql/base.go:60-75 | an id has one storing insert in a run |
| Provenance.CountThenList | internal/storage/sql/storage.go:158-176 | whatever runs between the two statements, the page is not shorter than the total promises for any limit and offset, forwarding filter aside |
| Interference.CountThenListExactly | internal/storage/sql/storage.go:158-176 | the page keeps the promise of the total in every run, at any two points and in any row order, for every limit and offset, if and only if the query does not ask for the forwarding state or its time range ends before it begins |
| Interference.HopelessExactly | internal/storage/sql/base.go:252-273 | the queries that no new event matches are those whose time range ends before it begins |
| Interference.BrokenPromise | internal/storage/sql/storage.go:158-176 | any storable event that matches a query for the forwarding state, of any limit and offset, leads from the start to a run whose page is short |
| Provenance.ListThenCount | internal/storage/sql/base.go:134-167 | a non-empty page read first lies within the total counted later |
| Redelivery.AcceptedAccount | internal/webhook/forwarder.go:139-158 | each accepted post is followed by an applied mark, a failed mark or a restart, or its mark is still to come |
| Redelivery.TallyIsLogged | internal/webhook/forwarder.go:139-153 | the count of accepted posts is that of the log of requests |
| Redelivery.WorkerBound | internal/webhook/forwarder.go:161-188 | one worker among many gets an id accepted at most 1 + reopening replays + its failed marks + its restarts before a mark |
| Redelivery.BoundedRedelivery | internal/webhook/forwarder.go:161-188 | the same bound for all workers together |
| Redelivery.DeliveryConservation | internal/webhook/forwarder.go:199-215 | with one worker the accepted deliveries of an id equal forwarded + reopening replays + failed marks + restarts before a mark + mark to come |
| Deliveries.SetsAreDelivered | internal/webhook/forwarder.go:147-158 | every change of forwarded_at from NULL is a mark whose worker had the event accepted as its last move |
| Deliveries.DeliveriesDistinct | internal/webhook/forwarder.go:147-158 | no delivery serves two such changes |
| Deliveries.ForwardedMeansDelivered | internal/webhook/forwarder.go:147-158 | a row with forwarded_at set was accepted by the target before |
| Deliveries.ReplayHonoured | internal/api/handler.go:157-187 | a pending row can become forwarded only by a fresh delivery if and only if no worker is between an accepted post of it and its mark |
| GaugeCache.GaugesExact | internal/storage/metrics.go:33-97 | whenever no gather is setting them, the gauges equal the table's counts if and only if no row was added since this process's last successful query |
| GaugeCache.NoLostWakeup | internal/storage/metrics.go:48-97 | when all is quiet no row is unseen, unless the last query failed, so the gauges equal the table's counts (after a failure the next tick repairs them, Undisturbed.TickRefreshes) |
| GaugeCache.NoLostWakeupWithoutErrors | internal/storage/metrics.go:48-97 | in runs where GetStats never fails the gauges equal the counts whenever all is quiet |
| GaugeCache.FailedQueryLeavesStale | internal/storage/metrics.go:67-72 | a run from the start that ends quiet with a row added since the last successful query, and its count missing |
| Undisturbed.TickRefreshes | internal/storage/metrics.go:79-94 | from any reachable state with the gatherer waiting, a tick and an undisturbed gather make the gauges exact, whatever failed before |
| Undisturbed.StartRefreshes | internal/storage/metrics.go:58-97 | from any state, a restart and an undisturbed gather make the gauges exact |
| Undisturbed.FailedGatherIsRun | internal/storage/metrics.go:33-46 | a failed gather uses up its wakeup and changes nothing else |
| GaugeCache.GaugesUnderApproximate | internal/storage/metrics.go:33-46 | in every reachable state each gauge is at most the count of its type |
| GaugeCache.GaugesNeverFall | internal/storage/metrics.go:33-46 | no step but a restart lowers a gauge |
| Wakeups.RequestCovered | internal/webhook/forwarder.go:190-212 | after a request there is a token, a worker about to list, or a list issued since, restarts included |
| Wakeups.RequestServed | internal/webhook/forwarder.go:169-212 | once nothing more is coming of a request, every row pending since then has been taken into a snapshot, failed lists aside |
| Wakeups.ListTakesAll | internal/webhook/forwarder.go:169-183 | the list of a pass takes up exactly the rows then pending |
| Wakeups.PassesNeedWakeups | internal/webhook/forwarder.go:190-215 | there are never more passes than calls of EnqueueProcessEvents, those made by each start of the process included |
| Retries.TriedAgain | internal/webhook/forwarder.go:139-215 | from any reachable state an event can be attempted again without a restart or a new EnqueueProcessEvents if and only if a wakeup is on its way or a worker has it ahead in its snapshot; the same for an accepted attempt |
| Retries.RefusedStays | internal/webhook/forwarder.go:139-215 | a run after which a refused event is pending and no continuation without a restart or a new EnqueueProcessEvents attempts it |
| Retries.AttemptsNeedPasses | internal/webhook/forwarder.go:161-188 | the attempts of an id by all workers plus the workers that have it ahead are at most the passes made |
| Retries.AttemptsNeedCalls | internal/webhook/forwarder.go:190-215 | all workers together attempt an id at most as often as EnqueueProcessEvents was called, whatever is replayed and whatever marks fail |
| Retries.RequestPosted | internal/webhook/forwarder.go:169-212 | once nothing more is coming of a request and no worker holds the id, every row pending since then has been attempted, restarts in between included, failed lists aside |
| Retries.ReplaySwallowed | internal/api/handler.go:157-187 | a run in which the mark of an earlier delivery overwrites a replay, so that the target sees the event once |
| Refinement.GatherIsRun | internal/storage/metrics.go:33-46 | an undisturbed gather is a run of the protocol and makes under-approximating gauges exact |
| Refinement.PassIsRun | internal/webhook/forwarder.go:161-188 | an undisturbed pass, of no rows too, is a run of the protocol, ending in the state with the same table and, in the log, one entry for each request |
| Refinement.RequestsAreLogged | internal/webhook/forwarder.go:96-139 | the requests a pass makes are the entries it adds to the log, one for one, with the event's payload and rebuilt header |
| Refinement.OneRequestEach | internal/webhook/forwarder.go:161-188 | with headers that parse a pass makes exactly one request for each event it lists, in order |
| Refinement.ReplayThenSend | internal/webhook/forwarder.go:161-188 | after a replay an accepting pass makes exactly one request for each row that was pending or replayed, with that row's stored headers and payload, and leaves none pending |
| Refinement.ReplayIsRun | internal/api/handler.go:280-302 | an undisturbed replay of k rows is a run of the protocol, with the same table |
| Undisturbed.RangeReplayIsRun | internal/api/handler.go:267-302 | a range replay with any query and row order, from its read to its end and stopping after any number of rows, is a run with the table of the handlers |
| Undisturbed.EventReplayIsRun | internal/api/handler.go:157-187 | a replay of one event is a run that makes its row pending with new stamps; a failed update changes nothing |
| Undisturbed.PromptWakes | internal/webhook/forwarder.go:190-212 | a request wakes any idle worker |
| Undisturbed.FailedPassIsRun | internal/webhook/forwarder.go:169-173 | a pass whose list fails ends at once and changes nothing else |
| Undisturbed.StartIsFirstStart | cmd/hubproxy/main.go:205-230 | of what there was before a restart only the table and what the target has seen is left |
| Undisturbed.StartForwards | internal/webhook/forwarder.go:199-215 | from any state, a restart leads to a pass over all that is pending, by any worker |
| EndToEnd.ServeIsRun | internal/webhook/handler.go:186-221 | an undisturbed ServeHTTP of an admitted request is a run of the protocol with the same table and a full metrics queue, whether or not the insert succeeds |
| EndToEnd.EveryRequestVerifies | internal/webhook/handler.go:172-194 | in every run each request made for the target has headers that parse and passes the handler's signature check, in any order of ranging |
| EndToEnd.EveryRequestRepeats | internal/webhook/forwarder.go:96-139 | each such request repeats the body of an admitted webhook, all its header names and, in order, all their values, each unchanged if it is ASCII and up to the replacement of invalid UTF-8 otherwise |

## Left out

- HTTP transport, TLS, Unix sockets, Tailscale, routing, command line and configuration. Whether `http.NewRequest` accepts the target URL is a parameter.
- SQL text, drivers and schema creation: statements are functions on a finite map; JSON columns that reformat payloads (Postgres, MySQL) are not modelled, columns keep bytes.
- Column widths and the other warnings that an `INSERT IGNORE` may silence on MySQL.
- JSON parsing, HMAC and SHA-256, uuid generation and clocks: functions and parameters.
- `IsGitHubIP` and address ranges: a flag tells whether the address is GitHub's.
- A program without a target URL, which starts no forwarder: it is the machine with no workers. A start fills the forwarder's queue in the same step, although `StartForwarder` runs in a goroutine of its own.
- The goroutine loops of `StartForwarder` and `StartMetricsCollection` and the ticker: they are steps of `Protocol`, not methods, since they never end.
- The read-only endpoints that list events and statistics, and the ordered `BaseStorage.ListEvents`, which is shadowed and never called; only its list-then-count behaviour is covered.
- The classes run one call at a time; interference is the subject of `Protocol`. That a process can die between two statements, and that several processes may share a table, is there a restart of all workers and a number of workers.
- Logging and middleware metrics.
- Deliveries.ReplayHonoured: does not claim that a replayed event is ever forwarded, because no pass follows unless the program is started again.
