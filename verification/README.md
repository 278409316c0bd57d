# AXIOM brain: verified model

This project models the stateful cores of the AXIOM brain in Dafny and proves what they promise over whole runs.

* **Signed receipt ledger** (`Receipts`, `Verify`, `LedgerRuns`, `AgentRegistry`). The append stamps, links, signs and
  hashes a row and updates the agent registry in the same transaction; the verifier walks the chain. Proved: the loop
  gives the declarative verdict, one hash pins the whole history, every run is well formed under any clock, and the
  registry is always the recomputation.
* **Approvals and the watchdog** (`Approvals`, `ApprovalRules`, `Watchdog`, `WatchdogRules`, `Debounce`). State machines
  around the ledger and the alert table, with their steps interleaved.
* **Event stream** (`Broadcaster`, `BrainStore`, `BrainEffects`, `BrainSocket`, `EventStream`). Publishing, replay,
  queues, reconnecting sockets and the store that drops what it has seen, as one protocol with every interleaving of
  its steps.
* **Passports** (`Passports`, `PassportRules`, `PassportCache`, `PassportRevocation`, `PassportProtocol`, `Ulid`).
  Verification through a cache, first with atomic calls and then with its steps apart, and the identifiers.
* **Edit distance** (`EditDistance`). The two-row loop against shortest edit scripts.
* **Ingestion** (`Pipeline`, `IngestRules`). Upserts by source id, nicknames and edges.
* **Layout** (`EdgeCounts`, `EdgeMeaning`, `ForceLayout`, `LayoutBounds`, `ForceMeaning`, `LabelCollision`,
  `LabelOverlap`). Edge counting, the force simulation, normalisation and label pushing, over the reals.

## Conventions

Code that updates objects or arrays is modelled by classes, arrays and loops; each such method is tied to a
specification function, and the lemmas are about that function. The modules named `Rules`, `Effects`, `Meaning` and
`Overlap` say what such functions compute, on fields and literals alone, without the functions that compute it.

Protocols are state machines whose `Do` skips a step that is not enabled, so that every list of steps is a run. A
database transaction is one atomic step. Clocks, random bits, new ids, tokens, and the order in which a query without
ORDER BY lists its rows are parameters, so results hold for all of them; `rand`, `Math.sqrt`, `Math.hypot` and
`localeCompare` are function parameters with the few laws that are used (a root of a positive number is positive, a
length is at least each coordinate, a locale order is a total preorder).
Strings are sequences of characters compared one by one, and bytes are `bv8`.

Cryptography is idealised: payloads are maps from columns to values, hashing and signing are functions on payloads,
and the laws used are named in each lemma (`SignsAndVerifies`: signatures verify and, for receipts, have the 64 bytes of
section 5.1.6 of RFC 8032, and base64 text decodes to what was encoded; `CollisionFree`: equal digests mean equal
payloads; `Unforgeable`: nothing verifies but the signature made for that payload). JSON text and base64 are not modelled further. Receipts are append-only because of the triggers in
`alembic/versions/0005_receipts_immutability_triggers.py:34-41`. Identifiers use Crockford's Base32 alphabet as in the
Encoding section of the ULID specification.

## Where the code falls short of its description

* The broadcaster promises that a reconnecting client gets everything from its sequence number on
  (`src/axiom/ingest/broadcaster.py:12-13`). The queue is registered after the replay has been handed out, so an event
  published after the last replayed event is handed out and before the registration reaches neither (with nothing to
  replay there is no such moment, `EventStream.EmptyReplayMissesNothing`). `EventStream.PublishInWindowIsLost` shows the
  loss after every run that reaches the window, `EventStream.TenStepsLoseAnEvent` gives one, `EventStream.GaplessExactly`
  says exactly when a subscription has no gap, and `EventStream.EndToEndExactlyOnce` assumes that nothing is published
  while a replay is handed out. Its other hypothesis, `Covered`, is weaker than every `since` lying in the
  1000-event window: it also admits a gap that another socket has already filled.
* An action id is recorded at most once, but a call refused for its row id leaves a later call with that action id free
  to insert (`LedgerRuns.RefusedThenRepeated`, `LedgerRuns.RepeatsChangeNothingExactly`).
* A call that dies between resolving an approval and appending its receipt leaves a denied or expired request without a
  receipt for good (`Approvals.DyingCallLosesReceipt`, `Approvals.LostForGood`).
* The two edge counters disagree on clusters with an empty name (`EdgeCounts.AgreeExactly`). Two pairs of clusters can
  share one link if their names contain colons (`EdgeCounts.OwnLinksExactly`, `EdgeCounts.ColonsMerge`). No cluster of the
  product has such a name.
* Detecting again on an unchanged entity can raise again. Every detection of the running watchdog reads a new time
  (`src/axiom/govern/watchdog.py:131`), and built-in rules compare ages with it, so time alone can bring a new finding
  (`Watchdog.AgingRuleFindsMoreLater`); so can a rule that reads alerts (`Watchdog.AlertReadingRuleFindsMore`), which no
  built-in rule does. `Watchdog.LaterDetectionCreatesNothingExactly` says exactly when nothing is raised.

## Model

| member | source | states |
|---|---|---|
| Receipts.CanonicalDictPins | src/axiom/govern/receipts.py:117-131 | two receipts with one canonical dictionary agree on every field that is not excluded, a null passport id (left out of the dictionary) included |
| Receipts.CanonicalDictReads | src/axiom/govern/receipts.py:117-131 | the dictionary depends on no excluded field |
| Receipts.HashPayloadPins | src/axiom/govern/receipts.py:144-155 | the hashed payload and the stored hash together determine the whole row |
| Receipts.SigningPayloadPins | src/axiom/govern/receipts.py:158-167 | the signed payload commits to the chain position and to every other field but the signature and the hash |
| Receipts.SigningPayloadStable | src/axiom/govern/receipts.py:158-167 | filling in signature and hash afterwards does not change what was signed |
| Receipts.HashPayloadStable | src/axiom/govern/receipts.py:181-187 | filling in the hash afterwards does not change what was hashed |
| Receipts.LegacyPayloadIgnoresPosition | src/axiom/govern/receipts.py:170-178 | the legacy payload says nothing about the position in the chain |
| Receipts.DictionaryOfTexts | src/axiom/govern/receipts.py:94-131 | the dictionary holds each text, flag and date column under its own key unless excluded |
| Receipts.DictionaryOfNullables | src/axiom/govern/receipts.py:94-131 | ... and each optional column as text or null, but for a null passport id, which has no key |
| Receipts.OrderedIsListing | src/axiom/govern/verify.py:36-36 | the listing holds exactly the rows of the table, by date and then by id |
| Receipts.LatestIsLatest | src/axiom/govern/receipts.py:214-216 | the row the append links to is in the table and last by date and then by id |
| Receipts.ReceiptLedger.ChainInsertReceipt | src/axiom/govern/receipts.py:190-262 | one call returns the row with that action id, or refuses a taken row id and changes nothing, or appends one stamped, linked, signed and hashed row and updates the registry with it; the state and outcome are those of the specification, whose columns `Receipts.AppendedRow`, `Receipts.NewRowSealed`, `Receipts.StampExactly` and `LedgerRuns.RegistryRowsFromReceipts` give |
| Receipts.NewRowIsLatest | src/axiom/govern/receipts.py:214-219 | on any table and under any clock the new row is dated after every row there is, so the ordered listing grows at its end |
| Receipts.NewRowSealed | src/axiom/govern/receipts.py:221-243 | the new row links to the last row of the ordered listing and carries its own hash and a signature of its own payload |
| Receipts.AppendOutcomes | src/axiom/govern/receipts.py:206-212 | a known action id gives the row with that action id back, a taken row id is refused, both leaving everything as it was; any other call adds one row at the end and returns it |
| Receipts.StampExactly | src/axiom/govern/receipts.py:217-219 | the new row carries the clock when that is ahead of every row, and otherwise the date one microsecond after a row that is the latest |
| Verify.VerifyReceiptChain | src/axiom/govern/verify.py:31-71 | the verdict of the walk over the ordered table is the declarative one (what it takes to be verified is in `Verify.VerifiedExactlyWhenProven`): whichever comes first of the row asked for and a row that fails to link or to hash decides, with the last bad signature before it as the reason |
| Verify.WalkChain | src/axiom/govern/verify.py:38-71 | the loop itself, on any listing and any checks of single rows |
| Verify.VerifiedExactlyWhenAccepted | src/axiom/govern/verify.py:41-71 | for any checks of single rows, a receipt is reported verified if and only if it exists and every row up to it links and passes both checks |
| Verify.SignatureCheckExactly | src/axiom/govern/verify.py:14-28 | a signature passes if and only if the scheme is ed25519 and the text decodes to 64 bytes that the verifier accepts over this row's signed payload; otherwise the reason names the first of these that fails |
| Verify.VerifiedExactlyWhenProven | src/axiom/govern/verify.py:31-71 | under the real checks a receipt is reported verified if and only if every row up to it names its predecessor's hash, carries the digest of its own hashed payload, has scheme ed25519 and 64 decoded bytes that the verifier accepts over its signed payload |
| Verify.TamperedNeverVerifies | src/axiom/govern/verify.py:26-53 | with signatures that cannot be forged, a row changed after signing in any column but the stored hash, whatever that was recomputed to, keeps every receipt from there on from being reported verified |
| Verify.VerdictUnique | src/axiom/govern/verify.py:41-71 | the declarative verdict leaves no choice: two verdicts that meet it are equal |
| Verify.VerdictStands | src/axiom/govern/verify.py:41-71 | a verdict on a row, or on a break before it, is the same after any rows are added at the end of the listing |
| Verify.SameHashSamePrefix | src/axiom/govern/verify.py:41-62 | if equal hashes mean equal rows, two listings that check up to rows with one hash have equally long, equal prefixes |
| Verify.CollisionFreeHashPins | src/axiom/govern/receipts.py:181-187 | with a collision-free digest, two rows that pass the hash check and carry one hash are equal in every field |
| Verify.HeadHashPinsHistory | src/axiom/govern/verify.py:31-71 | two stored ledgers that both verify up to receipts with one hash hold the same history up to there, field by field |
| LedgerRuns.AppendKeepsWellFormed | src/axiom/govern/receipts.py:190-262 | each call keeps unique keys, strictly increasing dates, a chain that checks, and a registry that summarises the receipts |
| LedgerRuns.RunIsWellFormed | src/axiom/govern/receipts.py:190-262 | so does every run of calls, whatever the clock says |
| LedgerRuns.ListingIsInsertionOrder | src/axiom/govern/receipts.py:217-219 | under any clock, one that goes backwards included, listing by date and id is insertion order |
| LedgerRuns.EveryReceiptVerifies | src/axiom/govern/verify.py:36-71 | in every reachable ledger every receipt verifies, and any other id is reported missing |
| LedgerRuns.AppendKeepsVerdict | src/axiom/govern/verify.py:36-71 | one append, on any table, tampered ones included, changes no verdict already given on an existing receipt |
| LedgerRuns.LaterCallsKeepVerdict | src/axiom/govern/verify.py:36-71 | nor does any number of further calls |
| LedgerRuns.RegistryIsView | src/axiom/govern/receipts.py:244-253 | in every reachable state the registry matches the observations that the receipts amount to |
| LedgerRuns.RegistryRowsFromReceipts | src/axiom/govern/receipts.py:244-253 | in every reachable state an agent has a registry row if and only if it has receipts; the row's first and last dates, last intent and last action id are those of its first and last receipt, its counts those of the receipts with each decision, its flag the conjunction of theirs |
| LedgerRuns.BackfillReproducesRegistry | src/axiom/govern/agent_registry.py:82-99 | whatever table a backfill of the ordered receipts can leave is the registry that was kept all along |
| Receipts.AppendedRow | src/axiom/govern/receipts.py:206-243 | a row is appended exactly when the table holds neither the action id nor the row id, and carries the fields it was given |
| LedgerRuns.RepeatsChangeNothingExactly | src/axiom/govern/receipts.py:206-212 | repeated action ids leave the ledger of their first occurrences alone if and only if no repeat finds a table that holds neither its action id nor its row id |
| LedgerRuns.RefusedThenRepeated | src/axiom/govern/receipts.py:206-212 | the run where it fails: a call refused for a taken row id, then the same action id under another row id |
| LedgerRuns.FreshIdsMakeRepeatsHarmless | src/axiom/govern/receipts.py:206-212 | with row ids that name one action each, repeats are always harmless |
| AgentRegistry.RegistryTable.UpsertAgentObservation | src/axiom/govern/agent_registry.py:42-79 | one observation updates counts, dates, last intent and action, and demo flag of its normalised agent |
| AgentRegistry.UpsertKeepsMatch | src/axiom/govern/agent_registry.py:42-79 | a table that summarises a list of observations still does after one more, on both sides |
| AgentRegistry.SummaryUnique | src/axiom/govern/agent_registry.py:65-77 | totals, per-decision counts, first and last date, last intent and action, type and demo flag of an agent are determined by its observations |
| AgentRegistry.MatchUnique | src/axiom/govern/agent_registry.py:42-79 | the observations determine the whole table |
| AgentRegistry.RecomputedMatches | src/axiom/govern/agent_registry.py:82-99 | recomputing from nothing gives a table that summarises the list |
| AgentRegistry.RegistryTable.Backfill | src/axiom/govern/agent_registry.py:82-99 | fills an empty table with the summary of the receipts in order and counts them; leaves any other table alone |
| AgentRegistry.StripExactly | src/axiom/govern/agent_registry.py:53-54 | stripping takes away the blanks around a text and nothing in it |
| AgentRegistry.StripSplits | src/axiom/govern/agent_registry.py:53-54 | every text is blanks, its stripped part, and blanks |
| AgentRegistry.NormalAgentExactly | src/axiom/govern/agent_registry.py:53-53 | an agent is filed under its stripped name, and under external_mcp_client when nothing is left of it |
| AgentRegistry.NormalDecisionExactly | src/axiom/govern/agent_registry.py:54-54 | a decision is read stripped and with its capitals made small |
| AgentRegistry.AgentTypeExactly | src/axiom/govern/agent_registry.py:16-17 | the organizer alone is internal |
| EditDistance.Levenshtein | src/axiom/api/search.py:46-66 | the two-row loop returns the length of a shortest script of insertions, deletions and replacements from a to b |
| EditDistance.ScriptsAreNotShorter | src/axiom/api/search.py:46-66 | no edit script is shorter than the table's value, wherever its edits are |
| EditDistance.ScriptExists | src/axiom/api/search.py:46-66 | a script of that length exists |
| EditDistance.ZeroOnlyWhenEqual | src/axiom/api/search.py:46-66 | the distance is zero exactly for equal strings |
| EditDistance.Symmetric | src/axiom/api/search.py:46-66 | the distance is symmetric |
| EditDistance.DistTriangle | src/axiom/api/search.py:46-66 | the table obeys the triangle inequality |
| EditDistance.DistIsShortest | src/axiom/api/search.py:46-66 | the value of the table is the length of a shortest script |
| EditDistance.Triangle | src/axiom/api/search.py:46-66 | whatever lengths of shortest scripts are returned for three strings, they obey the triangle inequality |
| EditDistance.BetweenLengthDifferenceAndLongerLength | src/axiom/api/search.py:46-66 | the distance lies between the difference of the lengths and the longer length |
| Broadcaster.EventBroadcaster.Publish | src/axiom/ingest/broadcaster.py:24-39 | buffers the envelope under the next number with its kind, persisted id and payload as given, and appends exactly that event to every subscribed queue with fewer than 2000 |
| Broadcaster.PublishDelivers | src/axiom/ingest/broadcaster.py:24-39 | what one publish leaves, column by column: the next number, the last 999 buffered events and then the event, each fed queue with room longer by it, every other queue as it was and fed no more |
| Broadcaster.EventBroadcaster.Feed | src/axiom/ingest/broadcaster.py:33-37 | each subscribed queue with fewer than 2000 events gets the event; the full ones are unsubscribed and keep what they have |
| Broadcaster.EventBroadcaster.Replay | src/axiom/ingest/broadcaster.py:42-44 | hands out exactly the buffered events after `since`, in order |
| Broadcaster.EventBroadcaster.Register | src/axiom/ingest/broadcaster.py:46-47 | opens a fresh empty queue that is fed from now on |
| Broadcaster.EventBroadcaster.Get | src/axiom/ingest/broadcaster.py:49-50 | takes the oldest event of one queue and touches no other |
| Broadcaster.EventBroadcaster.Unsubscribe | src/axiom/ingest/broadcaster.py:51-52 | ends one subscription and touches no other |
| Broadcaster.PublishKeepsConsistent | src/axiom/ingest/broadcaster.py:24-39 | number and buffer stay those of a log that grows by the numbered event |
| Broadcaster.AfterIsSlice | src/axiom/ingest/broadcaster.py:42-44 | the events after `since` in a stretch of the log are a stretch of the log |
| BrainStore.EventStore.ApplyEvent | frontend/src/state/brain.store.ts:200-317 | the step-by-step update is the specified one, which the rows from `BrainEffects` describe for each kind of event |
| BrainStore.MergedAndOpenKeeps | frontend/src/state/brain.store.ts:304-310 | acknowledging or resolving duplicates and invents no alert and keeps open ones only; which ones, and as what, is in `BrainEffects.AlertUpdated` |
| BrainStore.EffectKeepsBounded | frontend/src/state/brain.store.ts:261-302 | every event keeps the lists within 25, 30, 10 and 25 items and lists no action and no alert twice |
| BrainStore.FoldIsBounded | frontend/src/state/brain.store.ts:200-317 | so does every sequence of events |
| BrainEffects.OthersChangeNothing | frontend/src/state/brain.store.ts:202-203 | an event at or below the last number changes nothing, and one of another kind the number alone |
| BrainEffects.EntityStored | frontend/src/state/brain.store.ts:205-214 | a new entity is stored under its persisted id: the payload without its nick, and the id unless the payload has one |
| BrainEffects.EdgeStored | frontend/src/state/brain.store.ts:216-235 | a new edge is stored under its persisted id with exactly six fields, each from the payload or its stated default, when both ends are text |
| BrainEffects.EntityClassifiedExactly | frontend/src/state/brain.store.ts:237-249 | a classification gives the stored entity it names its cluster and changes no other field and no other entity |
| BrainEffects.UnnamedClassifiesNothing | frontend/src/state/brain.store.ts:239-241 | one that names no entity changes nothing |
| BrainEffects.HealthStored | frontend/src/state/brain.store.ts:251-259 | the health of a cluster is the payload that named it, and no other cluster changes |
| BrainEffects.ActionListed | frontend/src/state/brain.store.ts:261-267 | an action comes first, the one it replaces goes, and the others follow in their old order, up to 25 |
| BrainEffects.ReceiptListed | frontend/src/state/brain.store.ts:269-274 | a receipt comes first and the others follow in their old order, up to 30 |
| BrainEffects.InsightListed | frontend/src/state/brain.store.ts:276-281 | an insight comes first and the others follow in their old order, up to 10 |
| BrainEffects.AlertRaised | frontend/src/state/brain.store.ts:283-302 | so does an alert, up to 25, and the insight made of its eight fields, up to 10, each replacing the one with its id |
| BrainEffects.AlertUpdated | frontend/src/state/brain.store.ts:304-312 | acknowledging and resolving overlay the named alert with the payload and keep, in their old order, exactly the items that are open then; resolving drops the insight |
| BrainEffects.ClosedAlertLeaves | frontend/src/state/brain.store.ts:304-310 | a payload whose status is not open takes its alert off the list, and every other open alert stays, unchanged and in order |
| BrainSocket.BackoffDoublesUpToLimit | frontend/src/lib/websocket.ts:110-115 | the n-th delay in a row is the smaller of 1000 ms doubled n times and 16000 ms |
| BrainSocket.Socket.Start | frontend/src/lib/websocket.ts:79-86 | connects with the last number seen, or does nothing once closed |
| BrainSocket.Socket.SetLastSeq | frontend/src/lib/websocket.ts:75-77 | the last number seen never goes down |
| BrainSocket.Socket.OnMessage | frontend/src/lib/websocket.ts:95-104 | notes the number, reports the socket live, applies the event to the store, and never gets ahead of the store |
| BrainSocket.Socket.OnOpen | frontend/src/lib/websocket.ts:88-93 | resets the delay and reports the socket live |
| BrainSocket.Socket.OnClose | frontend/src/lib/websocket.ts:110-116 | reports offline and schedules a retry after the delay due, unless the socket was closed for good |
| EventStream.BufferHoldsLatest | src/axiom/ingest/broadcaster.py:16-31 | in every interleaving the buffer is exactly the last 1000 events, or all of them, and the log is numbered from one |
| EventStream.LogIsPublished | src/axiom/ingest/broadcaster.py:24-31 | in every interleaving the log is the list of published envelopes in order, each with its own kind, persisted id and payload, under numbers from one |
| EventStream.PublishedArrivesUnchanged | src/axiom/ingest/broadcaster.py:24-50 | in every interleaving, what a socket has in flight or the store took is, but for its number, what was published under that number |
| EventStream.QueuesAreRead | src/axiom/ingest/broadcaster.py:46-52 | in every interleaving each queue the broadcaster holds is read by a live subscription, so ended ones leave none behind |
| EventStream.SubscriptionContent | src/axiom/ingest/broadcaster.py:41-52 | in every interleaving, delivered plus queued events of a live subscription are the buffered ones after `since` at the snapshot, then the contiguous run published from the registration on, strictly increasing: up to now while it is fed, and otherwise cut short before the first event it missed with at least 2000 received |
| EventStream.FedUntilOverflow | src/axiom/ingest/broadcaster.py:33-37 | a live subscription stops being fed exactly at a publish that finds 2000 events waiting in its queue |
| EventStream.EmptyReplayMissesNothing | src/axiom/ingest/broadcaster.py:42-47 | a subscription with nothing to replay is registered at its snapshot |
| EventStream.GaplessExactly | src/axiom/ingest/broadcaster.py:41-50 | in every interleaving that stream has no gap after `since` if and only if the snapshot was inside the 1000-event window and no event fell between snapshot and registration, or none published later has reached it |
| EventStream.StoreTakesInOrder | frontend/src/state/brain.store.ts:200-203 | whatever is cut, lost or delivered twice on any number of sockets, the store is the fold of what it took: events of the log, in order, each at most once |
| EventStream.EndToEndExactlyOnce | frontend/src/components/Brain.tsx:286-305 | if nothing is published while a replay is handed out and every snapshot is covered, the store is the fold of events 1 to lastSeq, each applied once and the i-th with the kind, persisted id and payload of the i-th published envelope, for every interleaving of publishes, cuts and reconnects on any number of sockets |
| EventStream.DrainedSocketHasCaughtUp | frontend/src/app-shell/WsStatusBridge.tsx:13-26 | in such a run, once a fed socket has drained queue and wire, the store holds the whole log |
| EventStream.PublishInWindowIsLost | src/axiom/ingest/broadcaster.py:42-47 | after every run that leaves a caught-up socket at the end of its replay, an event published before the queue is registered is skipped once a later one arrives |
| EventStream.TenStepsLoseAnEvent | src/axiom/ingest/broadcaster.py:42-47 | a run of ten steps from the start that loses event 2 |
| EventStream.SkippedForGood | frontend/src/state/brain.store.ts:202-202 | what the store has skipped in any run it never takes, whatever happens next |
| EventStream.UncoveredSnapshotLoses | src/axiom/ingest/broadcaster.py:42-44 | after every run, a snapshot that is not covered loses the events the buffer has dropped as soon as its first event arrives |
| EventStream.Reconnect | frontend/src/lib/websocket.ts:79-86 | starting a socket is the protocol's connect step |
| EventStream.Deliver | frontend/src/lib/websocket.ts:95-104 | a message at a socket is the protocol's receive step, on socket and store |
| EventStream.Disconnect | frontend/src/lib/websocket.ts:110-116 | a close at a socket is the protocol's cut |
| Passports.NormalizedScopeAllowsTheSame | src/axiom/govern/passports.py:68-70 | normalising a scope changes its listing, not what it allows |
| Passports.NormalizedScopesCheckTheSame | src/axiom/govern/passports.py:372-384 | the scope check answers on the normalised scopes as it would on the ones asked for |
| PassportRules.NormalizeScopeExactly | src/axiom/govern/passports.py:68-70 | a stored scope is the wildcard alone where it was asked for, and otherwise the stripped items asked for, each once, in increasing order |
| PassportRules.IssuedScopeExactly | src/axiom/govern/passports.py:372-384 | an issued passport allows a cluster, an intent and a skill exactly as they were asked for, wildcards and an unnamed skill included |
| PassportRules.NewPassportExactly | src/axiom/govern/passports.py:166-186 | every column of a new passport: keys and class as given, stripped names, valid at once and for the hours asked for, neither switched off nor revoked, and sealed |
| PassportRules.IssueExactly | src/axiom/govern/passports.py:163-202 | a known class, a positive time and new keys store passport and credential and clear the cache; anything else changes nothing |
| PassportRules.SystemPassportExactly | src/axiom/govern/passports.py:229-248 | the system passport has the wildcard in every scope for 365 days, and is issued only where it is missing |
| PassportRules.RevokedRowExactly | src/axiom/govern/passports.py:309-313 | a revocation dates and explains itself, re-signs, and changes no other column |
| PassportRules.ToggledRowExactly | src/axiom/govern/passports.py:329-331 | throwing the switch sets it as asked, re-signs, and changes no other column |
| PassportRules.ValidateExactly | src/axiom/govern/passports.py:251-264 | a row is accepted if and only if none of the six things is wrong with it, and refused for the first that is |
| PassportRules.LookupExactly | src/axiom/govern/passports.py:267-287 | a token is accepted if and only if it is not barred, is known, has its passport, and nothing is wrong with that; else the first of these is the error |
| PassportRules.VerifyEffects | src/axiom/govern/passports.py:276-297 | an acceptance that reads the row counts the presentation and caches the row for a minute; every other answer changes nothing |
| Passports.SignedIsOk | src/axiom/govern/passports.py:93-115 | a signature verifies over the row it was made for, once stored in the row |
| Passports.RunKeepsInvariants | src/axiom/govern/passports.py:151-336 | in every run of calls every stored passport carries a valid signature, every credential names a stored passport, and every cached row is the stored row |
| Passports.CachedVerifyIsLookup | src/axiom/govern/passports.py:267-297 | with atomic calls the answer is always that of the lookup without a cache, errors included |
| Passports.AcceptedExactlyWhenListedActive | src/axiom/govern/passports.py:339-360 | a credential is accepted if and only if its passport is listed as active at the same instant, the system token in production excepted |
| Passports.RevocationIsPermanent | src/axiom/govern/passports.py:300-317 | no sequence of calls undoes a revocation |
| Passports.RevokedIsNeverAccepted | src/axiom/govern/passports.py:261-262 | after a revocation no sequence of calls gets the passport accepted |
| PassportRules.SwitchedOffIsNeverAccepted | src/axiom/govern/passports.py:263-264 | once a passport is switched off, no sequence of calls without the one that switches it on again gets it accepted |
| PassportRules.SwitchedOnIsAcceptedExactly | src/axiom/govern/passports.py:320-336 | switched on again, its credential is accepted if and only if the passport is unrevoked, unexpired and valid by then |
| Passports.PassportService.IssuePassport | src/axiom/govern/passports.py:151-202 | stores a signed passport and its credential and clears the cache, or refuses a bad class, a bad lifetime or a taken key and changes nothing |
| Passports.PassportService.EnsureSystem | src/axiom/govern/passports.py:229-248 | issues the system passport once |
| Passports.PassportService.VerifyPassport | src/axiom/govern/passports.py:267-297 | answers from a live cache entry or from the database, counts the presentation and fills the cache in the second case only |
| Passports.PassportService.RevokePassport | src/axiom/govern/passports.py:300-317 | dates, explains and re-signs the stored row and clears the cache; an unknown id changes nothing |
| Passports.PassportService.SetKillSwitch | src/axiom/govern/passports.py:320-336 | replaces the stored row by the toggled one (`PassportRules.ToggledRowExactly`) and clears the cache; an unknown id changes nothing |
| PassportCache.StalenessIsBounded | src/axiom/govern/passports.py:276-297 | with reading and storing as separate steps, no call that starts 60 s or more after a change of a passport was committed is accepted on an older row, in any interleaving |
| PassportRevocation.CommitBoundsStaleness | src/axiom/govern/passports.py:300-336 | once a revocation or a switch is committed, whatever runs before and after, a call that starts 60 s or more later is accepted on that row version or a newer one only |
| PassportRevocation.RevocationTakesEffect | src/axiom/govern/passports.py:300-317 | once a revocation is committed, no call that starts 60 s or more later is accepted on any row, ever |
| PassportRevocation.SwitchTakesEffect | src/axiom/govern/passports.py:320-336 | once a passport is switched off and until it is switched on again, no call that starts 60 s or more later is accepted on any row |
| PassportProtocol.UninterruptedCallIsVerify | src/axiom/govern/passports.py:267-297 | the steps of the interleaved protocol, run one right after the other, give the answer and the cache of the service's call |
| PassportProtocol.UninterruptedChange | src/axiom/govern/passports.py:300-336 | a commit followed at once by the clearing is the service's revocation or switch |
| PassportProtocol.UninterruptedIssue | src/axiom/govern/passports.py:187-201 | so is an issue |
| PassportCache.RunKeepsInv | src/axiom/govern/passports.py:276-297 | every cache entry, call and acceptance rests on committed row versions that were current when they were read, the one validated and the one read again before it is cached |
| PassportCache.CommitsInOrder | src/axiom/govern/passports.py:313-313 | versions of a row are committed in the order of time |
| PassportRevocation.ClearLeavesNoneOlder | src/axiom/govern/passports.py:118-119 | clearing the cache leaves no older row once no unfinished call holds one |
| PassportRevocation.NoneOlderStays | src/axiom/govern/passports.py:296-316 | from then on every acceptance of the passport rests on that version or a newer one, so staleness ends at once and not after 60 s |
| Ulid.NewUlid | src/axiom/govern/passports.py:32-39 | the 26-step loop of masks and shifts gives the base-32 digits of time and random bits, most significant first |
| Ulid.DecodeEncode | src/axiom/govern/passports.py:33-39 | decoding gives the value back, up to what does not fit into the characters |
| Ulid.RoundTrip | src/axiom/govern/passports.py:33-39 | every value below 2 to the power 130 survives the round trip |
| Ulid.EncodeDecode | src/axiom/govern/passports.py:33-39 | every string over the alphabet is the encoding of what it decodes to |
| Ulid.OrderIsNumeric | src/axiom/govern/passports.py:33-39 | string order of identifiers is numeric order of their values |
| Ulid.LaterIsLarger | src/axiom/govern/passports.py:34-34 | a later millisecond gives a larger identifier, whatever the random bits are |
| Ulid.Layout | src/axiom/govern/passports.py:34-39 | an identifier is ten characters of timestamp followed by sixteen of randomness |
| Approvals.KeyNames | src/axiom/govern/approvals.py:207-207 | the action id of a resolution receipt determines the request |
| Approvals.SameKeySameRequest | src/axiom/govern/approvals.py:207-207 | two resolution receipts with one action id are for one request and one decision |
| Approvals.ResolutionIsFinal | src/axiom/govern/approvals.py:172-194 | a request leaves pending at most once: once resolved it never changes again, and before that nothing but its resolution can |
| Approvals.EveryRunKeepsInv | src/axiom/govern/approvals.py:122-222 | in every interleaving a denied or expired request has its receipt, or its call is still running, or the call died; and no receipt lacks its request |
| Approvals.ReceiptExactlyWhenResolved | src/axiom/govern/approvals.py:122-161 | when no call is in flight a request has a denial receipt if and only if it was denied, and an expiry receipt if and only if it expired, unless the call died between its two transactions; approved and pending requests have neither |
| Approvals.ReceiptNamesOneRequest | src/axiom/govern/approvals.py:197-222 | each resolution receipt belongs to one request that was resolved that way, carries its agent, intent, target, policy, passport, guidance and reason, and is the only one of that request |
| Approvals.LedgerStaysWellFormed | src/axiom/govern/approvals.py:197-222 | however requests are resolved, the ledger stays one whose every receipt verifies |
| Approvals.NothingLostWithoutDeath | src/axiom/govern/approvals.py:130-131 | a receipt is missing only where a call died |
| Approvals.LostForGood | src/axiom/govern/approvals.py:130-131 | a request whose call died never gets a resolution receipt, whatever happens next and whatever is in flight |
| Approvals.DyingCallLosesReceipt | src/axiom/govern/approvals.py:130-131 | such a run: created, denied, and the call dead before its receipt |
| Approvals.ApprovalDesk.PayAll | src/axiom/govern/approvals.py:159-160 | appends one receipt after the other for the requests that have just expired |
| Approvals.ApprovalDesk.ResolveRequest | src/axiom/govern/approvals.py:172-194 | resolves a pending request, or reports a missing user, an unknown id or a request already resolved and changes nothing |
| Approvals.ApprovalDesk.ApproveRequest | src/axiom/govern/approvals.py:108-119 | is the protocol's approval step |
| Approvals.ApprovalDesk.DenyRequest | src/axiom/govern/approvals.py:122-134 | is the denial step followed by the payment of its receipt |
| Approvals.ApprovalDesk.MarkExpired | src/axiom/govern/approvals.py:140-158 | expires exactly the overdue pending requests |
| Approvals.ApprovalDesk.ExpireOldRequests | src/axiom/govern/approvals.py:137-161 | is the expiry step followed by one receipt for each request it expired |
| Approvals.ApprovalDesk.ChainResolutionReceipt | src/axiom/govern/approvals.py:197-222 | appends the receipt of one resolution |
| ApprovalRules.ResolvingExactly | src/axiom/govern/approvals.py:172-194 | a named user resolves a pending request, setting its status, time, resolver and note and no other column; every other call leaves everything as it was |
| ApprovalRules.ExpiringExactly | src/axiom/govern/approvals.py:140-158 | the requests that are pending when their time is up expire, with that time and a fixed note, and no other request changes |
| ApprovalRules.ListsExactly | src/axiom/govern/approvals.py:141-148 | the list the expiry works on is of exactly those requests, each once |
| ApprovalRules.ExpiryOwesExactly | src/axiom/govern/approvals.py:159-160 | each of them, and nothing else, gets one receipt to append |
| ApprovalRules.ResolutionReceiptExactly | src/axiom/govern/approvals.py:197-222 | every field of a resolution receipt |
| ApprovalRules.DeniedIsRecorded | src/axiom/govern/approvals.py:122-134 | a denial that nothing interrupts adds one receipt to the ledger, with the request's own columns and the note, or a fixed text, as its reason |
| Watchdog.EveryRunKeepsOne | src/axiom/govern/watchdog.py:108-157 | at most one open or acknowledged alert exists for an entity and a rule, after any mix of detections, acknowledgements, resolutions and changes, for arbitrary rules |
| Watchdog.DetectionCovers | src/axiom/govern/watchdog.py:121-157 | a detection only adds open alerts of its entity, and leaves every finding with an active alert |
| Watchdog.NothingCreatedExactly | src/axiom/govern/watchdog.py:133-148 | a detection creates nothing if and only if the entity is gone, a rule fails, or every finding already has its active alert |
| Watchdog.RunActivates | src/axiom/govern/watchdog.py:133-148 | after any detections and acknowledgements with rules that do not read alerts, exactly those findings are active that were before or that a detection which went through has made since |
| Watchdog.LaterDetectionCreatesNothingExactly | src/axiom/govern/watchdog.py:121-157 | after any such run, at any later time and with any rules that do not read alerts, a detection creates nothing if and only if its entity is gone, one of its rules fails, or everything it finds was active before or has been found since |
| Watchdog.SecondDetectionCreatesNothing | src/axiom/govern/watchdog.py:121-157 | in particular when the first detection went through and the second, whenever it comes, finds nothing new |
| Watchdog.AgingRuleFindsMoreLater | src/axiom/govern/watchdog.py:131-135 | with time passing it can: a rule that reads the clock and no alerts |
| Watchdog.AlertReadingRuleFindsMore | src/axiom/govern/watchdog.py:133-137 | and at one moment too: a rule that reads alerts and finds something new each time |
| Watchdog.AlertTable.DetectForEntity | src/axiom/govern/watchdog.py:121-157 | runs the rules in order, each seeing the alerts added before it, and stores what they raise, or nothing if one fails |
| Watchdog.AlertTable.AcknowledgeAlert | src/axiom/govern/watchdog.py:191-200 | acknowledges the alert if it is open and changes no other |
| Watchdog.AlertTable.ResolveAlert | src/axiom/govern/watchdog.py:203-223 | resolves the alert with its note and changes no other; an unknown id changes nothing |
| WatchdogRules.HasActiveExactly | src/axiom/govern/watchdog.py:108-118 | an entity and a rule are watched if and only if an open or acknowledged alert of both is listed |
| WatchdogRules.DetectionExactly | src/axiom/govern/watchdog.py:121-157 | a detection appends, in the order of its rules, alerts that each copy what their rule raised on the alerts before them, new, open and not yet watched, and nothing where the entity is gone |
| WatchdogRules.DetectionKeepsUniqueIds | src/axiom/govern/watchdog.py:140-150 | with new ids a detection keeps alert ids unique |
| WatchdogRules.AcknowledgedExactly | src/axiom/govern/watchdog.py:191-200 | acknowledging changes the status of an open alert with that id and nothing else |
| WatchdogRules.ResolvedExactly | src/axiom/govern/watchdog.py:203-223 | resolving sets status, time, author and the note in the evidence of the alerts with that id, and changes no other column and no other alert |
| WatchdogRules.ResolvingUnwatches | src/axiom/govern/watchdog.py:203-223 | resolving the active alert of an entity and a rule leaves that pair unwatched and every other pair as it was |
| WatchdogRules.ResolvedIsRaisedAgain | src/axiom/govern/watchdog.py:121-157 | so a later detection that still finds it raises it anew |
| Debounce.NoLostWakeUp | src/axiom/govern/watchdog.py:281-290 | in every interleaving of events with the loop, a handled entity is pending, or in the batch awaiting its turn, or has had a detection start after its last event; when the loop is idle it is the last |
| Debounce.TurnComes | src/axiom/govern/watchdog.py:284-290 | the entity at position i of the batch is detected within the loop's next i + 1 starts |
| Debounce.NoSpuriousDetection | src/axiom/govern/watchdog.py:281-290 | in every interleaving the loop starts at most one detection of an entity for each of its events |
| Pipeline.IngestPipeline.Run | src/axiom/ingest/pipeline.py:29-34 | handles the events in order and counts them |
| Pipeline.IngestPipeline.Handle | src/axiom/ingest/pipeline.py:36-110 | one event persists an entity and its nickname, or adds an edge between known nicknames, and publishes what it did |
| Pipeline.IngestPipeline.PersistEntity | src/axiom/ingest/pipeline.py:112-146 | overwrites the row with that source id in place and keeps its id, or appends a new row |
| Pipeline.IngestPipeline.AddEdge | src/axiom/storage/crud.py:178-208 | returns the edge with these ends and relationship, or adds it |
| Pipeline.UniquenessKeptExactly | src/axiom/ingest/pipeline.py:121-146 | an event keeps source ids unique if and only if it upserts or its source id is new |
| Pipeline.UpsertsRefineMap | src/axiom/ingest/pipeline.py:112-146 | upserting events act on the table as updating a map keyed by source id with the content of the last event for each |
| Pipeline.RerunChangesNothing | src/axiom/connectors/ingest.py:34-84 | rerunning a connector batch keeps every row, id, edge and nickname, adds nothing, and reports each entity as modified under the id it had |
| Pipeline.EveryRunKeepsEdgesJoin | src/axiom/ingest/pipeline.py:71-84 | every stored edge joins two stored entities, whatever the events are |
| Pipeline.ApplyToBrain | src/axiom/connectors/ingest.py:34-43 | applying a batch is one run of a fresh pipeline over its entities and then its edges, counted |
| Pipeline.BatchEventUpserts | src/axiom/connectors/ingest.py:59-76 | every entity event of a connector asks to be upserted by a source id that is not empty |
| IngestRules.UpsertsExactly | src/axiom/ingest/pipeline.py:45-45 | an event upserts if and only if its metadata asks for it with a true value and its source id is not empty |
| IngestRules.KnownEntityHandled | src/axiom/ingest/pipeline.py:38-72 | an upserting event with a row in place rewrites kind, data and cluster of the first such row, keeps its id and all other rows, names it, and reports a modification |
| IngestRules.NewEntityHandled | src/axiom/ingest/pipeline.py:38-72 | every other entity event appends one row with the new id, names it, and reports an addition |
| IngestRules.EdgeEventHandled | src/axiom/ingest/pipeline.py:74-98 | an edge event with an unknown end changes nothing; a known edge is reported again; any other is added between the named entities |
| IngestRules.BatchEntityExactly | src/axiom/connectors/ingest.py:59-76 | each entity of a batch becomes an event with its own kind, cluster and data, its source id or connector, and its nick or that source id |
| IngestRules.BatchEdgeExactly | src/axiom/connectors/ingest.py:77-84 | ... and each edge one with its own ends, relationship and data |
| EdgeCounts.ComputeInterClusterEdgeCounts | frontend/src/lib/cluster-force-layout.ts:82-103 | the map holds, for each pair key that occurs, the number of edges between two different allowed clusters with that key |
| EdgeCounts.ComputeInterHubEdges | frontend/src/lib/hex-layout.ts:134-155 | the loop over a map of pairs, and the final sort, give the specified links |
| EdgeCounts.HubLinksCorrect | frontend/src/lib/hex-layout.ts:134-155 | those links are the pairs that occur, each key once with its number of edges and its two clusters, heavier links first and ties by key |
| EdgeMeaning.CrossingExactly | frontend/src/lib/cluster-force-layout.ts:91-97 | an edge counts if and only if it joins two different allowed clusters, and its pair lists those two in order |
| EdgeMeaning.TalliesExactly | frontend/src/lib/cluster-force-layout.ts:82-103 | the map's keys are those that some edge has, each with the number of edges that have it |
| EdgeMeaning.HubLinksExactly | frontend/src/lib/hex-layout.ts:134-155 | the drawn links are exactly those keys, each once, with its two clusters in order and its number of edges, the heaviest first and ties in the locale's order |
| EdgeCounts.CountersAgree | frontend/src/lib/hex-layout.ts:134-155 | where no allowed cluster has the empty name, the links carry exactly the layout's counts |
| EdgeCounts.AgreeExactly | frontend/src/lib/hex-layout.ts:142-142 | the two counters agree on every graph if and only if the empty name is not an end of an allowed pair |
| EdgeCounts.HubWeightsSum | frontend/src/lib/hex-layout.ts:145-152 | the weights add up to the number of qualifying edges |
| EdgeCounts.EachPairOnce | frontend/src/lib/hex-layout.ts:144-152 | each unordered pair of clusters has one link at most, whatever the names |
| EdgeCounts.OwnLinksExactly | frontend/src/lib/hex-layout.ts:145-152 | on every graph each pair of clusters with an edge has a link of its own if and only if no two pairs of names have one key |
| EdgeCounts.OneLinkPerPair | frontend/src/lib/hex-layout.ts:134-155 | under that condition the links are exactly the pairs with an edge, each once, weighted by the number of their edges |
| EdgeCounts.KeyInjective | frontend/src/lib/cluster-force-layout.ts:78-80 | without colons in the names a key determines its pair |
| EdgeCounts.PlainNamesTell | frontend/src/lib/cluster-force-layout.ts:78-80 | names without a colon meet that condition |
| EdgeCounts.ColonsMerge | frontend/src/lib/cluster-force-layout.ts:78-80 | four names with colons that do not |
| EdgeCounts.EdgeOrderIrrelevant | frontend/src/lib/hex-layout.ts:154-154 | the sorted links do not depend on the order of the edges where the locale ranks keys of different pairs apart |
| EdgeCounts.EdgeOrderIrrelevantExactly | frontend/src/lib/hex-layout.ts:154-154 | on every graph the order of the edges does not matter if and only if the locale ranks keys of different pairs apart |
| ForceLayout.PullOdd | frontend/src/lib/cluster-force-layout.ts:199-229 | the force of one cluster on another is the negative of the force back |
| ForceMeaning.PullExactly | frontend/src/lib/cluster-force-layout.ts:202-228 | on each axis the force is the inverse square of the distance away from the other cluster, and linear in distance and weight towards it where they are linked |
| ForceMeaning.UnlinkedArePushedApart | frontend/src/lib/cluster-force-layout.ts:210-217 | without a link a cluster is pushed away on every axis on which the two differ |
| ForceMeaning.NetExactly | frontend/src/lib/cluster-force-layout.ts:194-231 | the net force is the sum of those of all other clusters, by displacement and link |
| ForceMeaning.StepExactly | frontend/src/lib/cluster-force-layout.ts:233-255 | one iteration on each axis: velocity from net force and gravity, damped, and position from that velocity |
| ForceMeaning.WeightExactly | frontend/src/lib/cluster-force-layout.ts:182-186 | the weight of a pair is the count under its key, smaller name first, at most 200, and zero without one |
| ForceLayout.AccumulateForces | frontend/src/lib/cluster-force-layout.ts:194-233 | the pair loops give each cluster the sum of the pulls of all others |
| ForceLayout.InternalForcesCancel | frontend/src/lib/cluster-force-layout.ts:194-233 | the accelerations of the pair loops sum to zero, whatever the edges |
| ForceLayout.WeightsAreSymmetric | frontend/src/lib/cluster-force-layout.ts:182-186 | weights ignore the order of a pair |
| ForceLayout.Simulate | frontend/src/lib/cluster-force-layout.ts:188-255 | the loops compute the iterated step of forces, gravity, damping and integration |
| ForceLayout.TotalsDrift | frontend/src/lib/cluster-force-layout.ts:190-255 | total position and velocity follow a recurrence of gravity, dt and damping alone |
| ForceLayout.LayoutDrifts | frontend/src/lib/cluster-force-layout.ts:182-255 | so they do under the weights of any counted edges |
| ForceLayout.NoGravityNoDrift | frontend/src/lib/cluster-force-layout.ts:235-255 | without gravity the centre of the clusters does not move |
| LayoutBounds.NormalizeToBounds | frontend/src/lib/cluster-force-layout.ts:105-139 | each point is shifted by the middle of the box around all points, scaled by the largest scale no axis forbids, and clamped on z |
| LayoutBounds.UniformInsideBounds | frontend/src/lib/cluster-force-layout.ts:123-137 | the scaling is uniform about the middle of the box, every point ends inside the bounds on all axes, and the clamp never changes anything |
| LayoutBounds.FitIsTight | frontend/src/lib/cluster-force-layout.ts:127-131 | on some axis the scaled half box is exactly the bound |
| LayoutBounds.SomeClusterTouches | frontend/src/lib/cluster-force-layout.ts:127-137 | where that axis is not degenerate, some cluster touches its bound |
| ForceMeaning.NormalizedExactly | frontend/src/lib/cluster-force-layout.ts:105-139 | every coordinate is taken from the middle between its least and greatest value and multiplied by one factor, under which half of each span fits its bound and at least one fills it |
| LayoutBounds.ComputeClusterForceCentroids | frontend/src/lib/cluster-force-layout.ts:152-258 | the centroids are the normalised positions of the simulation under the weights of the counted edges, and lie inside the bounds |
| LabelCollision.ResolveLabelCollisions | frontend/src/lib/cluster-label-collision.ts:15-40 | the triple loop carries out the pushes of all pairs in order, pass after pass |
| LabelCollision.PushPair | frontend/src/lib/cluster-label-collision.ts:20-35 | one overlapping pair is moved apart in place, and the recorded offsets with it |
| LabelCollision.PushSeparates | frontend/src/lib/cluster-label-collision.ts:23-35 | two overlapping labels move apart along the line through their centres, by twice the maximum in all |
| LabelOverlap.IntersectsExactly | frontend/src/lib/cluster-label-collision.ts:11-13 | two labels of positive size intersect if and only if some point lies inside both boxes |
| LabelOverlap.PushExactly | frontend/src/lib/cluster-label-collision.ts:22-35 | each label of an overlapping pair moves by the maximum along the line through the centres, in opposite directions, the offsets record it, and no other label moves |
| LabelOverlap.SettledStays | frontend/src/lib/cluster-label-collision.ts:22-22 | labels that do not overlap stay where they are, whatever the number of passes |
| LabelOverlap.StartsExactly | frontend/src/lib/cluster-label-collision.ts:16-16 | each label starts at its own place with its own offset, or none |
| LabelCollision.PassesConserve | frontend/src/lib/cluster-label-collision.ts:15-40 | for any labels and passes the sums of x and of y do not change, nor does any label's identity, size, or position minus offset |
| LabelCollision.PassesMove | frontend/src/lib/cluster-label-collision.ts:15-40 | no coordinate moves more than passes * (n - 1) pushes |

## Left out

- SQL, SQLite, Alembic, HTTP and WebSocket framing: tables are sequences and maps, a transaction is one step; foreign
  keys and column widths are not modelled.
- Floating point: the layout is proved over the reals, without rounding, NaN or infinities; an empty point set, which the
  source handles through infinities, gives an empty result.
- EventStream.LogIsPublished: an envelope's time and source id are not carried, since nothing modelled reads them.
- Unicode: stripping removes spaces, tabs and line breaks only, and lower-casing is ASCII.
- LabelCollision.PushSeparates: centres at distance zero are excluded; such a pair is not moved at all.
- LayoutBounds.UniformInsideBounds: bounds are taken to be non-negative; inside negative bounds there is no point to be.
- LayoutBounds.ComputeClusterForceCentroids: cluster ids are taken to be distinct, as the product's list is; the seeded
  start positions are a parameter, so the jitter generator is not modelled.
- EdgeCounts.ComputeInterHubEdges: the centroid keys are a set, which stands for whatever JavaScript's `in` answers,
  names inherited by every object included.
- Passports.AcceptedExactlyWhenListedActive: the listing is a set, so its order by creation date is not stated.
- PassportCache: presentation counts and signature laws play no part in staleness and are left to `Passports`, and so is
  the refusal of the system token in production.
- Pipeline.RerunChangesNothing: creation and update times, the full-text index and broadcasting itself are not part of
  the rows that are compared.
- BrainStore: bootstrap, selection, focus and the setters of other fields; only `applyEvent` is modelled. No claim is made
  that insights are unique, since flagged insights are not filtered.
- EventStream: server restarts, which set sequence numbers back to zero, and envelopes that cannot be serialised.
- Approvals.ApprovalDesk.DenyRequest: assumes a fresh receipt id, as new ids are; the same holds for expiring. Event
  callbacks, timeouts and listing by role are not modelled, and approving after the expiry date is possible here as there.
- Watchdog: the receipts and events that announce an alert, the individual rules, severity ranking and listing; unique
  alert ids are a precondition of acknowledging and resolving.
- Debounce: stopping the agent, which drops what is pending, and the loop that filters broadcast events.
- Search scoring and ranking, PageRank, satellite packing, connectors, policies, skills and the user interface.
