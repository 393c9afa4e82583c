# Salidium: verified models of the sync outbox, the hook relay and the rollout parser

Salidium records what coding agents do on a person's machine. This project models the parts of it
whose correctness is a matter of state and protocol, and proves what those parts promise. `dafny
verify dfyconfig.toml` checks every file.

## What is modelled

**The sync outbox.** A persistent log of operations for one destination per stream, in two lanes:
control carries consent and deletions, data carries items. The tables of a stream are the value
`OutboxModel.Stream`; every transaction is a function from tables to tables or to the reason it was
rolled back; the class `Outbox.SyncOutbox` performs the same transactions step by step on its fields,
loops included, and each method is proved equal to its transaction. `OutboxInvariant` states what
every transaction keeps, `OutboxGeneration` what a restart re-describes, `OutboxBatch` how batches
are cut, `OutboxListing` what is counted and listed, `Receiver` what a destination with fences
makes of the lanes, `OutboxRuns` whole runs. `OutboxGuarantees` holds the main theorems, each for
every reachable state; `OutboxEffects` and `OutboxCaptures` say of each call exactly when it is
accepted and what it changes, in terms of its input and the rows before it.

**The relay's quota protocol.** `RelayQuota` is a transition system for the shell script that every
provider hook starts: one action per file-system call, any number of senders, a crash or signal at any
step, external commands as processes of their own that may fail or outlive the shell that started
them, and the daemon's drain beside them. `RelaySafety` proves the invariants, `RelayWitness` builds,
for any limits, the runs that show which conditions they need, and `RelayReasons` says over runs why a
payload was removed, queued or left.

**The Codex rollout parser.** `RolloutModel` gives the meaning of record sequences for running
commands and exit codes, `RolloutSafety` proves what holds of it, `RolloutHistory` and `RolloutCells`
tell from the records alone which call an output is about, what text a run has and where an exit code
goes, `RolloutExits` says what every emitted exit code stands on, and the class
`RolloutParser.CodexRolloutParser` keeps shared mutable command objects under several handles and is
proved to follow the model.

**Canonical JSON and sealing.** `JsonText`, `JsonReader`, `KeyOrder` and `CanonicalJson` show that the
text form is JSON and canonical, working on UTF-16 code units; `SealedJson` that sealing and
verification agree, `SealedChecks` what validation accepts and returns, and `WireSchema` that the schema
of sync operations is one of those this holds of.

**Smaller cores.** `MapLink`, `MapRings` and `Revision` (joining changed files with a project map),
`HookMerge` and `RelayCommand` (hook settings and their recogniser), `PathMetadata` and `PathPlaces`
(bounded path capture), `UnifiedDiff` and `Semver`. `Wrappers`, `IntSets`, `Sorting` and `Decimals` hold what these share.

## What does not hold as written, and exactly when it does

The code as it stands is the relay policy in which all four of these may happen: a guard expires under
its live maker, the first listed file vanishes, a command outlives its killed sender, a marker write
fails. Each equivalence below is proved for all ordered limits, and none of the conditions can be
dropped.

- **The relay lock is not always exclusive, for two reasons.** The daemon removes a reaping guard by its
  age alone (packages/daemon/src/ingest/hookIngress.ts:508-548), so a reclaimer that only stalled can
  unlink a replacement lock (`RelayWitness.BothHold`). And killing a shell leaves the `rm` it started
  running, which can unlink the lock of whoever reclaimed the dead one's
  (`RelayWitness.OrphanUnlinks`). `RelayWitness.MutualExclusionIff`: exclusion holds if and only if
  neither can happen; `RelayWitness.ReclaimIff` says the same of reclaimers removing only dead locks.
- **The backlog can pass its absolute limit**, after either of these, with a `mv` that outlives its
  sender (`RelayWitness.OrphanOverfills`), and because `[ -e "$1" ] || shift $#` forgets the whole
  listing when the daemon claims its first name between the glob and the test, while the daemon drains
  in the order the glob lists (`RelayWitness.VanishingOverfills`). `RelayWitness.CapacityIff`: both
  capacity laws hold if and only if none of these can happen.
- **A payload can be dropped silently.** The script ignores that a marker could not be written and
  removes the payload all the same (`RelayWitness.DropsSilently`). `RelayWitness.NoSilentDropIff`: it
  never happens if and only if marker writes never fail.
- **`filesTotal` is not omitted plus listed files.** It is omitted plus carried files, and the listed
  ones are cut at 2000 (`MapLink.LinkExecution` states the equivalence).
- **The merge laws depend on the recogniser.** A merge supersedes an earlier one if and only if every
  hook of the earlier one is recognised (`HookMerge.SupersedesIff`); the generated hooks are
  (`RelayCommand.GeneratedIsRecognised`).
- **Version comparison is not antisymmetric on every text the parser accepts.** Two numeric identifiers
  that differ as text and read as the same double compare 1 both ways, as a leading zero does;
  `Semver.AntisymmetricIff` is exact.

## Assumptions

- Relay: process identifiers are not reused, and `kill -0` fails only for a process that is gone; one
  file-system call is atomic, and an identifier is written to the lock file whole or not at all; a run
  begins with a backlog within the absolute limit; the drain only renames ready files to processing and
  then removes them, and does the same to plain files left behind. The limits are parameters with
  shed-first < shed-second < pending < absolute.
- Identifiers drawn at random are fresh. The digest is symbolic in the outbox, an arbitrary function in
  `SealedJson`, and only `SealedJson.DigestsIff` asks that it tell two given texts apart.
- Identifiers are numbers, ordered as the tables enumerate them, and instants are
  milliseconds in the range the fixed-width timestamp text can spell.
- `RolloutHistory.NothingLost` is about a call identifier made once, and asks that no handle of a running
  call is given to another.
- Version numbers are read through a rounding function that is exact below 2^53.

## Model

| member | source | states |
|---|---|---|
| OutboxGuarantees.ReachableInv | packages/sync/src/sqliteSyncOutbox.ts:150-160 | Every stream reached by any sequence of calls, failed ones included, satisfies the whole-table invariant `OutboxInvariant.Inv` |
| OutboxGuarantees.LanesConverge | packages/sync-contract/src/wire.ts:85-107 | In every reachable state, every merge of the two lanes that keeps each in order leaves a receiver that started empty with exactly the live items, each at its newest revision |
| OutboxGuarantees.DeliveriesConverge | packages/sync/src/sqliteSyncOutbox.ts:441-492 | Convergence needs no order: any deliveries of the stored operations, repeated or not, that leave none out end with exactly the live items |
| OutboxGuarantees.LeftOutPutsConverge | packages/sync/src/sqliteSyncOutbox.ts:713-738 | When any puts are left out, as the refused ones that are stepped over, a receiver of the control lane holds exactly the live items of which a put was delivered, at the newest revision delivered, and nothing tombstoned |
| OutboxGuarantees.DeletionsBind | packages/sync-contract/src/wire.ts:73-107 | From any part of the lanes delivered in any order: a deleted item is not held, and what is held of a deleted scope was produced after the deletion |
| OutboxGuarantees.RestartConverges | packages/sync/src/sqliteSyncOutbox.ts:508-597 | A fresh receiver of a restarted generation, given its operations in any order, ends with the live items of the old tables, one item fence per tombstone at its revision, no other fence |
| OutboxGuarantees.RestartSucceeds | packages/sync/src/sqliteSyncOutbox.ts:508-597 | In every reachable state a restart succeeds, and the new lanes hold one operation per stored consent revision in revision order, one put per live item at its newest revision and one delete per tombstone, nothing else |
| OutboxGuarantees.ItemsArePartitioned | packages/sync/src/sqliteSyncOutbox.ts:994-1036 | Item revisions are dense from 1; a known item is either live at its highest revision and there only, or tombstoned through its highest revision, never both and never neither |
| OutboxGuarantees.TombstonesStay | packages/sync/src/sqliteSyncOutbox.ts:373-414 | Whatever calls follow, a tombstoned item keeps its tombstone at the same revision and is never live again |
| OutboxGuarantees.LiveItemsHaveConsent | packages/sync/src/sqliteSyncOutbox.ts:842-854 | No live item cites a grant whose newest revision is revoked, and the revision it cites is stored and permits it |
| OutboxGuarantees.GrantRevisionsAgree | packages/sync/src/sqliteSyncOutbox.ts:223-261 | Grant revisions are dense from 1 and share one scope, purpose and destination |
| OutboxGuarantees.SettledBelowCursor | packages/sync/src/sqliteSyncOutbox.ts:665-741 | Each cursor lies in [-1, next-1]; every position at or below it is acknowledged or, on the data lane only, recorded as refused |
| OutboxGuarantees.LanesAreChains | packages/sync/src/sqliteSyncOutbox.ts:1038-1092 | Positions of a lane are exactly 0 to next-1; each operation is sealed, stands at its position in the current generation and names its predecessor |
| OutboxGuarantees.AcknowledgementsApplyIff | packages/sync/src/sqliteSyncOutbox.ts:665-741 | Exactly which acknowledgements are applied, clause by clause; one for another generation never is, and the local history-gap error can never occur |
| OutboxGuarantees.CursorsNeverRetreat | packages/sync/src/sqliteSyncOutbox.ts:690-711 | Within a generation no call moves a cursor back or past the end of its lane |
| OutboxEffects.DeletesItem | packages/sync/src/sqliteSyncOutbox.ts:373-414 | Deleting a live item succeeds exactly for an instant the wire can spell; then it is not live, its tombstone stands at the revision that was live with the reason and instant given, the control lane ends with one deletion of exactly that item, revision, consent and scope, and every other record, tombstone, grant and data row is as it was |
| OutboxEffects.DeletesNothing | packages/sync/src/sqliteSyncOutbox.ts:373-382 | Deleting an item that is not live succeeds and changes nothing |
| OutboxEffects.DeletesScope | packages/sync/src/sqliteSyncOutbox.ts:420-492 | Deleting the scope of a stored grant succeeds exactly for a spellable instant; nothing is live in the scope afterwards, each item that was has a tombstone at its live revision, the control lane ends with one scope deletion through the last put, and nothing else changes |
| OutboxEffects.RevokesConsent | packages/sync/src/sqliteSyncOutbox.ts:263-280 | Revoking an active grant succeeds exactly for a spellable instant not before its issue; one revision more is stored, revoked then and otherwise the same, the scope is emptied as above, and control ends with the revocation and the scope deletion; revoking again changes nothing |
| OutboxEffects.UnknownGrantsFail | packages/sync/src/sqliteSyncOutbox.ts:263-267 | Neither a scope nor a consent is withdrawn through a grant that was never stored |
| OutboxEffects.GrantsIff | packages/sync/src/sqliteSyncOutbox.ts:223-261 | Exactly which grants are accepted, clause by clause and against the newest stored revision; an accepted one is stored under its revision and enqueued as it is, and nothing else changes |
| OutboxEffects.ReceiptsIff | packages/sync/src/sqliteSyncOutbox.ts:743-805 | Exactly which deletion receipts are accepted, in terms of the control rows; an accepted one is filed once and completes exactly the tombstone of its item with its identifier and instant |
| OutboxEffects.AcknowledgementMarks | packages/sync/src/sqliteSyncOutbox.ts:690-738 | Row by row what an applied acknowledgement writes: its instant in newly accepted rows, its refusal in the row refused, nothing in any other row, lane or table |
| OutboxEffects.RestartRows | packages/sync/src/sqliteSyncOutbox.ts:511-597 | What a restart leaves, row by row: the next generation of the same tables with nothing acknowledged; in control one row for each stored grant revision (its revocation if it is revoked), then one for each tombstone under its consent and scope with its revision, reason and instant; in data one put for each live item; no other row and none twice |
| OutboxCaptures.CapturesIff | packages/sync/src/sqliteSyncOutbox.ts:282-330 | Exactly which captures are accepted: the revision cited is the newest of its grant, active and in effect, allows the sensitivity and retention asked for, and the input is well formed field by field |
| OutboxCaptures.CapturesAreAuthorised | packages/sync/src/sqliteSyncOutbox.ts:282-330 | What a capture stores: a new item at revision 1 with the sensitivity, evidence, text, retention and instants of the input, the scope, consent and policies of the newest grant revision, which permits it, and no links; one put at the end of the data lane, nothing else changed |
| OutboxCaptures.RevisesIff | packages/sync/src/sqliteSyncOutbox.ts:332-371 | Exactly which revisions of a live decision are accepted, in the same terms, with room for one more link |
| OutboxCaptures.RevisionsAreAuthorised | packages/sync/src/sqliteSyncOutbox.ts:332-371 | What a revision stores: the next revision with everything of the input, the consent and scope the item always had, the old links and one to the revision it follows; one put, nothing else changed |
| OutboxCaptures.RevisesNothing | packages/sync/src/sqliteSyncOutbox.ts:332-336 | What is not live cannot be revised |
| OutboxInvariant.EnqueueSucceeds | packages/sync/src/sqliteSyncOutbox.ts:1038-1092 | At the end of a well-formed lane an operation is accepted exactly when its body is valid and belongs on that lane, so position, chain and seal never fail |
| OutboxInvariant.AuthorizingGrantIsCurrent | packages/sync/src/sqliteSyncOutbox.ts:842-854 | An authorising grant is the stored revision that is cited, has no later revision, is active and is in effect at the capture instant |
| OutboxInvariant.EligibleIffAuthorised | packages/sync/src/sqliteSyncOutbox.ts:936-956 | An item is eligible exactly when the grant permits it and the retention limit is a spellable instant |
| OutboxInvariant.GrantConsentKeepsInv | packages/sync/src/sqliteSyncOutbox.ts:223-261 | A stored grant revision keeps every table invariant, including those of items that cite earlier revisions |
| OutboxInvariant.RevokeConsentKeepsInv | packages/sync/src/sqliteSyncOutbox.ts:263-280 | A revocation with its scope deletion keeps every invariant: no live item is left under the revoked grant |
| OutboxInvariant.CaptureKeepsInv | packages/sync/src/sqliteSyncOutbox.ts:282-330 | A capture keeps every invariant, in particular that no earlier fence covers the new put |
| OutboxInvariant.ReviseKeepsInv | packages/sync/src/sqliteSyncOutbox.ts:332-371 | A revision keeps every invariant, in particular one current record per item |
| OutboxInvariant.DeleteItemKeepsInv | packages/sync/src/sqliteSyncOutbox.ts:373-414 | An item deletion keeps every invariant, so its fence covers all puts of that item and nothing else live |
| OutboxInvariant.DeleteScopeKeepsInv | packages/sync/src/sqliteSyncOutbox.ts:420-432 | A scope deletion keeps every invariant: its fence covers all earlier puts of the scope and no later one |
| OutboxInvariant.AcknowledgeKeepsInv | packages/sync/src/sqliteSyncOutbox.ts:665-741 | An acknowledgement keeps every invariant and changes no operation, record, grant or tombstone revision |
| OutboxInvariant.ReceiptKeepsInv | packages/sync/src/sqliteSyncOutbox.ts:743-805 | A deletion receipt keeps every invariant and changes no operation, record, grant or tombstone revision |
| OutboxRuns.StepKeepsInv | packages/sync/src/sqliteSyncOutbox.ts:150-160 | One call, successful or rolled back, keeps the invariant |
| OutboxRuns.RunKeepsInv | packages/sync/src/sqliteSyncOutbox.ts:150-160 | So does any sequence of calls |
| OutboxRuns.GapIffCountShort | packages/sync/src/sqliteSyncOutbox.ts:694-702 | Counting the rows between cursor and acknowledged position falls short exactly when a position is missing |
| OutboxRuns.AcknowledgedCursor | packages/sync/src/sqliteSyncOutbox.ts:690-738 | Where an applied acknowledgement leaves a cursor: the further of the two, plus one only for a data-lane refusal of exactly the next operation; the other lane stays |
| OutboxRuns.ControlCursorIsConfirmed | packages/sync/src/sqliteSyncOutbox.ts:656-741 | Over any calls the control cursor is exactly the furthest operation the destination accepted since the last restart: no refusal ever moves it |
| OutboxRuns.CursorsMoveOnlyByAck | packages/sync/src/sqliteSyncOutbox.ts:665-741 | Only acknowledgements and restarts move a cursor |
| OutboxRuns.StepKeepsNames | packages/sync/src/sqliteSyncOutbox.ts:174-221 | No call renames a stream, its replica or its destination |
| OutboxGeneration.EnqueueAllAppends | packages/sync/src/sqliteSyncOutbox.ts:508-597 | Enqueuing a list of valid bodies on a lane always succeeds and appends exactly those bodies in order, other lane and tables unchanged |
| OutboxGeneration.TombstonesJoin | packages/sync/src/sqliteSyncOutbox.ts:557-594 | The join on `delete_through_revision` finds a record for every tombstone, so none is dropped |
| OutboxGeneration.BeginGenerationRestates | packages/sync/src/sqliteSyncOutbox.ts:508-597 | What the two new lanes contain, body by body, from the old tables |
| OutboxGeneration.BeginGenerationKeepsInv | packages/sync/src/sqliteSyncOutbox.ts:508-597 | A restart succeeds and keeps every invariant |
| Receiver.DeliverAllAgrees | packages/sync-contract/src/wire.ts:85-107 | After any deliveries the fences are exactly those of the deletions seen, every put seen is covered or overtaken by what is live, and what is live was put and is not covered |
| Receiver.Converges | packages/sync-contract/src/wire.ts:85-107 | Every operation delivered, in any order and any number of times, yields exactly the live items |
| Receiver.InterleavingsConverge | packages/sync-contract/src/wire.ts:85-107 | The same for every in-order merge of the two lanes |
| Receiver.LeftOutPuts | packages/sync-contract/src/wire.ts:85-107 | The same for a sender whose tables keep the invariant: held if and only if live and delivered |
| Receiver.DeletionCoversItem | packages/sync/src/sqliteSyncOutbox.ts:373-414 | An item deletion covers every put of that item the stream ever produces |
| Receiver.DeletionIsFinal | packages/sync-contract/src/wire.ts:73-83 | From partial deliveries too: an item whose deletion has been delivered is not live, in whatever order its puts arrive |
| Receiver.ScopeFenceIsFinal | packages/sync-contract/src/wire.ts:90-101 | From partial deliveries too: what is live in a fenced scope was produced after the fence |
| Receiver.RestartReachesInventory | packages/sync/src/sqliteSyncOutbox.ts:508-597 | A restarted generation brings a fresh receiver to the live and tombstone inventory |
| OutboxBatch.PendingIsContiguous | packages/sync/src/sqliteSyncOutbox.ts:614-621 | The rows after a cursor are one gapless run up to the end of the lane |
| OutboxBatch.RunIsValid | packages/sync-contract/src/wire.ts:147-188 | Any run after the cursor passes every batch rule and every digest check |
| OutboxBatch.CutBatch | packages/sync/src/sqliteSyncOutbox.ts:599-652 | Nothing exactly when the cursor is at the end; an error exactly when the first operation alone is over the byte limit; otherwise a sendable contiguous run that one more operation would push over a limit |
| OutboxBatch.LimitsAreNearest | packages/sync/src/sqliteSyncOutbox.ts:599-613 | The two limits used are what was asked for or the nearest there may be |
| OutboxBatch.CutIsLongest | packages/sync/src/sqliteSyncOutbox.ts:622-640 | When longer batches are never smaller, no longer run fits both limits |
| OutboxListing.RestartCount | packages/sync/src/sqliteSyncOutbox.ts:508-597 | The number of operations a restart reports is consent revisions plus live items plus tombstones |
| OutboxListing.InventoryListed | packages/sync/src/sqliteSyncOutbox.ts:807-830 | The inventory lists exactly the current records and exactly the tombstones, in item order |
| OutboxListing.InventoryPartitions | packages/sync/src/sqliteSyncOutbox.ts:807-830 | Every known item is in exactly one of the two lists, at its highest revision |
| Outbox.NewStreamKeepsValid | packages/sync/src/sqliteSyncOutbox.ts:174-191 | So does adding a new stream under an unused name and destination |
| Outbox.SyncOutbox.constructor | packages/sync/src/sqliteSyncOutbox.ts:130-148 | Empty tables satisfy the class invariant |
| Outbox.SyncOutbox.CreateStream | packages/sync/src/sqliteSyncOutbox.ts:174-191 | The stream already bound to the destination, else a new empty one under an unused name; every other stream is untouched |
| Outbox.SyncOutbox.Enqueue | packages/sync/src/sqliteSyncOutbox.ts:1038-1092 | One sealed operation at the end of the lane, returned by identifier; a refused body changes nothing |
| Outbox.SyncOutbox.GrantConsent | packages/sync/src/sqliteSyncOutbox.ts:223-261 | The transaction is all-or-nothing and equals the specified outcome; the class invariant holds after it |
| Outbox.SyncOutbox.RevokeConsent | packages/sync/src/sqliteSyncOutbox.ts:263-280 | All-or-nothing; the grant returned is the newest revision afterwards, whether or not it was already revoked |
| Outbox.SyncOutbox.EnqueueScopeDelete | packages/sync/src/sqliteSyncOutbox.ts:441-492 | The loop over live rows equals burying all items of the scope at once, and reports how many there were |
| Outbox.SyncOutbox.InsertItem | packages/sync/src/sqliteSyncOutbox.ts:994-1026 | One new current record of the item, every earlier one cleared, and its put at the end of the data lane |
| Outbox.SyncOutbox.CaptureDecision | packages/sync/src/sqliteSyncOutbox.ts:282-330 | All-or-nothing, and equal to the capture that `OutboxCaptures` characterises; the item returned is stored as current under a fresh identifier |
| Outbox.SyncOutbox.ReviseDecision | packages/sync/src/sqliteSyncOutbox.ts:332-371 | All-or-nothing, and equal to the revision that `OutboxCaptures` characterises; the item returned is stored as current |
| Outbox.SyncOutbox.DeleteItem | packages/sync/src/sqliteSyncOutbox.ts:373-414 | All-or-nothing, and equal to the deletion that `OutboxEffects.DeletesItem` and `DeletesNothing` characterise; reports whether the item was live |
| Outbox.SyncOutbox.DeleteScope | packages/sync/src/sqliteSyncOutbox.ts:420-432 | All-or-nothing, and equal to the deletion that `OutboxEffects.DeletesScope` characterises; reports the number of items that were live in the scope |
| Outbox.SyncOutbox.BeginGeneration | packages/sync/src/sqliteSyncOutbox.ts:508-597 | All-or-nothing; the three loops equal the specified restart and report its exact number of operations |
| Outbox.SyncOutbox.NextBatch | packages/sync/src/sqliteSyncOutbox.ts:599-652 | Changes nothing and returns the batch `CutBatch` specifies |
| Outbox.SyncOutbox.Acknowledge | packages/sync/src/sqliteSyncOutbox.ts:665-741 | All-or-nothing, and the result reports exactly what happened: regression, step over a refusal, blocking refusal, reconciliation |
| Outbox.SyncOutbox.RecordDeletionReceipt | packages/sync/src/sqliteSyncOutbox.ts:743-805 | A receipt finds its one stream by operation and completes a tombstone there, or changes nothing in any stream |
| Outbox.SyncOutbox.Inventory | packages/sync/src/sqliteSyncOutbox.ts:807-830 | The two ordered lists, empty for an unknown stream |
| Outbox.CommitKeepsValid | packages/sync/src/sqliteSyncOutbox.ts:150-160 | A call on one stream keeps every stream reachable and valid, with one stream per destination and one replica, so each guarantee above holds of the class at all times |
| RelaySafety.LockInvIsExclusive | packages/daemon/src/daemon.ts:1226-1273 | The lock invariant implies that at most one live sender is between acquiring and releasing the lock |
| RelaySafety.ActionKeepsRunning | packages/daemon/src/daemon.ts:1240-1273 | A command at work was started by a sender that still waits for it or, where commands outlive their senders, by a killed one |
| RelaySafety.ActionKeepsLock | packages/daemon/src/daemon.ts:1232-1273 | When guards expire only after their maker died and no command outlives its sender, every action keeps the lock invariant, commands that fail included |
| RelaySafety.ReclaimRemovesDeadLock | packages/daemon/src/daemon.ts:1240-1261 | Under that condition the `rm` of a reclaimer at work is on the lock of a dead owner while nobody holds it, never on a replacement |
| RelaySafety.ActionKeepsCount | packages/daemon/src/daemon.ts:1279-1284 | Every action, drain steps included, keeps each running count an upper bound of the backlog it must cover |
| RelaySafety.PublishStaysBelow | packages/daemon/src/daemon.ts:1309-1312 | A `mv` that ends leaves the backlog within the ceiling of its class, one file more than counted |
| RelaySafety.EffectKeepsPayload | packages/daemon/src/daemon.ts:1216-1220 | A command at work keeps every captured payload accounted for, whether or not its sender is still there |
| RelaySafety.ActionKeepsPayloads | packages/daemon/src/daemon.ts:1285-1319 | Every action, crashes and commands that outlive them included, keeps every captured payload accounted for |
| RelaySafety.RunKeepsInv | packages/daemon/src/daemon.ts:1226-1319 | Every run ends with every payload accounted for; with the lock invariant if neither live guards expire nor commands outlive their senders; with every count covered if in addition no first-listed file vanishes |
| RelaySafety.NothingDroppedSilently | packages/daemon/src/daemon.ts:1285-1319 | In every reachable state under every policy a captured payload is kept, delivered or removed; a removed one was given a marker of its own class, which stands or is in the ledger unless marker writes may fail |
| RelaySafety.ExclusiveUnlessOvertaken | packages/daemon/src/daemon.ts:1226-1273 | Mutual exclusion in every reachable state, if live guards do not expire and commands do not outlive their senders |
| RelaySafety.BoundedUnlessMiscounted | packages/daemon/src/daemon.ts:1274-1312 | Ready plus processing never exceeds the absolute limit, if in addition no first-listed file vanishes before its test |
| RelaySafety.PublishedWithinCeiling | packages/daemon/src/daemon.ts:1309-1312 | Under the same conditions a `mv` at work leaves the backlog within the limit of its class, so ordinary events never use the lifecycle reserve |
| RelayReasons.RunHasActions | packages/daemon/src/daemon.ts:1226-1319 | Every run of the protocol is the run of some sequence of actions |
| RelayReasons.DecidedIff | packages/daemon/src/daemon.ts:1302-1319 | For ordered limits an event is queued if and only if the count is below the limit of its class, spelled out for the four classes, and otherwise shed under the marker of its class |
| RelayReasons.RemovedOnlyIf | packages/daemon/src/daemon.ts:1285-1319 | Over runs: a payload is removed only if a count its sender took, of published files only, had reached the limit of its class, or its `mv` failed |
| RelayReasons.QueuedOnlyIf | packages/daemon/src/daemon.ts:1216-1312 | Over runs: a payload is queued only after its `curl` or the `rm` that follows failed, and only on a count below the limit of its class |
| RelayReasons.AdmittedOnlyIf | packages/daemon/src/daemon.ts:1188-1220 | Over runs: a payload is posted, queued or removed only if its sender found neither the breaker nor the marker of its class |
| RelayReasons.LeftOnlyIf | packages/daemon/src/daemon.ts:1188-1319 | Over runs: a sender is gone with its payload left where it was only if it was killed or stopped by a signal, found the breaker or the marker of its class, missed the lock as often as it may, or its `rm` failed |
| RelayWitness.BothHold | packages/daemon/src/ingest/hookIngress.ts:508-548 | Whatever the limits, a reachable state in which two live senders hold the lock, when a live guard may expire |
| RelayWitness.OrphanUnlinks | packages/daemon/src/daemon.ts:1265-1273 | The same when a sender is killed in the `rm` of its own lock: the `rm` later unlinks the lock of the sender that reclaimed it |
| RelayWitness.StalledReclaims | packages/daemon/src/daemon.ts:1240-1261 | A reclaimer at work on a live sender lock, after its guard expired |
| RelayWitness.OrphanReclaims | packages/daemon/src/daemon.ts:1240-1261 | The same with a reclaimer killed in its `rm`, whose guard then expires by right |
| RelayWitness.OverlapOverfills | packages/daemon/src/daemon.ts:1274-1312 | Whatever the limits, a reachable `mv` that takes the backlog over the absolute limit, after overlapping holders |
| RelayWitness.OrphanOverfills | packages/daemon/src/daemon.ts:1309-1312 | The same with a `mv` that outlives its killed sender, after the next one filled the last place |
| RelayWitness.VanishingOverfills | packages/daemon/src/daemon.ts:1279-1284 | The same when the daemon claims the first listed file before `[ -e "$1" ]` |
| RelayWitness.DropsSilently | packages/daemon/src/daemon.ts:1285-1319 | Whatever the limits, a reachable state in which a payload is gone and the marker that should account for it was never written |
| RelayWitness.MutualExclusionIff | packages/daemon/src/daemon.ts:1226-1273 | For all ordered limits, mutual exclusion holds in all reachable states if and only if live guards do not expire and no command outlives its sender |
| RelayWitness.ReclaimIff | packages/daemon/src/daemon.ts:1240-1261 | For all ordered limits, no reclaimer is ever at work on a live sender lock if and only if the same condition holds |
| RelayWitness.CapacityIff | packages/daemon/src/daemon.ts:1274-1312 | For all ordered limits, the absolute bound, and the per-class ceiling, hold in all reachable states if and only if in addition no first-listed file vanishes |
| RelayWitness.NoSilentDropIff | packages/daemon/src/daemon.ts:1285-1319 | For all ordered limits and whatever else happens, no payload is dropped silently if and only if marker writes never fail |
| RolloutSafety.RunKeepsInv | packages/adapters/codex/src/rolloutParser.ts:1081-1122 | After any records all handles of one call share one log, `lastRunning` is undefined or still pending, and no cell has filed more codes for a command than its script names |
| RolloutSafety.FinalsAtMostCalls | packages/adapters/codex/src/rolloutParser.ts:1100-1122 | A call gets at most as many final completions as it was made, counting open ones |
| RolloutSafety.RecordedExitSound | packages/adapters/codex/src/rolloutParser.ts:800-812 | After any records: a recorded code of a cell means every named occurrence reported; 0 means all reported 0; non-zero means the cell named exactly one command, and that is its code |
| RolloutSafety.RecordedExitComplete | packages/adapters/codex/src/rolloutParser.ts:800-812 | Conversely a complete cell of one command yields its code, and one whose codes are all 0 yields 0 |
| RolloutHistory.TablesAgree | packages/adapters/codex/src/rolloutParser.ts:465-605 | After any records the open calls, the call under each handle and the last running command are what the records alone say |
| RolloutHistory.BoundIff | packages/adapters/codex/src/rolloutParser.ts:1081-1122 | A handle is bound to a call if and only if the last output that named it was about that call and none has ended the call since |
| RolloutHistory.LogsConserved | packages/adapters/codex/src/rolloutParser.ts:1081-1122 | After any records every handle of a running call holds the text of its run: the output with which it yielded and, in order, every output of a poll about it, where a poll that names a handle is about the call bound to it and no other |
| RolloutHistory.RecordEmits | packages/adapters/codex/src/rolloutParser.ts:465-605 | What each record emits of completions: a first one of the call for a command output, the final one of exactly the call it is about, with the whole text of its run, for a poll that ends it, and none otherwise |
| RolloutHistory.NothingLost | packages/adapters/codex/src/rolloutParser.ts:1081-1122 | If no output gives the handle of a running call to another, a call made once that yielded still runs under some handle or has exactly one final completion |
| RolloutHistory.OpenedIff | packages/adapters/codex/src/rolloutParser.ts:508-571 | Exactly which records show a call as opened |
| RolloutHistory.FinishedIff | packages/adapters/codex/src/rolloutParser.ts:465-605 | Exactly which records show a step as finished |
| RolloutCells.CodesAreFiled | packages/adapters/codex/src/rolloutParser.ts:656-675 | After any records each open cell holds for each command exactly the codes of those processes that only it still wanted, in order, and each call exactly the codes of its own processes, until its result |
| RolloutCells.NestedUnderItsCell | packages/adapters/codex/src/rolloutParser.ts:656-675 | A nested process is reported under the cell its code was given to, and under none if it was given to none |
| RolloutCells.ShownIsOnRecord | packages/adapters/codex/src/rolloutParser.ts:800-812 | The exit of every completion is the explicit one of its output, or else the code the records put on record for the call, if there is one |
| RolloutExits.FiledWasReported | packages/adapters/codex/src/rolloutParser.ts:656-675 | Every code filed under an open cell was reported, as often as filed, by items for that very command since the script of the cell was called |
| RolloutExits.OwnWasReported | packages/adapters/codex/src/rolloutParser.ts:656-663 | Every code kept for a call was reported, as often as kept, by items that name the call |
| RolloutExits.RecordedIsWarranted | packages/adapters/codex/src/rolloutParser.ts:800-812 | A recorded code of a cell is 0 only if every occurrence of every command its script names was reported 0 since the call, and otherwise the one code its one command reported |
| RolloutExits.EmittedExitsStand | packages/adapters/codex/src/rolloutParser.ts:1043-1072 | Every completion a rollout ever emits shows the exit explicit in its own output, or where that is open the output exit or a code the items before it warrant in that sense |
| RolloutExits.RecordedIsShown | packages/adapters/codex/src/rolloutParser.ts:1043-1072 | Conversely a code recorded when a final output arrives without an explicit exit is the one shown |
| RolloutParser.CodexRolloutParser.TrackRunning | packages/adapters/codex/src/rolloutParser.ts:1081-1093 | On the heap of shared command objects, equals the specified step: an existing object of the call is aliased under the new handle |
| RolloutParser.CodexRolloutParser.PollResult | packages/adapters/codex/src/rolloutParser.ts:1100-1122 | The in-place push to the shared object is seen under every handle, and a final result drops all of them; which call it is about is said by `RolloutHistory.TablesAgree` |
| RolloutParser.CodexRolloutParser.CommandCompleted | packages/adapters/codex/src/rolloutParser.ts:1043-1072 | The completion event and the closing of cell and codes, as specified |
| RolloutParser.CodexRolloutParser.CommandExecution | packages/adapters/codex/src/rolloutParser.ts:656-675 | A code goes to the one open cell that still awaits the command, and nowhere when none or several do |
| RolloutParser.CodexRolloutParser.RecordedExit | packages/adapters/codex/src/rolloutParser.ts:800-812 | The code recorded for a call, over the loops of the source |
| RolloutParser.CodexRolloutParser.IsPending | packages/adapters/codex/src/rolloutParser.ts:789-792 | Scanning the handles finds a call exactly when it is pending |
| RolloutParser.CodexRolloutParser.TakeFunctionOutput | packages/adapters/codex/src/rolloutParser.ts:465-489 | An output closes its call and is read as a poll, a command or neither |
| RolloutParser.CodexRolloutParser.TakeCustomOutput | packages/adapters/codex/src/rolloutParser.ts:573-604 | The same for code cells, which may stay open while their process runs |
| RolloutParser.CodexRolloutParser.CallCell | packages/adapters/codex/src/rolloutParser.ts:683-698 | A cell opens with the commands its script names, or is read as a poll |
| RolloutParser.CodexRolloutParser.ParseRecord | packages/adapters/codex/src/rolloutParser.ts:459-604 | Any record takes the object heap from one value of the model to the next and emits its events |
| RolloutParser.Flatten | packages/adapters/codex/src/rolloutParser.ts:800-812 | The codes of a complete cell flattened: one per command named, all 0 exactly when every list is |
| JsonText.EscapedIsWellPaired | packages/sync-contract/src/wire.ts:273-287 | No surrogate stands alone in escaped text, whatever the string |
| JsonReader.EscapedReads | packages/sync-contract/src/wire.ts:273-287 | A reader of strings under section 7 of RFC 8259 gets every escaped string back, and what follows it |
| JsonReader.PrintReads | packages/sync-contract/src/wire.ts:273-287 | A reader of RFC 8259 values gets every printed value back, and what follows it |
| JsonReader.PrintUnique | packages/sync-contract/src/wire.ts:273-287 | So texts of two ordered values followed by any rests agree only if values and rests agree |
| KeyOrder.SortSorts | packages/sync-contract/src/wire.ts:281-286 | Sorting distinct keys is strictly ascending by UTF-16 code unit and keeps every lookup |
| KeyOrder.SortedUnique | packages/sync-contract/src/wire.ts:281-286 | Two sorted field lists with the same lookups are the same list |
| CanonicalJson.CanonicalIffSerializable | packages/sync-contract/src/wire.ts:273-280 | Canonicalisation throws exactly for values with an undefined root or list element at some depth |
| CanonicalJson.CanonicalIsPrint | packages/sync-contract/src/wire.ts:273-287 | The text is the print of the value with undefined members dropped and keys sorted |
| CanonicalJson.CanonicalReads | packages/sync-contract/src/wire.ts:273-287 | Canonical text is JSON: a reader gets exactly the ordered value back from it |
| CanonicalJson.OrderIff | packages/sync-contract/src/wire.ts:273-287 | Two serializable values have the same ordered form exactly when they are equal up to key order and undefined members |
| CanonicalJson.CanonicalIff | packages/sync-contract/src/wire.ts:273-287 | Two finite values have equal text if and only if they are equal up to key order and undefined members |
| SealedJson.ParseIdempotent | packages/sync-contract/src/wire.ts:293-303 | Validation that fills in defaults is idempotent, for every shape of records, tagged unions, lists and refined values |
| SealedChecks.ParseIff | packages/sync-contract/src/wire.ts:293-303 | For well-formed shapes validation returns a value exactly when the input becomes that value by a declarative reading of shapes: leaves accepted, no unknown keys, required members there, defaults filled in, the first branch of the tag, rules asked of the result |
| SealedJson.TagKept | packages/sync-contract/src/wire.ts:109-117 | Validation keeps the tag of a union, and so stays in its branch |
| SealedJson.DigestSwaps | packages/sync-contract/src/wire.ts:303-318 | A validated operation carries a digest and stays validated under any digest the hash makes, in every branch of a union |
| SealedJson.SealedVerifies | packages/sync-contract/src/wire.ts:309-326 | Whatever `sealSyncOperation` returns passes `verifySyncOperationDigest`, for every hash function |
| SealedChecks.SealsIff | packages/sync-contract/src/wire.ts:309-318 | Sealing succeeds exactly for an object without a digest whose content a declarative reading of the schema accepts, rules included, and is serializable; it keeps that content |
| SealedChecks.VerifiedIsSealed | packages/sync-contract/src/wire.ts:320-326 | Conversely an operation that verifies is exactly what sealing its content makes, so no other digest verifies for that content |
| SealedJson.DigestsIff | packages/sync-contract/src/wire.ts:289-307 | For a hash that tells the two texts apart, digests are equal exactly when the contents without the digest are equal up to key order and undefined members |
| SealedJson.SpelledParsesAlike | packages/sync-contract/src/wire.ts:293-300 | Values that differ only in leaving out or spelling out defaults, at any depth, validate alike |
| SealedJson.DefaultsSealAlike | packages/sync-contract/src/wire.ts:293-318 | So they seal to the same operation with the same digest |
| WireSchema.ItemIsShaped | packages/sync-contract/src/schemas.ts:49-306 | The schema of items, spelled out for all twelve kinds with their defaults and unions, is one the sealing laws are about |
| WireSchema.OperationsSeal | packages/sync-contract/src/wire.ts:35-143 | So is the schema of sync operations, spelled out for all five types down to items and grants, with a digest in every branch |
| WireSchema.SealedOperationVerifies | packages/sync-contract/src/wire.ts:309-326 | Every sync operation that is sealed verifies, whatever the formats, rules and hash |
| WireSchema.DefaultsMayBeLeftOut | packages/sync-contract/src/wire.ts:293-318 | A put whose item leaves out `links`, or whose entity leaves out `aliases`, seals to the same operation and digest as one that spells out the empty list |
| MapLink.MapIndex.constructor | packages/project-map/src/link.ts:167-189 | The index agrees with the map: each node by identifier, each edge under both of its ends in order |
| MapLink.NeighboursAreOrdered | packages/project-map/src/link.ts:418-429 | The neighbour comparison is a total preorder |
| MapLink.NeighboursOf | packages/project-map/src/link.ts:310-334 | The neighbours are a sorted permutation of what the edge list gives around the node |
| MapLink.OwnersIff | packages/project-map/src/link.ts:292-308 | A module is among the owners exactly when the map has a containing or compiling edge from it |
| MapLink.CollectOwners | packages/project-map/src/link.ts:292-308 | The owners of a node, each edge once, sorted |
| MapLink.LinkFile | packages/project-map/src/link.ts:265-346 | One file: the four unlinked statuses, or its node with exact neighbour total, truncation flag and clipped sorted lists |
| MapLink.LinkFiles | packages/project-map/src/link.ts:243-346 | Every kept file linked in order, and the table of changed paths per module holding exactly the pairs the edge lists give |
| MapLink.ModuleLinks | packages/project-map/src/link.ts:348-374 | One module link per module with changed files, each with sorted changed paths and exact dependent totals |
| MapLink.LinkExecution | packages/project-map/src/link.ts:227-416 | The whole join: links, sorted and clipped modules, totals; total = omitted + carried, which equals what is listed if and only if at most 2000 files are carried |
| MapLink.RingsAreInverse | packages/project-map/src/link.ts:292-374 | A path is listed for a module exactly when some linked file of that path has the module as owner; the cut of the list never applies |
| MapLink.TableIsBounded | packages/project-map/src/link.ts:295-306 | A module never has more changed files than there are kept files |
| MapLink.CarriedIff | packages/project-map/src/link.ts:138-161 | Exactly the representable files are carried |
| MapRings.NodeAtIff | packages/project-map/src/link.ts:265-291 | The node of a changed file is the last one listed under its path in the map of its main repository, if that is a file |
| MapRings.AroundCounted | packages/project-map/src/link.ts:310-334 | The neighbours of a file are exactly the edges between files that start or end at it and have a known node at the other end, each as often as listed, marked changed exactly for changed files |
| MapRings.OwnersCounted | packages/project-map/src/link.ts:292-308 | The owners of a node are exactly the containing and compiling edges to it from known modules, each as often as listed |
| MapRings.DependentsIff | packages/project-map/src/link.ts:348-362 | The dependents of a module are exactly the `depends-on` edges to it that start at known modules, each as often as listed |
| MapRings.NeighboursCompareIff | packages/project-map/src/link.ts:418-429 | The comparator is negative exactly when a neighbour ranks first by direction, kind of node, label in code units, then name of edge kind |
| MapRings.FileKindsInOrder | packages/project-map/src/link.ts:418-429 | How the kinds of edge between files rank by name |
| MapRings.NeighboursInOrder | packages/project-map/src/link.ts:310-344 | No neighbour listed or kept ranks after one that follows or was cut |
| MapRings.OwnersInOrder | packages/project-map/src/link.ts:308-340 | The same of owners and dependents, by module identifier |
| MapRings.ModulesInOrder | packages/project-map/src/link.ts:375-377 | The same of the module ring: more changed files first, then by module identifier |
| MapRings.ChangedInIff | packages/project-map/src/link.ts:244-256 | The changed paths of a repository are those of kept files that lie in it or in a worktree of it |
| MapRings.CarriedInOrder | packages/project-map/src/link.ts:138-161 | Carried files stand in their order at exactly the places of the representable ones |
| MapRings.ClippedIsFront | packages/project-map/src/link.ts:241-242 | A cut list is the front of the whole, as long as the limit allows |
| Revision.CandidatesAreAnchored | packages/project-map/src/link.ts:74-86 | The revisions offered are exactly the non-empty heads the session saw in this very repository, that of the latest turn first, the one at the start only if it is another |
| Revision.ResolveRepository | packages/project-map/src/link.ts:92-128 | The first candidate that settles decides; gone only when none does; a mapped value was read at an existing offered commit |
| Revision.SettlesIff | packages/project-map/src/link.ts:92-128 | What each answer of the map service settles for a candidate, in both directions |
| HookMerge.MergeHookGroups | packages/cli/src/hookInstaller.ts:114-129 | The loop equals the merge event by event, and `changed` exactly when the result differs |
| HookMerge.Supersedes | packages/cli/src/hookInstaller.ts:114-129 | A later merge supersedes an earlier one of recognised hooks, whatever it adds; with equal hooks this is idempotence, with none it is removal |
| HookMerge.SupersedesIff | packages/cli/src/hookInstaller.ts:114-129 | That law holds of a set of hooks if and only if the recogniser accepts every one of them |
| HookMerge.ForeignHooksKept | packages/cli/src/hookInstaller.ts:114-129 | Every foreign hook keeps its event, group attributes and order |
| HookMerge.MergedStands | packages/cli/src/hookInstaller.ts:114-129 | Place by place: an event holds, in order, exactly the groups with a foreign hook, each with its attributes and exactly its foreign hooks, then the groups merged in; an event without any goes |
| HookMerge.OwnedAreOurs | packages/cli/src/hookInstaller.ts:114-129 | After a merge the recognised hooks of an event are exactly those merged in |
| HookMerge.InspectHooks | packages/cli/src/hookInstaller.ts:198-235 | What each status means, and that `configured` leaves no incomplete event |
| RelayCommand.QuotedReads | packages/cli/src/hookInstaller.ts:137-144 | A POSIX shell reads the quoted script path back as that path, whatever characters it has |
| RelayCommand.GeneratedIsRecognised | packages/adapters/claude-code/src/hookConfig.ts:23-51 | Every generated hook command of a home path without newlines satisfies the recogniser |
| RelayCommand.CommandIsOneLine | packages/cli/src/hookInstaller.ts:137-144 | There is a command exactly when marker, quoted path and provider fit on one line, and a shell then reads the path as the first word after the marker |
| RelayCommand.RecognisedIsOurs | packages/adapters/claude-code/src/hookConfig.ts:40-51 | A command is recognised only if it names the relay script or its directory |
| RelayCommand.RecognisesIff | packages/adapters/claude-code/src/hookConfig.ts:40-51 | Recognised are exactly the commands that, white space around them dropped, are the marker with a quoted text ending in the relay path as a whole word, or an optional `/bin/sh` and gap before a path through the older hook directory that has no gap and no quote but in front |
| PathMetadata.FirstVisitsIff | packages/adapter-kit/src/recordHelpers.ts:101-163 | The texts to collect are exactly the non-empty ones met in a path or URI context, or at the root |
| PathMetadata.PathCollector.VisitText | packages/adapter-kit/src/recordHelpers.ts:111-144 | One more string updates list and both flags as the strings met so far demand |
| PathMetadata.PathCollector.Visit | packages/adapter-kit/src/recordHelpers.ts:111-160 | The recursive walk meets every string of the tree in order, with its context |
| PathPlaces.LeavesStand | packages/adapter-kit/src/recordHelpers.ts:111-160 | The walk meets exactly the strings of the tree, in tree order; the context of each is that of a URI if any key on the way to it names URIs, else that of a path if any names paths |
| PathPlaces.FirstVisitsInOrder | packages/adapter-kit/src/recordHelpers.ts:111-144 | The texts collected are those of the strings that count for the first time, in their order |
| PathPlaces.ClipKeepsEnds | packages/adapter-kit/src/recordHelpers.ts:101-144 | A text over the bound keeps its first and last 490 units around an ellipsis, any other is kept whole |
| PathMetadata.PathArgumentMetadata | packages/adapter-kit/src/recordHelpers.ts:101-163 | At most 32 texts within the length bound; `truncated` exactly when something was cut or left out; unless truncated exactly the distinct texts in first-visit order |
| UnifiedDiff.HunksFromUnifiedDiff | packages/adapter-kit/src/recordHelpers.ts:48-70 | The loop equals the line-by-line specification |
| UnifiedDiff.HeaderIff | packages/adapter-kit/src/recordHelpers.ts:45-60 | A line is read as a hunk header exactly when it is spelled as one, with those numbers |
| UnifiedDiff.HunksStand | packages/adapter-kit/src/recordHelpers.ts:48-70 | One hunk per header line in order, with exactly the body lines up to the next header; every other line is passed over |
| UnifiedDiff.HunksInvertLines | packages/adapter-kit/src/recordHelpers.ts:45-70 | Reading a printed diff gives back its hunks: counts of 1 left out, any section headings |
| UnifiedDiff.CountHunkLines | packages/adapter-kit/src/recordHelpers.ts:33-43 | The two loops count the added and removed lines |
| UnifiedDiff.CountsMatchHeaders | packages/adapter-kit/src/recordHelpers.ts:33-43 | When headers tally, added minus removed is what the headers say the file grew by |
| Semver.CompareSemver | packages/cli/src/main.ts:2341-2375 | Undefined exactly when one text does not parse; on valid texts with numbers below 2^53 the precedence of the versions they spell |
| Semver.Scan | packages/cli/src/main.ts:2350-2374 | The loops with early returns equal the comparison of the parsed versions at their first difference |
| Semver.TextsCompareByPrecedence | packages/cli/src/main.ts:2341-2375 | Two valid version texts with numbers below 2^53 compare -1, 1 and 0 exactly when the exact versions they spell precede, follow and equal each other |
| Semver.CompareIsPrecedence | packages/cli/src/main.ts:2341-2375 | For valid versions with numbers below 2^53: -1, 0 and 1 exactly when precedence by section 11 of Semantic Versioning 2.0.0 is lower, equal and higher; antisymmetric |
| Semver.CompareIsTransitive | packages/cli/src/main.ts:2360-2374 | Transitive on the same versions, so a total preorder |
| Semver.AntisymmetricIff | packages/cli/src/main.ts:2367-2372 | For all versions: antisymmetric if and only if the first differing identifiers are not two numerals that read as the same double |
| Semver.LeadingZeroCollides | packages/cli/src/main.ts:2367-2372 | `1.0.0-1` and `1.0.0-01` each compare above the other |

## Left out

- OutboxGuarantees.LanesConverge: speaks of a destination that takes every operation; OutboxGuarantees.LeftOutPutsConverge says what is held when puts are refused for good and stepped over.
- Outbox.SyncOutbox.RecordDeletionReceipt: receipts are kept per stream, where the table ignores a receipt identifier any stream already used.
- Outbox.SyncOutbox.CaptureDecision: the texts are the input after minimization; redaction and the removal of hidden characters are not modelled, and an evidence record keeps only authority, role and instant.
- Outbox.SyncOutbox.ReviseDecision: the texts are the input after minimization, as for a capture.
- Outbox.SyncOutbox.NextBatch: the serialized size is an arbitrary function of the batch, and limits are integers.
- RelaySafety.NothingDroppedSilently: a quarantined envelope counts as drained, and the daemon's own durability after claiming a file is not modelled.
- RolloutParser.CodexRolloutParser.ParseRecord: patch, message and plan records are reduced to whether they open or close a call, and titles, excerpts and event identifiers of emitted events are not modelled.
- MapLink.LinkExecution: provenance, rule and evidence travel inside the edge, the path check is a parameter, and the list of repositories with their worktrees is not built.
- HookMerge.MergeHookGroups: settings are a map of their own keys; an existing event named like a member every object inherits, such as `constructor`, makes the source throw when it spreads what it finds under that name among the new hooks (packages/cli/src/hookInstaller.ts:124), and is merged here.
- HookMerge.InspectHooks: the health of the relay script is an input, and unreadable settings (status `invalid`) are not modelled.
- PathMetadata.PathArgumentMetadata: the key patterns and URI decoding are parameters, and members of an object are visited in the order given.
- UnifiedDiff.HunksFromUnifiedDiff: takes the lines of the text, since splitting it is not modelled.
- WireSchema.OperationsSeal: what a single text or number must look like, and the rules across members, are parameters; sparse arrays and values that are not JSON are not modelled.
- Items of kinds other than decisions in the outbox, which creates none, and the batch and acknowledgement schemas beyond their cross-field rules.
- SQL text, pragmas, schema versions, JSON columns and file paths of the outbox database; the clock columns nothing reads.
- Delivery by curl, detaching, size limits and truncation of standard input in the relay; removal of a payload only after posting is kept as an outcome.
- Liveness: that a stalled lock is ever taken again, that a drain empties a backlog, that a lane is ever acknowledged.
- Writing settings files with backups, and installing the relay script.
- Parsing rollout text into handles, bodies and exit codes, and scripts into command lists.
- The daemon's server, workers, alerts and discovery, the interface, the menu bar and onboarding: input, output and presentation.
- Tool-name tables and text classification of the adapters: long case lists without an invariant.
