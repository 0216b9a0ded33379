# Routeweft: verified models

Routeweft is a gateway that sends model requests to provider accounts. This project models the parts of
it whose correctness is hardest to see by reading, and proves what each of them promises. The models are
Dafny modules, one file each; `dafny verify dfyconfig.toml` checks all of them.

| files | component | form |
|---|---|---|
| `registry_entry`, `registry_protocol`, `registry_steps`, `registry_safety`, `registry_runs`, `registry_fate`, `registry_generations`, `registry_progress` | the credential registry | a class for one entry; a transition system for any number of threads |
| `json_text`, `usage_capture`, `usage_grammar` | the streaming scanner for a response's usage | a class over bytes, against the grammar of RFC 8259 |
| `combo_graph`, `combo_names`, `combo_check`, `combo_runtime`, `combo_judges`, `combo_import`, `combo_walk` | Combos that name Combos: compiler check, names against keys, depth at run time, what Fusions and walks call, import, serving | classes and methods against a graph |
| `sse_relay`, `sse_outputs`, `sse_events`, `sse_streams`, `sse_terminal` | the event-stream relay | a loop against a list function |
| `dispatch_script`, `dispatch`, `dispatch_theorems`, `dispatch_turns`, `dispatch_rules`, `dispatch_verdicts`, `kiro_repair` | the attempt loop and the repair walk | classes proved equal to a function of what upstreams, credentials and the client do at each turn |
| `request_log`, `telemetry`, `telemetry_runs`, `telemetry_losses` | the log drain and the telemetry queue | transition systems, and a class for the queue |
| `lifecycle` | the validation lifecycle of a stored connection | rows and a class for the store |
| `glob`, `history`, `rotation`, `accounts` | pattern matching, history fitting, rotation, account selection | methods against declarative meanings |

## What the proofs found

Where the code differs from what its comments promise, the code is modelled as it is. Each point below is
a theorem of the project.

- **Import's window.** `internal/credentials/registry.go:503-509` says an import that lands during an
  exchange survives in memory and store. Import bumps the generation before its durable write and publishes
  after it. A refresh that captures between the two pairs the old credential with the new generation and
  later commits over the import (`RegistryRuns.WindowLosesImport`, for every stored and answered credential
  and every import that is not empty). On every sequence of steps a refresh overwrites an import exactly
  when it captured in that import's window and the import has published since, in memory
  (`RegistryFate.RefreshReplacesItsOwn`) and in the store (`RegistryFate.RefreshWritesOverItsOwn`).
- **A late ForceRefresh.** ForceRefresh promises a credential the provider has not refused. A caller that is
  refused the new token before the refresh that published it has freed the slot joins that refresh, gets the
  refused token back and leaves its marker set (`RegistryProgress.LateJoinKeepsRefusedToken`).
  `RegistryProgress.CheckLosesMarker` gives the exact condition. The marker is the current access token all
  the same, on every sequence of steps (`RegistryProgress.MarkerIsCurrent`).
- **Update without a payload.** PutConnection keeps the stored credential when the payload is blank but
  returns the blank one, and Update publishes what it returned. Memory and store then differ, exactly in
  that case (`RegistrySafety.UpdateCoherent`); Register differs exactly when it is not given the stored
  credential (`RegistrySafety.RegisterCoherent`).
- **Untrimmed Combo names.** The cycle check continues at a Combo's own Name but looks Combos up by the
  trimmed name, and the importer stores names untrimmed. What the check then accepts is exactly
  `ComboNames.AcceptedIff`; a cycle it misses goes through a Combo stored under another name than its own
  (`ComboNames.HiddenCycleHasUntrimmedName`), and a Combo that names itself is accepted exactly when its name
  has space around it (`ComboNames.SelfNestedAcceptedIff`).
- **Judges that are Combos.** The compiler bounds nested members and does not look at judges, so an accepted
  Combo set can meet the depth refusal at run time. Not every Fusion calls its judge: one model alone is
  served without it, more than eight are refused, and otherwise two of the models have to answer; nor does a
  walk reach a member behind one it cannot fall past. A request meets the refusal exactly when nine Combos
  stand in a row, each called by the one before as these rules say (`ComboJudges.RefusalMetIff`). A Fusion
  of plain models that judges itself leads to it exactly when it has at most eight models and two of them
  can answer (`ComboJudges.SelfJudgeRefusedIff`).
- **Refused credentials.** A request whose credential is refused is said not to cool the whole chain of
  accounts (`internal/ingress/dispatch.go:530`). Refusals by status cool one candidate, but a refusal reported
  in a success, like a missing credential, is recorded whatever was recorded before. A second candidate is
  cooled exactly when two events mark one and at most one of them is a refusal by status
  (`DispatchTheorems.SecondCooledIff`); when every candidate reports the refusal in a success, every one is
  cooled (`DispatchTheorems.ReportedRefusalsCoolAll`). A candidate is one account for one model: two models of
  a provider put an account in the walk twice.
- **Later models of a Combo.** Ten requests a model are said to keep an earlier model from starving a later
  one (`internal/ingress/combo_serving.go:40-41`). A candidate is sure of its turn exactly when the requests
  the candidates before it can take together are fewer than the budget (`DispatchTurns.NeverStarvedIff`); ten
  accounts of the first model, each retried once, use up the budget of two models
  (`DispatchTurns.EarlierModelStarves`).
- **Escapes in JSON keys.** The scanner drops a backslash and the byte after it, so `"us\u0061ge"` is missed
  and `"\nusage"` is taken (`UsageGrammar.EscapedKeyMissed`, `UsageGrammar.EscapedKeyTaken`). The object
  reported is the one named "usage" exactly when the first object whose key is read so or named so is both, or
  there is none, or the two objects are reported alike (`UsageGrammar.CaptureIsNamedIff`).
- **Long event lines.** A line longer than the reader's 32 KiB buffer whose last fragment is a bare line
  ending is taken for a blank line, and the event that holds it is split: a terminal event then reaches the
  client without its end (`SseStreams.LongLineInMessages`). The relay forms the events the lines say exactly
  when no line before the last is of that kind (`SseRelay.EventsAgree`), and its output is theirs, whatever
  counts as terminal, exactly then (`SseOutputs.OutputsAgreeIff`).
- **Streams that end inside an event.** The terminal part is then written on to the fragment, and a client
  that reads events by blank lines does not find it: it reads what the relay wrote exactly when the last event
  is ended or is itself terminal (`SseOutputs.OutputReadBackIff`).
- **A repair that ends unrecorded.** The repair walk promises to record the outcome it ends on. A walk whose
  last reply is a refusal records nothing exactly when it was to go on and did not: the client left while a
  retry was awaited, no further target was found, or the budget was used up with no failed send before
  (`KiroRepair.RefusalUnrecordedIff`). When every host answers 429 that is exactly when the hosts outnumber
  the requests left (`KiroRepair.BusyHostsUnrecordedIff`). Recorded means that the connection's recorder is
  called; what it makes of a status is not part of this model.
- **Telemetry losses.** A critical event is said to be lost only when the queue is full and holds only
  critical events. It is lost exactly when its scan finds no diagnostic or its last attempt finds no room
  (`TelemetryLosses.LostIff`), and the queue is then as promised exactly as what entered and left since
  decides (`TelemetryLosses.FullOfCriticalsIff`): another request's diagnostic can take the room
  (`TelemetryRuns.RoomTaken`), a batch can empty the queue before the scan
  (`TelemetryLosses.LostWithEmptyQueue`), and Close refuses a queue with room
  (`TelemetryLosses.LostAfterClose`). With no step between and the service open the promise holds
  (`TelemetryLosses.UndisturbedLossIff`). On every run critical events are accounted for exactly when none was
  flushed without a sink (`TelemetryRuns.CriticalsConserved`), and on all runs exactly when there is a sink or
  the queue has no room at all (`TelemetryRuns.SinkNeededIff`).
- **A row deleted and stored again** starts at revision 0, so a result for the deleted row's revision is
  recorded against it as soon as it has been replaced as often as that revision says
  (`Lifecycle.ResultAfterDeletionIff`).
- **Test results after an import.** A replaced credential's result is said to be refused
  (`internal/credentials/status.go:55-58`), but an import, like a refresh, writes through RotateSecret and
  moves no revision. A result read before it is recorded and kept, and describes the stored credential exactly
  when none was written since or the last one written is the same (`Lifecycle.ResultDescribesStoredIff`).
- **Held Combo errors.** A walked member's answer is said to be written as it is
  (`internal/ingress/combo_walk.go:12-19`), but an error body is held only up to 64 KiB: it reaches the
  client whole exactly when it fits (`ComboWalk.ReplyIsWholeIff`).

## Modelling choices

- Clocks, providers, upstream answers, storage failures, cancellation and goroutine scheduling are free
  choices: the theorems hold for all of them.
- A transaction is one atomic step that may fail without effect. Sealing is a faithful codec that drops an
  empty provider-data map; a digest is the credential material itself.
- One registry action is one region under a lock, one durable write, or one lock-free event. Taking the
  install lock is part of the region that follows, releasing it part of the region before.
- `Combo.admissible` stands for everything the compiler checks of a Combo besides nesting.
- Whether a JSON payload parses, and its type, is a function of the text (`TypeOf`).
- What credentials, upstreams, classification and the client do in the attempt loop is a `World`, a function
  of candidate and turn; the theorems hold for every World. The same goes for the repair walk's script, and
  for the moments at which a client leaves or a write fails in the relay and the Combo walk.
- History is modelled after JSON decoding, with the budget in exact arithmetic: 80% of a window at four
  characters a token is `5 * total <= 16 * window`.
- In `ComboJudges` which upstreams are live, which Combos rotate, which models a request puts ahead for a
  capability and which adapters it brings are free. A panel call may fail or come too late, and a Fusion may be
  busy; its eight slots are enough for the Fusions of one path, which are at most eight.
- Cursors and counters are natural numbers.

## Model

| member | source | states |
|---|---|---|
| Credentials.ChainKeepsNewest | internal/credentials/registry.go:516-534 | Over any chain of refreshes a refresh token, a sign-in kind, the provider-data keys and usability are never lost. Access and ID token, cookie and expiry come from the last usable answer, and the refresh token, the sign-in kind and every provider-data value are the newest one any usable answer supplied. |
| Credentials.SameIff | internal/credentials/registry.go:693-699 | Two payloads are the same if and only if all their parts are, no and empty provider data alike, and so exactly if they read the same once stored. |
| Credentials.ValidIff | internal/credentials/registry.go:652-675 | Secret serves a credential as it is if and only if the entry was given one, it has an access token or a cookie, its access token is not the one refused and it is not expired. |
| Credentials.EmptyIff | internal/credentials/store.go:135-137 | A payload is empty if and only if access token, refresh token and cookie are nothing but space. |
| Credentials.EntryCell.Install | internal/credentials/registry.go:199-213 | An install replaces the exchanger always, and the credential, generation and marker only when the credential differs. |
| Credentials.EntryCell.Bump | internal/credentials/registry.go:610-614 | Import moves the generation, and nothing else, when the credential differs. |
| Credentials.EntryCell.Publish | internal/credentials/registry.go:558-562 | Publication sets the credential and clears the marker without moving the generation. |
| Credentials.EntryCell.PublishUpdate | internal/credentials/registry.go:313-332 | Update publishes what was stored, if anything, as a new generation, and frees the slot in the same region. |
| Credentials.EntryCell.Mark | internal/credentials/registry.go:474-486 | ForceRefresh marks the refused token only if it is the current one and can be refreshed; without an exchanger or refresh token it fails. |
| Credentials.EntryCell.Unmark | internal/credentials/registry.go:488-496 | A failed ForceRefresh clears the marker only if it is still its own. |
| Credentials.EntryCell.Check | internal/credentials/registry.go:398-433 | Secret's region serves a valid credential, waits on a call in flight, serves a static one, or takes the slot and captures credential and generation together. |
| RegistrySteps.EnabledIff | internal/credentials/registry.go:264-335 | When each region of each operation can run: operations begin unless Register holds the registry mutex, a region under the install lock waits for it, a waiter for its call; an exchange, a write or a wait can end in any way. |
| RegistrySteps.BeginLeadsTo | internal/credentials/registry.go:264-307 | Operations begin without touching entry or store; Register keeps the registry mutex until it has installed; an Update that waited for the slot tries again or gives up. |
| RegistrySteps.AcquireLeadsTo | internal/credentials/registry.go:535-541 | Under the install lock a refresh goes on to write, and keeps the lock, if and only if its generation stands; else it is superseded. |
| RegistrySteps.CheckLeadsTo | internal/credentials/registry.go:398-433 | On the shared state the same: a valid or static credential is served, a call in flight waited for, or the slot taken with a new call and credential and generation captured. |
| RegistrySteps.RefreshLeadsTo | internal/credentials/registry.go:510-563 | An exchange without an access token or cookie fails; a failed write leaves the store and frees the install lock; a written credential is published with the marker cleared before the lock is let go. |
| RegistrySteps.OwnerLeadsTo | internal/credentials/registry.go:434-456 | A refresh frees the slot before it closes its call; a superseded one has everyone check again, and the caller of any other gets what it committed, or fails. |
| RegistrySteps.WaiterLeadsTo | internal/credentials/registry.go:404-420 | A waiter goes on only when its call is closed, checks again or returns what the call says, and fails when cancelled; a failed ForceRefresh still has its marker to clear. |
| RegistrySteps.ImportLeadsTo | internal/credentials/registry.go:571-634 | An import of nothing is refused; any other bumps the generation under the install lock, writes, and publishes what it wrote before it lets go; a failed write leaves store and credential. |
| RegistrySteps.InstallLeadsTo | internal/credentials/registry.go:130-213 | Registering and seeding install a credential that is not the one held as a new generation without marker, and set only the exchanger for the one held. |
| RegistrySteps.UpdateLeadsTo | internal/credentials/registry.go:286-334 | Update and ReviseSecret take the slot when it is free and wait otherwise, hold the install lock from the write to the end, and publish what was stored as a new generation, nothing when nothing was. |
| RegistrySteps.ForceBegins | internal/credentials/registry.go:469-486 | ForceRefresh fails at once if and only if there is no exchanger, or the refused token is current and there is no refresh token; else the token is marked if it is current. |
| RegistrySteps.ForceUnmarks | internal/credentials/registry.go:488-496 | After a failure it clears the marker if and only if it is its own. |
| RegistrySteps.OthersStay | internal/credentials/registry.go:264-335 | A step moves its own thread and no other. |
| RegistrySteps.InitIs | internal/credentials/registry.go:144-144 | A connection registered first holds its credential in entry and store, at generation 1 and without a marker. |
| RegistrySafety.StepInv | internal/credentials/registry.go:264-335 | Every action of every operation keeps the two mutexes, the slot, the calls and their owners consistent. |
| RegistrySafety.OneOwner | internal/credentials/registry.go:286-305 | The refresh slot has one owner. |
| RegistrySafety.StepFresh | internal/credentials/registry.go:535-562 | Every action keeps what a refresh in flight relies on: while its generation stands, the published credential is the one it captured, or an import whose window it captured in. |
| RegistrySafety.RegisterCoherent | internal/credentials/registry.go:130-145 | Register keeps memory and store together if and only if it is given the stored credential. |
| RegistrySafety.UpdateCoherent | internal/credentials/registry.go:226-235 | Update and ReviseSecret do if and only if a payload the store does not seal says what is stored. |
| RegistrySafety.StepCoherent | internal/credentials/registry.go:304-334 | Every action, failed writes included, keeps what is or is about to be published equal to what is stored, if and only if those two conditions hold. |
| RegistryRuns.MemoryEqualsStore | internal/credentials/registry.go:264-335 | Whenever the install lock is free the published credential is the durable one, on every sequence of steps that meets the callers' conditions. |
| RegistryRuns.RefreshRunIsChain | internal/credentials/registry.go:510-563 | On every sequence of steps that installs nothing, the credential left is the first one with the answers that sequence committed merged over it in order. |
| RegistryRuns.RefreshRunKeeps | internal/credentials/registry.go:519-534 | So no such sequence loses the refresh token, the sign-in kind, a provider-data key or usability, and each part of the credential left, its expiry too, is the newest one among the answers committed. |
| RegistryRuns.WindowLosesImport | internal/credentials/registry.go:608-625 | For every stored and answered credential and every import that is not empty and differs once filled in: a capture between Import's bump and publication commits over the published import, in memory and store. |
| RegistryFate.RefreshReplacesItsOwn | internal/credentials/registry.go:498-563 | On every sequence of steps a refresh about to write or to publish replaces the credential its exchange started from if and only if no import in whose window it captured has published since; otherwise it replaces that import. |
| RegistryFate.RefreshWritesOverItsOwn | internal/credentials/registry.go:535-550 | On every sequence that meets the callers' conditions its durable write replaces the same credential in the store, under the same condition. |
| RegistryGenerations.RefreshCommitsIff | internal/credentials/registry.go:535-541 | On every run a refresh that has its answer and the install lock commits if and only if nothing replaced the credential since its capture, and is otherwise superseded; registering, seeding or importing the very credential held does not count. |
| RegistryGenerations.GenerationStep | internal/credentials/registry.go:605-614 | The generation counts replacements: another credential registered or seeded, another one imported, from before its write, or one stored by Update or ReviseSecret; nothing else moves it. |
| RegistryGenerations.ExchangerIsNewest | internal/credentials/registry.go:199-205 | Registering, seeding and a stored update set the exchanger, also where the credential stays. |
| RegistryGenerations.FilledIs | internal/credentials/registry.go:592-605 | An import takes provider data and sign-in kind from the stored row where it gives none, and everything else as given. |
| RegistryProgress.CheckLosesMarker | internal/credentials/registry.go:398-433 | For the last call that answers for a marker, checking keeps the marker answered for if and only if the exchange it joins has not committed, or with none in flight there is an exchanger. |
| RegistryProgress.StepMarked | internal/credentials/registry.go:469-498 | Every other action keeps a non-empty marker equal to the current access token and answered for by a ForceRefresh call. |
| RegistryProgress.MarkerIsCurrent | internal/credentials/registry.go:469-498 | On every sequence of steps, late joins included, a non-empty marker is the current access token. |
| RegistryProgress.MarkerOutlivesNoCall | internal/credentials/registry.go:469-498 | On every sequence in which no check loses the marker it is gone once no ForceRefresh call that was refused it is in progress. |
| RegistryProgress.LateJoinKeepsRefusedToken | internal/credentials/registry.go:463-498 | A ForceRefresh that joins a refresh already committed returns the token it was refused and leaves the marker set. |
| RegistryProgress.WaitingEnds | internal/credentials/registry.go:286-307 | Waiting goes to the registry mutex, to the slot's owner, to the install lock, and never comes round. |
| RegistryProgress.NeverStuck | internal/credentials/registry.go:130-145 | No reachable state is stuck: from any thread at most two waits lead to one that can move. |
| RegistryProgress.SlotHasOneOwner | internal/credentials/registry.go:286-305 | On every sequence of steps the slot has at most one owner, an exchange or an Update, never both. |
| RegistryProgress.WaiterGetsTheResult | internal/credentials/registry.go:404-420 | A waiter on a released slot returns what that call's owner returned, or checks again. |
| RegistryProgress.ClosedCallsStay | internal/credentials/registry.go:434-456 | What a closed call tells its waiters never changes. |
| UsageCapture.Capture.Step | internal/ingress/native_usage.go:170-235 | One byte changes the scanner's fields as the byte automaton says. |
| UsageCapture.Capture.Write | internal/ingress/native_usage.go:157-168 | A write scans its bytes until the capture is done and accepts all of them. |
| UsageCapture.Capture.Value | internal/ingress/native_usage.go:150-155 | The captured object is reported once complete and within the limit. |
| UsageCapture.ChunkingIrrelevant | internal/ingress/native_usage.go:157-168 | However a document is cut into writes, the scanner ends in the same state. |
| UsageCapture.BuffersBounded | internal/ingress/native_usage.go:170-178 | On any bytes at all the buffers stay within 64 KiB and 16 bytes. |
| UsageCapture.LimitRefines | internal/ingress/native_usage.go:170-178 | The limited scanner is the unlimited one until the object outgrows the limit. |
| UsageGrammar.CaptureAgrees | internal/ingress/native_usage.go:134-235 | For every JSON text under any chunking the scanner reports exactly the first top-level object under a key it reads as "usage", if it fits, and otherwise nothing. |
| UsageGrammar.CaptureFindsUsage | internal/ingress/native_usage.go:130-133 | With no backslash in a top-level key that is the first top-level member named "usage" whose value is an object. |
| UsageGrammar.NamesUsageIff | internal/ingress/native_usage.go:130-133 | A key names "usage", in whatever way JSON lets it be written, if and only if it has five characters, each the letter itself or its escape by code. |
| UsageGrammar.CaptureIsNamedIff | internal/ingress/native_usage.go:179-197 | For every JSON text under any chunking the scanner reports the object named "usage" if and only if the first object whose key is read as "usage" or means it does both, or there is none, or the two objects are reported alike. |
| UsageGrammar.OneMemberFound | internal/ingress/native_usage.go:179-197 | On a text of one member the scanner and the names disagree exactly when they disagree on its key. |
| UsageGrammar.EscapedKeyMissed | internal/ingress/native_usage.go:181-184 | A key that spells "usage" with an escape is missed. |
| UsageGrammar.EscapedKeyTaken | internal/ingress/native_usage.go:181-184 | A key with an escape before "usage" is taken for it. |
| ComboGraph.SoundMeans | internal/runtime/combo.go:218-222 | Sound means that every nested member names a Combo, no Combo reaches itself, and no nesting chain has more than eight Combos. |
| ComboGraph.RankedIsSound | internal/runtime/combo.go:236-252 | Finished heights, each above those of the Combos named, prove soundness. |
| ComboGraph.SoundBelow | internal/runtime/combo.go:236-252 | What is sound at a Combo is sound at the Combos it names. |
| ComboNames.AcceptedIff | internal/runtime/combo.go:222-267 | A compiled set is accepted if and only if every nesting chain by key whose inner Combos have their keys for names is at most eight long and, when its end has too, names only known Combos and none twice. |
| ComboNames.HiddenCycleHasUntrimmedName | internal/runtime/combo.go:240-244 | A cycle in an accepted set goes through a Combo stored under another name than its own. |
| ComboNames.SelfNestedAcceptedIff | internal/runtime/v1_migration.go:424-424 | A Combo that names itself is accepted if and only if its name has space around it. |
| ComboCheck.Search.Visit | internal/runtime/combo.go:225-255 | The memoised visit refuses only unsound Combos and otherwise returns the longest chain's length; it ends because unvisited names run out. |
| ComboCheck.CheckNestedCombos | internal/runtime/combo.go:222-267 | The check accepts exactly the sound Combos, in whatever order it visits them. |
| ComboRuntime.BudgetKept | internal/ingress/fusion_serving.go:104-116 | With plain judges every call served by further calls keeps its depth plus the longest chain below within eight. |
| ComboRuntime.RowGoesByEdgeOrJudge | internal/runtime/combo.go:246-251 | In an accepted set a Combo that serves another by further calls serves a nested member, which the compiler bounds, or its judge, which it does not look at. |
| ComboRuntime.AcceptedIsNeverRefused | internal/ingress/fusion_serving.go:108-111 | So an accepted Combo set never meets the refusal when no judge is such a Combo. |
| ComboRuntime.NestingEnds | internal/ingress/fusion_serving.go:141-150 | Whatever the Combos and judges, calls nest at most eight deep. |
| ComboJudges.ServedByCallsIff | internal/ingress/fusion_serving.go:78-86 | A request is served by further ones if and only if its target is a Fusion, or has no slash and names a Combo with a selected member that has a model and no provider. |
| ComboJudges.PanelByMembers | internal/ingress/fusion_serving.go:169-177 | The panel is, in order, the selected members that name a model, a Combo by its name and any other by provider and model. |
| ComboJudges.JudgeByConfiguration | internal/ingress/fusion_serving.go:240-243 | The judge is the one configured and, where none is, the first of the panel. |
| ComboJudges.PassesIff | internal/ingress/combo_walk.go:27-53 | A request may fail in a way a walk falls past if and only if, above the depth limit, its target is not a Fusion of more than eight models, a Fusion of one target that cannot fail so, or a walk with such a member. |
| ComboJudges.TextIff | internal/ingress/fusion_serving.go:168-246 | A request may be answered with text if and only if the configuration lets it: a live model, a Fusion of at most eight with one model that answers, a walk that can come to one. |
| ComboJudges.StandsIff | internal/ingress/fusion_serving.go:104-116 | Any other answer is possible if and only if the request is not refused for its depth, by itself or as a Fusion of one whose model is. |
| ComboJudges.WalkServesIff | internal/ingress/policy.go:203-226 | A walk may serve a target if and only if it can be put first, or everything that must come before it can be fallen past. |
| ComboJudges.CallsIff | internal/ingress/fusion_serving.go:168-246 | A request may lead to another if and only if the target is a selected member that is reached, or the judge of two to eight models of which two can answer. |
| ComboJudges.RefusalMetIff | internal/ingress/fusion_serving.go:104-116 | Whatever the Combos and judges, some request meets the depth refusal if and only if nine Combos stand in a row, each called by the one before at its depth as the configuration lets it. |
| ComboJudges.AcceptedMeetsNone | internal/ingress/fusion_serving.go:108-111 | With plain judges no request on an accepted set meets it. |
| ComboJudges.SelfJudgeRefusedIff | internal/ingress/fusion_serving.go:178-246 | A Fusion of plain models that judges itself leads to the refusal if and only if it has at most eight models and two of them can answer. |
| ComboImport.SoundForth | internal/runtime/combo.go:222-267 | What is sound in a set stays sound when Combos are added around it. |
| ComboImport.NextToStore | internal/runtime/v1_migration.go:558-561 | Below a sound Combo not yet stored there is one whose nested members are all stored. |
| ComboImport.PutCombo | internal/runtime/combo_store.go:24-42 | A new Combo is stored exactly when its name is free, the compiler accepts the result and no write fails; a refusal changes nothing. |
| ComboImport.Pass | internal/runtime/v1_migration.go:562-568 | A pass that stores nothing leaves only Combos none of which could be stored, unless a write failed. |
| ComboImport.ApplyCatalog | internal/runtime/v1_migration.go:558-576 | The retry loop ends; every planned Combo it stored is sound among all stored and planned ones, and all that are sound are stored, in whatever order the plan lists them, unless a write failed; the others are reported. |
| ComboWalk.ProbeWriter.Commit | internal/ingress/combo_walk.go:111-129 | The held answer goes to the client once. |
| ComboWalk.ProbeWriter.Do | internal/ingress/combo_walk.go:82-103 | After any calls of a member a success has gone straight to the client and anything else is held within 64 KiB with nothing sent. |
| ComboWalk.WalkCombo | internal/ingress/combo_walk.go:27-53 | The client gets the answer of the first member that decides and nothing of those before it, or the exhausted error when none does, unless and only unless it leaves at a look the walk comes to. |
| ComboWalk.DecidesByStatus | internal/ingress/combo_walk.go:44-52 | A success decides and is given whole, silence decides as an empty 200, and any other status decides if and only if the Combo does not fall past it and the first 64 KiB of its body, which is what is given. |
| ComboWalk.StatusByFirst | internal/ingress/combo_walk.go:82-103 | A member's status is that of its first call, a header's own or 200 for a body. |
| ComboWalk.BodyByCalls | internal/ingress/combo_walk.go:90-103 | Its body is all it writes, in order. |
| ComboWalk.ReplyIsWholeIff | internal/ingress/combo_walk.go:71-73 | A deciding answer reaches the client whole if and only if it succeeds or its body is within the limit. |
| SseRelay.MisreadLooksBlank | internal/ingress/ingress.go:933-940 | A line's last fragment looks blank if and only if the line is blank or is a long line of the misread kind. |
| SseRelay.EventsAgree | internal/ingress/ingress.go:929-944 | The events formed from fragments are those the lines say if and only if no line before the last is misread. |
| SseRelay.CopyTerminalSSE | internal/ingress/ingress.go:902-966 | Unless the client leaves or a write fails at a moment the relay comes to, it stops at an event over 4 MiB, else fails when reading does, else finishes with all other events in order and one terminal part; after a failed read all events formed have been passed on, and whatever happens the client has a prefix of the full relay. |
| SseRelay.Emit | internal/ingress/ingress.go:918-928 | A terminal event replaces the one held; any other is written. |
| SseOutputs.OutputsAgreeIff | internal/ingress/ingress.go:902-944 | The relay writes what the lines say, whatever counts as terminal and whatever is sent for an early end, if and only if no line before the last is misread. |
| SseOutputs.OutputReadBackIff | internal/ingress/ingress.go:902-966 | A client reads back the events the relay wrote, the others and one terminal part, if and only if the last event of the stream is ended by a blank line or is terminal. |
| SseEvents.ConcatEvents | internal/ingress/ingress.go:933-944 | Well-framed events written one after another are read back as they were. |
| SseEvents.RelayIsIdempotent | internal/ingress/ingress.go:889-891 | On well-framed streams the output's events are the other events and one terminal part, and relaying it again changes nothing. |
| SseTerminal.ResponsesTerminalIff | internal/ingress/responses_stream.go:11-36 | For every event, whatever its lines, it ends a Responses stream if and only if one of them, a carriage return aside, is the name response.completed, response.failed or response.incomplete or data of one of these types. |
| SseTerminal.MessagesTerminalIff | internal/ingress/responses_stream.go:45-61 | And a Messages stream if and only if one of them names message_stop or is data of that type. |
| SseTerminal.NamedSays | internal/ingress/responses_stream.go:12-13 | The lines of an event with a name and data are these two and blank ones. |
| SseTerminal.RelayedOnce | internal/ingress/ingress.go:902-966 | Of several events that end it the last is kept and comes last; a stream with one is relayed with every event once and that one last, unchanged if it came last; with none the part for an early end is added. |
| SseTerminal.ResponsesRelayed | internal/ingress/ingress.go:894-900 | So a Responses stream that ends with its one completed, failed or incomplete event is relayed as it is, and only one without such an event is reported as failed. |
| SseTerminal.MessagesRelayed | internal/ingress/ingress.go:894-900 | The same for a Messages stream and its message_stop. |
| SseStreams.ResponsesIncompleteEnds | internal/ingress/responses_stream.go:39-43 | The part sent for an early end of a Responses stream is one well-framed terminal event. |
| SseStreams.MessagesIncompleteEnds | internal/ingress/responses_stream.go:63-65 | That of a Messages stream is an error event and then the terminal one. |
| SseStreams.StreamsAreIdempotent | internal/ingress/ingress.go:894-900 | Both streams can be relayed again without change. |
| SseStreams.LongLineLosesTheEnd | internal/ingress/ingress.go:933-940 | A misread line inside a terminal event sends the event's blank line ahead of it and leaves the event without its end. |
| SseStreams.LongLineInMessages | internal/ingress/responses_stream.go:45-61 | That happens to a Messages stream for every misread line. |
| Dispatch.TraceKeeps | internal/ingress/combo_serving.go:343-369 | The trace keeps the first model that failed, each model's last status and the last message. |
| Dispatch.Attempts.FailedAttempt | internal/ingress/dispatch.go:212-217 | The latest failed attempt replaces the one before, whose body is closed. |
| Dispatch.Attempts.Accept | internal/ingress/dispatch.go:461-479 | A success is recorded against its account when it reports a refused credential, whatever was recorded before, and is passed over exactly when what it reports allows it and another candidate and budget remain. |
| Dispatch.Attempts.HostRefused | internal/ingress/dispatch.go:481-497 | A refused host is followed by the next while hosts and budget last, else its answer is held back, and the last host's refusal is recorded only if none was before. |
| Dispatch.Attempts.Classified | internal/ingress/dispatch.go:523-568 | A refusal is retried once, passed over or returned as its outcome says, and recorded only if none was before. |
| Dispatch.Attempts.TrySlot | internal/ingress/dispatch.go:366-570 | A candidate's loop takes exactly the turns the script gives and leaves the variables, counts, bodies and recordings those turns lead to. |
| Dispatch.Attempts.Conclude | internal/ingress/dispatch.go:572-594 | With no answer, the result is the verdict on what happened: a Combo's first failed model and last message, else the latest failed attempt, else the first inexpressible request, else the last candidate without a credential; only its body stays open. |
| Dispatch.DispatchAttempts | internal/ingress/dispatch.go:200-595 | For any surroundings the loop goes through the script's events: it sends as many requests, within the budget, records the same accounts in the same order, gives the script's answer and leaves open its body and no other. |
| DispatchTheorems.RequestsBounded | internal/ingress/dispatch.go:253-570 | Requests stay within the budget, go out in candidate order and only to candidates with an account that could be readied, each at most once an endpoint, once more for a retry and once more for a replay; nothing follows an answer. |
| DispatchRules.CandidatesInOrder | internal/ingress/dispatch.go:229-287 | Candidates come one after the other, none left out; each begins with the wait the client leaves in, else with its missing account, else, within the budget, with what readying it comes to, else with a turn. |
| DispatchRules.SuccessLeadsTo | internal/ingress/dispatch.go:443-480 | A success that reports nothing ends the request and is its answer; one that reports a failure is too, unless the failure may be passed over and another candidate and budget remain; one that cannot be folded is passed over. |
| DispatchRules.RefusalLeadsTo | internal/ingress/dispatch.go:481-568 | A refusal of 401, 403 or 404 by a Kiro host has the next host asked while hosts and budget last; any other is replayed once on another wire, retried once, passed over or given to the client, each exactly when its outcome, what was read, the candidates left and the budget say so. |
| DispatchRules.OthersLeadTo | internal/ingress/dispatch.go:258-442 | Of all that can happen without an answer only a client that left, a missing master key and an address that is not allowed end the request; anything else goes on to the next candidate. |
| DispatchVerdicts.CountsAt | internal/ingress/dispatch.go:428-460 | A request counts for every send that failed or was answered and for nothing else, and a body for every answer, one more where a success is folded. |
| DispatchTheorems.SecondCooledIff | internal/ingress/dispatch.go:481-545 | The candidates recorded for a refused credential are distinct and in order: one for all refusals by status together and one for every missing credential and every refusal reported in a success. A second one is recorded if and only if two events mark one and at most one of the two is a refusal by status. |
| DispatchVerdicts.CooledIff | internal/ingress/dispatch.go:481-545 | A candidate is recorded as needing authentication if and only if its credential was missing or reported refused in a success, or it met the first refusal by status, which is a 401 or 403 of a Kiro provider's last host or an answer so classified that is not replayed. |
| DispatchTheorems.ReportedRefusalsCoolAll | internal/ingress/dispatch.go:461-473 | When every candidate reports its credential refused in a success, every candidate the budget reaches is recorded. |
| DispatchTheorems.AnswersSettle | internal/ingress/dispatch.go:554-568 | An answer given arrived and may not be passed over, and one left for the next candidate may: its outcome is not to stand, its body was read, and another candidate and budget remain. |
| DispatchTheorems.CalmIsAnswered | internal/ingress/dispatch.go:572-594 | A client that stays gets an answer that arrived, or is told that the master key is missing or an address is not allowed, or gets the verdict on the failures; it is never told that it left. |
| DispatchVerdicts.ComboSays | internal/ingress/combo_serving.go:343-369 | A Combo none of whose models answered reports the last status of the model that failed first and the last message of all. |
| DispatchVerdicts.OtherwiseSays | internal/ingress/dispatch.go:572-594 | Otherwise the last attempt that reached an upstream stands, by its response if it has one; else a candidate without hosts; else the first request no wire could express; else the last candidate without account or credential; else no account is eligible. |
| DispatchVerdicts.LeavingSays | internal/ingress/dispatch.go:572-576 | A client that leaves in the last wait is told so. |
| DispatchTurns.EveryCandidateConsidered | internal/ingress/dispatch.go:253-287 | A request that ends without an answer, with budget left, has had every candidate considered. |
| DispatchTurns.NeverStarvedIff | internal/ingress/combo_serving.go:39-42 | A candidate with an account gets its turn however those before it fail if and only if the requests they can take together are fewer than the budget. |
| DispatchTurns.EarlierModelStarves | internal/ingress/combo_serving.go:94-94 | Ten accounts of the first of two models can use up both models' budget. |
| KiroRepair.FourCallsAtMost | internal/ingress/kiro_gate.go:51-58 | No host of a repair walk gets more than four requests. |
| KiroRepair.NextByStatus | internal/ingress/kiro_gate.go:51-58 | For every script a host is asked again after a failed send, a 502 or a 503 up to three times and after a 504 twice, while less than ten requests are used; else after a failed send, 401, 403, 404 or 429 the next host is asked; and a walk goes on in no other way. |
| KiroRepair.EndByStatus | internal/ingress/kiro_gate.go:76-156 | The walk returns its last status, or reports the hosts unreachable, if and only if neither the same host nor another is to be asked by these rules and the client stays; else it ends for the client, for want of a target, or with the budget. |
| KiroRepair.Repair.Run | internal/ingress/kiro_gate.go:76-156 | The walk is the one its script gives: it retries in place and moves on as its rules say, returns a reply or reports the hosts unreachable only when none may be tried further, stops for the client only at a failed send or before a retry, never sends beyond ten counted requests, closes every body but the one returned, and records its ending exactly in the stated cases. |
| KiroRepair.ServeWithRepair | internal/ingress/combo_serving.go:94-94 | A request goes as its surroundings say and its repair as the script says from the count it left; together they send at most ten requests a model, and of all bodies obtained only those returned stay open. |
| KiroRepair.RefusalUnrecordedIff | internal/ingress/kiro_gate.go:76-156 | For every script, number of hosts and count: a walk whose last reply is a refusal records nothing if and only if the client left while a retry was awaited, no further target was found, or the budget was used up with no failed send before. |
| KiroRepair.BusyHostsUnrecordedIff | internal/ingress/kiro_gate.go:103-109 | When every host answers 429 that is so if and only if the hosts outnumber the requests left. |
| RequestLog.NoLostWakeup | internal/app/request_log.go:68-92 | On every interleaving the flag says whether exactly one thread owns draining, and once no thread is mid-step a queue that is not empty has that owner. |
| RequestLog.ConservedStep | internal/app/request_log.go:80-92 | Every step keeps accepted lines equal to those written, in hand and queued, in order, within 512. |
| RequestLog.AcceptedOrDropped | internal/app/request_log.go:68-78 | On every run a line offered is accepted, or dropped if and only if the queue holds 512, and no other step changes what was accepted or dropped. |
| RequestLog.AllWritten | internal/app/request_log.go:68-92 | When every thread has finished, every accepted line has been written, in the order accepted. |
| Telemetry.EvictionKeepsCriticals | internal/telemetry/telemetry.go:213-226 | Eviction leaves every critical event, in order. |
| Telemetry.Service.EvictDiagnostic | internal/telemetry/telemetry.go:213-226 | The scan removes the oldest diagnostic if there is one. |
| Telemetry.Service.TakeBatch | internal/telemetry/telemetry.go:229-241 | A batch is the oldest events, and the rest stay. |
| Telemetry.Service.Flush | internal/telemetry/telemetry.go:305-350 | The critical events of a batch are all written or all lost, or with no sink neither; a loss degrades health. |
| Telemetry.Service.Record | internal/telemetry/telemetry.go:174-198 | With no step between, a critical event is lost only when the queue is full of critical events, and otherwise a diagnostic gives way. |
| TelemetryRuns.StepConserves | internal/telemetry/telemetry.go:174-241 | Every step of recorders, batcher and Close keeps any choice of critical events accounted for once. |
| TelemetryRuns.FlushByAnswer | internal/telemetry/telemetry.go:332-350 | A flush empties the batch; with a sink its critical events are written when the sink takes them and lost when it does not, and without one they are neither. |
| TelemetryRuns.CriticalsConserved | internal/telemetry/telemetry.go:168-241 | Critical events admitted are those written, lost, queued, in the batch or still in Record if and only if none was flushed without a sink, and so always with one; they leave the queue only with a batch and in order; and the queue keeps its bound. |
| TelemetryRuns.DrainedIsAccounted | internal/telemetry/telemetry.go:305-350 | Once drained, each admitted critical event has been written or counted as lost, as often as admitted, if and only if none was flushed without a sink. |
| TelemetryLosses.LostIff | internal/telemetry/telemetry.go:190-227 | On every run a call's event is lost, or about to be, if and only if the queue held no diagnostic at its scan or had no room at its last attempt. |
| TelemetryLosses.FullOfCriticalsIff | internal/telemetry/telemetry.go:168-173 | Over any stretch of a run the queue ends full of critical events if and only if what entered and left makes up its bound and leaves no diagnostic. |
| TelemetryLosses.LossAtEvictIff | internal/telemetry/telemetry.go:190-197 | A loss at the scan is of the promised kind if and only if as many events entered the queue since it was found full as left it. |
| TelemetryLosses.LossAtLastIff | internal/telemetry/telemetry.go:190-197 | A loss at the last attempt is, while the service is open, if and only if as many diagnostics left since the eviction as were queued and entered. |
| TelemetryLosses.UndisturbedLossIff | internal/telemetry/telemetry.go:190-197 | With no step between a call's own and the service open, it loses its event if and only if the queue is full of critical events. |
| TelemetryLosses.LostWithEmptyQueue | internal/telemetry/telemetry.go:190-197 | An event is lost while the queue is empty, because a batch took everything before the scan. |
| TelemetryLosses.LostAfterClose | internal/telemetry/telemetry.go:168-173 | An event admitted just before Close is lost from an empty queue. |
| TelemetryRuns.RoomTaken | internal/telemetry/telemetry.go:168-173 | With a step between, an event is lost while the queue holds a diagnostic. |
| TelemetryRuns.SinkNeeded | internal/telemetry/telemetry.go:332-343 | Without a sink some run of any Service with room flushes a critical event that is neither written nor lost. |
| TelemetryRuns.SinkNeededIff | internal/telemetry/telemetry.go:332-343 | Every critical event is accounted for on all runs if and only if there is a sink or the queue has no room. |
| Lifecycle.ReplacementClears | internal/credentials/store.go:328-351 | Every replacement counts once in the revision and clears test, error and model count, whatever status it names. |
| Lifecycle.SameMaterialIff | internal/credentials/status.go:145-168 | Two credentials are the same for a save if and only if their tokens and cookie are and every key that holds a credential has the same value, an empty one counting as none; expiry, sign-in kind and other provider data do not matter. |
| Lifecycle.OtherSavesKeep | internal/credentials/store.go:328-351 | Any other save keeps revision, test and models; only an acceptance touches status and error; a save without a secret changes nothing of these. |
| Lifecycle.ResealIsNoReplacement | internal/credentials/status.go:111-145 | A save of the stored credential is no replacement, also on a row stored without a digest whose credential opens. |
| Lifecycle.TestDataIsCurrent | internal/credentials/store.go:328-351 | In every reachable row a last test, error, model count or failed status was measured at the current revision, the status is failed exactly when an error is kept, and the digest is the stored credential's. |
| Lifecycle.RevisionCounts | internal/credentials/store.go:343-343 | The revision counts replacements and nothing else: no rotation, reseal, digest fill or result moves it. |
| Lifecycle.ResultRecordedIff | internal/credentials/status.go:50-85 | A result is recorded if and only if no replacement came since its credential was read, and is otherwise refused without effect. |
| Lifecycle.ResultAfterDeletionIff | internal/credentials/status.go:59-85 | After a deletion and a new save a result for the old row is recorded if and only if the new row has been replaced as often as the old revision says. |
| Lifecycle.ResultDescribesStoredIff | internal/credentials/registry.go:599-625 | With no replacement since its read a result is recorded; it describes the stored credential if and only if no refresh or import wrote one since, or the last wrote the same. |
| Lifecycle.ConnectionStore.PutConnection | internal/credentials/store.go:268-380 | A refused save changes nothing. A new row holds the sealed credential, its digest and expiry, the named status or untested, the named origin, revision 0 and no test data. A stored row keeps everything when nothing is saved; else it takes the credential, digest and expiry, and revision, status, origin, error and test data are fixed by whether the credential is replaced and whether it is named active. |
| Lifecycle.ConnectionStore.RotateSecret | internal/credentials/store.go:399-418 | A rotation replaces credential, digest and expiry, keeps lifecycle and revision, and refuses an empty payload. |
| Lifecycle.ConnectionStore.DeleteConnection | internal/credentials/store.go:568-583 | A deletion removes its row and no other, and is refused for an unknown id. |
| Lifecycle.ConnectionStore.RecordValidation | internal/credentials/status.go:59-85 | A result is written only to a row at the revision it names: a pass sets active, clears the error and counts the models it listed, a failure sets failed and its error and keeps the count; otherwise the row stays and the reason is told. |
| Glob.MatchesByParts | internal/pricing/pricing.go:66-70 | Matching character by character and matching the parts between stars in order agree. |
| Glob.LeftmostIsEnough | internal/pricing/pricing.go:75-81 | Taking the leftmost occurrence of a part loses no match and finds no false one. |
| Glob.GlobMatch | internal/pricing/pricing.go:66-84 | The greedy matcher answers true if and only if each star can stand for some run with the literal parts in order. |
| Glob.MatchPattern | internal/pricing/pricing.go:60-64 | A model matches a pattern if and only if it does with every character folded, for any folding that leaves stars and nothing else as stars. |
| History.LongestPrefix | internal/ingress/capstrip.go:72-95 | A number of older turns is kept if and only if it is none, or within the first six and, with all that is always kept, at most 80% of the window at four characters a token, 200000 tokens when none is given. |
| History.LengthsByValue | internal/ingress/capstrip.go:118-144 | A text counts its units, a block its text's or 50, anything else nothing, and parts count only where there is no content. |
| History.PartsByRole | internal/ingress/capstrip.go:50-68 | A system or developer message joins the messages always kept, any other the turns. |
| History.OlderByRole | internal/ingress/capstrip.go:69-75 | The older turns reach up to the last assistant or model message, and a list is as long as its messages together. |
| History.LargerWindowKeepsMore | internal/ingress/capstrip.go:75-79 | A larger window keeps at least as long a prefix of the older turns. |
| History.SystemAndTailKept | internal/ingress/capstrip.go:16-23 | Every system and developer message and the whole trailing run are kept in order, and nothing is added or repeated. |
| History.FittingIsIdempotent | internal/ingress/capstrip.go:16-23 | Fitting a fitted history again changes nothing. |
| History.FitHistory | internal/ingress/capstrip.go:41-106 | The loops compute the fitted history, unchanged when no older turn is dropped. |
| History.StripHistoryForContext | internal/ingress/capstrip.go:24-40 | The first array among messages, input and contents is fitted and the rest of the body stays. |
| Rotation.RuntimeState.ComboRotation | internal/runtime/state.go:57-74 | A call returns an index within the list and advances only its own key's position. |
| Rotation.RuntimeState.NextCursor | internal/runtime/state.go:36-42 | Each call gets the next number of its provider's cursor. |
| Rotation.ClosedForm | internal/runtime/state.go:50-74 | With constant length and limit the i-th call starts at (i / limit) mod length. |
| Rotation.EachStartAlike | internal/runtime/state.go:50-74 | Any length times limit calls in a row use each start exactly limit times. |
| Accounts.OneStableSort | internal/routing/accounts.go:79-79 | Ordered lists that agree on each priority are equal, so a stable sort has one result. |
| Accounts.SortIsStable | internal/routing/accounts.go:79-79 | The sort orders by priority and keeps the accounts of each priority as they came. |
| Accounts.EligibleByRule | internal/routing/accounts.go:66-78 | The eligible accounts are, in order, those enabled, with an id, not excluded and passing the check. |
| Accounts.Select | internal/routing/accounts.go:64-96 | The candidates are any stable sort of the eligible accounts, rotated to the start: the first for fill-first, the cursor for round-robin, the cursor divided by the limit for sticky round-robin, modulo their number. |
| Accounts.RotationAgreesWithSelect | internal/routing/accounts.go:86-91 | Combo rotation and cursor-based selection start alike, request by request. |

## Left out

- NoLostWakeup: says nothing of fairness: that the owner is scheduled is not modelled.
- NeverStuck: shows that some thread can always move, not that every thread eventually does.
- CriticalsConserved: takes diagnostics to carry their detail, as the Service builds them.
- MatchPattern: takes names as characters; text that is not valid UTF-8 is outside it.
- LongestPrefix: compares exactly where the code multiplies in floating point.
- ClosedForm: cursors do not wrap at 64 bits.
- DispatchAttempts: does not model the abandoned-request record, live counters, the details capture, or cooldowns recorded for anything but a refused or missing credential; History covers the fitting done before a candidate is prepared.
- StreamsAreIdempotent: takes for granted that the payload of the error event has type "error".
- PutCombo: models the save of a new Combo. The importer gives its Combos ids of "v1-" and the name, and a save replaces a stored Combo of the same id; here no stored Combo has such an id.
- ApplyCatalog: covers Combos with new, distinct names that equal their trimmed keys. Aliases, stored before them, are left out.
- AcceptedIsNeverRefused: follows the depth carried by nested calls and lets a Combo make any call its members and judge name; `ComboJudges` says which it makes. Panel timing and prompt building are not modelled.
- Registry: Forget, the audit event of an import, connection metadata and identity checks, and provider-specific credential names beyond the outcome of the expiry check.
- Lifecycle: the metadata columns a save writes beside the credential, and the runtime configuration published with it.
- Price lookup, cost arithmetic, CORS, TLS, DNS, protocol adapters, provider hooks, backups, the UI and the command line: input and output, or single-branch data.
- copyStream's filtering of `[DONE]` lines; only the terminal-event relay is modelled.
- Settings validation tables and the migration plan's notes: data checks.
