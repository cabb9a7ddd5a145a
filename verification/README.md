# Models of the Partner runner and the ACME client

A Dafny model of two parts of the repository, with proofs about them. Check it with `dafny verify dfyconfig.toml`.

**The Partner's task engine** (`demo-partner/partners`). `TaskEngine.dfy` is a transition system whose steps run from
one `await` to the next: Start, Get, Cancel, Complete and Continue commands interleave with one background pipeline
per task (decision, audit, analysis, production), with Cancel handlers waiting for a pipeline, and with listener calls
that read the task later than the update that scheduled them. A pipeline asked to cancel makes no further write.
`TaskSafety.dfy` holds its invariant; `TaskCauses.dfy` tells by which events a task enters which state and
`TaskAnswers.dfy` what comes of verdicts, outputs and commands; `TaskRuns.dfy`, `TaskBounds.dfy`, `TaskAdmission.dfy`,
`TaskObservers.dfy`, `TaskDelivery.dfy`, `TaskLedger.dfy` and `DeliveredSkills.dfy` hold what follows for all runs.
`GenericRunner.dfy` is the runner as an object; every handler and stage is proved to perform its engine step.
`StreamBridge.dfy`, `StreamEnds.dfy`, `StreamUpdates.dfy` and `StreamHandler.dfy` put the stream handler and its hub on
top, `GroupBook.dfy`, `GroupRuns.dfy` and `GroupHandler.dfy` the group handler. The helpers are in `Requirements.dfy` (merging, slot and skill-id
normalisation), `CitySequence.dfy`, `SkillSelection.dfy`, `Analysis.dfy` (slot validation, one analysis reply),
`ProductionSkills.dfy` (the skills production runs) and `BraceScanner.dfy`.

**The ACME client** (`acps-cli/acps_cli/ca`). `NonceProtocol.dfy` models signed requests against a server that accepts
each nonce once, in every possible weather: requests and answers may be lost, the server may fail, refuse, omit the
fresh nonce or forget nonces. `AcmeClient.dfy` is the client as an object and `KeyAgreement.dfy` tells when client and
server agree on the account key. `Base64Url.dfy`, `Base64Table.dfy` and `KeyEncodings.dfy` model the text and integer
encodings, `KeyWorkspace.dfy`, `KeyStages.dfy`, `KeyFrames.dfy` and `KeyCommands.dfy` the key files that commands resolve, create, copy and
replace, `KeyLoss.dfy` a rollover at the server and in the workspace together, and `PemBundle.dfy` the certificate
scanner.

Language-model replies, the weather, the joined state of a group client, the keys a generator gives and the points at
which a command stops are inputs on which nothing is assumed.

Properties that turned out to need a condition come with the exact one:

- Open tasks can exceed the configured limit by any number, because Accepted tasks are not counted
  (`LimitCanBeExceeded`); the limit holds exactly when every admitted Start finds room (`LimitHoldsIff`).
- Ended tasks stay ended except for a repeated Start over the stream, which is not looked up (`TerminalKeptIff`,
  `RepeatedStreamStartReopens`).
- Normalisation is idempotent exactly for configurations that are not shadowed and do not rewrite away a skill
  (`NormalizeIdempotentIff`, `RouteOnlyForgets`); trimmed skill ids are not needed.
- Production can run a skill that lacks a slot (`StarvedDeliveryIff`, `ForeignPlannerStarves`) and can drop
  skills that were selected (`ForgettingReplyIff`, `ForgottenDeliveryIff`, `RouteOnlyForgets`), each exactly in configurations that can be
  told from their skill ids and fields (`Starves`, `Forgets` in `ProductionSkills.dfy`).
- Client and server can part over a key change whose acceptance is not heard (`KeysPartIff`, `KeysDifferIff`,
  `KeyChangeCanPart`).
- An issue or renewal can overwrite another agent's account key (`NewCertKeepsOthersIff`, `IssueCanOverwrite`).
- A rollover with `--new-key` can give two agents the same key (`RolloverSharesIff`, `KeysStayApartIff`,
  `RolloverCanShare`).
- A rollover can lose the account's key for good (`AccountKeyLostIff`, `LostForGood`).
- A stream task turned away at admission keeps its channel open (`DrainedStreamsAreClosed`).
- The brace scanner counts braces inside strings (`StringBracesCutTheScan`, with the exact condition in
  `ScanReturnsIff`).

## Model

| member | source | states |
|---|---|---|
| `TaskRuns.RunKeepsInv` | demo-partner/partners/generic_runner.py:640-720 | Every run from a state satisfying the engine invariant (one pipeline per task, histories that are paths, Cancel handlers tied to their pipeline, calls tied to history entries) keeps it, for every interleaving of commands, pipeline steps, resuming Cancels and listener calls |
| `TaskRuns.StepKeepsInv` | demo-partner/partners/generic_runner.py:1608-1689 | Each single event keeps the invariant although the status update itself tests nothing |
| `TaskRuns.StepRecords` | demo-partner/partners/generic_runner.py:647-711 | What an event does to a known task: nothing, or one edge of the state graph, appended to its history, announced to every listener and, if it ends the task, audited once with the mapped result |
| `TaskRuns.TerminalStays` | demo-partner/partners/generic_runner.py:640-658 | A Completed, Rejected, Failed or Canceled task never changes state or history again, over every run |
| `TaskRuns.TerminalKeptIff` | demo-partner/partners/stream_handler.py:62-67 | Exactly which event disturbs an ended task when Starts over the stream may name known ids: such a Start for that id, unless the task was turned away at admission and is turned away again |
| `TaskBounds.OnePipelinePerTask` | demo-partner/partners/generic_runner.py:937-940 | At most one pipeline of a task is live and the task refers to it; a live pipeline means Accepted or Working; Accepted or Working means a live pipeline or a Cancel handler waiting on the last one |
| `TaskBounds.ContinueOverwritesNothing` | demo-partner/partners/generic_runner.py:1671-1687 | A Continue that takes effect finds no live pipeline of its task, so the one it starts is the only one |
| `TaskBounds.CancelClearsOnlyItsOwn` | demo-partner/partners/generic_runner.py:1611-1632 | A Cancel handler that resumes clears no pipeline newer than the one it waited for, and leaves its task Canceled |
| `TaskBounds.HistoriesArePaths` | demo-partner/partners/generic_runner.py:652-656 | Every admitted task has a history that starts at Accepted, ends in its state and follows the state graph |
| `TaskBounds.PathLength` | demo-partner/partners/generic_runner.py:915-935 | The length of such a path is fixed by its end and by how often it enters Working, except that Failed and Canceled leave it open by one |
| `TaskBounds.HistoryLengthBound` | demo-partner/partners/generic_runner.py:1640-1689 | A history has at most four entries and two more for every Continue of the run that took effect |
| `TaskCauses.AsksBackIff` | demo-partner/partners/generic_runner.py:1258-1290 | The Leader is asked exactly if the reply rejects, names missing fields, or a checked skill (a selected one, or the first configured if none is) has not what it needs |
| `TaskCauses.StepBringsIff` | demo-partner/partners/generic_runner.py:850-1689 | A task enters a state exactly by an event that brings it, told by the state: Rejected only from a rejecting verdict, Failed from what a stage cannot go on with, AwaitingInput from a reply that asks back, and so on |
| `TaskCauses.HistoryIsBrought` | demo-partner/partners/generic_runner.py:647-658 | Over every run, a history is the sequence of states that the events brought the task |
| `TaskAnswers.VerdictDecides` | demo-partner/partners/generic_runner.py:1076-1115 | Over every run, at most one verdict reaches an admitted task; it is Rejected only after a rejecting one and goes to work only after an accepting one |
| `TaskAnswers.VerdictIsCarriedOut` | demo-partner/partners/generic_runner.py:1108-1124 | The step after the verdict rejects the task or takes it to work and on to analysis, as the verdict says, or fails it over a rejection that cannot be recorded |
| `TaskAnswers.PipelineReachesIff` | demo-partner/partners/generic_runner.py:1007-1577 | To which point a resumed pipeline gets, told by the point; one asked to cancel finishes and changes no task |
| `TaskAnswers.ProductIsLastText` | demo-partner/partners/generic_runner.py:1556-1577 | Over every run, the product of a task is the text that the last delivering event brought |
| `TaskAnswers.CancelIsAnswered` | demo-partner/partners/generic_runner.py:1608-1632 | A Cancel of an open task ends it at once, or, exactly if a pipeline of the task is live, asks that one to cancel and waits for it |
| `TaskAnswers.CancelledTasksEnd` | demo-partner/partners/generic_runner.py:1608-1632 | Whatever follows a Cancel of a known task: once no Cancel handler waits for the task, it has ended |
| `TaskAnswers.WaitingCancelCanFinish` | demo-partner/partners/generic_runner.py:1616-1632 | A waiting Cancel handler is never stuck, and its task ends Canceled |
| `TaskAnswers.CommandsTakeEffect` | demo-partner/partners/generic_runner.py:1634-1689 | A Complete ends a task that awaits completion, an effective Continue puts its task to work with a new pipeline that begins with analysis, an admitted Start begins with the decision |
| `TaskAdmission.AdmissionBound` | demo-partner/partners/generic_runner.py:860-935 | Once a task was admitted, open tasks never exceed the limit less one plus the peak number of simultaneously Accepted tasks |
| `TaskAdmission.EventKeepsLimitIff` | demo-partner/partners/generic_runner.py:860-872 | An event takes the open tasks over the configured limit exactly when it is a Start that is admitted although Active and Accepted tasks together fill the limit |
| `TaskAdmission.LimitHoldsIff` | demo-partner/partners/generic_runner.py:860-935 | A run keeps the open tasks within the limit throughout exactly when every Start it admits finds fewer Active and Accepted tasks than the limit |
| `TaskAdmission.LimitHoldsWithoutSimultaneousStarts` | demo-partner/partners/generic_runner.py:860-872 | If never two tasks are Accepted at once, that is so |
| `TaskAdmission.LimitCanBeExceeded` | demo-partner/partners/generic_runner.py:860-872 | The admission test does not see to it: for every limit that lets one task in and every number of tasks there is a run that ends with that many tasks at work |
| `TaskAdmission.RepeatedStreamStartReopens` | demo-partner/partners/stream_handler.py:62-67 | A run in which a repeated Start over the stream makes a Failed task Accepted again |
| `TaskObservers.ExactlyOneTerminalAudit` | demo-partner/partners/generic_runner.py:660-683 | Over every run, an admitted task that has ended was audited exactly once, with the result its state maps to, and no other task was audited |
| `TaskObservers.ListenersNeverGoBack` | demo-partner/partners/generic_runner.py:685-709 | A delayed listener call sees an entry at or after the one that scheduled it; what one listener sees of one task never goes back; everyone has seen, or will still be called for, the latest update |
| `TaskObservers.DrainedListenersAreCurrent` | demo-partner/partners/generic_runner.py:688-702 | Once no call is pending, the last state each listener saw of an updated task is its current state |
| `DeliveredSkills.DeliveredTasksPassedAnalysis` | demo-partner/partners/generic_runner.py:1258-1325 | In every run of every configuration, a task that awaits completion or is completed has exactly one product; its last analysis turn was a reply that neither rejected nor reported missing fields and with which all its skills had their slots; and its requirements are what production made of those |
| `DeliveredSkills.DeliveredTasksWereValidated` | demo-partner/partners/generic_runner.py:1258-1325 | Unless the configuration starves skills, every skill such a task ran had all its slots; unless it forgets them either, so had the first configured skill, which analysis checks in place of none |
| `DeliveredSkills.StarvedDeliveryIff` | demo-partner/partners/generic_runner.py:1440-1498 | Some run delivers a task that ran a skill without all its slots exactly when the configuration starves skills: a shadowing skill id can have its slots where the id it shadows lacks one, or the intercity skill is not configured, is read back as some other skill, and can have its slots for a trip with both ends and no luggage where that skill lacks one |
| `DeliveredSkills.ForgottenDeliveryIff` | demo-partner/partners/generic_runner.py:1440-1522 | Some run delivers a task that ran none of the skills its last reply selected exactly when the configuration forgets skills: the route skill is configured and the intercity skill is neither configured nor read back as another |
| `TaskDelivery.AnsweredSlotsStayAnswered` | demo-partner/partners/generic_runner.py:1227-1256 | Over every run, a slot a task was given stays given while no reply replaces `global` by a non-object |
| `TaskLedger.CommandHistoryIsComplete` | demo-partner/partners/generic_runner.py:713-720 | The command history of a task is exactly the commands of the run that reached it, in order, ignored ones included |
| `TaskLedger.RequirementsAreTheDialogue` | demo-partner/partners/generic_runner.py:1226-1256 | In every configuration the requirements of a task are what its analysis turns make of them, in order; cancellation, other commands and other tasks contribute nothing |
| `TaskLedger.SettledTurnsAreAbsorbed` | demo-partner/partners/generic_runner.py:1226-1256 | In a settled configuration they are its analysis replies absorbed in order |
| `PartnerRunner.GenericRunner.UpdateTaskStatus` | demo-partner/partners/generic_runner.py:640-711 | The whole effect of a status update, or the error for an unknown task |
| `PartnerRunner.GenericRunner.NotifyListeners` | demo-partner/partners/generic_runner.py:685-709 | One scheduled call per listener |
| `PartnerRunner.GenericRunner.RecordCommand` | demo-partner/partners/generic_runner.py:713-720 | Appends to the command history of a known task |
| `PartnerRunner.GenericRunner.CountActive` | demo-partner/partners/generic_runner.py:860-869 | The admission count is the number of Working, AwaitingInput and AwaitingCompletion tasks |
| `PartnerRunner.GenericRunner.CreatePipeline` | demo-partner/partners/generic_runner.py:937-940 | The new pipeline becomes the running future of its task |
| `PartnerRunner.GenericRunner.OnStart` | demo-partner/partners/generic_runner.py:850-942 | Known task: only the command is recorded. New task: turned away when busy, else admitted with its pipeline |
| `PartnerRunner.GenericRunner.OnCancel` | demo-partner/partners/generic_runner.py:1608-1615 | Up to its suspension: the command recorded, a live pipeline asked to cancel, else the task ended |
| `PartnerRunner.GenericRunner.ResumeCancel` | demo-partner/partners/generic_runner.py:1616-1632 | After its pipeline is done: future cleared, task Canceled unless it had ended |
| `PartnerRunner.GenericRunner.OnComplete` | demo-partner/partners/generic_runner.py:1634-1638 | Completes only a task that awaits completion |
| `PartnerRunner.GenericRunner.OnContinue` | demo-partner/partners/generic_runner.py:1640-1689 | Takes effect exactly for awaiting tasks and non-blank text |
| `PartnerRunner.GenericRunner.Dispatch` | demo-partner/partners/generic_runner.py:1691-1744 | Each command has the effect of its engine event, an unknown task or command that of none, and the answer is the task as the command left it or the error code; the only one that comes later is that of a Cancel whose task has a live pipeline |
| `PartnerRunner.GenericRunner.DecisionStep` | demo-partner/partners/generic_runner.py:1007-1124 | The decision stage from one suspension to the next |
| `PartnerRunner.GenericRunner.AnalysisStep` | demo-partner/partners/generic_runner.py:1226-1333 | The analysis stage once its reply is there, into production if nothing is missing |
| `PartnerRunner.GenericRunner.BeginProduction` | demo-partner/partners/generic_runner.py:1432-1577 | Production up to its first suspension |
| `PartnerRunner.GenericRunner.ResumePipeline` | demo-partner/partners/generic_runner.py:1007-1577 | Every pipeline step, that of a cancelled one included, is the engine's |
| `PartnerRunner.GenericRunner.RunListener` | demo-partner/partners/generic_runner.py:695-709 | A listener call finds the task as it is when it runs |
| `Requirements.DeepMerge` | demo-partner/partners/generic_runner.py:161-179 | The key-by-key, slot-by-slot loop computes the merge: nested objects slot-wise with nulls skipped, everything else replaced |
| `Requirements.FalsyIff` | demo-partner/partners/generic_runner.py:944-986 | The values that leave a field open: null, false, zero, and empty texts, lists and objects |
| `Requirements.MergeMeaning` | demo-partner/partners/generic_runner.py:161-179 | What merging leaves at each key and slot: the new value, except that null slots of an object leave the old ones |
| `Requirements.MergeAssociativeIff` | demo-partner/partners/generic_runner.py:161-179 | Merging is associative on three dictionaries exactly when no key has an object, then a present non-object, then an object that does not cover the first; in particular on updates that agree on object and non-object keys |
| `CitySequence.SplitSequence` | demo-partner/partners/generic_runner.py:426-439 | The cleaning loop computes the city tokens |
| `CitySequence.SplitReadsPieces` | demo-partner/partners/generic_runner.py:426-439 | Pieces joined by any of the ten separators are found again, and the tokens are those that cleaning does not leave empty, in order |
| `CitySequence.CleaningUndecorates` | demo-partner/partners/generic_runner.py:436 | Cleaning takes white space and, inside of it, brackets from the ends of a name |
| `CitySequence.SplitInvertsJoin` | demo-partner/partners/generic_runner.py:426-439 | Splitting a list of plain city names, joined by any separators, gives the names back |
| `Requirements.NormalizedSlotsMeaning` | demo-partner/partners/generic_runner.py:451-469 | A given origin stays, a missing one is the first city; a given destination stays unless it is the origin, else it is the first city after the start that is not, or the second; nothing else changes |
| `Requirements.NormalizeSlotsIdempotent` | demo-partner/partners/generic_runner.py:451-469 | Inferring origin and destination from the city sequence twice changes nothing more |
| `Requirements.NormalizeSlotsKeepsNonNull` | demo-partner/partners/generic_runner.py:451-469 | It never empties a slot |
| `Requirements.CanonicalMeaning` | demo-partner/partners/generic_runner.py:407-424 | Which configured id a given one stands for: itself once trimmed; else, by its last component, the one of the agent; else the only one there is; else none |
| `Requirements.CanonicalStable` | demo-partner/partners/generic_runner.py:407-424 | A canonical skill id is its own canonical form exactly when it shadows no other configured id; ids need not be trimmed |
| `Requirements.ShadowedIsUnstable` | demo-partner/partners/generic_runner.py:407-424 | In a shadowed configuration some id has a canonical form that is not canonical |
| `Requirements.NoShadowWhenAgentNameTrimmed` | demo-partner/partners/generic_runner.py:407-424 | No configuration is shadowed whose agent name does not begin with white space |
| `Requirements.SplitCitySequence` | demo-partner/partners/generic_runner.py:426-428 | Only a text has city tokens |
| `Requirements.InferDestinationFromSequence` | demo-partner/partners/generic_runner.py:441-449 | The search loop finds the first later city that is not the origin, else the second city |
| `Requirements.NormalizeTransportSlots` | demo-partner/partners/generic_runner.py:451-469 | Origin and destination are filled in, the given ones kept unless they coincide |
| `SkillSelection.NormalizeRequirements` | demo-partner/partners/generic_runner.py:511-524 | Slots are normalised before the skills are selected with them |
| `SkillSelection.NormalizeSelectedSkills` | demo-partner/partners/generic_runner.py:491-509 | The loop computes the selection |
| `SkillSelection.SelectionMeaning` | demo-partner/partners/generic_runner.py:491-509 | The selection is exactly the set of skills its entries stand for, without repetition |
| `SkillSelection.SelectionKeepsOrder` | demo-partner/partners/generic_runner.py:491-509 | The selected skills are in the order of the entries that first stand for them |
| `SkillSelection.NormalizeIdempotent` | demo-partner/partners/generic_runner.py:511-524 | Slots, canonical ids, route rewrite and deduplication together are idempotent |
| `SkillSelection.NormalizeIdempotentIff` | demo-partner/partners/generic_runner.py:471-524 | They are so on all requirements exactly when no configured id shadows another and the route rewrite has a configured target |
| `Analysis.ValidateSkillSlots` | demo-partner/partners/generic_runner.py:944-986 | The loops compute the labelled missing fields |
| `Analysis.NothingMissingIffSatisfied` | demo-partner/partners/generic_runner.py:967-986 | Nothing is reported exactly when all required slots and, if there are alternatives, one whole alternative are filled |
| `Analysis.MissingAlternativeMeaning` | demo-partner/partners/generic_runner.py:974-984 | The reported alternative is the open part of some alternative and no alternative has fewer open fields |
| `Analysis.FillingReportedFieldsRepairs` | demo-partner/partners/generic_runner.py:967-986 | Filling what was reported makes the report empty |
| `Analysis.RepairNeedsTheReport` | demo-partner/partners/generic_runner.py:967-986 | Any answer that satisfies the skill fills all reported required fields and at least as many fields of some alternative as were reported |
| `Analysis.ReportMeaning` | demo-partner/partners/generic_runner.py:964-986 | The report names the open required fields in their order, then those of the first alternative with fewest open fields if none is complete, each by its label |
| `Analysis.MissingInOrder` | demo-partner/partners/generic_runner.py:964-968 | Open fields are reported in the order in which the fields are configured |
| `Analysis.ValidateSkills` | demo-partner/partners/generic_runner.py:1262-1275 | The loop over the selected skills, or the first configured one, reports exactly when one lacks a slot |
| `Analysis.AbsorbedHolds` | demo-partner/partners/generic_runner.py:1226-1260 | After a reply the task holds the slots and the skills, each once, that normalising the merge gives |
| `Analysis.ProductionRunsWhatAnalysisValidated` | demo-partner/partners/generic_runner.py:1440-1445 | Production normalises again and works with exactly what analysis validated |
| `Analysis.ProductionAgreesIff` | demo-partner/partners/generic_runner.py:1440-1445 | It does so for every reply exactly when production does not run skills one by one or normalisation is idempotent |
| `ProductionSkills.ReadBack` | demo-partner/partners/generic_runner.py:407-524 | What a selected skill is when its id is normalised once more: itself, the id it shadows, or, for a route rewritten to the unconfigured intercity skill, what that id is resolved to |
| `ProductionSkills.RewrittenIff` | demo-partner/partners/generic_runner.py:471-489 | On normal slots the route skill, and no other, is rewritten, exactly for a trip with both ends, without luggage and between at most two cities |
| `ProductionSkills.RewrittenAnywhereIff` | demo-partner/partners/generic_runner.py:471-489 | On any slots: without luggage, for both ends or a round trip, and at most two cities |
| `ProductionSkills.HasSlotsIff` | demo-partner/partners/generic_runner.py:944-986 | A skill lacks nothing exactly when one of the least field sets of its configuration is filled |
| `ProductionSkills.ProductionKeepsEquipped` | demo-partner/partners/generic_runner.py:1440-1498 | Unless the configuration starves skills, all skills production runs have their slots if analysis validated |
| `ProductionSkills.StarvingReplyIff` | demo-partner/partners/generic_runner.py:1440-1498 | Some reply that analysis lets through makes production run a skill without its slots exactly when the configuration starves skills |
| `ProductionSkills.ForgettingReplyIff` | demo-partner/partners/generic_runner.py:1440-1522 | Some reply that analysis lets through makes production drop a skill it selected, and some reply all of them, exactly when the configuration forgets skills |
| `ProductionSkills.ProductionKeepsValidated` | demo-partner/partners/generic_runner.py:1440-1445 | In all other configurations what analysis validated is still valid when production has normalised |
| `ProductionSkills.RouteOnlyForgets` | demo-partner/partners/generic_runner.py:471-489 | A transport agent with the route skill alone forgets: a trip between two cities is validated and then planned by no skill, so its requirements are not in normal form after one pass |
| `ProductionSkills.ForeignPlannerStarves` | demo-partner/partners/generic_runner.py:407-424 | A transport agent with the route skill and a planner of another name that needs a third field starves: such a trip is given to the planner without it |
| `ProductionSkills.ToursPlannerStarves` | demo-partner/partners/generic_runner.py:407-424 | One such configuration |
| `Analysis.SlotSurvivesIff` | demo-partner/partners/generic_runner.py:1227-1256 | An answered slot survives a reply exactly when its `global` is absent or an object |
| `Analysis.SlotSurvivesDialogue` | demo-partner/partners/generic_runner.py:1227-1256 | Hence it survives every run of such replies |
| `Analysis.LastAnswerStands` | demo-partner/partners/generic_runner.py:1227-1256 | Over every run of such replies, a slot that is not inferred has the last value that was given for it |
| `BraceScanner.ScanBraces` | demo-partner/partners/generic_runner.py:113-132 | The counting loop computes the scan |
| `BraceScanner.DepthCounts` | demo-partner/partners/generic_runner.py:118-128 | The depth is the number of opening braces less that of closing ones |
| `BraceScanner.ScanMeaning` | demo-partner/partners/generic_runner.py:113-132 | The scan starts at the first brace and is closed, or is all the rest when nothing closes |
| `BraceScanner.ScanReturnsIff` | demo-partner/partners/generic_runner.py:113-132 | Between a prefix without an opening brace and any suffix, the scan returns exactly a given text if and only if its depth first returns to zero at its last character, or never does and nothing follows |
| `BraceScanner.ScanIdempotent` | demo-partner/partners/generic_runner.py:113-132 | Scanning a scanned text changes nothing |
| `BraceScanner.StringBracesCutTheScan` | demo-partner/partners/generic_runner.py:113-132 | A well-formed object with a closing brace inside a string is cut short |
| `StreamBridge.BridgeRunKeepsInv` | demo-partner/partners/stream_handler.py:69-92 | The bridge invariant (an ended task with an open channel will still be published and closed; every channel is the hub's, closed, or about to be) holds along every run of engine events, publications and closes |
| `StreamEnds.RunKeepsEnds` | demo-partner/partners/stream_handler.py:69-92 | Along every run, each channel of a task is the hub's only one for it until the task ends, and from then on the end has been published on it, was lost on it, or is on its way to it |
| `StreamEnds.PublicationMeaning` | demo-partner/partners/stream_handler.py:74-92 | A publication that is over leaves the channel open unless the task had ended; then the hub forgets the channel, which is closed at once if the end was published and next otherwise |
| `StreamEnds.DrainedStreamsAreClosed` | demo-partner/partners/stream_handler.py:69-92 | Once no listener call is scheduled or running, an ended admitted task has had a channel, and every channel it ever had is closed and forgotten and carried its end, unless publishing the end on that very channel failed; a task turned away keeps an open channel exactly if it was started over the stream |
| `StreamUpdates.UpdatesArePublishedOnce` | demo-partner/partners/stream_handler.py:69-92 | In every run, each update of a task was published once, failed to be, is being published or has its listener call still to come |
| `PartnerStream.StreamHandler.GetOrCreateChannel` | acps-sdk/acps_sdk/aip/aip_stream_server.py:226-230 | Opens a channel only when the task has none |
| `PartnerStream.StreamHandler.OnStreamStart` | demo-partner/partners/stream_handler.py:46-67 | Opens the channel before the runner handles the Start |
| `PartnerStream.StreamHandler.OnRunnerStateChange` | demo-partner/partners/stream_handler.py:69-75 | Decides with the state it finds whether this call ends the stream |
| `PartnerStream.StreamHandler.ResumeAfterPublish` | demo-partner/partners/stream_handler.py:74-86 | A failed publication is passed over; the channel of an ended task leaves the hub |
| `PartnerStream.StreamHandler.ResumeAfterClose` | acps-sdk/acps_sdk/aip/aip_stream_server.py:265-269 | The channel taken out is closed |
| `GroupBook.AssignmentsFollowHistory` | demo-partner/partners/group_handler.py:565-606 | In every interleaving, each group a task is assigned to has a client, and a task is assigned to a group exactly when its last assignment was to that group and the group was not dropped since |
| `GroupBook.GoneClientDropsItsGroupIff` | demo-partner/partners/group_handler.py:245-305 | After any run, an event that reports a client gone drops its group exactly when that client still serves it, and then exactly that group and its assignments; a late event of a replaced client changes no assignment |
| `GroupBook.OnlyGoneClientsDrop` | demo-partner/partners/group_handler.py:307-336 | No other event drops a group or an assignment, only a task command changes one, only a finished join changes clients |
| `GroupBook.CommandGoesToItsGroup` | demo-partner/partners/group_handler.py:835-884 | A command goes to the joined group it names, else to a joined group its sender leads, and to none only if there is none |
| `GroupBook.FoundIsLed` | demo-partner/partners/group_handler.py:835-867 | The search by sender gives the first joined group it leads in dictionary order |
| `GroupRuns.BookFollowsEvents` | demo-partner/partners/group_handler.py:245-606 | In every run a group is served by the client that joined it last and is not gone since, and a task belongs to the group that its last addressed command went to and whose client is not gone since |
| `GroupRuns.HomeIsUnique` | demo-partner/partners/group_handler.py:590-606 | The events leave no choice of the group of a task |
| `GroupRuns.AddressedIff` | demo-partner/partners/group_handler.py:835-884 | A command goes to the joined group it names, else to the first in order that its sender leads |
| `GroupRuns.StepOps` | demo-partner/partners/group_handler.py:307-336 | Which coroutines an event starts and ends: a join for a group without client and after a discard, a discard for a stale client, a leave for a known group |
| `GroupRuns.StepKeepsOrder` | demo-partner/partners/group_handler.py:835-867 | Groups stay in the order in which they came, which the search by sender follows: an event adds one behind all others or takes one away |
| `PartnerGroups.GroupHandler.RemoveGroupState` | demo-partner/partners/group_handler.py:245-260 | Drops the group and the tasks assigned to it, unless another client serves it, and counts them |
| `PartnerGroups.GroupHandler.OnGroupClientDisconnected` | demo-partner/partners/group_handler.py:290-305 | The step of a disconnection |
| `PartnerGroups.GroupHandler.Enter` | demo-partner/partners/group_handler.py:307-330 | An invitation or join request: ignored for a joined group, discarding a stale client first |
| `PartnerGroups.GroupHandler.ResumeDiscard` | demo-partner/partners/group_handler.py:262-288 | Closed or not, the stale client is dropped if it is still the group's |
| `PartnerGroups.GroupHandler.ResumeJoin` | demo-partner/partners/group_handler.py:329-336 | Only a successful join installs the client |
| `PartnerGroups.GroupHandler.FindGroupForSender` | demo-partner/partners/group_handler.py:835-867 | The loop over the clients computes the search |
| `PartnerGroups.GroupHandler.ResolveGroup` | demo-partner/partners/group_handler.py:869-884 | The group a command names comes first, its sender second |
| `PartnerGroups.GroupHandler.OnTaskCommand` | demo-partner/partners/group_handler.py:590-606 | A command that mentions the Partner is assigned to its group |
| `PartnerGroups.GroupHandler.BeginLeave` | demo-partner/partners/group_handler.py:886-915 | Unknown groups are refused |
| `PartnerGroups.GroupHandler.ResumeLeave` | demo-partner/partners/group_handler.py:915-933 | A failed leave keeps everything |
| `Base64Url.DecodeInvertsEncode` | acps-cli/acps_cli/ca/acme.py:91-99 | Decoding, with the padding the client restores, inverts encoding for every byte sequence, and no encoding has length 1 modulo 4 (section 5 of RFC 4648) |
| `Base64Url.EncodeInjective` | acps-cli/acps_cli/ca/acme.py:91-94 | Different bytes have different encodings |
| `Base64Url.EncodingIffCanonical` | acps-cli/acps_cli/ca/acme.py:91-94 | A text is an encoding exactly when it is canonical: URL-safe digits only, no length 1 modulo 4, unused bits zero |
| `Base64Url.SigningInputDeterminesParts` | acps-cli/acps_cli/ca/acme.py:367-371 | The signing input determines the protected header and the payload, and the empty payload of a POST-as-GET differs from every JSON payload (section 5.1 of RFC 7515) |
| `Base64Url.SigningInputReads` | acps-cli/acps_cli/ca/acme.py:367-371 | Before its first dot the signing input decodes to the header, and after it to the payload |
| `Base64Table.EncodingKeepsBits` | acps-cli/acps_cli/ca/acme.py:91-94 | Every character of an encoding is in the URL-safe alphabet (section 5 of RFC 4648), and the places of the characters have, six bits each, the bits of the bytes and as few zeros as fill the last |
| `Base64Table.DecodingKeepsBits` | acps-cli/acps_cli/ca/acme.py:97-99 | Decoding reads the same alphabet: a text in it gives the bytes whose bits are those of the places of its characters |
| `KeyEncodings.FixedWidth` | acps-cli/acps_cli/ca/acme.py:122-123 | An integer has bytes of a width exactly when it is below 256^width, and they give it back |
| `KeyEncodings.BytesAreTheirIntegers` | acps-cli/acps_cli/ca/acme.py:106-108 | Bytes are the encoding of the integer they stand for |
| `KeyEncodings.MinimalWidth` | acps-cli/acps_cli/ca/acme.py:106-108 | The width (bit length + 7) / 8 is the least that fits, so no positive integer gets a leading zero byte (section 2 of RFC 7518) |
| `KeyEncodings.RawSignatureSplits` | acps-cli/acps_cli/ca/acme.py:339-343 | The concatenated signature exists exactly when both numbers fit and splits back into them (section 3.4 of RFC 7518) |
| `KeyEncodings.JwkRoundTrip` | acps-cli/acps_cli/ca/acme.py:102-126 | The members of an RSA or EC key's JWK decode to its integers, and the JWK exists exactly when the coordinates fit the curve |
| `NonceProtocol.AnsweredNoncesAreSpent` | acps-cli/acps_cli/ca/acme.py:400-434 | In every run of requests, nonce fetches, registrations and key changes and in every weather, the nonce of an answered POST is never sent again and the server accepts none twice (section 6.5 of RFC 8555) |
| `NonceProtocol.PostSendsAtMostTwo` | acps-cli/acps_cli/ca/acme.py:400-434 | A signed request sends at most two POSTs, never reaches its exhausted-retries error, is accepted at most once, and succeeds exactly when its last POST was accepted and answered |
| `NonceProtocol.PostSucceedsIff` | acps-cli/acps_cli/ca/acme.py:307-323 | When a signed request succeeds: exactly if a nonce can be had and, with a good one, its POST is taken at once or, with a spent one, the complaint arrives, a fresh nonce is had and the one retry is taken before it expires |
| `NonceProtocol.PostOutcome` | acps-cli/acps_cli/ca/acme.py:400-434 | The outcome of a signed request, told from the weather of its requests: success, unreachable, or the error of its last POST |
| `NonceProtocol.FetchMeaning` | acps-cli/acps_cli/ca/acme.py:286-305 | A nonce fetch succeeds exactly when its requests come through and a nonce is given; otherwise the client keeps the nonce it had |
| `NonceProtocol.DirectoryIsFetchedOnce` | acps-cli/acps_cli/ca/acme.py:267-284 | The directory is fetched until that succeeds once |
| `NonceProtocol.AnswerGivesNonce` | acps-cli/acps_cli/ca/acme.py:410-415 | After an answered request the client has the nonce that came with the answer, if one did |
| `NonceProtocol.LostAnswerRecovery` | acps-cli/acps_cli/ca/acme.py:407-415 | A request whose answer is lost raises and keeps its nonce; if that is spent, the next request recovers exactly in that weather |
| `NonceProtocol.KeyChangeSendsAtMostOne` | acps-cli/acps_cli/ca/acme.py:516-580 | A key change sends at most one POST and switches the client's key exactly when it succeeds |
| `NonceProtocol.KeyChangeOutcome` | acps-cli/acps_cli/ca/acme.py:549-580 | The outcome of a key change and the nonce it leaves, told from the weather of its two requests |
| `KeyAgreement.KeyChangeMeaning` | acps-cli/acps_cli/ca/acme.py:516-580 | In which weather a key change rebinds the account at the server, and in which the client follows |
| `KeyAgreement.KeysPartIff` | acps-cli/acps_cli/ca/acme.py:549-580 | From equal keys, client and server part exactly in the weather in which the POST is accepted and its answer lost |
| `KeyAgreement.KeysDifferIff` | acps-cli/acps_cli/ca/acme.py:516-580 | Over every run of calls, client and server hold different account keys exactly when the last accepted key change went unheard and was not to the key the client holds |
| `KeyAgreement.NewKeysDifferIff` | acps-cli/acps_cli/ca/acme.py:516-580 | When every rollover is to a new key, exactly when an accepted change went unheard and no later one was heard |
| `KeyAgreement.KeyChangeCanPart` | acps-cli/acps_cli/ca/acme.py:549-580 | A run that ends with the old key at the client and the new one at the server |
| `NonceProtocol.RunKeepsInv` | acps-cli/acps_cli/ca/acme.py:286-323 | The nonce invariant holds along every run |
| `Acme.AcmeClient.GetDirectory` | acps-cli/acps_cli/ca/acme.py:267-284 | Fetched once |
| `Acme.AcmeClient.GetNonce` | acps-cli/acps_cli/ca/acme.py:286-305 | A failed fetch keeps the old nonce |
| `Acme.AcmeClient.Post` | acps-cli/acps_cli/ca/acme.py:400-434 | The retry loop computes the protocol's signed request |
| `Acme.AcmeClient.NewAccount` | acps-cli/acps_cli/ca/acme.py:436-468 | Learns the account only from a successful request |
| `Acme.AcmeClient.KeyChange` | acps-cli/acps_cli/ca/acme.py:516-580 | Always a fetched nonce, never a retry |
| `KeyWorkspace.OnlyTheLegacyKeyIsCopied` | acps-cli/acps_cli/ca/commands.py:82-178 | Over every run of issues, renewals and rollovers to generated keys, each stopped anywhere: no two agents hold the same account key, at most one agent's was copied from the legacy key, and every other's was generated in the run or is the one it started with |
| `KeyWorkspace.KeysAreNeverShared` | acps-cli/acps_cli/ca/commands.py:408-446 | The same for rollovers to named keys, as long as each is safe when it is performed |
| `KeyWorkspace.RolloverSharesIff` | acps-cli/acps_cli/ca/commands.py:694-735 | A rollover, stopped anywhere, keeps keys apart exactly when it does not get to replacing the account key, or the path it is given holds no other agent's key and is not another agent's place to which it gets to save a new key |
| `KeyWorkspace.KeysStayApartIff` | acps-cli/acps_cli/ca/commands.py:673-738 | A run of commands keeps account keys apart throughout exactly when every rollover in it is safe when it is performed |
| `KeyWorkspace.LegacyIsAdoptedAtMostOnce` | acps-cli/acps_cli/ca/commands.py:135-152 | Over every run, safe or not, the legacy key becomes an agent's key at most once and no file disappears |
| `KeyWorkspace.BackupIsNotCanonical` | acps-cli/acps_cli/ca/commands.py:715-720 | A backup never takes the place of an agent's account key |
| `KeyStages.AdoptsIff` | acps-cli/acps_cli/ca/commands.py:82-178 | The legacy key is adopted exactly by an issue for an agent without an account key, in a workspace where the legacy key can be read and no other agent has a file, if the agent key does not fail and the command gets to that stage |
| `KeyStages.OnlyIssuesAdopt` | acps-cli/acps_cli/ca/commands.py:640-650 | Over every run the adoptions are those of such issues: no renewal and no rollover adopts |
| `KeyStages.LegacyIsRefused` | acps-cli/acps_cli/ca/commands.py:130-146 | A renewal that finds the legacy key and no account key changes nothing, and neither does an issue that finds another agent's file besides |
| `KeyStages.CertificateWrites` | acps-cli/acps_cli/ca/commands.py:382-479 | What an issue or renewal leaves at each place, whatever stage it stops at: the last output written there, or what was there |
| `KeyStages.RolloverWrites` | acps-cli/acps_cli/ca/commands.py:694-735 | What a rollover leaves at each place: the new key in the agent's file, the old one in the backup, the new one at a named place that was free |
| `KeyStages.RolloverProceedsIff` | acps-cli/acps_cli/ca/commands.py:676-705 | When a rollover takes place and which key it changes to |
| `KeyStages.OutputsAreOwn` | acps-cli/acps_cli/ca/commands.py:398-402 | What an agent writes at the workspace's own paths is recognised as its files for every other agent |
| `KeyStages.FinishedLeavesOutputs` | acps-cli/acps_cli/ca/commands.py:397-402 | A finished issue or renewal leaves certificate, bundle and agent key at the given paths, else at the workspace's own |
| `KeyStages.RenewalKeepsAgentKey` | acps-cli/acps_cli/ca/commands.py:640-650 | A renewal does not touch an agent key that is there, unless another output is put in its place |
| `KeyFrames.NewCertKeepsOthersIff` | acps-cli/acps_cli/ca/commands.py:398-402 | An issue or renewal leaves another agent's account key alone exactly when none of the outputs it gets to write is put in its place |
| `KeyFrames.OwnPathsOverwriteNoKey` | acps-cli/acps_cli/ca/commands.py:398-402 | With the workspace's own output paths none is |
| `KeyFrames.RolloverKeepsOthers` | acps-cli/acps_cli/ca/commands.py:715-730 | A rollover leaves every other agent's account key file alone, whatever path it is given |
| `KeyFrames.SparedKeyStays` | acps-cli/acps_cli/ca/commands.py:382-740 | Over every run of commands for other agents that spare its place, an agent's account key stays the same |
| `KeyFrames.RolloverCanShare` | acps-cli/acps_cli/ca/commands.py:695-730 | A run from an empty workspace in which a rollover leaves two agents with the same key |
| `KeyFrames.IssueCanOverwrite` | acps-cli/acps_cli/ca/commands.py:398-402 | A run from an empty workspace in which an issue destroys another agent's account key |
| `KeyFrames.PerformDerives` | acps-cli/acps_cli/ca/commands.py:382-740 | No command writes a key that was neither in a file of the workspace nor generated by it |
| `KeyLoss.RollOverAccountMeaning` | acps-cli/acps_cli/ca/commands.py:673-738 | A whole rollover: when the server's key changes, to which, and which files are written |
| `KeyLoss.AccountKeyLostIff` | acps-cli/acps_cli/ca/commands.py:694-730 | From an agent's file that has the account's key, a rollover leaves the server with a key in no file of the workspace exactly when the change is accepted and the new key was generated and its acceptance not heard of or not followed by saving it, or was read from a file that was its only one and that the backup replaced before the command stopped |
| `KeyLoss.FileStaysCurrentIff` | acps-cli/acps_cli/ca/commands.py:708-723 | Exactly when the agent's file has the server's key after the rollover |
| `KeyLoss.LostForGood` | acps-cli/acps_cli/ca/commands.py:708-730 | A key so lost is in no file after any commands that follow |
| `KeyCommands.WorkspaceFiles.ForeignIn` | acps-cli/acps_cli/ca/commands.py:113-119 | The listing loop collects exactly the files of other agents |
| `KeyCommands.WorkspaceFiles.ResolveAccountKeyPath` | acps-cli/acps_cli/ca/commands.py:82-158 | Canonical key first; the legacy key only if allowed and no other agent has a file; else none |
| `KeyCommands.WorkspaceFiles.PrepareKeys` | acps-cli/acps_cli/ca/commands.py:408-438 | Account key, agent key and signing request in order |
| `KeyCommands.WorkspaceFiles.RunNewCert` | acps-cli/acps_cli/ca/commands.py:382-479 | The files after an issue or renewal that stops after any stage |
| `KeyCommands.WorkspaceFiles.KeyRollover` | acps-cli/acps_cli/ca/commands.py:673-738 | The files after a rollover that stops after any stage |
| `PemBundle.ExtractCertificates` | acps-cli/acps_cli/ca/commands.py:209-226 | The scanning loop, which always advances, computes the extraction |
| `PemBundle.ExtractedAreBlocks` | acps-cli/acps_cli/ca/commands.py:215-224 | Every extracted certificate starts with the begin marker and ends, but for a line feed, with the first end marker |
| `PemBundle.FixedExactlyOnBlocks` | acps-cli/acps_cli/ca/commands.py:209-226 | A list of texts is what extraction finds in its concatenation exactly when each of them is such a block |
| `PemBundle.ExtractionIsRetraction` | acps-cli/acps_cli/ca/commands.py:209-226 | For every text, extracting from the concatenation of what was extracted gives it again |
| `PemBundle.CertificatesFollowLayout` | acps-cli/acps_cli/ca/commands.py:209-226 | Every bundle has a layout, told by where markers occur: each certificate is the first after the one before, whatever stands between them, and after the last there is none; extraction gives exactly its certificates in order |
| `PemBundle.NoCertificateIff` | acps-cli/acps_cli/ca/commands.py:215-220 | Nothing is extracted exactly when no end marker follows a begin marker |

## Left out

- DeliveredSkills.DeliveredTasksWereValidated: for configurations that do not starve skills, the exact condition of `DeliveredSkills.StarvedDeliveryIff`; `DeliveredSkills.DeliveredTasksPassedAnalysis` says what holds in all.
- TaskDelivery.AnsweredSlotsStayAnswered: for replies that keep `global` an object, the exact condition of `Analysis.SlotSurvivesIff`.
- KeyWorkspace.KeysAreNeverShared: for safe rollovers, the exact condition of `KeyWorkspace.KeysStayApartIff`.
- Language-model calls, prompts, skill execution and message texts: a stage is resumed with an arbitrary reply or fault. Metric, access and system emitters do nothing here; of the audit emitter only its terminal attempts are kept.
- The catch-all branch of dispatch (demo-partner/partners/generic_runner.py:1746-1754), which marks a task Failed without stopping its pipeline: handlers are taken not to raise. A configuration of the wrong shape that raises outside a stage's own handler is not modelled.
- Starts over the stream for known ids are left out of runs; `TaskRuns.TerminalKeptIff` gives their exact effect. The opening of a channel and the handling of the Start that follows are one step.
- A task's context is a value in the task map, so aliasing of one result object between the runner, its callers and its listeners is not captured beyond listeners reading the current value. Time stamps, ids of results and status texts are not kept.
- The order of dictionary keys matters only for the group search, which keeps it; merging and counting loops visit keys in any order.
- The regular-expression split of a city sequence is a function of the text.
- Comment stripping and quote replacement after the brace scan (demo-partner/partners/generic_runner.py:134-145): they do not preserve the meaning of all JSON.
- A client replaced by a later join of the same group is not closed by the handler; what becomes of it, broadcasting of updates, retries of the shared inbox and the RabbitMQ client are not part of this model.
- A listener that raises, shutdown of the runner and handlers, heartbeat and metric tasks: a run simply ends.
- The replay buffer and the subscribers of a stream channel: publishing and closing are recorded, not what subscribers read.
- The server refuses in any weather that says so; that it checks signatures, and so refuses a client whose key it no longer has, is one of these weathers and not assumed.
- Signing, hashing, key generation and certificate parsing; a generated key is a number never given before. Recognising a bad-nonce error is a property of the answer.
- JSON text of JWS headers and payloads: byte sequences, never empty for a JSON payload. The external account binding and JWK thumbprints, which only combine the encodings proved here; `public_jwk_projection` and Ed25519 members would add branch facts only.
- URL rewriting and every HTTP call without a nonce except the directory and newNonce requests.
- Key files: paths are normalised names in four distinct directories, agent ids contain no path separator, no links make two paths one file, one command runs at a time, and a file write happens wholly or not at all. The check that the legacy key is unbound is one of the points at which a command can stop.
- A whole rollover is a function: its two halves are the methods `Acme.AcmeClient.KeyChange` and `KeyCommands.WorkspaceFiles.KeyRollover`. It is modelled for an agent whose account key can be loaded; otherwise the command ends at once.
- Certificate revocation, status and CRL commands write no key file.
