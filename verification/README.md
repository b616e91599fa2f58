# Verification of the account console's write protocols

The console changes accounts on a management site it does not control: requests may take effect without an answer,
answers may be lost, and the service may stop at any moment. This project models the parts of the backend that must
not repeat or misjudge such a write, and proves what they guarantee.

- `RunHistory`, `ImportRun`, `RunSafety`, `RepeatedWrites`, `Readback`, `Json`: the import of a batch of
  accounts. A worker moves every row through durable phases, saves the phase before each uncertain request, and resolves
  an interrupted phase by reading alone.
- `MaintenanceHistory`, `Maintenance`, `UncheckedRecovery`: repair attempts for accounts whose authorization failed.
- `ScheduleReservation`: reservation, release and stopping of scheduled runs, interleaved by any number of callers.
- `Automation`: one model task, from the account catalogues to channels and prices.
- `AccountDelete`: deletion of an account on both sides with its audit.
- `AdminRequest`, `CreatedAccount`, `Paging`: the management client's retries, creation and validated listing.
- `ScheduleTime`, `TaskGroups`: when a schedule runs next, and the settings that link groups to schedules.
- `SettingsSaga`: a settings change with its rollback.
- `Statistics`, `WilsonBound`, `Reals`: sample windows and the Wilson lower bound.
- `WhiteSpace`, `Classifier`: the text classifier.
- `InputBatch`: reading a batch and removing repeated accounts.

The stores, the site, the token endpoint, the checking service and the clock are adversaries: each call may answer
anything its client lets through, or nothing. What happens is written into a history: saves, requests with what they
carry, answers, and each account and clock that was read. A predicate `Admissible` says when an event may follow a
history. A crash ends a worker's effects; only what was saved survives it.

The main results are that the methods which follow the Go code add admissible events only: `ImportRun.EveryRun` and
`Maintenance.EveryMaintenance`, over any number of passes, retries and restarts, and `Automation.Task.Execute`,
`AccountDelete.Deletion.Delete` and `SettingsSaga.Saga.Apply`. The lemmas about histories say what that means. Some
join events that lie far apart, such as `RunSafety.UnresolvedRowsStayAlone`, `RunSafety.EnabledAsConfirmed` and
`MaintenanceHistory.NewRefreshNeedsEnd`; those whose row begins "read off every history" state one condition of
`Admissible` as a fact about the worker.

Where a promise one would expect of the code fails, and exactly when:

- An import row may send its final configuration twice, or its enable. It takes another row of the batch that turns out
  to be the same official account, which isolates it again after the first row's phase was stored as completed but before
  its status was: a retry then finds the unscheduled version and starts over.
  `RepeatedWrites.SharedIdentityRepeatsConfiguration` and `RepeatedWrites.SharedIdentityRepeatsEnable` are such runs, from
  two different refresh tokens; in the second the repeated configuration is announced but found in place, so only the
  enable is sent again. `RunSafety.ConfiguredAgainExactlyIf` and `RunSafety.EnabledAgainExactlyIf` give the exact
  conditions in every reachable state. A row whose identity no other row verified keeps both promises, whatever the
  others do.
- A repair may restore scheduling without a passed check although the option is on. Saving the settings keeps the open
  attempts, so one that was found good while the option was off goes on after it is turned on.
  `UncheckedRecovery.OptionTurnedOnLateSkipsCheck` is such a run, from the empty store;
  `MaintenanceHistory.CheckIsSkippedExactlyIf` gives the exact condition, attempt by attempt.
- A settings change whose first write is not acknowledged is neither rolled back nor reported as written, although the
  site may have taken it. `SettingsSaga.UnacknowledgedWriteIsLeft` is such a run, and `SettingsSaga.Saga.Apply` states
  that the promise fails exactly then.
- A stop of the schedules that returned nil may leave a run behind if a loop was started during the call.
  `ScheduleReservation.StartDuringStop` is such an interleaving, and `ScheduleReservation.StopLeavesRunExactlyIf` gives
  the exact condition.

## Model

| member | source | states |
|---|---|---|
| RunSafety.AtMostOneImport | backend/internal/accountworkbench/run_import.go:83-160 | over every history of passes, lost replies, restarts, retries and manual enables a row sends at most one create or update of its account and at most one code exchange, whatever other rows do |
| RunSafety.AtMostOneConfigureAndEnable | backend/internal/accountworkbench/run_import.go:228-286 | a row sends at most one final configuration and one enable, unless another row of the batch verified an official identity of this row; when either is then sent again is said by the next two rows |
| RunSafety.ConfiguredAgainExactlyIf | backend/internal/accountworkbench/run_import.go:193-240 | in every reachable state a configuration already sent can be sent again exactly if the pass works on the row, the row is finished in phase but not in its public status, which keeps it in the work list, and the recorded version of its account is unscheduled and of the row's identity |
| RunSafety.EnabledAgainExactlyIf | backend/internal/accountworkbench/run_import.go:193-276 | in every reachable state an enable already sent can be sent again exactly if the pass works on the row, the row is configured in phase and not finished in its public status, the recorded version of its account is unscheduled and of the row's identity, and enabling is asked for and past the check, or the row was chosen by hand |
| RunSafety.UnresolvedRowsStayAlone | backend/internal/accountworkbench/run_execute.go:166-178 | over whole runs: once a pass began while a row was refreshing or exchanging, nothing is ever sent, learned or checked for that row again, across any passes, retries and restarts, and its stored form changes only in its public status |
| RunSafety.ReopenedRowsShareAnIdentity | backend/internal/accountworkbench/run_import.go:214-240 | in every reachable state a finished row whose recorded version is unscheduled and of its own identity shares that identity with another row, which verified it |
| RepeatedWrites.SharedIdentityRepeatsConfiguration | backend/internal/accountworkbench/run_import.go:218-240 | a run from two fresh rows with different refresh tokens, every event of it admissible and every stored record meeting the record invariant, in which the final configuration of one row is sent twice |
| RepeatedWrites.SharedIdentityRepeatsEnable | backend/internal/accountworkbench/run_import.go:259-276 | another such run, in which one row's account is configured once and enabled twice |
| RepeatedWrites.BothAreKept | backend/internal/accountworkbench/input_identity.go:123-139 | the two items these runs begin with both survive the removal of repeated accounts |
| RunSafety.RequestsAreAnnounced | backend/internal/accountworkbench/run_import.go:86-118 | read off every history: a request finds the stored phase that announces it, and no one-use request of its row is open |
| RunSafety.BodiesStayOff | backend/internal/accountworkbench/run_import.go:61-117 | read off every history: creates, updates and configurations ask for scheduling to stay off |
| RunSafety.BodiesAreOfTheExport | backend/internal/accountworkbench/run_import.go:61-117 | read off every history, key by key: creates, updates and configurations carry each key of the stored export with its value, and no other, but for the switch, which is off, the status, the groups of a new account, which are none, and the credentials, platform and type, which a configuration leaves alone |
| RunSafety.ImportsCarryIssuedTokens | backend/internal/accountworkbench/run_execute.go:172-267 | over every history: what a create or update carries are credentials of an identity that an official signature named for this row, and, once a one-use request of the row was answered, the very tokens of the last answer |
| RunSafety.CreatesFindNone | backend/internal/accountworkbench/run_import.go:25-126 | over every history: an account is created only when the site, as last listed, shows none of the row's identity |
| RunSafety.OverwritesAreGuarded | backend/internal/accountworkbench/run_import.go:71-107 | an account is overwritten only after a read that showed it switched off and of the row's identity, nothing having been written to it since; by a final configuration only in the recorded version |
| RunSafety.PausesAreNeeded | backend/internal/accountworkbench/run_import.go:83-174 | read off every history: the request that switches an account off follows a read that did not show it off, nothing having been written to it since |
| RunSafety.AnsweredBeforeAskingAgain | backend/internal/accountworkbench/run_execute.go:172-231 | between two one-use requests of a row the first one was answered |
| RunSafety.SecondRequestUsesNewToken | backend/internal/accountworkbench/run_execute.go:172-231 | a later refresh sends the refresh token which the last answer brought |
| RunSafety.EnablesAreGuarded | backend/internal/accountworkbench/run_execute.go:279-297 | scheduling is switched on only for an account that was read from the site switched off, in the recorded version and with the row's identity, nothing but the clear-error request having been sent for it since that read; after the row was stored as configured, from the saved phase promoting, and only where enabling was asked for and checking is off or passed in this pass, or by the operator's choice for this pass |
| RunSafety.EnabledAsConfirmed | backend/internal/accountworkbench/run_import.go:241-276 | the account that is enabled agrees, on every field a version pins, with one that was read from the site showing the final configuration and the model mappings of the export the row then held, unless another row shares this row's identity |
| RunSafety.ManualRowsWereReady | backend/internal/accountworkbench/run_actions.go:73-85 | a row enabled by hand was under review, checked, imported and isolated or configured when its pass began |
| RunSafety.DoneRowsWereEarned | backend/internal/accountworkbench/run_execute.go:80-301 | over every history: a row that a save stores as finished, and that was not, is configured or completed; completed if enabling was asked for or the operator chose it for this pass; a readback of this pass showed a completed one enabled, which was found so before any enable of this pass or followed one; and with checking on it passed its check in this pass, unless it was chosen by hand or found enabled |
| RunSafety.EnabledByReadback | backend/internal/accountworkbench/run_import.go:273-286 | over every history: where a pass knows a row as enabled, an account read from the site in this pass showed it scheduled, active and with the final configuration of the row's export |
| RunSafety.OnlyChosenRowsAct | backend/internal/accountworkbench/run_execute.go:151-164 | over every history: while a pass runs for rows the operator chose, nothing is sent, learned or checked for any other row |
| ImportRun.EveryRun | backend/internal/accountworkbench/run_execute.go:59-232 | any sequence of passes, retries, manual enables and restarts, from fresh rows and against any site, yields an admissible history whose stored record meets the record invariant; so all statements of RunSafety hold of it |
| ImportRun.Run.ImportItem | backend/internal/accountworkbench/run_import.go:16-160 | success means that exactly one create or update was sent in this call, the row ends isolated, and it says that its account was created or updated |
| ImportRun.Run.MatchExisting | backend/internal/accountworkbench/run_import.go:25-60 | two listings agree on the one account of the row's identity, or the last of them shows none, and a run bound to a remembered account goes on only with that account in its remembered version |
| ImportRun.Run.OnlyMatch | backend/internal/accountworkbench/account_payload.go:81-114 | a match is refused exactly if two accounts have the identity or one of them has no ID; otherwise it is the one account of the identity, or there is none |
| ImportRun.Run.UpdateExisting | backend/internal/accountworkbench/run_import.go:66-109 | success means one update was sent, for an account read again as it was listed, isolated first if it was on |
| ImportRun.Run.IsolateExisting | backend/internal/accountworkbench/run_import.go:83-101 | an account found on is switched off by the dedicated request alone, under the phase isolating |
| ImportRun.Run.ReadWritten | backend/internal/accountworkbench/run_import.go:127-150 | a written account is accepted only off and with the row's identity |
| ImportRun.Run.PauseImported | backend/internal/accountworkbench/run_import.go:162-174 | a pause counts only if a readback shows the account off with the same identity |
| ImportRun.Run.ApplyItem | backend/internal/accountworkbench/run_import.go:193-286 | success leaves the row configured, or completed when enabling was asked, having sent exactly one configuration unless the row already stood configured, and exactly one enable if asked, which a readback then showed in effect; a finished row whose version was not reopened is only read, and nothing is sent |
| ImportRun.Run.ReadForApply | backend/internal/accountworkbench/run_import.go:214-220 | the account is read, and accepted only as recorded, switched off and of the row's identity; a finished row then passes only if another row shares its identity |
| ImportRun.Run.Configure | backend/internal/accountworkbench/run_import.go:228-259 | success means exactly one final configuration was sent in this call, and the account, read back after it, is switched off, of the row's identity and stored as configured |
| ImportRun.Run.ClearOldError | backend/internal/accountworkbench/run_import.go:263-269 | success means promoting was saved and then the clear-error request sent, and nothing else |
| ImportRun.Run.NoteConfirmed | backend/internal/accountworkbench/run_import.go:241-259 | a verification counts only for the account as it was last read, with an identity the row verified and showing what the stored export asks for |
| ImportRun.Run.SaveConfigured | backend/internal/accountworkbench/run_import.go:241-259 | configured is saved together with the version that the confirming readback showed |
| ImportRun.Run.ReconcileItem | backend/internal/accountworkbench/run_reconcile.go:17-116 | resolving an uncertain phase sends nothing; any phase it moves to is justified by the account as it was just read, the row's own if it has one: isolated and configured by one that is off and shows the requested fields, completed by one that is active, scheduled and shows them; a promoting row is completed or left as it is |
| ImportRun.Run.Decide | backend/internal/accountworkbench/run_reconcile.go:65-93 | completed is accepted exactly from an active, scheduled and fully applied account; isolated and configured only from one that is off |
| ImportRun.Run.CheckItem | backend/internal/accountworkbench/run_check.go:23-63 | a check is made only if asked for; a passed answer is kept for this pass as it came, any other as one that did not pass, and a row goes to review exactly if it did not pass |
| ImportRun.Run.ExchangeCode | backend/internal/accountworkbench/protocol_payload.go:101-117 | the phase exchanging is saved before the one code exchange |
| ImportRun.Run.Refresh | backend/internal/accountworkbench/run_execute.go:172-231 | the phase refreshing is saved before the one-use refresh; an unanswered one is never repeated |
| ImportRun.Run.VerifyItem | backend/internal/accountworkbench/run_execute.go:233-267 | success means the tokens' official identity was verified and recorded for the row, is what was claimed for the row and remembered for the run, and is what the stored export carries together with the row's own tokens |
| ImportRun.PayloadIsExport | backend/internal/accountworkbench/account_payload.go:14-67 | whatever the template and the other copied fields are, the export is for an OpenAI account and shows the row's tokens and its identity |
| ImportRun.Run.ProcessItem | backend/internal/accountworkbench/run_execute.go:166-301 | success leaves the row finished or under review; a finished one was configured, enabled if asked, and past the check if asked, all in this pass, or was found enabled; a row found refreshing or exchanging is refused: nothing is sent, read or saved for it |
| ImportRun.Run.PromoteManually | backend/internal/accountworkbench/run_execute.go:80-92 | a row chosen by hand is finished exactly on success, which means that its account was enabled in this pass and read back so |
| ImportRun.Run.PrepareItem | backend/internal/accountworkbench/run_execute.go:166-267 | a row is published only with verified tokens, and its phase is not reset past materialized |
| ImportRun.Run.WorkIndices | backend/internal/accountworkbench/run_execute.go:151-164 | the pass works on exactly the unfinished rows, or the chosen ones, each once and in order |
| ImportRun.Run.WorkOn | backend/internal/accountworkbench/run_execute.go:80-104 | one unit of a pass changes no other row; a row it finishes earned it in this pass, one it fails is interrupted exactly if a one-use request or a write of it is open; of a row found refreshing or exchanging only the status changes, and nothing happens for it |
| ImportRun.Run.Execute | backend/internal/accountworkbench/run_execute.go:59-150 | every row that was not finished before the pass and is after it went through all that was asked for, in this pass; the run is completed exactly if all rows are finished and nothing interrupted it, and no row is left as if somebody were at it; finished rows, rows the operator left out of a choice, and rows found refreshing or exchanging change in nothing but their status |
| ImportRun.Run.Retry | backend/internal/accountworkbench/run_actions.go:11-45 | launches only if some unfinished row has no unresolved one-use request; the pass begins with exactly these rows queued and works on all; otherwise nothing is sent |
| ImportRun.Run.EnableReview | backend/internal/accountworkbench/run_actions.go:47-87 | launches only if every chosen row is different and ready, and the pass then works on the chosen rows and on no others; otherwise nothing is sent |
| ImportRun.Run.Recover | backend/internal/accountworkbench/lifecycle.go:32-63 | a restart sends nothing; it interrupts a run that was under way, with every row that is neither finished nor under review, and changes nothing else |
| RunHistory.EventKeepsRecord | backend/internal/accountworkbench/run_import.go:83-160 | no admissible request or answer breaks what a record in the announcing phase promises |
| RunHistory.VersionKeepsRecord | backend/internal/accountworkbench/run_import.go:175-186 | recording the version of one row's account keeps every other row's promise |
| RunHistory.ForeignVersionMeansCollided | backend/internal/accountworkbench/run_import.go:214-240 | passing the guard of a finished or foreign-versioned row means another row verified this row's identity |
| Readback.VersionPins | backend/internal/accountworkbench/run_import.go:175-186 | equal versions agree on every pinned field, on the scheduling switch and on the identity shown |
| Readback.VersionShows | backend/internal/accountworkbench/run_import.go:175-186 | a recorded version shows the switch and the identity of its account |
| Readback.AppliedToItself | backend/internal/accountworkbench/account_readback.go:108-134 | a stored value confirms itself, except where it holds something no readback confirms |
| Readback.AdditionsKeepApplied | backend/internal/accountworkbench/account_readback.go:108-134 | fields the site adds never undo a confirmation |
| Readback.AppliedInPart | backend/internal/accountworkbench/account_readback.go:69-106 | what confirms a request confirms every part of it |
| Readback.VerifiedSwitch | backend/internal/accountworkbench/account_readback.go:69-82 | a passed final verification shows the requested scheduling switch and status |
| Readback.VerifiedIsolation | backend/internal/accountworkbench/account_readback.go:83-88 | a passed verification of an isolated account shows it off |
| Readback.ConfirmedGroups | backend/internal/accountworkbench/account_readback.go:16-60 | confirmed group IDs are different and not empty, and are exactly those the account shows |
| Readback.ConfirmedExpiry | backend/internal/accountworkbench/account_readback.go:16-60 | a confirmed expiry names an instant and the account then expires at it; only zero may be shown as no expiry |
| MaintenanceHistory.OncePerAttempt | backend/internal/accountworkbench/maintenance_repair.go:71-115 | within one attempt there is at most one refresh, one new login, one upload and one enable |
| MaintenanceHistory.NewRefreshNeedsEnd | backend/internal/accountworkbench/maintenance_repair.go:71-104 | a second attempt refreshes an account only after the first ended: the account as last read showed the recovery, with the identity and configuration of the stored attempt and, unless its own enable came just before, the verified credentials; or the stored attempt was past its time by the clock just read, and the account as last read held another credential of the same identity |
| MaintenanceHistory.RecoveryIsGuarded | backend/internal/accountworkbench/maintenance_repair.go:222-245 | scheduling is restored only from a saved recovering, after the repair was judged good, for an account read back with the recorded version, nothing but the clear-error request having been sent for it since |
| MaintenanceHistory.CheckIsSkippedExactlyIf | backend/internal/accountworkbench/maintenance_repair.go:169-213 | with the option on, an attempt's scheduling is restored without a passed check exactly if the option was off when this attempt was judged and was turned on while the store held it |
| MaintenanceHistory.JudgedByTheOption | backend/internal/accountworkbench/maintenance_repair.go:175-206 | a judgement asks for a check exactly if the stored option was on, and a required one had passed with nothing written to the account since |
| MaintenanceHistory.AppliedIdentity | backend/internal/accountworkbench/maintenance_authorize.go:161-165 | a readback that confirms the uploaded credentials shows the identity under repair |
| UncheckedRecovery.OptionTurnedOnLateSkipsCheck | backend/internal/accountworkbench/maintenance.go:250-263 | a run from the empty store, every event of it admissible and every stored document meeting the store invariant, in which the option is on when scheduling is restored and no check was passed |
| MaintenanceHistory.UploadsAreOfTheAccount | backend/internal/accountworkbench/maintenance_authorize.go:92-115 | uploaded credentials show the identity under repair, which their official signature named; key by key they hold what the attempt's login issued, and the site's value, as last read when the signature was checked, where the login issued none; nothing else but the two identity keys and the e-mail, which are the signature's |
| MaintenanceHistory.RequestsInTime | backend/internal/accountworkbench/maintenance_repair.go:119-123 | read off every history: whatever is sent for an attempt is sent while the attempt is stored and its time, by the clock last read, is not over |
| MaintenanceHistory.LoginIsNeeded | backend/internal/accountworkbench/maintenance_repair.go:106-204 | read off every history: a new login is made only after the site refused the refresh of the attempt with 401, or after the check asked for found that the refreshed credentials fail |
| MaintenanceHistory.AttemptKeepsStore | backend/internal/accountworkbench/maintenance_repair.go:134-213 | moving one attempt along its phases keeps what the store promises about every attempt |
| MaintenanceHistory.EventKeepsStore | backend/internal/accountworkbench/maintenance_repair.go:94-104 | no request sent in its own phase breaks what a store promises |
| Maintenance.EveryMaintenance | backend/internal/accountworkbench/maintenance_tasks.go:170-248 | any sequence of passes, settings, clean-ups and restarts, against any site, yields an admissible history; so all statements of MaintenanceHistory hold of it |
| Maintenance.Worker.MaintainAccount | backend/internal/accountworkbench/maintenance_repair.go:24-260 | works only on an account read as it was listed, with an identity; touches the attempt of this account only, does not go on with an expired one whose credential was replaced on the site, and reports a repair only after a readback that showed the stored attempt's recovery |
| Maintenance.Worker.ForgetReplaced | backend/internal/accountworkbench/maintenance_repair.go:71-77 | drops an attempt exactly if it expired and the site holds another credential of the same identity |
| Maintenance.Worker.Refresh | backend/internal/accountworkbench/maintenance_repair.go:78-115 | the new attempt is saved as refreshing before the one refresh, and the account is read after it |
| Maintenance.Worker.Continue | backend/internal/accountworkbench/maintenance_repair.go:114-260 | an attempt past its time loses its credentials and sends nothing; one found recovering sends nothing; one found refreshing whose credentials did not change does nothing at all; it ends exactly if it is reported repaired |
| Maintenance.Worker.Verify | backend/internal/accountworkbench/maintenance_repair.go:169-213 | a refreshed or uploaded attempt becomes verified, with the option on only by a check that passed; any other attempt is left alone |
| Maintenance.Worker.Finish | backend/internal/accountworkbench/maintenance_repair.go:214-259 | an attempt found recovering is only compared with the account just read, nothing is sent, and it is repaired exactly if that is scheduled, active and holds the verified credentials; only one found verified is ever sent for; the attempt ends exactly if it is reported repaired |
| Maintenance.Worker.Reauthorize | backend/internal/accountworkbench/maintenance_authorize.go:23-90 | one login per attempt, saved as reauthorizing first; success leaves verified credentials ready for upload |
| Maintenance.Worker.Login | backend/internal/accountworkbench/maintenance_authorize.go:23-76 | reauthorizing is saved before the one login, with the version the account was read in; what it returns is what the login answered |
| Maintenance.Worker.SaveMerged | backend/internal/accountworkbench/maintenance_authorize.go:107-115 | what is stored for upload is made of the issued credentials and the site's as the signature check found them |
| Maintenance.Worker.VerifyAuthorization | backend/internal/accountworkbench/maintenance_authorize.go:92-115 | sends nothing; only credentials whose signature, checked while the attempt's time was not over, names the account's identity are kept for upload |
| Maintenance.Worker.Upload | backend/internal/accountworkbench/maintenance_authorize.go:116-176 | one found uploading is only compared with the site, and nothing is sent; otherwise success means exactly one upload of the attempt; it leaves the account, read back with the uploaded credentials and the identity under repair, stored as uploaded |
| Maintenance.Worker.Configure | backend/internal/accountworkbench/maintenance.go:215-266 | saving settings keeps every attempt and stores the option asked for, or changes nothing |
| Maintenance.Worker.Cleanup | backend/internal/accountworkbench/maintenance_lifecycle.go:56-68 | attempts past their time lose their credentials and can only end; nothing else changes and nothing is sent |
| ScheduleReservation.AtMostOneRunEach | backend/internal/accountautomation/schedule_lifecycle.go:20-50 | under all interleavings a schedule has at most one live run, and a run is closed once if its holder released it and not at all before |
| ScheduleReservation.StopMeansStopped | backend/internal/accountautomation/schedule_lifecycle.go:95-107 | after StopSchedulesContext returned nil and no loop was started since it began, no run is live, none can be reserved and the loop has ended |
| ScheduleReservation.StopLeavesRunExactlyIf | backend/internal/accountautomation/schedule_lifecycle.go:52-107 | a stop that returned nil leaves a run live or reservable exactly if, after it began, another caller started a loop and nothing was stopped since, or a run was reserved and is not released; either way a loop was started after it began, and no run that was live then is |
| ScheduleReservation.StopCancelsTheRest | backend/internal/accountautomation/schedule_lifecycle.go:69-85 | while such a stop waits, every live run was cancelled and is awaited |
| ScheduleReservation.StartDuringStop | backend/internal/accountautomation/schedule_lifecycle.go:52-107 | a concrete interleaving in which a loop started during the stop lets a run through |
| ScheduleReservation.EveryBehavior | backend/internal/accountautomation/schedule_lifecycle.go:20-107 | the invariant of all interleavings |
| ScheduleReservation.OneLiveRun | backend/internal/accountautomation/schedule_lifecycle.go:29-41 | two live runs of one schedule are the same run, so deleting by schedule ID deletes the right one |
| ScheduleReservation.Scheduler.Reserve | backend/internal/accountautomation/schedule_lifecycle.go:20-42 | refuses exactly when stopped, when a group runs, or when the schedule runs, in this order, and changes nothing then |
| ScheduleReservation.Scheduler.Release | backend/internal/accountautomation/schedule_lifecycle.go:44-50 | closes the run's channel once and frees its schedule |
| ScheduleReservation.Scheduler.Start | backend/internal/accountautomation/schedule_lifecycle.go:52-67 | begins a loop exactly when none is known and no run outlives a stop |
| ScheduleReservation.Scheduler.CancelRuns | backend/internal/accountautomation/schedule_lifecycle.go:69-85 | cancels exactly the live runs and returns exactly their channels |
| ScheduleReservation.Scheduler.RunSchedule | backend/internal/accountautomation/service.go:231-302 | whatever other callers do in between, every early return released the reserved run exactly once, and an accepted run is still held |
| ScheduleReservation.Scheduler.Prepare | backend/internal/accountautomation/service.go:254-290 | the later stages of a start release the run once unless they accept it |
| ScheduleReservation.Scheduler.Follow | backend/internal/accountautomation/service.go:291-297 | the follow-up releases an accepted run exactly once |
| Automation.DryRunWritesNothing | backend/internal/accountautomation/service.go:512-758 | a dry run performs no write |
| Automation.FailureWritesNothing | backend/internal/accountautomation/service.go:498-573 | a task in which a catalogue could not be read publishes nothing and writes no price |
| Automation.ModelsSentWereMissing | backend/internal/accountautomation/service.go:648-700 | every model sent was selected and stood in a catalogue the task had read; the channel had been read without it, in the requested version, and is sent models once |
| Automation.PricesAreOfAddedModels | backend/internal/accountautomation/service.go:726-758 | every price written equals the preview's price for a model that was selected, discovered, missing from a channel in its requested version, sent there by this task and then listed there |
| Automation.CatalogueOf | backend/internal/accountautomation/service.go:512-535 | a discovered model stands in a catalogue that this task read |
| Automation.AdditionOf | backend/internal/accountautomation/service.go:681-717 | a confirmed model was sent to a channel whose answer lists it |
| Automation.Task.Execute | backend/internal/accountautomation/service.go:446-758 | keeps all of the above; a completed real run sent every channel it read, in its requested version, the models it lacked; with prices enabled it ends with one write of exactly the confirmed preview's prices for models whose channel was sent all it lacked and answered that it lists all of it, or there is no such price |
| Automation.Task.Discover | backend/internal/accountautomation/service.go:498-573 | a discovery goes on only if some catalogue was asked for and, but in a preview that found a model, all of them were read; the models found are exactly those of the catalogues |
| Automation.Task.Finish | backend/internal/accountautomation/service.go:640-758 | the same for the part from publishing on; a save that fails before the prices does not count as completed |
| Automation.Task.PublishTo | backend/internal/accountautomation/service.go:648-725 | one channel is sent exactly the selected, discovered models it lacks, once, and not in another version than requested |
| Automation.Task.WritePrices | backend/internal/accountautomation/service.go:726-758 | writes exactly the planned prices of the models this task added |
| Automation.Task.PlanModels | backend/internal/accountautomation/service.go:602-622 | plans exactly the selected models that some channel in its requested version lacks |
| Automation.Task.SelectDiscovered | backend/internal/accountautomation/service.go:574-584 | keeps exactly the selected models that some catalogue offers, and none unless publishing was asked for |
| Automation.AnsweredVersions | backend/internal/accountautomation/channel_snapshot.go:11-28 | accepts an answer exactly if it is the requested channels, each once, with valid versions |
| Automation.RefreshTargets | backend/internal/accountautomation/channel_snapshot.go:11-33 | the refreshed targets keep the selected order and carry the versions answered |
| Automation.BuildPriceInputs | backend/internal/accountautomation/service.go:836-854 | plans exactly one price, under the selected name, for each model whose last catalogue entry is usable |
| Automation.FilterPrices | backend/internal/accountautomation/service.go:901-913 | keeps exactly the prices whose lower-cased name is among the models |
| AccountDelete.AccountGoesLast | backend/internal/accountdelete/service.go:444-518 | the deletion of the management account is requested by one client call at most, with the leases held in full mode, the account read again as it was confirmed and not protected; and for a bound account only after a listing without its key, then the cleaning of its records and secret, with the target confirmed last |
| AccountDelete.RecordsGoAfterNotFound | backend/internal/accountdelete/service.go:518-542 | local records are removed only right after the site answered 404, and the audit stored with them says so |
| AccountDelete.AuditsNameTheStage | backend/internal/accountdelete/service.go:667-698 | a failure audit names the stage of the very event before it, tells truly whether something was destroyed, and its flags are what happened, one by one |
| AccountDelete.Deletion.Delete | backend/internal/accountdelete/service.go:386-544 | success means the local records are gone; a failure is audited once if something was destroyed or the key was found gone, and not otherwise |
| AccountDelete.Deletion.DeleteKey | backend/internal/accountdelete/service.go:444-497 | the deletion of the key is requested by one call at most, after a listing that shows it, and counts as gone only after a listing without it |
| AccountDelete.Deletion.CleanKey | backend/internal/accountdelete/service.go:498-516 | records, then secret, then target; each failure is audited under its own stage |
| AccountDelete.Deletion.DeleteAndRead | backend/internal/adminclient/client.go:984-1017 | only a read answering 404 confirms the deletion |
| AdminRequest.Request | backend/internal/adminclient/client.go:1089-1172 | at most `attempts` sends, one for a creation; each write follows a granted authorization at once; a call ends unfinished exactly as its outcomes say: failed on an outcome that is not retryable or with the attempts used up, cancelled exactly when the context had ended after a retryable one; Attempted is true exactly if something was sent; a creation is reported unknown exactly if it may have committed |
| CreatedAccount.CreatedAccountObject | backend/internal/adminclient/client.go:866-921 | an account is returned exactly if the answer names one distinct stable ID within four levels; several IDs and an invalid one are told apart from none |
| CreatedAccount.Search | backend/internal/adminclient/client.go:866-909 | the queue search finds exactly the IDs that the recursive reading of the answer names |
| CreatedAccount.AccountByMarker | backend/internal/adminclient/client.go:837-854 | an account is found exactly if one account bears the marker and its ID is stable |
| CreatedAccount.OnlyNewMatch | backend/internal/adminclient/client.go:804-816 | an account is found exactly if one new account matches the request |
| CreatedAccount.AmbiguityIsRefused | backend/internal/adminclient/client.go:804-822 | two matching new accounts anywhere in the list make the reconciliation give up |
| CreatedAccount.CreateAccount | backend/internal/adminclient/client.go:736-769 | one send at most; success names the single ID of the answer or what the account list settles; an open outcome that the list does not settle is reported as unknown |
| Paging.VisitPaged | backend/internal/adminclient/catalog_visit.go:24-88 | success means the callback saw one whole list in order, every ID stable and new, as many as declared; a failure the caller did not cause means the pages hold no such list |
| Paging.CheckPage | backend/internal/adminclient/catalog_visit.go:41-71 | a page passes exactly if it keeps the list whole so far |
| Paging.CheckIds | backend/internal/adminclient/catalog_visit.go:45-54 | the IDs pass exactly if all are stable and none was seen before |
| Paging.FetchPaged | backend/internal/adminclient/client.go:1019-1029 | one whole list, or a failure; unless the call was cancelled, the pages then hold no whole list, an unreadable page among the reasons |
| Paging.FlawsLast | backend/internal/adminclient/catalog_visit.go:45-71 | no further page mends a flaw |
| ScheduleTime.NextDailyIsEarliest | backend/internal/accountautomation/schedule_time.go:79-97 | the daily next run lies within a day after the instant, at a listed clock in Beijing, and no listed clock comes sooner |
| ScheduleTime.SameTimingIsAgreement | backend/internal/accountautomation/schedule_time.go:26-42 | for valid schedules with the default kind spelled out, sameScheduleTiming holds exactly if the next runs agree at every instant |
| ScheduleTime.IntervalIsNotDaily | backend/internal/accountautomation/schedule_time.go:79-97 | an interval and a daily schedule never agree everywhere |
| ScheduleTime.ClocksFound | backend/internal/accountautomation/schedule_time.go:26-42 | agreement everywhere makes each clock of one schedule a clock of the other |
| ScheduleTime.BlankKindIsMissed | backend/internal/accountautomation/schedule_time.go:26-32 | without spelling out the default kind two agreeing schedules are told apart |
| ScheduleTime.NextRunAfter | backend/internal/accountautomation/schedule_time.go:79-97 | the loop computes the earliest candidate |
| ScheduleTime.ValidateTiming | backend/internal/accountautomation/schedule_time.go:44-75 | accepts exactly the valid timings |
| ScheduleTime.PreserveRunTimes | backend/internal/accountautomation/schedule_time.go:12-24 | an edit keeps the planned run exactly if no future run moves, and plans anew otherwise |
| TaskGroups.EverySettings | backend/internal/accountautomation/schedule_settings.go:17-68 | after any operations in any order schedule IDs are unique, and every group lists two to fifty different schedules that exist |
| TaskGroups.Settings.SaveSchedule | backend/internal/accountautomation/service.go:176-210 | replaces the schedule of that ID, keeping its last run, and its planned run where no future run moves, or appends it with the next run after now unless one is given; otherwise nothing changes |
| TaskGroups.Settings.DeleteSchedule | backend/internal/accountautomation/service.go:212-224 | both settings become the plain filters, or nothing changes |
| TaskGroups.Settings.SaveTaskGroup | backend/internal/accountautomation/task_groups.go:61-91 | puts the trimmed group in place of the one with its ID and leaves every other group alone |
| TaskGroups.Settings.DeleteTaskGroup | backend/internal/accountautomation/task_groups.go:93-104 | removes the groups of that ID and nothing else |
| TaskGroups.Settings.RecordScheduleStart | backend/internal/accountautomation/schedule_settings.go:54-68 | records a start only over the very configuration the run read |
| TaskGroups.FilterSchedules | backend/internal/accountautomation/service.go:214-220 | the filter that shares its storage with its input computes the plain filter |
| TaskGroups.FilterGroups | backend/internal/accountautomation/task_groups.go:95-101 | the same for groups |
| TaskGroups.RemoveMemberships | backend/internal/accountautomation/task_groups.go:259-274 | the same for memberships, dropping groups left with fewer than two members |
| TaskGroups.DeletionKeepsLinks | backend/internal/accountautomation/task_groups.go:259-274 | no surviving group lists the deleted schedule or one that does not exist |
| TaskGroups.WithoutMembershipsKeeps | backend/internal/accountautomation/task_groups.go:259-274 | a group survives, without the member, exactly if two members remain |
| TaskGroups.KeptOrder | backend/internal/accountautomation/task_groups.go:259-274 | a filter keeps the order |
| TaskGroups.ValidateTaskGroup | backend/internal/accountautomation/task_groups.go:276-298 | accepts exactly the acceptable groups |
| WilsonBound.WilsonInRange | backend/internal/accountquality/statistics.go:56-60 | for every positive quantile the unrounded bound lies between 0 and the share of passed samples |
| WilsonBound.PassNeverLowers | backend/internal/accountquality/statistics.go:56-60 | one more passed sample never lowers the bound |
| WilsonBound.FailureNeverRaises | backend/internal/accountquality/statistics.go:56-60 | one more failed sample never raises it |
| WilsonBound.ReportedScores | backend/internal/accountquality/statistics.go:49-64 | reported scores lie in 0 to 100 and move the same way, with and without the bound |
| WilsonBound.GapFactors | backend/internal/accountquality/statistics.go:56-60 | the bound and its upper end are the two roots of the quadratic that defines the interval |
| Statistics.Statistics.Add | backend/internal/accountquality/statistics.go:27-47 | a sample within thirty days counts once in the long window, and in the short one exactly if within a day |
| Statistics.Statistics.AddAll | backend/internal/accountquality/statistics.go:27-47 | any sequence of samples is counted exactly: passed, failed and inconclusive, short and long |
| Statistics.Statistics.Calculate | backend/internal/accountquality/statistics.go:49-64 | scores both windows and leaves one without a decided sample as it was |
| WhiteSpace.FoldingIsIdempotent | backend/internal/animationquality/predict.go:15-33 | folding twice is folding once, leaves no two adjacent white-space characters and keeps every other character in order |
| WhiteSpace.UnchangedExactlyIfSinglySpaced | backend/internal/animationquality/predict.go:15-33 | a text is left alone exactly if it is singly spaced |
| WhiteSpace.Preprocess | backend/internal/animationquality/predict.go:15-33 | the loop computes the folded text |
| Classifier.Decode | backend/internal/animationquality/model.go:89-115 | accepts exactly the models whose vocabulary indices are a bijection onto 0 to n-1 and whose numbers are in range |
| Classifier.CheckVocabulary | backend/internal/animationquality/model.go:99-106 | marking used indices accepts exactly the vocabularies that number their terms one to one |
| Classifier.EveryIndexUsed | backend/internal/animationquality/model.go:99-106 | n different indices below n are all of them |
| Classifier.CountFeatures | backend/internal/animationquality/predict.go:58-66 | every feature is counted as often as its term occurs in the text |
| Classifier.Norm | backend/internal/animationquality/predict.go:76-80 | the repeated hypotenuse is the length of the weighted feature vector |
| Classifier.LengthPositive | backend/internal/animationquality/predict.go:76-80 | one counted feature makes that length positive, so nothing is divided by zero |
| Classifier.Logistic | backend/internal/animationquality/predict.go:85-91 | both branches compute the logistic value, strictly between 0 and 1 |
| Classifier.Score | backend/internal/animationquality/predict.go:76-92 | the score is the logistic value of the features scaled to length one |
| Classifier.Predict | backend/internal/animationquality/predict.go:35-101 | a score is given exactly if the source is usable and some term occurs in it, and is the logistic value of the intercept and the weighted features of the folded source, counted as often as they occur and scaled to length one; the verdict follows the threshold and its margin |
| Classifier.ScoreIsDetermined | backend/internal/animationquality/predict.go:58-92 | a source has one score only |
| Classifier.WeightMovesScore | backend/internal/animationquality/predict.go:76-92 | raising the weight of a term that occurs raises the score, and the weight of a term that does not occur never matters |
| Classifier.NoWeightsScore | backend/internal/animationquality/predict.go:76-92 | with all weights zero the score is the logistic value of the intercept |
| InputBatch.ParseInput | backend/internal/accountworkbench/input.go:43-88 | refuses exactly the batches of more than 500 entries, however deeply they nest; otherwise items, errors and duplicates add up to the entries read |
| InputBatch.Parser.JsonValue | backend/internal/accountworkbench/input.go:138-179 | reads the entries of a value in order, up to one past the limit |
| InputBatch.Parser.Take | backend/internal/accountworkbench/input.go:89-112 | each entry becomes one item or one error at its place |
| InputBatch.Deduplicate | backend/internal/accountworkbench/input_identity.go:123-139 | computes the deduplicated list and counts exactly what it drops |
| InputBatch.EveryKeyIsKept | backend/internal/accountworkbench/input_identity.go:123-139 | every key is kept once, at the place of its first item and with its last item |
| InputBatch.OneAccountExactlyIf | backend/internal/accountworkbench/input_identity.go:99-122 | two items count as one account exactly if both name one official identity up to case, or neither does and they carry one token, or both are logins of one address up to case; a shared token does not join an item that names its identity with one that does not |
| InputBatch.KeptDiffer | backend/internal/accountworkbench/input_identity.go:123-139 | no two kept items share a key |
| InputBatch.KeylessIsKept | backend/internal/accountworkbench/input_identity.go:123-139 | every item without a key is kept |
| InputBatch.FirstsDiffer | backend/internal/accountworkbench/input_identity.go:123-139 | kept items stand in the order of first occurrence |
| SettingsSaga.Saga.Apply | backend/internal/accountops/service.go:697-800 | once the first write was sent, a failure neither says that the site was written nor ends with a readback of all four original values exactly if the site did not acknowledge that write; a failure after it was acknowledged has rolled back, and says nothing of a write exactly if the site acknowledged all of the rollback and a readback confirmed it; success is exactly a local commit, with the parameters verified and the switch shown as asked for, or acknowledged and read again |
| SettingsSaga.UnacknowledgedWriteIsLeft | backend/internal/accountops/service.go:714-716 | a concrete run that ends with an unacknowledged write of values other than the original ones |
| SettingsSaga.Saga.Rollback | backend/internal/accountops/service.go:718-741 | restores the four values, the switch once more if it was touched; it counts exactly if the site acknowledged all of this and a readback confirms the four values, and says otherwise that the site was written |
| SettingsSaga.Saga.Confirm | backend/internal/accountops/service.go:742-791 | verifies before the switch, after it and before the commit; success is exactly a commit, with the switch shown as asked for, or acknowledged and read again |
| SettingsSaga.VerifiedBeforeSwitchAndCommit | backend/internal/accountops/settings_readback.go:10-29 | read off every history: scheduling is switched, and the change committed, only after a readback of the requested parameters |
| SettingsSaga.CommitMeansSwitchSettled | backend/internal/accountops/service.go:753-769 | over every history: a change is committed only when the switch shows what was asked for, or the site acknowledged the switch and the account was read after that |
| SettingsSaga.WritesWereAdmitted | backend/internal/accountops/service.go:663-716 | read off every history: the requested values are written once, after the change was admitted and the account read with four values that a rollback can restore |
| SettingsSaga.UndoneOnlyIfTouched | backend/internal/accountops/service.go:718-741 | read off every history: no rollback begins once the change is committed, none undoes a switch that was not touched, and the fallback request follows only an answer that the site lacks the dedicated one |
| SettingsSaga.Saga.WriteSwitch | backend/internal/accountops/service.go:1251-1263 | the dedicated request is sent once, its fallback exactly where the site lacks it, and success is what the last of them was answered |
| SettingsSaga.RestoredMeansSameFour | backend/internal/accountops/settings_readback.go:31-47 | the rollback check accepts exactly the original values, a load factor of zero and none being the same |

## Left out

- The export action of the workbench, catalogue look-ups by name and e-mail, e-mail comparison, the official signature's
  cryptography, the login steps before the code exchange: each is one arbitrary answer.
- SHA-256 is taken as injective: a version or a digest is the hashed value itself.
- JSON decoding, URL handling, regular expressions, message texts, progress figures and task records.
- Leases, sessions, target pins and management scope: one arbitrary yes or no before each step that asks. Only the
  deletion and the settings change record the answer, so only there it is proved that nothing is written without a yes.
- What a template and the copied credential fields contribute to an export beside tokens, identity, platform and type is
  arbitrary.
- In-place update of nested Go maps and aliasing between them: records, rows and attempts are values that a method
  replaces; the loops that filter a slice into its own storage are modelled on arrays.
- Two workers on one stored record: the store's revision check refuses the second one.
- ImportRun.Run.Execute: does not state that a pass finishes its rows, because the site may
  never answer.
- Maintenance.Worker.MaintainAccount: the results reported for healthy, blocked and cooling accounts are not modelled;
  such accounts cause no write.
- RunSafety.AtMostOneConfigureAndEnable: excludes a row whose official identity another row of the batch verified, where
  it is false.
- RunSafety.EnabledAsConfirmed: excludes the same rows, for the same reason.
- ScheduleReservation.StopMeansStopped: excludes calls during which a loop was started, where it is false.
- RunSafety.ConfiguredAgainExactlyIf: speaks of the next request of one row, as RunSafety.EnabledAgainExactlyIf does;
  whether the other row ever isolates the account again is up to the site.
- RunSafety.EnablesAreGuarded: the clear-error request sent after the read may change the account's status, which the
  version read before it still names.
- Automation.Task.Execute: admission of a task (mode, age and scope of its preview) and the stored result items.
- CreatedAccount.CreateAccount: a list of group IDs is sorted as by a stable sort; Go's sort.Slice may order two IDs
  that differ only in leading zeros either way.
- AccountDelete.Deletion.DeleteAndRead: one event stands for the one client call, whose own retries are those of
  AdminRequest.Request; the same goes for the writes of the settings change.
- Batch deletion, which runs the modelled deletion once per account, and the listing of audit fields.
- Floating-point rounding: scores and thresholds are real numbers, and square root and exponential are parameters with
  their laws.
- Daylight saving in Asia/Shanghai before 1992, and the zero time as an instant.
- Classifier.Predict: byte limits, UTF-8 validity, the prompt's benchmark and the HTML check are parameters.
- InputBatch.ParseInput: how a leaf or a line is recognised is a parameter; only its outcome matters for counting.
- The web frontend, the HTTP server and its wiring, mail providers, and all remaining services.
