# Healer in Dafny

Healer deploys web applications on remote servers: a control plane (Python) drives agents (Go) that
start and stop instances, and a gateway manager rewrites the nginx upstreams. This project models the
state machines behind that and proves what they keep over whole runs. Everything outside is arbitrary:
agent, health-probe, gateway and disk outcomes, other applications and the clock. A refused status
transition (InvalidTransition) is an exceptional exit that leaves what was written before it.

How the modules fit together:

- **Instance table.** `StateMachines` holds the three transition tables. `Instances` is the row, the
  partial unique index on (server, port) and the port choice. `History` is a step relation over one
  application's rows with every event that can touch them; `Lineage` is the healing invariant it keeps.
  `Fleets` is a class with the tables as fields whose methods are the primitive writes; its invariant
  `Valid()` says the fields are the last state of a legal history, and it holds at every await, so what
  is proved of histories holds of the code at every await and wherever a crash falls.
- **The outside of a fleet** is a constant script, `Outside`: how call number 0, 1, 2, ... returns,
  what other applications hold by then and the time. `calls` counts the calls made and `reloads` lists
  which of them reloaded the gateway and why. A pipeline promises its result as a predicate over the
  snapshots before and after, the script and the request, so each outcome is decided by answers the
  pipeline cannot choose: when it raises, fails or succeeds is an if-and-only-if over the script.
- **Pipelines** over a fleet: `Starts` (runs of starts), `Deployments`, `Releases`, `Scaling`,
  `Healing`, `Recovery`, and `Operations`, which strings any number of them together. `Traces` runs
  them, from an empty application, where a promise one might expect is not kept.
- **Locking**: `OperationLock`.
- **Command protocol**: `Journal` (the agent's file), `JsonLines` (its line format), `Commands` (the
  control plane's table) and `AgentProtocol` (both ends, the wire, crashes and redelivery as one step
  relation).
- **Gateway**: `Nginx`. **Health counting**: `Health`. **Byte readers**: `LogTail`, `DockerLogs`.

Properties that do not hold of the code as written, each with a trace and the exact condition:

- *A command completes once.* It can complete twice when a redelivery passes the journal check before
  a completion and the in-flight check after it (trace `RaceCompletesTwice`). `CompletesAgainIff` is
  exact: a completion that file and memory hold can be followed by another if and only if a delivery of
  that id stands between the two checks. `CompletionsBounded` holds of every run; `CompletedForGood`
  says a completion stays single and remembered until that very id races.
- *A completion is remembered.* A failed journal write can make the agent forget one (trace
  `FailedWriteForgetsCompletion`). `RememberedIffLanded` is exact for each id in every run, whatever
  else failed: remembered if and only if its Completed record was appended to a terminated file and
  took. Crashes need not leave the journal newline-terminated: torn lines are allowed there.
- *A terminal command stays terminal.* A status write is checked on the copy its session loaded, and no
  session locks the row: SENT brings back a command that a sweep expired during the send (trace
  `ExpiredIsSentAgain`). `TerminalIsFinal` is exact: kept if and only if no session that loaded the row
  before it turned terminal writes it afterwards.
- *A delivered command's reports are accepted.* An acknowledgement that arrives before SENT is
  committed loses the success after it (trace `EarlyAcknowledgementLosesSuccess`); the refusal also
  ends the connection it came on, which changes nothing about the loss. `AcceptedFromPending` is exact:
  no report before SENT, and no sweep past the deadline before the row is loaded for sending or between
  SENT and a report.
- *A replica or replacement that fails its gate is marked UNHEALTHY.* STARTING -> UNHEALTHY is refused:
  the run raises and the row stays STARTING (traces `SickReplica`, `SickReplacement`). Exactly when the
  script answers a start well and its gate badly (`ScaleUp`, `RunScale`, `Launch`).
- *A switch that fails stops what it started.* A failed stop asks RUNNING -> FAILED, is refused, and
  leaves the rest RUNNING (trace `FailedAbortStop`); exactly when one of those stops is not answered
  well (`StopInstances`, `RunReleaseSwitch`).
- *Scaling down drains what it selects.* A PENDING or STARTING row refuses (trace `DrainsAStartingRow`);
  exactly when one of the newest rows selected is such a row (`ScaleDown`).
- *The gateway routes the active release.* Not after a switch whose reload was applied and its reply
  lost (trace `LostReply`), nor after a first deployment that cannot reach a gateway routing another
  release (trace `UntoldDeployment`). `PerformedAgreement` is exact for each operation, `RunAgrees`
  carries it over runs, and `SyncRepairs` ends it.
- *A tail's lines are the file's last lines.* A tail that sees newlines only can report an empty line
  that the file does not end in (trace `BlankTail`); `TailIsSuffixOfFile` is exact.
- *Chained polls hand over the file's lines.* A blank line at the end of a read is lost although nothing
  is truncated (trace `BlankLineLost`), and a truncated reply may be right (trace `TruncationMakesUp`).
  `RepliesFollowTheFile` is exact poll after poll; at the end alone losses can cancel (`LossesCancel`).
- *Operations do not overlap.* They do once the first is past the stale limit (trace `OverlapHappens`).
  `GrantedIffAllStale` is exact: an operation may start if and only if each one that has not handed its
  token back is past the limit; `OverlapOnlyWhenStale` is what that leaves of any two.

The schema admits no health threshold below one (services/control-plane/app/schemas/healer_yaml.py:70-71),
so `up >= 1 && down >= 1` in `Health` leaves out no configuration; `BoundIsNeeded` says what the bound is for.

## Model

| member | source | states |
|---|---|---|
| `OperationLock.ApplicationLock.Acquire` | services/control-plane/app/services/lock_service.py:30-55 | the lock is taken exactly when free or more than 20 minutes old; the token is the time written |
| `OperationLock.ApplicationLock.Release` | services/control-plane/app/services/lock_service.py:58-76 | clears the row only if it still carries the caller's token |
| `OperationLock.RunKeepsInv` | services/control-plane/app/services/lock_service.py:30-76 | over every interleaving, each unreleased holder that is not current is over 20 minutes older than the clock and the current token |
| `OperationLock.ReleaseNeverClearsAnotherLock` | services/control-plane/app/services/lock_service.py:58-76 | in every run a release leaves another operation's lock untouched and frees its own |
| `OperationLock.OverlapOnlyWhenStale` | services/control-plane/app/services/lock_service.py:23-76 | of two operations alive at once, the earlier is past the stale limit by the clock and by the later one's start |
| `OperationLock.LiveLockRefuses` | services/control-plane/app/services/lock_service.py:37-55 | while any holder is not stale, every acquire is refused and changes nothing |
| `OperationLock.GrantedIffAllStale` | services/control-plane/app/services/lock_service.py:30-76 | over every interleaving, an acquire is granted if and only if every operation that has not handed its token back is past the stale limit, and it then holds the row beside them |
| `OperationLock.OverlapHappens` | services/control-plane/app/services/lock_service.py:23-55 | a run in which two operations do overlap |
| `Journal.Scan` | agent/internal/journal/journal.go:60-91 | the scan loop computes the replay of the file, including ErrTooLong |
| `Journal.ReplayAppend` | agent/internal/journal/journal.go:60-91 | replaying a newline-terminated file and then more is replaying both in turn |
| `Journal.ReopenAfterRecords` | agent/internal/journal/journal.go:42-124 | after any sequence of records on a terminated file, reopening gives exactly the in-memory map, or fails exactly when some line reached the scanner's limit |
| `Journal.TornFragment` | agent/internal/journal/journal.go:69-91 | a torn end never changes what the complete lines replay to; only a line lacking just its newline still counts |
| `Journal.AppendAfterFragment` | agent/internal/journal/journal.go:52-124 | a record appended onto a torn line is lost together with it |
| `JsonLines.JsonIsLawful` | agent/internal/journal/journal.go:26-30 | lines of the entry's three JSON fields satisfy every law the journal theorems ask of a codec: they read back, hold no newline, and neither a proper prefix nor any glued pieces read as an entry |
| `Journal.JournalFile.Record` | agent/internal/journal/journal.go:104-124 | succeeds if and only if the whole line is written and synced; memory changes exactly then; a failed write leaves exactly the part written |
| `Journal.JournalFile.IsCompleted` | agent/internal/journal/journal.go:95-101 | true exactly for ids whose last status is completed; of a synced file, exactly the answer that replaying the file would give |
| `Commands.CommandTable.Submit` | services/control-plane/app/services/command_service.py:55-121 | a known idempotency key returns its row and changes nothing; a new one adds exactly one row; it raises if and only if the row was moved before it was loaded for sending, and otherwise writes SENT over whatever others committed during the send |
| `Commands.CommandTable.DeliverPending` | services/control-plane/app/services/command_service.py:179-193 | exactly the rows listed as PENDING for the agent become SENT, whatever others committed during the sends |
| `Commands.CommandTable.RecordEvent` | services/control-plane/app/services/command_service.py:196-226 | an event is stored exactly when the table allows the move; otherwise nothing is written; as a step of a run, one whose copy is the row itself |
| `Commands.CommandTable.ExpireOverdue` | services/control-plane/app/services/command_service.py:229-256 | the sweep never raises and rewrites exactly the overdue rows |
| `Commands.TerminalIsFinal` | services/control-plane/app/services/command_service.py:105-256 | over every run, with every write checked on a copy loaded earlier, a terminal command keeps status, result, error and events if and only if no session that loaded it before it turned terminal writes it afterwards |
| `Commands.ExpiredIsSentAgain` | services/control-plane/app/services/command_service.py:107-119 | a run in which a sweep expires a command during its send and SENT overwrites that |
| `Commands.ResubmitIsIdempotent` | services/control-plane/app/services/command_service.py:55-80 | resubmitting a key after any run is a no-op |
| `Commands.SweepIsLegalAndIdempotent` | services/control-plane/app/services/command_service.py:229-256 | only table-legal moves, nothing overdue left, a second sweep at that time changes nothing |
| `Commands.AcceptedFromSent` | services/control-plane/app/domain/state_machines.py:47-68 | from SENT the table accepts exactly the emission order, cut short anywhere, or an early failure or timeout |
| `Commands.EmissionAcceptedUntilSweep` | services/control-plane/app/services/command_service.py:196-256 | from SENT the agent's reports are all accepted if and only if no sweep past the deadline comes between |
| `Commands.AcceptedFromPending` | services/control-plane/app/services/command_service.py:107-256 | from PENDING, all reports are accepted if and only if none precedes the commit of SENT and no sweep past the deadline precedes the load for sending or falls between SENT and a report; one in between is overwritten |
| `Commands.EarlyAcknowledgementLosesSuccess` | services/control-plane/app/services/command_service.py:113-119 | an acknowledgement before SENT is refused, and so are the running report and the success after it |
| `AgentProtocol.OneLiveExecution` | agent/internal/core/agent.go:148-192 | in every run each id has at most one live execution and the in-flight set is exactly the ids that have one |
| `AgentProtocol.CompletionsBounded` | agent/internal/core/agent.go:123-241 | in every run completions of an id are at most one more than admissions that raced and reopenings that forgot it |
| `AgentProtocol.CompletedOnceAndRemembered` | agent/internal/core/agent.go:123-241 | with successful writes and no race, no id completes twice and the control plane shows a final status only for ids whose completion the file holds |
| `AgentProtocol.RememberedIffLanded` | agent/internal/core/agent.go:123-241 | in every world of every run, a journal that opens has an id as completed if and only if its Completed record landed, whatever writes of this or other ids failed |
| `AgentProtocol.ForgottenIffNotLanded` | agent/internal/journal/journal.go:42-91 | a reopening forgets exactly the completions that had not landed |
| `AgentProtocol.CompletedForGood` | agent/internal/core/agent.go:133-241 | from a Completed record that succeeds on a terminated file on, the id stays remembered and never completes again, until an admission of that id races |
| `AgentProtocol.CompletesAgainIff` | agent/internal/core/agent.go:133-192 | from any reachable world in which file and memory hold a completion, some continuation completes the id again if and only if a delivery of it stands between the journal check and the in-flight check |
| `AgentProtocol.RunKeepsInv` | agent/internal/core/agent.go:123-241 | the protocol invariant holds in every world of every run |
| `AgentProtocol.RaceCompletesTwice` | agent/internal/core/agent.go:133-158 | a reachable world, all writes successful, with one command completed twice, the second delivery read after the first was acknowledged |
| `AgentProtocol.FailedWriteForgetsCompletion` | agent/internal/core/agent.go:194-241 | a reachable world, no race, where the control plane shows success and the file has forgotten it |
| `Nginx.Manager.Apply` | services/gateway-manager/app/services/nginx_manager.py:120-155 | applied if and only if the slug is valid, the directory with the new file validates and nginx reloads; otherwise the directory is exactly as before |
| `Nginx.UpstreamNamesDistinct` | services/gateway-manager/app/services/nginx_manager.py:40-87 | two applications never render the same upstream name |
| `Nginx.ReloadsWhatWasValidated` | services/gateway-manager/app/services/nginx_manager.py:120-155 | with any number of threads, a reload loads the directory its call has just validated |
| `Nginx.DiskIsWhatRuns` | services/gateway-manager/app/services/nginx_manager.py:55-155 | whenever the mutex is free the files on disk are what nginx runs |
| `Nginx.CallIsAtomic` | services/gateway-manager/app/services/nginx_manager.py:120-155 | a completed call replaced its own file, or left the directory exactly as it found it |
| `Nginx.OthersUntouched` | services/gateway-manager/app/services/nginx_manager.py:90-155 | no step touches another application's file |
| `Health.WaitUntilHealthy` | services/control-plane/app/services/health_check_service.py:49-100 | stops within the bound; each stored counter is the failure run since the call began |
| `Health.GateIsExact` | services/control-plane/app/services/health_check_service.py:49-100 | passes if and only if within the bound `healthy_threshold` successes in a row come before any `unhealthy_threshold` failures in a row |
| `Health.Poll` | services/control-plane/app/services/health_monitor.py:88-136 | keeps the counter equal to the trailing failure run of the history, and asks for healing exactly when that run reaches the threshold |
| `Health.MonitorCountsWholeHistory` | services/control-plane/app/services/health_monitor.py:95-136 | in every life of an instance, a polled counter is the failure run of its whole history, gates included, and healing is asked for exactly when the last results, as many as the threshold, are all failures |
| `Health.BoundIsNeeded` | services/control-plane/app/schemas/healer_yaml.py:70-71 | why the schema bounds the threshold: the count covers every history if and only if a gate cannot be passed without a success |
| `LogTail.CollectLogs` | agent/internal/dispatcher/collect_logs.go:42-158 | window, offsets, lines and truncation of a reply, within both limits |
| `LogTail.ReadWindow` | agent/internal/dispatcher/collect_logs.go:84-128 | the clamps and the dropped fragment read exactly the specified window |
| `LogTail.SplitJoins` | agent/internal/dispatcher/collect_logs.go:130-135 | the pieces hold no newline and joined give the text back |
| `LogTail.TailIsSuffixOfFile` | agent/internal/dispatcher/collect_logs.go:54-148 | a tail's lines are the file's last lines if and only if text is visible, or nothing is, or the tail is the file, or the file is newlines only or ends in a lone carriage return |
| `LogTail.BlankTail` | agent/internal/dispatcher/collect_logs.go:54-148 | a four-byte file whose two-byte tail reports a line the file does not end in |
| `LogTail.ChainedReadsCoverTheFile` | agent/internal/dispatcher/collect_logs.go:80-158 | chained reads of a growing file return each byte once, and progress whenever there is more |
| `LogTail.FitsIsExact` | agent/internal/dispatcher/collect_logs.go:80-148 | over any texts, the reply to the next poll continues the lines of what was read if and only if it fits: untruncated after exactly one newline, or leaving out just the end of a line broken off before |
| `LogTail.RepliesFollowTheFile` | agent/internal/dispatcher/collect_logs.go:80-158 | poll after poll the replies are the lines of everything read if and only if each poll fits |
| `LogTail.ChainedRepliesAreItsLines` | agent/internal/dispatcher/collect_logs.go:80-158 | polls of a growing file that fit hand over the lines of the file from the first offset to the last |
| `LogTail.BlankLineLost` | agent/internal/dispatcher/collect_logs.go:130-148 | two polls, nothing truncated, that lose a blank line |
| `LogTail.TruncationMakesUp` | agent/internal/dispatcher/collect_logs.go:130-148 | two polls whose second reply is truncated and right |
| `LogTail.LossesCancel` | agent/internal/dispatcher/collect_logs.go:130-148 | three polls whose replies are the lines in the end although not poll after poll |
| `DockerLogs.DemuxStream` | agent/internal/dockerengine/client.go:455-474 | the read loop computes Demux of the stream |
| `DockerLogs.DemuxUndoesFraming` | agent/internal/dockerengine/client.go:455-474 | for any frames with 32-bit sizes, demultiplexing returns the concatenated payloads |
| `DockerLogs.DemuxOfPrefix` | agent/internal/dockerengine/client.go:455-474 | a prefix of the stream gives a prefix of the text |
| `DockerLogs.DemuxNeverGrows` | agent/internal/dockerengine/client.go:455-474 | the text is shorter than the stream by at least a header |
| `Instances.AllocationsCount` | services/control-plane/app/services/deployment_service.py:149-185 | r allocations all succeed if and only if r ports are free, and they hand out distinct free ports |
| `Instances.AllocatorIsLeastFree` | services/control-plane/app/services/deployment_service.py:166-182 | a row the allocator inserts took the least free port and holds that port only |
| `Fleets.Fleet.Allocate` | services/control-plane/app/services/deployment_service.py:149-185 | the least port no non-terminal row holds, none exactly when all are held |
| `Fleets.AllocateUpTo` | services/control-plane/app/services/deployment_service.py:149-185 | r calls of the allocator with no await between succeed if and only if r ports of the range are free, and hand out the least free ports in order |
| `Fleets.Fleet.Move` | services/control-plane/app/domain/state_machines.py:25-79 | a transition is written exactly when the table has it |
| `Fleets.Fleet.SyncGateway` | services/control-plane/app/services/gateway_service.py:33-116 | a reload the gateway acts on installs exactly the RUNNING rows of the active release, whether or not its reply arrives, and is logged |
| `Starts.GrowStep` | services/control-plane/app/services/scale_service.py:224-291 | one more start extends a run of starts exactly as the script answers, or there is no free port and nothing changes |
| `Starts.UpMeansGood` | services/control-plane/app/services/release_service.py:244-318 | n starts all succeed if and only if each of their calls is answered well |
| `Starts.ShortIsHopeless` | services/control-plane/app/services/release_service.py:244-318 | a run of starts falls short only for a bad answer or for want of ports against whatever other applications hold meanwhile |
| `Starts.GrownSickAsMade` | services/control-plane/app/services/scale_service.py:224-291 | the last row stays STARTING if and only if the script makes one of the starts sick - of as many as asked for, when there is room |
| `History.RunIsSound` | services/control-plane/app/db/models/application.py:136-147 | every state of every history satisfies the port and lineage invariants |
| `History.PortsNeverShared` | services/control-plane/app/db/models/application.py:136-147 | over every history no two non-terminal instances share a server and port |
| `History.HealingIsBounded` | services/control-plane/app/services/self_healing_service.py:84-225 | per lineage at most the configured restarts and replacements, one member not FAILED, restarts of one instance a cooldown apart |
| `History.TerminalIsForGood` | services/control-plane/app/domain/state_machines.py:25-45 | no history brings a FAILED or STOPPED instance back, although the table would allow STARTING: only fresh rows are ever started |
| `Deployments.RunDeployment` | services/control-plane/app/services/deployment_service.py:76-422 | one row added, RUNNING and active if and only if it is built and started; refused exactly without a server or a free port; what the gateway answers changes nothing else |
| `Deployments.DeployAgreement` | services/control-plane/app/services/deployment_service.py:408-437 | then the gateway agrees if and only if it was told or routed nothing else |
| `Releases.StopInstances` | services/control-plane/app/services/release_service.py:210-229 | stops in order up to the first stop not answered well, which raises and leaves the rest RUNNING |
| `Releases.StartAndGate` | services/control-plane/app/services/release_service.py:232-318 | all instances in service in order, or all the new rows terminal unless a stop raised, which is exactly if one was not answered well |
| `Releases.DrainOldRelease` | services/control-plane/app/services/release_service.py:321-362 | exactly the old release's RUNNING rows end STOPPED or FAILED |
| `Releases.CutOver` | services/control-plane/app/services/release_service.py:492-526 | the gateway's answer decides: the switch completes, or the active release and all older rows are restored |
| `Releases.RunReleaseSwitch` | services/control-plane/app/services/release_service.py:433-526 | all or nothing for every script; at most one reload, made only when all went well before it, whose answer decides; IN_PROGRESS exactly when taking back raised; with room and good answers it gets as far as the reload |
| `Releases.SwitchAgreement` | services/control-plane/app/services/release_service.py:492-526 | routing still agrees with the active release if and only if the gateway is not certified or its reload was not applied unanswered |
| `Scaling.NewestFirstIsDescending` | services/control-plane/app/services/scale_service.py:304-306 | the selection order is newest first (a permutation, by NewestFirst's own contract) |
| `Scaling.ScaleUp` | services/control-plane/app/services/scale_service.py:206-291 | the rows added are what the script makes of them; raises if and only if the script makes a start sick, whose row is then the last and STARTING; succeeds if and only if `count` were added, all in service |
| `Scaling.ScaleDown` | services/control-plane/app/services/scale_service.py:294-344 | touches exactly the newest `count` live rows; raises if and only if one may not drain; succeeds if and only if all are STOPPED |
| `Scaling.RunScale` | services/control-plane/app/services/scale_service.py:347-428 | SUCCEEDED if and only if scaled, with exactly `target` live rows; IN_PROGRESS if and only if the script makes a replica sick or a selected row may not drain; routing follows the rows |
| `Scaling.SucceededIsScaled` | services/control-plane/app/services/scale_service.py:347-428 | SUCCEEDED if and only if scaled: exactly `target` live rows, added ones in service on distinct ports in range, or drained ones STOPPED and no older than any survivor |
| `Scaling.UnhinderedSucceeds` | services/control-plane/app/services/scale_service.py:347-428 | certain when every live row may drain, every call is answered well and there is room |
| `Healing.HandleUnhealthy` | services/control-plane/app/services/self_healing_service.py:84-158 | the rows for every decision, limit and answer; routing follows the rows and agreement is kept |
| `Healing.ReplaceFailed` | services/control-plane/app/services/self_healing_service.py:183-269 | at most one new row, same release and server, port in range, carrying the attempt count; none exactly when no port is free |
| `Healing.Launch` | services/control-plane/app/services/self_healing_service.py:226-269 | a replacement that starts and fails its gate raises and stays STARTING; one that does not start is FAILED; otherwise it is RUNNING |
| `Healing.HealingMeans` | services/control-plane/app/services/self_healing_service.py:84-269 | back in service only by a counted attempt within the limits; nothing else changes but one replacement; raises only for a replacement left STARTING |
| `Recovery.Database.ReconcileStuckDeployments` | services/control-plane/app/services/reconcile_service.py:57-80 | fails exactly the IN_PROGRESS deployments and clears exactly their applications' locks |
| `Recovery.ReconcileStuckInstances` | services/control-plane/app/services/reconcile_service.py:83-97 | fails exactly the STARTING, RESTARTING and DRAINING rows, never raising |
| `Recovery.ReconcileOnStartup` | services/control-plane/app/services/reconcile_service.py:49-54 | both, and the number of rows reconciled |
| `Recovery.RecoveryIsComplete` | services/control-plane/app/services/reconcile_service.py:42-97 | from any state: nothing stuck remains, only legal moves, no other lock touched, a second recovery changes nothing |
| `Operations.RestartInstance` | services/control-plane/app/services/instance_service.py:35-90 | refused without effect, or exactly that row ends RUNNING or FAILED as the agent answers |
| `Operations.StopInstance` | services/control-plane/app/services/instance_service.py:93-136 | refused without effect, or exactly that row ends STOPPED or FAILED as the agent answers |
| `Operations.Perform` | services/control-plane/app/services/gateway_service.py:33-64 | one operation of any kind does to rows, active release, routing and reload log what its pipeline promises, and nothing when its setup refuses; after a routine one routing is unchanged if no reload was acted on, and exactly the rows to be routed if the last was |
| `Operations.PerformedAgreement` | services/control-plane/app/services/gateway_service.py:33-64 | from agreement, any operation ends in agreement if and only if no reload lapsed in it, or there was nothing to mislead: a switch without certificate, a first deployment with nothing else routed |
| `Operations.RunAgrees` | services/control-plane/app/services/release_service.py:492-515 | at every point of every run whose reload log has no lapse the installed upstreams hold only active-release instances |
| `Operations.SyncRepairs` | services/control-plane/app/services/gateway_service.py:67-116 | a sync the gateway acts on restores agreement from any state |
| `Operations.Run` | services/control-plane/app/services/release_service.py:492-515 | any sequence of operations is such a run and ends in agreement if its log has no lapse |
| `Operations.EveryMoment` | services/control-plane/app/services/self_healing_service.py:183-225 | at every moment of a fleet's life ports are distinct, healing is bounded and terminal rows stay terminal |
| `Traces.LostReply` | services/control-plane/app/services/release_service.py:492-526 | a run that ends with release 1 active and the gateway on release 2 |
| `Traces.UntoldDeployment` | services/control-plane/app/services/deployment_service.py:408-437 | a run that ends with release 2 active and the gateway on a release that never became active |
| `Traces.SickReplica` | services/control-plane/app/services/scale_service.py:262-291 | a run that leaves a replica STARTING and the deployment IN_PROGRESS |
| `Traces.DrainsAStartingRow` | services/control-plane/app/services/scale_service.py:294-344 | the next scale-down selects that row, raises and changes nothing |
| `Traces.SickReplacement` | services/control-plane/app/services/self_healing_service.py:226-269 | a healing call that raises and leaves the replacement STARTING |
| `Traces.FailedAbortStop` | services/control-plane/app/services/release_service.py:210-318 | a failed switch that leaves an instance of its release RUNNING |

## Left out

- Other applications: they appear through the ports they hold, which change at every await; their own rows are not tracked.
- Pipelines overlapping on one application: a pipeline is modelled as holding the lock throughout; `OperationLock` shows when a takeover can break that, and the rows are not proved under it.
- A crash in the middle of a release switch: the active release may be committed before the gateway is told, so agreement is claimed between operations only; ports and healing hold through crashes.
- A manual gateway sync during a switch: syncs are modelled between operations only.
- Domain, certificate, server, port range and health limits of an application: fixed for its lifetime.
- The monitor's tick: its loop over applications and its lists; any sequence of `Heal` operations on any row, stale or not, stands for it, and the poll itself is in `Health`.
- Fleets.Fleet.Move: is asked for STARTING of PENDING rows only, which is all the pipelines do; the table's entries from STOPPED and FAILED to STARTING are never used.
- LogTail.CollectLogs: a missing file is not a separate case, because the reader answers it as it answers an empty file; I/O errors are left out.
- Two clock readings in one uninterrupted stretch, as between the cooldown test and the time stamp: one reading.
- Identifiers and times in the journal's JSON: numerals in the place of UUIDs and RFC 3339 times; JSON a reader would accept beyond what the agent writes.
- Commands.AcceptedFromPending: takes each report and each sweep as one step; that a sweep in another thread may write from a copy a report has overtaken is in `TerminalIsFinal` only.
- Stale copies of instance rows: a pipeline's transition checks the committed status; one that keeps an older copy of an instance across an await is not modelled. A column the object mapper leaves out of an UPDATE because its value did not change is taken as written.
- Applications without a domain: the gateway is never told about them, and agreement is stated for those with one.
- `Commands`: waiters, envelopes and the TTL defaults.
- `Nginx.Manager.Apply`: assumes, as the manager does, that a failed reload leaves the loaded configuration unchanged; the text of the template is a token.
- Validation of replica bounds, sources, adapters and rollback targets before an operation starts, and which READY release a scale-up picks: the request carries what passed.
- Release pruning, build steps, payloads, audit rows, notifications and deployment logs.
- Container log offsets: the text is a sliding window, so offsets are not stable.
- HTTP, WebSocket, SQL sessions, authentication, secrets, certificates, the dashboard, the admin editor, Windows services and tar building.
