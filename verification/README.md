# Factory monitoring: worker side and shared tables

A Dafny model of the worker process, of the server functions that share its tables, and of one
dashboard computation, with proofs of what they keep, preserve and lose.

- `FleetTables.dfy` is a transition system over `workers`, `machine_workers`, `worker_commands` and the
  status column of `machines`. One event is one SQL statement, one transaction or one local step of a
  command poller. `Next` is total, so every sequence of events, by any number of processes, is a run.
- `Leases.dfy`, `Registration.dfy`, `Reaper.dfy` and `Commands.dfy` prove safety over all such runs.
- `Coordinator.dfy` and `Processes.dfy` are the methods of the worker and of the server. Between any
  two of their statements arbitrary events of other processes take effect, and statements may fail.
- `Alerts.dfy` proves that the alert evaluator keeps a run-length encoding of the readings.
- `EventQueries.dfy` covers the dynamic query builders, paging, and the alert counts.
- `ConfigPipeline.dfy` is the generator and the loader of worker configurations and their round trip.
- `Decoder.dfy` and `Modbus.dfy` cover byte orders, decoding, requests, reconnection and machine status.
- `Generator.dfy` is the fake data generator, `ChartMerge.dfy` the line chart's merge of series.

Time is an integer number of microseconds in the tables and of nanoseconds in the worker. Floats are
reals. The random source, the sine, IEEE 754 bit patterns, the text-to-instant function and the order
in which ORDER BY returns rows are parameters. `workers.name` is unique, and live processes have
distinct hostname-pid ids.

What the code does not guarantee, with the exact condition under which it holds:

- A claim that is not granted changes nothing and reports no error, so a worker whose claim was refused
  goes on as if it held the machine (`Leases.ClaimOutcome`).
- A restart never marks its row offline, so its registration is refused unless the last heartbeat is
  more than 90 seconds old (`Registration.RestartRefused`).
- The pollers of a worker row keep its commands in creation order in every run if and only if there is
  at most one of them (`Commands.OrderedExactly`; `Commands.TwoPollersReorder` is the failing run).
- `started_at` is not before `created_at` exactly when the command was there when the polling
  transaction began, or was inserted at that very instant (`Commands.StartedAfterCreationExactly`;
  `Commands.StartMayPrecedeCreation` is a failing run).
- An EXISTS query that fails, or a second evaluator, opens a second alert event
  (`Alerts.OneOpenExactly`, `Alerts.TwoEvaluatorsOpenTwo`).
- The listings order by columns that are not unique. Two pages cover the result, however ties are
  ordered, if and only if no tie crosses the cut (`EventQueries.ListingsCoverExactly`;
  `EventQueries.TiesMissEvents` is a failing pair of requests).
- The audit listing takes a site, but `audit_logs` has no site column and no clause uses the parameter.
- String registers make the loader reject a generated file, and a fake block whose bounds are both zero,
  or that has no pattern, comes back changed (`ConfigPipeline.PipelineRoundTrip`).
- 16-bit registers ignore the configured byte order (`Decoder.Decode16`), and a bool on a 16-bit
  register looks at its high byte only (`Decoder.DecodeBool`).
- Registers that share a name share a random walk. Their values stay in range exactly when the
  lowest value that can be carried over does (`Generator.PollInsideExactly`), which for monotonic
  registers is a check on the configuration (`Generator.CompatibleExactly`;
  `Generator.SharedNameEscapes` is a configuration that fails).
- Two different time strings of one instant make two chart rows (`ChartMerge.StrictExactly`).

## Model

| member | source | states |
|---|---|---|
| Leases.ForfeitExactly | internal/worker/coordinator.go:152-203 | over all steps, a worker loses a lease exactly by its own release, by another worker's claim of a lease silent for more than 90 s, or by a reap of its silent row |
| Leases.LeaseMoves | internal/worker/coordinator.go:154-166 | every step, seen from one machine: exactly when there is a lease afterwards and what it says, by the worker, the row and the 90 s that decide it |
| Leases.LossHasCause | internal/worker/coordinator.go:152-203 | in any run in which a lease is lost there is a first step that loses it, and it is one of those three |
| Leases.SteadyKeepsLease | internal/worker/coordinator.go:152-204 | lease safety: a worker whose row and machine heartbeats are never more than 90 s apart holds the lease at every point of the run until it releases it, whatever claims, takeovers and reaps others do |
| Leases.ClaimOutcome | internal/worker/coordinator.go:154-166 | a claim is granted exactly when the machine has no lease, one more than 90 s old, or the claimant's own; it then starts a new lease of its worker and row as of now, and otherwise silently changes nothing |
| Leases.NoClaimNoLease | internal/worker/coordinator.go:193-201 | heartbeats and everything else but a claim never give a worker a lease |
| Leases.OnlyRegistrationRevives | internal/worker/coordinator.go:184-192 | an offline row stays offline at every step but a registration of its name; heartbeats do not revive it |
| Leases.StopIsFinal | cmd/worker/main.go:143-148 | once a worker holds nothing and its row is offline, this lasts over every run without a new registration of the name or claim by the worker |
| Registration.NamesStayUnique | internal/worker/coordinator.go:100-112 | no run ever gives two rows to one name |
| Registration.RowMoves | internal/worker/coordinator.go:115-136 | every step, seen from one worker row: exactly what each beat, offline mark, reap and takeover writes, and that nothing else writes anything |
| Registration.RowAppears | internal/worker/coordinator.go:100-112 | a row appears only by registering a name that has none, online as of now |
| Registration.SucceedsExactly | internal/worker/coordinator.go:100-141 | a registration succeeds exactly when all rows of the name are offline or more than 90 s silent, or when there is none |
| Registration.OfflineReopens | internal/worker/coordinator.go:115-136 | an offline row is taken over by the next registration of its name, however recent its heartbeat |
| Registration.RowIsPermanent | internal/worker/coordinator.go:96-145 | over any run a name keeps the one row and id it has |
| Registration.AccountStep | internal/worker/coordinator.go:115-145 | one step changes the balance of registrations, offline marks and takeovers by nothing, and a takeover of an online row ends a silence of more than 90 s |
| Registration.RegistrationsBalance | internal/worker/coordinator.go:88-145 | conservation: successful registrations of a name are exactly paid for by its initial state, marks offline and takeovers of silent rows |
| Registration.RegistrationEpochs | internal/worker/coordinator.go:88-145 | successful registrations number at most one plus the marks offline plus the silent gaps longer than 90 s |
| Registration.HeartbeatsAdvance | internal/worker/coordinator.go:184-192 | a row's heartbeat never goes back and never passes the clock |
| Registration.RestartRefused | cmd/worker/main.go:113-125 | after a restart, without a mark offline, registration is accepted exactly when the row's heartbeat is more than 90 s old; sooner it changes nothing |
| Reaper.ReapCorrect | internal/worker_api/store.go:88-101 | after a reap no online worker is silent, exactly the claims of newly reaped workers are gone, exactly their machines became offline, and all else is unchanged |
| Reaper.ReapTwice | internal/worker_api/store.go:88-101 | a second reap at the same time is the identity |
| Reaper.MachineMoves | internal/worker_api/store.go:99-100 | a machine's status changes only when written by name or by the reap that takes its lease |
| Reaper.OnlineStaysFresh | internal/worker_api/store.go:88-101 | what a reap establishes about heartbeats of online workers survives every later step of the fleet |
| Reaper.RefsStayValid | internal/worker_api/store.go:95-96 | every claim refers to an existing worker row in every run |
| Reaper.CountsConserved | internal/worker_api/store.go:106-124 | machine counts over all workers sum to the number of claims |
| Commands.StepKeepsSafe | internal/worker/coordinator.go:221-297 | every step of every process keeps the invariant of the command queue |
| Commands.AtMostOnce | internal/worker/coordinator.go:255-281 | from empty tables, in any run with any number of pollers, crashes and lost acknowledgements, no command reaches a handler twice |
| Commands.CommandLifecycle | internal/worker/coordinator.go:255-296 | in every reachable state a finished command started no later than it completed, both in the past; a command other than stop or restart is completed only if its handler returned without error |
| Commands.StatusMoves | internal/worker/coordinator.go:255-296 | every possible change of a command's status: nothing returns to pending, and completed turns to failed only for stop or restart whose handler failed |
| Commands.StartMoves | internal/worker/coordinator.go:255-268 | nothing rewrites a command, and only the commit that starts it sets its start, to the time its transaction began |
| Commands.FinishMoves | internal/worker/coordinator.go:272-296 | only a mark sets a finish, to the time of the mark, and nothing is finished without one |
| Commands.CommandAppears | internal/worker_api/store.go:259-266 | commands only come from being sent to an existing worker, pending as of now |
| Commands.RecordsMove | internal/worker/coordinator.go:265-281 | calls, successes and starts are recorded exactly when a handler is entered, returns without error, and a commit takes effect |
| Commands.OnlyStopAndRestartComplete | cmd/worker/main.go:103-133 | with the worker's own handler, only stop and restart are ever completed |
| Commands.OthersLeaveCommand | internal/worker/coordinator.go:238-248 | while a poller works on a command no other process changes that command or the poller's standing |
| Commands.HandlerCallsStay | internal/worker/coordinator.go:281 | the record of handler calls only grows |
| Commands.KeepsOnePoller | internal/worker/coordinator.go:238-245 | with one poller on a row, every step keeps started commands no newer than waiting ones |
| Commands.StartsInCreationOrder | internal/worker/coordinator.go:238-268 | with a single poller on a worker row its commands start in creation order in every run |
| Commands.TwoPollersReorder | internal/worker/coordinator.go:238-268 | for any row and any two pollers, a run from empty tables in which two commands of the row start in the wrong order |
| Commands.OrderedExactly | internal/worker/coordinator.go:238-268 | for every row and set of pollers: all runs in which only they fetch for the row keep its commands in creation order if and only if there is at most one of them |
| Commands.ArrivalsWait | internal/worker/coordinator.go:226-248 | from empty tables a run reaches two waiting commands and two pollers of one row |
| Commands.StartMayPrecedeCreation | internal/worker/coordinator.go:226-259 | a run in which a command's start time is before its creation time |
| Commands.StartedAfterCreationExactly | internal/worker/coordinator.go:226-268 | over all runs in which a poller begins, finds a command and commits it, with others acting in between: the start time is not before the creation time if and only if the command existed when the transaction began or was created at that time |
| Coordinators.ReleasedAll | internal/worker/coordinator.go:300-311 | however others interleave and statements fail, releasing leaves a worker at most leases whose release was lost |
| Coordinators.ClaimedOnly | internal/worker/coordinator.go:152-172 | claiming gives a worker nothing it did not have or ask for |
| Coordinators.ClaimedAll | internal/worker/coordinator.go:152-172 | a claim on a machine that is free, more than 90 s silent or the claimant's own when its statement arrives is still held after the last claim unless someone takes it in between |
| Coordinators.TickBeats | internal/worker/coordinator.go:183-202 | the row and lease heartbeats that a tick reaches are no older than its beginning, whatever others do meanwhile |
| Coordinators.StepFollows | internal/worker/coordinator.go:255-296 | each step of a poller moves its command to the next status and keeps the record of handler calls |
| Coordinators.Coordinator.constructor | internal/worker/coordinator.go:33-51 | the name defaults to the hostname-pid id; no row is known yet |
| Coordinators.Coordinator.Register | internal/worker/coordinator.go:76-149 | succeeds exactly when every row of the name is offline or more than 90 s silent, or there is none, and the commit is acknowledged; if the commit takes effect exactly the row of the name is written, online as of now; a refusal changes nothing |
| Coordinators.Coordinator.ClaimMachines | internal/worker/coordinator.go:152-172 | the tables are those of the claims in order interleaved with the others; it stops early exactly at a failing statement, an unknown machine or row; when it does not, it holds every machine that was free, silent or its own and that nobody took since |
| Coordinators.Coordinator.HeartbeatTick | internal/worker/coordinator.go:183-202 | a tick beats the row and every machine in order, a failing statement skips only itself, and each heartbeat it reaches is no older than the tick |
| Coordinators.Coordinator.ReleaseMachines | internal/worker/coordinator.go:300-311 | all releases happen in order; what the worker still holds it held before and its release failed |
| Coordinators.Coordinator.SetOffline | internal/worker/coordinator.go:314-325 | marks the own row offline, or does nothing without one |
| Coordinators.Coordinator.FetchNext | internal/worker/coordinator.go:226-253 | finds a command exactly when the SELECT is not lost and an unlocked pending one waits at that moment; it is the oldest such, now locked, and never handed out before |
| Coordinators.WaitsExactly | internal/worker/coordinator.go:238-248 | the SELECT may return exactly the pending commands of the row that nobody has locked and that are no newer than any other such, and nothing exactly when there are none |
| Coordinators.Coordinator.MarkInProgress | internal/worker/coordinator.go:255-268 | the command is in progress once the commit takes effect, and the poller goes on only if it also sees it |
| Coordinators.Coordinator.EnterHandler | internal/worker/coordinator.go:270-281 | stop and restart are marked completed before the handler is entered, others stay in progress |
| Coordinators.Coordinator.LeaveHandler | internal/worker/coordinator.go:281-296 | the final status after the handler returned, with failed writes |
| Coordinators.Coordinator.ProcessNextCommand | internal/worker/coordinator.go:221-297 | under any interleaving and any fault, a handler is called exactly when nothing fails up to the acknowledged commit and a command waits; it gets the oldest one, not called before, which ends in the status its outcome demands |
| Processes.Shutdown | cmd/worker/main.go:143-148 | after cancel, release and mark offline, only leases whose release failed remain and the row is offline unless that statement failed |
| Processes.Serve | cmd/worker/main.go:58-148 | succeeds exactly when the registration is accepted and all machines are known; then a whole worker life ends, with other processes and its own late heartbeats interleaved anywhere, holding nothing and offline for good, and the next registration of the name succeeds at once |
| Processes.StartUp | cmd/worker/main.go:58-87 | registering and claiming succeed exactly when the name is open and all machines are known, and give no lease that was not asked for |
| Processes.CleanStop | cmd/worker/main.go:143-148 | after a clean stop and any run without a new registration or claim, nothing is held, the row is offline, and registering the name takes it over at once |
| Processes.WorkerStore.ListWorkers | internal/worker_api/store.go:80-152 | the listing comes after the reap, no online worker in it was silent then, and its counts sum to the claims |
| Processes.WorkerStore.ListRows | internal/worker_api/store.go:106-145 | one view per worker row, with counts that sum to the number of claims |
| Processes.WorkerStore.SendCommand | internal/worker_api/store.go:243-271 | unknown and offline workers are told apart and change nothing; otherwise one pending command is added even if the worker went offline in between |
| Alerts.EvalRuleProjects | internal/worker/alerteval.go:66-88 | evaluating one rule acts on the events of that rule alone |
| Alerts.PollProjects | internal/worker/alerteval.go:47-89 | whatever other rules a poll evaluates, a rule's events move as if it were evaluated alone, and stay if it is inactive |
| Alerts.AlertEvaluator.Evaluate | internal/worker/alerteval.go:26-90 | the event table after a poll, rule by rule, including queries and writes that fail |
| Alerts.EvaluatedByNumbers | internal/worker/alerteval.go:47-89 | one poll, in terms of reading and threshold: by its condition a rule opens one event with the reading as value unless one is open, or resolves its open events as of now |
| Alerts.FaultsByNumbers | internal/worker/alerteval.go:66-88 | a lost write changes nothing, and a failed EXISTS counts as no open event |
| Alerts.FollowClosed | internal/worker/alerteval.go:66-88 | from no open event, the check-then-insert and resolve steps append exactly the maximal runs |
| Alerts.FollowOpen | internal/worker/alerteval.go:82-88 | an open event is resolved at the first reading that does not trigger, and later runs follow |
| Alerts.HistoryIsRunLength | internal/worker/alerteval.go:47-89 | for any polls among any other rules, in which the rule may be active or not, its events are exactly the maximal runs of triggered readings it is evaluated on, each with its first value, resolved by the first reading after it |
| Alerts.RunsExactly | internal/worker/alerteval.go:52-88 | the encoding has one event for each position where a run begins, in order, with that reading's time and value, resolved at the first later reading that does not trigger |
| Alerts.RunsCloseInOrder | internal/worker/alerteval.go:66-88 | only the last run can be open, and it is so exactly when the last reading triggers |
| Alerts.OpenAfterTriggered | internal/worker/alerteval.go:66-88 | after any polls at most one event is open, and one is exactly when the last reading triggers |
| Alerts.OpenByNumbers | internal/worker/alerteval.go:52-88 | after any polls an event is open exactly when the last reading x compares to the threshold t as the condition says: x > t, x >= t, x < t, x <= t or x == t, and never for another word |
| Alerts.OneOpenExactly | internal/worker/alerteval.go:66-81 | one evaluation breaks the at-most-one rule exactly when it inserts although an event is open, which needs a failed or outdated EXISTS |
| Alerts.TwoEvaluatorsOpenTwo | internal/worker/alerteval.go:66-81 | two evaluators that both look before either inserts leave two open events |
| EventQueries.AddClause | internal/alert/store.go:104-108 | adding a clause and its argument adds one conjunct and leaves the meaning of earlier placeholders alone |
| EventQueries.AddText | internal/alert/store.go:104-118 | an optional text filter means equality when given and nothing when empty |
| EventQueries.AddSince | internal/alert/store.go:127-131 | an optional lower bound in time means that bound, never met by NULL |
| EventQueries.AddStatus | internal/alert/store.go:119-126 | the status filter means open, acknowledged, resolved, or no filter for other words |
| EventQueries.BuildEventQuery | internal/alert/store.go:96-131 | for every combination of filters the built clauses with their arguments accept exactly the rows that meet the filters |
| EventQueries.EventMatchesMeans | internal/alert/store.go:95-131 | the filters, condition by condition; an empty one asks for nothing |
| EventQueries.ListAlertEvents | internal/alert/store.go:91-179 | the answer is a page of exactly the rows that meet the filters, in the order of the field and direction the caller chose; LIMIT and OFFSET bind their own arguments; the total is the number of such rows |
| EventQueries.SortMeans | internal/alert/store.go:140-157 | the generated ORDER BY sorts by the field and direction the caller names |
| EventQueries.BuildAuditQuery | internal/audit/store.go:80-104 | the built clauses accept exactly the rows that meet the user, action, resource and time filters |
| EventQueries.AuditMatchesMeans | internal/audit/store.go:82-104 | the filters, condition by condition |
| EventQueries.ListAudit | internal/audit/store.go:76-137 | the answer is a page of exactly the entries that meet the filters, newest first, with their number as total, whatever site was asked for |
| EventQueries.FilterPermuted | internal/alert/store.go:134-138 | which rows match, and how many, does not depend on the order of the rows |
| EventQueries.PagesConcatenate | internal/alert/store.go:158-160 | under one fixed order successive pages concatenate to the whole result |
| EventQueries.TiesMissEvents | internal/alert/store.go:158-160 | two events of equal trigger time and two requests that both order them correctly: the pages show one event twice and the other never |
| EventQueries.PagesCoverExactly | internal/alert/store.go:158-160 | for distinct rows in order and any cut: the first rows and the rest make up the result, however each request orders ties, if and only if no tie crosses the cut |
| EventQueries.ListingsCoverExactly | internal/alert/store.go:156-179 | the same for all answers that two listing requests may give, over any table, filter and order |
| EventQueries.TotalsAddUp | internal/alert/store.go:119-126 | for any other filters, open, acknowledged and resolved totals sum to the total without a status |
| EventQueries.ActiveIsOpenPlusAcknowledged | internal/site/store.go:115-125 | a site's active alerts are its open plus its acknowledged events |
| EventQueries.AcknowledgingMoves | internal/alert/store.go:241-259 | acknowledging moves exactly the open info events from the open to the acknowledged total |
| EventQueries.AcknowledgingKeeps | internal/alert/store.go:241-259 | it leaves active alerts and the resolved total alone and no open info event behind |
| EventQueries.InfoIsListed | internal/alert/store.go:248-252 | open info events are what a listing for severity info and status open counts |
| EventQueries.AlertStore.AcknowledgeInfoEvents | internal/alert/store.go:241-259 | returns the total a listing for severity info and status open gave, changes exactly those events, and keeps active alerts |
| EventQueries.AlertStore.AcknowledgeAlertEvent | internal/alert/store.go:192-197 | changes the named event only and never whether an event is resolved |
| ConfigPipeline.SetRegisters | internal/site/handler.go:468-474 | defaults fill in place; accepts exactly when every defaulted register is valid, and otherwise names the first invalid one |
| ConfigPipeline.RegisterFields | internal/site/handler.go:402-434 | what is filled in and what is valid, field by field and word by word |
| ConfigPipeline.SetConfigMachines | internal/worker_config/store.go:189-205 | stored ports and slave ids are never zero and keep any value given |
| ConfigPipeline.LineMapHolds | internal/worker_config/yaml_gen.go:94-164 | the map of lines holds exactly the lines seen, each with its machines in order |
| ConfigPipeline.CollectLines | internal/worker_config/yaml_gen.go:94-164 | the grouping loop yields the lines in order of first occurrence and that map |
| ConfigPipeline.GenerateLines | internal/worker_config/yaml_gen.go:94-172 | the document's lines are the groups, numbered from 1 |
| ConfigPipeline.ElidedFields | internal/worker_config/yaml_gen.go:121-143 | which fields the document leaves out, and that the others are as stored |
| ConfigPipeline.OrderedIsContiguous | internal/worker_config/store.go:139 | ordering by line name makes machines of a line neighbours |
| ConfigPipeline.GroupingLosesNothing | internal/worker_config/yaml_gen.go:94-172 | the groups one after the other are the input sequence exactly when machines of a line are neighbours |
| ConfigPipeline.DocumentKeepsMachines | internal/worker_config/yaml_gen.go:94-172 | the machines of the generated lines, in order, are the input machines |
| ConfigPipeline.LinesNumbered | internal/worker/config.go:89-92 | line names are distinct, display orders are 1..n, and loading changes neither |
| ConfigPipeline.ApplyMachineDefaults | internal/worker/config.go:111-144 | the in-place defaults of a machine and its registers |
| ConfigPipeline.LoadConfig | internal/worker/config.go:62-108 | loads exactly when there is a site code and no register is a string without a length, and otherwise names the first such register |
| ConfigPipeline.LoadedDocument | internal/worker/config.go:70-96 | the document and its lines after loading, field by field, with their defaults |
| ConfigPipeline.LoadedFields | internal/worker/config.go:111-144 | a machine and its registers after loading, field by field, with their defaults |
| ConfigPipeline.SizedExactly | internal/worker/config.go:97-107 | filling in defaults neither makes a register a string nor gives one a length |
| ConfigPipeline.RegisterRoundTrip | internal/worker_config/yaml_gen.go:121-152 | an accepted register comes back unchanged exactly when its fake block is one the loader leaves alone, and is rejected exactly when it is a string |
| ConfigPipeline.MachineRoundTrip | internal/worker/config.go:111-144 | a machine comes back with every register field, port and slave id exactly under that condition |
| ConfigPipeline.MachineFields | internal/worker_config/yaml_gen.go:154-163 | name, model, host, port and slave id come back as stored, with the default timeout |
| ConfigPipeline.GeneratedLoads | internal/worker/config.go:97-107 | a generated document loads exactly when no register is a string |
| ConfigPipeline.ConfigRoundTrip | internal/worker_config/yaml_gen.go:94-172 | line by line and machine by machine, the loaded machine is the stored one exactly when its fake blocks survive |
| ConfigPipeline.PipelineRoundTrip | internal/worker_config/yaml_gen.go:77-188 | the worker loads a generated configuration and sees the stored machines in the stored order if and only if no register is a string and every fake block survives |
| ConfigPipeline.FindMachineConfig | cmd/worker/main.go:151-160 | the first machine of that name, or none when there is none |
| Decoder.Reverse | internal/worker/decoder.go:105-109 | the swapping loop turns the buffer into its reversal |
| Decoder.SwapPairs | internal/worker/decoder.go:119-124 | the swapping loop exchanges the bytes of every pair and keeps an odd last byte |
| Decoder.ApplyByteOrder | internal/worker/decoder.go:95-128 | reorders a copy, leaves the input alone, and rejects short inputs before unknown orders |
| Decoder.OrdersOfFour | internal/worker/decoder.go:102-127 | the four orders of four bytes, by name, byte by byte |
| Decoder.OrdersOfEight | internal/worker/decoder.go:102-127 | the four orders of eight bytes, by name, byte by byte |
| Decoder.OrderedFails | internal/worker/decoder.go:95-98 | exactly which inputs are too short and which orders unknown |
| Decoder.OrdersInvert | internal/worker/decoder.go:102-125 | on 4 and 8 bytes every order is its own inverse |
| Decoder.OrdersCompose | internal/worker/decoder.go:102-125 | on 4 and 8 bytes any two different swaps make the third, so little is mid-big after mid-little |
| Decoder.EncodingDecodes | internal/worker/decoder.go:39-55 | reading the big-endian encoding of a number gives the number |
| Decoder.Decode32 | internal/worker/decoder.go:39-79 | any in-range 32-bit integer or timestamp sent in any supported order decodes to n times the scale, or 1 if that is zero, plus the offset |
| Decoder.Decode16 | internal/worker/decoder.go:25-37 | a 16-bit integer sent in the configured order decodes to n times the scale, plus the offset, exactly when the order keeps pairs or both bytes are equal |
| Decoder.DecodeBool | internal/worker/decoder.go:16-23 | a bool on a 16-bit register is read right exactly when the register is zero or at least 256 |
| Decoder.DecodeFloat32 | internal/worker/decoder.go:57-64 | any 4-byte floating point pattern sent in any supported order decodes to its meaning times the scale, plus the offset |
| Decoder.DecodeFloat64 | internal/worker/decoder.go:66-73 | the same for 8 bytes |
| Decoder.ReadsFour | internal/worker/decoder.go:39-55 | the number that four bytes in each named order stand for |
| Decoder.DecodeFourBytes | internal/worker/decoder.go:39-79 | what that number is read as by each four-byte type, scaled and shifted |
| Decoder.DecodeTwoBytes | internal/worker/decoder.go:16-37 | what two bytes are read as by each two-byte type, scaled and shifted, whatever the order |
| Decoder.DecodeFails | internal/worker/decoder.go:16-83 | decoding fails exactly on an unknown type, too few bytes for the type, or an unknown order where one is used |
| Modbus.NotationsAgree | internal/worker/datasource_modbus.go:128-164 | five-digit and six-digit notation name the same zero-based address |
| Modbus.AddressMeans | internal/worker/datasource_modbus.go:132-164 | the wire address of every address of every kind |
| Modbus.RequestMeans | internal/worker/datasource_modbus.go:78-95 | each register is asked for by its kind, its wire address and the size of its type |
| Modbus.CompleteReplyDecodes | internal/worker/datasource_modbus.go:166-181 | the number of registers asked for is enough for every numeric type; a single-bit register decodes only as bool |
| Modbus.ProblemMeans | internal/worker/datasource_modbus.go:84-115 | which of the errors a register gives, and when |
| Modbus.AllReadMeans | internal/worker/datasource_modbus.go:102-115 | a successful read holds for every name the decoded reply of its last register |
| Modbus.ModbusDataSource.constructor | internal/worker/datasource_modbus.go:23-39 | starts disconnected, with a backoff of one second and no attempt made |
| Modbus.ModbusDataSource.Reconnect | internal/worker/datasource_modbus.go:41-64 | refuses while backing off without touching the device, doubles the wait up to 30 s on failure, resets it on success |
| Modbus.ReconnectMeans | internal/worker/datasource_modbus.go:41-64 | when an attempt is made and what it leaves, in nanoseconds |
| Modbus.ModbusDataSource.ReadRegisters | internal/worker/datasource_modbus.go:73-118 | all registers were read and hold their decoded replies, or the first problem is reported; only a bus error drops the connection |
| Modbus.ModbusDataSource.Read | internal/worker/datasource_modbus.go:66-119 | the new connection state and the result of a read for every state, outcome of connecting and replies; it follows the step of the backoff law |
| Modbus.ReadKeepsLaw | internal/worker/datasource_modbus.go:50-71 | one read keeps the backoff law |
| Modbus.BackoffLaw | internal/worker/datasource_modbus.go:41-71 | over any sequence of reads, backoff is min(2^f, 30) s after f failures in a row, and attempt k of a streak comes at least the sum of the waits in between after the first |
| Modbus.WaitValues | internal/worker/datasource_modbus.go:30-35 | the waits are 1, 2, 4, 8 and 16 seconds, and 30 from then on |
| Modbus.NextAttempt | internal/worker/datasource_modbus.go:50-55 | in any such state the device is tried again exactly when a full wait has passed since the last failure |
| Modbus.RunMachine | internal/worker/runner.go:36-60 | the status after any reads: error exactly when the last three failed, running once one succeeded, else the initial one |
| Modbus.RunProvisioned | internal/worker/provisioner.go:92-98 | started from the provisioned status, a machine is in error exactly when the last three reads failed and running otherwise |
| Generator.DriftBounded | internal/worker/generator.go:49-61 | a drift step stays in range and moves by at most 3.5 percent of it |
| Generator.MonotonicGrows | internal/worker/generator.go:63-76 | a monotonic step never decreases and never passes the maximum |
| Generator.SpikeWithin | internal/worker/generator.go:78-83 | a spike value is in range whichever branch is drawn |
| Generator.SineWithin | internal/worker/generator.go:42-47 | a sine value is in range for any phase and noise |
| Generator.DrawnValues | internal/worker/generator.go:23-47 | the value of every pattern without memory as a function of its draws |
| Generator.WalkedValues | internal/worker/generator.go:49-76 | the next value of every walk as a function of the remembered one and the draw |
| Generator.FakeDataSource.GenerateFor | internal/worker/generator.go:21-35 | the value is that of the pattern for the remembered value and the next draws; in range whenever the walk starts inside, and as promised to the previous value when that was in range; only walks are remembered |
| Generator.FakeDataSource.Read | internal/worker/datasource_fake.go:18-34 | one poll of any register list, empty ranges and shared names included, as the registers' values one after the other |
| Generator.FakeDataSource.Run | internal/worker/datasource_fake.go:18-34 | n polls of any register list are n such steps from a fresh state |
| Generator.RunsKeepPromises | internal/worker/datasource_fake.go:18-34 | with distinct names and ranges not empty, over any number of polls all values stay in range, monotonic ones never decrease, and drifts move by at most 3.5 percent of the range |
| Generator.ReportedNames | internal/worker/datasource_fake.go:23-31 | exactly the names of non-string registers with a fake block are reported |
| Generator.InRangeExactly | internal/worker/generator.go:21-76 | for every pattern and remembered value: all draws keep the next value in range if and only if the range is not empty and a monotonic walk is not below it |
| Generator.PollInsideExactly | internal/worker/generator.go:49-76 | for any registers, shared names included: all draws keep a poll in range if and only if no range is empty and the lowest carried value of every monotonic register is not below its minimum |
| Generator.RunInsideExactly | internal/worker/generator.go:49-76 | the same for runs of n polls |
| Generator.CompatibleExactly | internal/worker/generator.go:63-76 | unless drifts share a name: all runs of any length stay in range if and only if no range is empty and the first minimum of each name lies in all its monotonic ranges |
| Generator.SharedNameEscapes | internal/worker/generator.go:63-76 | a configuration of two same-named registers whose second value leaves its range in the first poll, whatever is drawn |
| ChartMerge.KeysAgree | frontend/src/components/widgets/LineChartWidget.tsx:71-78 | the map has exactly one row for each time string of any point |
| ChartMerge.RowsAgree | frontend/src/components/widgets/LineChartWidget.tsx:75-76 | a row holds a value for a source exactly when that source has a point there, namely its last |
| ChartMerge.Merge | frontend/src/components/widgets/LineChartWidget.tsx:71-81 | for any series: one row for each time string of any point and no other, each with the value of every source's last point at that time and nothing else but the time, in ascending order of instants |
| ChartMerge.SeriesChart | frontend/src/components/widgets/LineChartWidget.tsx:71-81 | the same of the table that the loops build, described by the points of the series alone |
| ChartMerge.LastAtMeans | frontend/src/components/widgets/LineChartWidget.tsx:72-76 | what is recorded for a source at a time is the value of its last point there, over all series in order |
| ChartMerge.ChartAgreesWithSeries | frontend/src/components/widgets/LineChartWidget.tsx:71-81 | the chart has one row per distinct time, no other, each with the last point of every source, in ascending order |
| ChartMerge.SortSorts | frontend/src/components/widgets/LineChartWidget.tsx:79-81 | sorting keeps the rows and puts them in order |
| ChartMerge.StrictExactly | frontend/src/components/widgets/LineChartWidget.tsx:79-81 | rows are strictly increasing in time exactly when no two different time strings denote one instant |

## Left out

- HTTP handlers, authentication, access checks, pages and widget configuration: request plumbing and user interface.
- The Postgres engine: each statement or transaction is one step that reads NOW() once. A registration is one step, although its SELECT and its write are two statements under a row lock.
- Columns of `workers` and `worker_commands` that no decision reads (hostname, address, version, parameters, result text), and deletion of workers or machines.
- Coordinators.Coordinator.HeartbeatTick: one tick; the ticker and the 30 s interval are not modelled, and Leases.SteadyKeepsLease takes the spacing of the beats as a property of the run.
- Coordinators.Coordinator.ProcessNextCommand: the handler is a parameter that returns, fails or never returns; the steps of the stop handler are those of Processes.Shutdown.
- Processes.Serve: registration and claims are taken without failing statements; ReleaseMachines, SetOffline and Shutdown state what failing statements leave behind. Provisioning and data sources are not part of it.
- Single-worker details (GetWorker) and command listings (ListCommands): single relational reads.
- Alerts.HistoryIsRunLength: thresholds and readings are reals, so NaN is not covered; the settings of the rule do not change, and one evaluator evaluates it with queries that succeed.
- Alerts.AlertEvaluator.Evaluate: a rule row that cannot be scanned is not modelled.
- EventQueries.ListAlertEvents: a count and its page see one state of the table; database errors other than negative limits and offsets, the place of NULLs in an order, and ids that are not UUIDs, are not modelled.
- EventQueries.ListAudit: joins that only add display columns, and decoding of details.
- ConfigPipeline.SetConfigMachines: the surrounding transaction and failing inserts.
- ConfigPipeline.LoadConfig: configuration objects are values, so updates through pointers into shared slices are not captured; the database URL, the worker name and the text form of the poll interval are left out.
- ConfigPipeline.PipelineRoundTrip: JSON and YAML are taken as faithful, stored registers that do not parse count as none.
- Provisioning: its stored register entry has no byte order or length, so there is no round trip through it.
- Modbus.RunMachine: status writes succeed and no reap marks the machine offline meanwhile; data points and metadata are not modelled.
- Modbus.ModbusDataSource.Read: time is read once per call, and the Modbus library is a function from requests to replies.
- Decoder.DecodeRegister: float rounding, and the meaning of 32 and 64 bit floating point patterns, which is a parameter.
- Generator.FakeDataSource.Run: floats are reals, and the sine is any function with values in [-1, 1].
- Generator.CompatibleExactly: where drifts share a name, Generator.RunInsideExactly gives the condition poll by poll instead of on the configuration.
- ChartMerge.Merge: the library sort is modelled as a stable sort; points whose time is not a date are outside the instant function. Which series are fetched and their labels are not modelled.
- CSV import of registers, dashboards, the command line client's paging hints.
