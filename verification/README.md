# Continuous Fabric, verified models

This project states and proves what the stateful cores of Continuous Fabric keep, over every run and every input.
Each core is modelled twice: as functions on values, about which the theorems are proved, and, where the program updates
objects and buffers in place, as a class or a loop that is proved to compute those functions.

- **Job protocol** (`HubModel`, `HubSafety`, `HubDecisions`, `Fabric`, `AgentModel`, `Agent`, `JobSystem`, `JobSafety`,
  `JobPlacement`, `JobTheorems`, `JobRecovery`): the hub with its journal, the agents with their receipt files, and a
  network that loses and reorders. At-most-once execution, agreement on outcomes, no outcome lost to pruning, one slot
  per node, one job per request, work only where it may run, crash refinement.
- **Journal** (`Canonical`, `Numerals`, `JournalModel`, `JournalDecisions`, `JournalTheorems`, `JournalInfinity`,
  `Journal`): the hash chain over lines of JSON, what loading gives back, and what the head determines.
- **Memory** (`Sums`, `LedgerModel`, `LedgerSafety`, `LedgerDecisions`, `LedgerTheorems`, `LedgerViews`, `Ledger`,
  `SlabPool`, `Reassembly`, `Gateway`, `CreditLedger`, `Admission`): hierarchical reservations, reference counts, the
  reconciliation oracle, the buffer pool, what a connection holds of them on its way in and on its way out, any number
  of connections sharing them, and admission of operations.
- **Terminal output** (`GateModel`, `OutputGate`, `CreditModel`, `CreditSafety`, `CreditDecisions`, `CreditTheorems`,
  `CreditLoop`, `CreditDeadlock`, `Connection`, `Pipeline`, `Delivery`): the producer's gate, the byte-credit sender and
  the crediting client; safety, order, for exactly which limits the two ends cannot deadlock, and that with them all
  output is shown.
- **Decoders** (`Utf8`, `Utf16`, `WsModel`, `WsTheorems`, `WsRefusals`, `WebSocket`, `BridgeModel`, `Bridge`,
  `BridgeRecords`, `Base64`, `JsonModel`, `JsonTheorems`, `JsonGrammar`, `JsonDocuments`, `JsonParser`): each gives the
  same result however its input is cut, undoes its encoder, and accepts exactly what its format describes.
- **Terminal emulator** (`ScreenModel`, `ScreenSafety`, `ScreenMeaning`, `Screen`, `VtModel`, `VtTheorems`,
  `VtSequences`, `VtMeaning`, `Parser`): the grid and the escape-sequence machine; bounds for every stream, independence
  of cutting, and what each sequence does to the cells, the cursor, the region and the pen.
- **Virtual files** (`VfsModel`, `VfsSafety`, `VfsContents`, `VfsSnapshot`, `VfsPaths`, `Vfs`, `Splitting`): quota
  accounting of a tree against its recursive cost, what each operation does to every path, snapshots, and paths.

`dafny verify dfyconfig.toml` checks everything. `Common` holds the small datatypes every module shares.

## Model

| member | source | states |
|---|---|---|
| JobTheorems.AtMostOnce | lib/fabric.js:72-94 | In every run of hub, agents and network, with crashes, restarts, lost and duplicated packets, no job id is started twice, and every start is the durable assignment: its node, its lease and the work that was submitted |
| JobTheorems.OutcomeAgreement | lib/fabric.js:106-117 | A SUCCEEDED or FAILED job carries exactly what its assigned node stored on disk under that lease, and no agent ever stored another final outcome for the job |
| JobTheorems.PruningLosesNothing | lib/agent.js:33-36 | A stored outcome stays in its agent's file until the hub holds it or the operator abandoned the job; a receipt marked acknowledged is one the hub holds |
| JobTheorems.SingleSlotAndIdempotency | lib/fabric.js:63-91 | In every reachable state two jobs never share requester and key, two ASSIGNED or UNKNOWN jobs never share a node, and the journal replays to the live table |
| JobTheorems.JobsOnlyProgress | lib/fabric.js:47-50 | Between any two points of a run a job keeps its identity and moves only along the documented edges; final states and results never change |
| JobRecovery.OutcomeDeliverable | lib/hub.js:106-131 | From every reachable state, unless the operator has abandoned the job, some run of restarts, a registration with the tick it sets off, a report on that connection and its delivery leads to a table with exactly this outcome for the job, if and only if its result has no object key that the journal refuses; a delivery takes what its agent sent first on a connection that it registered with this hub process |
| JobRecovery.Registers | lib/hub.js:106-127 | A running agent registers with a restarted hub, whose tick then leaves it idle, with no job lost or given up |
| JobTheorems.GenuineReceiptTaken | lib/fabric.js:106-117 | An idle hub accepts a receipt that its assigned agent stored if and only if the job is abandoned, or the result has no refused object key and the job is final or the journal has room; the refusal names the reason |
| JobTheorems.UnrecordableStaysOpen | lib/journal.js:26-27 | An outcome whose result has a refused object key never gets into the table, on any run: its job stays open until the operator gives it up |
| JobRecovery.AgentReloads | lib/agent.js:21-37 | A restarted agent starts, with every stored final outcome in the store it loads |
| JobRecovery.HubReloads | lib/fabric.js:10-16 | A restarted hub is up and idle, has no peers and knows the same jobs, each as it was but that an assigned one is of unknown outcome |
| JobTheorems.TraceBounded | lib/agent.js:5-36 | In every run no agent's cache or file ever holds more than 1000 receipts |
| JobSafety.StepKeeps | lib/fabric.js:72-121 | Every step of hub, agent or network keeps the global invariant that ties table, wire, files and started executions together |
| JobSafety.OracleKeeps | lib/fabric.js:82-92 | An answer of the placement oracle, whatever happened while it was awaited, assigns at most one free node and sends at most one order |
| JobSafety.OrderKeeps | lib/agent.js:68-85 | An execute message runs only after EXECUTING is on disk, only when no earlier run of that job began |
| JobSafety.DeliverKeeps | lib/fabric.js:106-117 | A delivered receipt brings into the table only an outcome its assigned agent stored |
| JobSafety.BootKeeps | lib/agent.js:21-37 | Loading turns EXECUTING into UNKNOWN and keeps every final outcome |
| HubSafety.CrashRefinement | lib/fabric.js:10-16 | Rebuilding from the journal at any point gives the live table with every ASSIGNED job UNKNOWN, all else as it was but the reason of queued jobs |
| HubSafety.SubmitKeeps | lib/fabric.js:46-67 | A submission adds at most one job, queued; the job it answers with is the requester's and does the work asked for; work with a refused object key gets no job |
| HubSafety.SubmitIdempotent | lib/fabric.js:63-64 | The same key with the same work answers the same job and changes nothing; with other work, or with data that has a refused object key, it is refused |
| HubSafety.AbandonKeeps | lib/fabric.js:47-51 | Abandoning touches one job, only from QUEUED or UNKNOWN of the same tenant |
| HubSafety.RegisterKeeps | lib/fabric.js:95-100 | Registering, even while the oracle is awaited, keeps every job and refuses a second peer of the same id and extra operations |
| HubSafety.SweepExact | lib/fabric.js:101-105 | A disconnect, restart or deadline sweep that the journal did not cut short moved exactly the ASSIGNED jobs it aims at to UNKNOWN |
| HubSafety.ReceiptKeeps | lib/fabric.js:106-117 | An acknowledged receipt is one whose outcome the table holds afterwards; a refused one changes nothing |
| HubSafety.AnswerKeeps | lib/fabric.js:82-92 | A placement is committed exactly when the recheck after the await passes and the journal takes it |
| HubSafety.ScanKeeps | lib/fabric.js:72-81 | The schedule loop up to its next await changes nothing but reasons of queued jobs |
| JobPlacement.PlacedOnTarget | lib/fabric.js:76-89 | In every reachable state a job that has been given to a node has a node, and it is the one its target names if it names one; no test of the scheduler is used to say so |
| JobPlacement.RunsOnTarget | lib/fabric.js:76-90 | Every execution that ever began did so at an agent of the job's tenant, on the node the job names if it names one |
| JobPlacement.AwardOnTarget | lib/fabric.js:76-89 | Whenever a job is given a node, in any run, it is a registered one of the job's tenant, of the site it names if it names one, and the node it names if it names one |
| HubDecisions.ScanDecided | lib/fabric.js:73-83 | The loop stops at the first waiting job that some registered node fits, by tenant, id and site, and asks about all of those nodes and no others, and says which are free; each waiting job before it has the reason that there is none |
| HubDecisions.AwardDecided | lib/fabric.js:85-92 | After the answer the job is assigned for thirty seconds exactly when the node named is still registered on the connection asked about, was heard of in time, has the operation, is the tenant's, and the journal takes it; a message that could not be sent makes it UNKNOWN |
| HubDecisions.LossDecided | lib/fabric.js:15 | A restart loses every assignment, a lost connection those of its node, the clock those that are overdue, each under its own reason |
| HubDecisions.DisconnectDecided | lib/fabric.js:101-105 | With room in the journal a lost connection makes exactly the jobs assigned to its node UNKNOWN and unregisters it; an old connection does nothing |
| HubDecisions.TickDecided | lib/fabric.js:118-119 | With room in the journal a tick makes exactly the overdue assignments UNKNOWN |
| HubDecisions.SubmitDecided | lib/fabric.js:46-67 | A new key makes exactly one new job, queued and without node or lease, or is refused, and the reason says what stands in the way |
| HubDecisions.AbandonDecided | lib/fabric.js:46-51 | Which abandons are accepted, and the reason for every other |
| HubDecisions.RegisterDecided | lib/fabric.js:95-100 | A peer is registered exactly when its id is free and it asks for at most sixteen operations, all granted |
| HubDecisions.ReceiptDecided | lib/fabric.js:106-117 | What is recorded and answered to every receipt: another's is refused, a first outcome is recorded as reported, the same again is acknowledged, a different one is refused, and one for an abandoned job is acknowledged and dropped |
| HubDecisions.CallsSchedule | lib/fabric.js:67-121 | After a new job, a receipt or a tick no waiting job is passed over for which a registered node fits |
| HubDecisions.AnswerSchedules | lib/fabric.js:73-93 | After an answer the loop goes on behind the job it was about, passing over none for which a registered node fits |
| AgentModel.PruneBounds | lib/agent.js:33-36 | Pruning a full store leaves at most 800 receipts, or only unacknowledged ones, and never drops an unacknowledged one |
| AgentModel.OrderDecided | lib/agent.js:68-80 | An order is run exactly by a linked agent that is free, never saw the job, has room for a receipt, and whose file takes the entry; one seen before is answered when it is the same and refused when not |
| AgentModel.DoneDecided | lib/agent.js:67-85 | A finished execution frees the agent and is in its file, or the agent has stopped; an acknowledgement marks the receipt of that very lease and no other |
| AgentModel.PruneDecided | lib/agent.js:33-36 | A store below a thousand is left alone; a full one is cut to eight hundred and no further, and to what is not acknowledged; nothing in it changes |
| AgentModel.StartDecided | lib/agent.js:21-37 | Which files an agent starts with, and what it makes of each receipt in them |
| FabricHub.Fabric.constructor | lib/fabric.js:10-16 | Replay and the restart sweep give the table of the specification |
| FabricHub.Fabric.Append | lib/fabric.js:18 | `record`: the journal and the table move together or, when the record has a refused object key or the journal is full, not at all |
| FabricHub.Fabric.Command | lib/fabric.js:46-67 | The whole hub state after a submission is the specified one |
| FabricHub.Fabric.Abandon | lib/fabric.js:47-51 | The whole hub state after an abandon is the specified one |
| FabricHub.Fabric.Register | lib/fabric.js:95-100 | The whole hub state after a registration is the specified one |
| FabricHub.Fabric.Disconnect | lib/fabric.js:101-105 | The loop over the table leaves the specified state |
| FabricHub.Fabric.Resume | lib/fabric.js:72-81 | The schedule loop stops at the specified await with the specified candidates, which `HubDecisions.ScanDecided` says are all the nodes that fit and no others |
| FabricHub.Fabric.OnPlacement | lib/fabric.js:82-93 | Resuming after the oracle's answer leaves the specified state, order sent or not |
| FabricHub.Fabric.OnReceipt | lib/fabric.js:106-117 | The whole hub state and the answer to a receipt are the specified ones |
| FabricHub.Fabric.Tick | lib/fabric.js:118-121 | The deadline sweep and the schedule after it leave the specified state |
| ExecutorAgent.Executor.constructor | lib/agent.js:21-37 | What a start accepts, loads, prunes and writes back is the specified store |
| ExecutorAgent.Executor.PruneStore | lib/agent.js:33-36 | The deleting loop over the keys leaves the specified store |
| ExecutorAgent.Executor.OnExecute | lib/agent.js:68-80 | An execute message is ignored, answered, refused or begun as specified, with the specified file |
| ExecutorAgent.Executor.OnFinished | lib/agent.js:81-85 | The outcome of an execution is in cache and file, or the agent has stopped |
| ExecutorAgent.Executor.OnReceiptAck | lib/agent.js:67 | An acknowledgement marks exactly the matching final receipt |
| JournalTheorems.LoadOfAppended | lib/journal.js:13-33 | Whatever is appended to a new journal, refused events included, its file loads to the seq and head in memory and to the events in memory with `null` for every number that is not finite; so to exactly the journal in memory if and only if every number of the events it took is finite |
| JournalTheorems.AppendLoads | lib/journal.js:26-33 | One more append to a file that loads: done or refused, it loads to what it did, and after a done one to that and the event with `null` for every number that is not finite |
| JournalTheorems.HeadDeterminesHistory | lib/journal.js:13-22 | With an injective digest two accepted files with the same head hold the same history, up to the order of members and to numbers that are not finite, which count as `null`; without that exactly when no such number stands against something else; the one exception is an empty file beside one whose hash is the genesis text |
| JournalTheorems.LineParsed | lib/journal.js:15 | A written line is parsed to the record it was printed from, with `null` for every number that is not finite |
| JournalInfinity.RequestRead | lib/fabric.js:61 | The text `{"x":1e400}` is parsed to an object whose member is infinite |
| JournalInfinity.RequestLost | lib/journal.js:26-33 | Appended, that object is infinite in memory, and the file gives back `{"x":null}` |
| JournalInfinity.TwoHistories | lib/journal.js:13-22 | Two one-line files, one with the event `1e400` and one with `null`, are both accepted and end in one hash |
| JournalTheorems.PrintOneLine | lib/journal.js:28 | A printed record holds no line break, so lines of the file are the records |
| JournalDecisions.LineDecided | lib/journal.js:13-22 | A line is accepted exactly when it is an object with keys the canonical form takes, with the next number, the head as predecessor, and the digest of all else in it as hash; a refusal names the first of these that fails |
| JournalDecisions.FileDecided | lib/journal.js:9-23 | A file is refused for its size, then for a last line that is not ended, then for its first bad line |
| JournalDecisions.AppendDecided | lib/journal.js:26-32 | When an append is refused, and that it otherwise adds one line with number, predecessor, event and hash, and nothing else |
| JournalTheorems.SameLine | lib/journal.js:17-21 | Two lines accepted under one digest have the same number, predecessor and event, up to the order of members and to numbers that are not finite |
| JournalFile.Store.Replay | lib/journal.js:9-23 | The replay loop accepts and refuses files exactly as specified, fault by fault, and leaves the specified journal |
| JournalFile.Store.Add | lib/journal.js:26-33 | After an append the file and fields are the specified ones; a file that loaded to the journal in memory still does, if and only if the append was refused or every number of the event is finite |
| Canonical.CanonicalIff | lib/common.js:12-22 | Two JSON values have the same canonical text if and only if they are equal up to the order of the members of their objects and to numbers that are not finite, which count as `null` |
| Canonical.AlikeIsSimilar | lib/common.js:22 | Such values are equal up to the order of members exactly when no number that is not finite stands against something else |
| Canonical.AscendingUnique | lib/common.js:20 | A list of members in key order is determined by its members |
| LedgerTheorems.Conservation | runtime/hermit/ram/ledger.js:42-168 | After any run of admit, acquire, activate, setUsed, retain, release and close every total is the sum it stands for and session, tenant and global limits hold |
| LedgerTheorems.ReconcileAlwaysOk | runtime/hermit/ram/ledger.js:154-168 | The oracle `reconcile()` is satisfied in every reachable state and recomputes exactly the running physical bytes |
| LedgerTheorems.RefusalChangesNothing | runtime/hermit/ram/ledger.js:71-145 | A refused operation moves refusal counters and nothing else |
| LedgerTheorems.PhysicalWithinGlobal | runtime/hermit/ram/ledger.js:131-145 | Physical bytes never exceed the reservations nor those the global allowance |
| LedgerTheorems.ReturnedOnce | runtime/hermit/ram/ledger.js:48-54 | Once a release returned a lease's capacity no later release of it returns anything, whatever runs in between |
| LedgerTheorems.EarlierReleasesReturnNothing | runtime/hermit/ram/ledger.js:48-54 | Fewer releases than references move no total |
| LedgerTheorems.LastReleaseReturnsAll | runtime/hermit/ram/ledger.js:48-54 | As many releases as references return exactly the lease's capacity |
| LedgerTheorems.HeldBefore | runtime/hermit/ram/ledger.js:71-88 | Only `acquire` gives an account a lease it did not hold, and that lease's number is new |
| LedgerTheorems.AllClosedIsZero | runtime/hermit/ram/ledger.js:106-153 | With every account closed and every lease released all totals are zero |
| LedgerTheorems.Drains | runtime/hermit/ram/ledger.js:96-153 | From every reachable ledger closing and releasing leads to zero totals: nothing is stuck |
| LedgerDecisions.AcquireDecided | runtime/hermit/ram/ledger.js:71-87 | A reservation is granted exactly when the account exists and is open, the extent is a safe integer of at least zero, what the live leases of the bucket hold leaves room within its cap, what all live leases hold leaves room within the limit, and a generation is left; otherwise the answer names the first that fails |
| LedgerDecisions.AcquiredLease | runtime/hermit/ram/ledger.js:81-86 | A granted lease is new, has one reference and nothing used, and joins the others of the account |
| LedgerDecisions.AdmitDecided | runtime/hermit/ram/ledger.js:134-145 | An account is admitted exactly when its key is free, the reservation is a positive safe integer, and tenant and server have room beside what is admitted; otherwise the answer names the first that fails |
| LedgerDecisions.RefusalCounted | runtime/hermit/ram/ledger.js:72-139 | A refusal counts once under its own scope and moves nothing else |
| LedgerDecisions.LeaseDecided | runtime/hermit/ram/ledger.js:42-45 | A live lease takes any extent within its capacity and one more reference; all else is refused and changes nothing |
| LedgerDecisions.ReleaseDecided | runtime/hermit/ram/ledger.js:48-54 | Every release but the last takes one reference; the last takes the lease out, and with the last lease of a closed account its reservation goes back |
| LedgerDecisions.CloseDecided | runtime/hermit/ram/ledger.js:106-112 | A closed account takes nothing more; it is gone at once when it holds nothing, and otherwise its leases drain and its reservation stays |
| RamLedger.Controller.Admit | runtime/hermit/ram/ledger.js:134-145 | The tables and totals after an admission, or its refusal and scope, are the specified ones, which `LedgerDecisions.AdmitDecided` determines |
| RamLedger.Controller.Acquire | runtime/hermit/ram/ledger.js:71-88 | The tables and totals after an acquisition, or its refusal at the first scope that lacks room, are the specified ones, which `LedgerDecisions.AcquireDecided` determines |
| RamLedger.Controller.Activate | runtime/hermit/ram/ledger.js:42-43 | A stale lease or a bad extent is refused, otherwise only that lease changes |
| RamLedger.Controller.SetUsed | runtime/hermit/ram/ledger.js:43 | An extent beyond the capacity is refused, otherwise only that lease changes |
| RamLedger.Controller.Retain | runtime/hermit/ram/ledger.js:45 | One more reference, or a refusal on a released lease |
| RamLedger.Controller.Release | runtime/hermit/ram/ledger.js:48-54 | One reference fewer; the last one returns the capacity and may finish a closing account |
| RamLedger.Controller.Close | runtime/hermit/ram/ledger.js:106-112 | A closing account is finished at once when it holds nothing, and otherwise by its last release |
| RamLedger.Controller.Reconcile | runtime/hermit/ram/ledger.js:154-168 | The loops over sessions, leases and tenants answer ok exactly when every running total is the recomputed sum |
| SlabPool.Pool.Rent | runtime/hermit/ram/ledger.js:190-200 | A buffer nobody holds, of the smallest class that is large enough; null when no class is |
| SlabPool.Pool.GiveBack | runtime/hermit/ram/ledger.js:201-208 | A buffer is taken back once and never idle and lent; the declared extent is erased, and idle buffers stay all-zero if and only if nothing was written beyond it |
| SlabPool.Erase | runtime/hermit/ram/ledger.js:201-208 | The erased extent is zero and the rest is untouched |
| Admission.AdmitsDescribed | runtime/hermit/ram/descriptor.js:105-140 | A description over leases still held is admitted if and only if phase, payload kind, plan and the session limit allow it, and its operation then names exactly those leases |
| Admission.OutputIsAdmitted | runtime/hermit/gateway/connection.js:84-85 | The output of a session that has not ended is always admitted, so that refusal in `_flush` is dead |
| Admission.AdmittedIsLive | runtime/hermit/ram/descriptor.js:105-140 | Whatever a descriptor claims, an admitted one is of this principal, session, epoch, plan and phase, and names live leases of this account, of their generation and inside what they hold |
| Admission.DropsOnce | runtime/hermit/ram/descriptor.js:87-90 | However an operation is driven it drops its references at most once, and it did exactly when it is released |
| Admission.CompleteDropsNamed | runtime/hermit/ram/descriptor.js:144 | Completing drops one reference for each time a lease is named and no other |
| Admission.Operation.Complete | runtime/hermit/ram/descriptor.js:144 | The loop over the leases leaves the ledger with each named reference dropped once |
| GateModel.RunIsLossless | runtime/hermit/worker/output-gate.js:34-72 | Over any run what was sent followed by what is queued is, in order, the writes that fitted beside what was queued and one gap marker for each that did not, and every other byte is counted as dropped |
| GateModel.DoKeeps | runtime/hermit/worker/output-gate.js:29-72 | Each operation keeps the queue within its bound, its byte count exact, and no producer waiting at an open gate |
| GateModel.PumpedMoves | runtime/hermit/worker/output-gate.js:62-72 | Pumping moves bytes to the link in order and neither makes nor loses any |
| GateModel.WriteDecided | runtime/hermit/worker/output-gate.js:34-57 | On a gate that does not drop, a write that fits beside what is queued lengthens the stream by exactly its bytes and counts nothing; one that does not fit is counted, and puts one marker in its place; on a gate that drops it is only counted |
| GateModel.CutIsFull | runtime/hermit/worker/output-gate.js:50-54 | A write is cut into as few chunks as the limit allows: chunk `i` is the bytes from `i` times the limit on, full but for the last |
| GateModel.PumpedExactly | runtime/hermit/worker/output-gate.js:62-71 | The pump sends from the front of the queue while nothing is in the way, and stops nowhere else |
| GateModel.SignalsDecided | runtime/hermit/worker/output-gate.js:29-60 | What a report, a pause, a resume and a drain change, and that waiting producers are called, once and in order, exactly when there is room |
| GateModel.ProducersDecided | runtime/hermit/worker/output-gate.js:29-57 | The same of a write; a producer that asks is called at once when there is room and waits behind the others when not |
| WorkerOutput.OutputGate.WriteText | runtime/hermit/worker/output-gate.js:34-57 | A write is accepted, cut into chunks, or dropped with one gap marker, exactly as specified, which `GateModel.WriteDecided` determines from the bytes queued |
| WorkerOutput.OutputGate.PumpOut | runtime/hermit/worker/output-gate.js:62-72 | The pump loop leaves the specified queue, log and in-flight count |
| WorkerOutput.OutputGate.ReportConsumed | runtime/hermit/worker/output-gate.js:31 | Consumed bytes leave the in-flight count, never below zero, and the pump runs |
| WorkerOutput.OutputGate.WhenDrained | runtime/hermit/worker/output-gate.js:32 | A producer is called at once when the gate is open, else it waits in order |
| CreditTheorems.CreditSafe | runtime/hermit/gateway/connection.js:78-211 | In every run, whatever credit the client sends, consumed <= sent <= credit <= consumed + window, the outstanding marks are exactly the unconsumed frames in order, and never more than allowed |
| CreditTheorems.LosslessOrder | runtime/hermit/gateway/connection.js:79-119 | No operation reorders, repeats or loses output: frames sent followed by payloads waiting grow by exactly what was handed over, and only ending the session cuts what waits |
| CreditTheorems.ReturnedByCallback | runtime/hermit/gateway/ws.js:102-116 | A payload's memory is returned exactly when the callback of its write fires, or, never written, when the session gives it up; its name is never used again |
| CreditLedger.ChargedExactly | runtime/hermit/gateway/connection.js:79-119 | The connection and its account in the ledger run side by side, with anyone else's operations on the ledger in between: in every run the account's total for queued output is exactly the bytes that wait and the bytes written whose callback has not come, one lease with one reference for each payload |
| CreditLedger.CapacityReturned | runtime/hermit/gateway/ws.js:102-116 | The lease of a payload leaves the account in exactly one step, the callback of its write or, never written, the end of the session; no step of anyone else returns it and none returns it again |
| CreditLedger.NothingKept | runtime/hermit/gateway/connection.js:330-343 | With the socket gone and every write called back nothing of the output is charged, and an account with no other lease is gone |
| CreditLedger.StepKeeps | runtime/hermit/gateway/connection.js:79-343 | Every step, of the connection or of anyone else on the ledger, keeps references and leases in agreement |
| LedgerViews.ElsewhereKeeps | runtime/hermit/ram/ledger.js:71-112 | Operations on other accounts or other buckets leave the leases of a bucket alone |
| LedgerViews.KindTotal | runtime/hermit/ram/ledger.js:71-96 | The running total of a bucket is what its leases charge |
| CreditSafety.FirstIsLive | runtime/hermit/gateway/connection.js:84-85 | The lease of the first waiting payload is always live: the branch that would drop output is dead |
| CreditSafety.ConsumedMarks | runtime/hermit/gateway/connection.js:206 | Acknowledging frames removes exactly their marks and counts their bytes |
| CreditSafety.DoKeeps | runtime/hermit/gateway/connection.js:79-339 | Every operation of the outbound half keeps its invariant |
| CreditDecisions.FlushedExactly | runtime/hermit/gateway/connection.js:78-96 | A flush sends waiting payloads from the first on, each exactly while credit, unconfirmed frames, the send queue and sequence numbers allow it, and ends the session when only numbers have run out |
| CreditDecisions.PausedWhileWaiting | runtime/hermit/gateway/connection.js:98-103 | After a flush the worker is paused exactly when something waits |
| CreditDecisions.CreditDecided | runtime/hermit/gateway/connection.js:201-211 | A credit is taken exactly when its frame lies between the last one reported and the last sent, its bytes do not fall, and they grant no more than a window beyond what is consumed; every other ends the session |
| CreditDecisions.GrantDecided | runtime/hermit/client/ws-adapter.js:75-83 | When the client grants again, and how much |
| CreditDecisions.ControlDecided | runtime/hermit/gateway/ws.js:102-126 | A control message may use the reserve; without room even there the socket is torn down |
| CreditDecisions.EndsDecided | runtime/hermit/gateway/connection.js:302-343 | What ends of worker, session and socket give up, and that each does so once |
| CreditDecisions.SettledDecided | runtime/hermit/gateway/ws.js:109 | A callback takes the oldest write out of flight, and a congested queue is tried again below a quarter |
| CreditDecisions.OutputDecided | runtime/hermit/gateway/connection.js:111-119 | When output is discarded, refused, or queued behind what waits |
| CreditLoop.NeverAccused | runtime/hermit/client/ws-adapter.js:126-131 | A client that follows `credit` never causes a CREDIT_VIOLATION |
| CreditLoop.ClientSeesOrder | runtime/hermit/client/ws-adapter.js:75-83 | In every run the client shows a prefix of what was sent, with no gap reported |
| CreditDeadlock.DeadlockFreeIff | runtime/hermit/gateway/connection.js:78-96 | No run with chunks of 1 to `chunk` bytes comes to rest with output waiting if and only if the configured limits fit each other |
| CreditDeadlock.TwoChunksSuffice | runtime/hermit/client/ws-adapter.js:83 | A window of two chunks, 128 outstanding frames and a socket budget for one chunk are enough |
| CreditDeadlock.SmallestWindowDeadlocks | runtime/hermit/gateway/connection.js:226 | A window of one chunk, which the configuration accepts, does deadlock |
| CreditDeadlock.FewestFramesDeadlock | runtime/hermit/gateway/connection.js:78 | So does a maximum of 8 outstanding frames |
| CreditDeadlock.UnfittingGetsStuck | runtime/hermit/gateway/connection.js:78-96 | When the limits do not fit there is a run that ends stuck |
| Delivery.AllIsDelivered | runtime/hermit/gateway/connection.js:79-119 | From every state a run can reach, and in whatever order the parts then act without new input, they stop after a number of turns that the state bounds; where they stop, unless the session has ended, the client has shown exactly the stream the gate had accepted; whether a paused link goes on being read, as that of a thread does, or stops, as that of a process does |
| Delivery.TurnsRunOut | runtime/hermit/gateway/connection.js:79-119 | No more such turns are taken than there is work, in any order, and none changes what was accepted |
| Delivery.ComesToRest | runtime/hermit/gateway/connection.js:79-119 | From every reachable state such turns lead to a state where nothing is left to do, on a link of either kind |
| Pipeline.NothingLeftBehind | runtime/hermit/gateway/connection.js:79-110 | Gate, link, sender, socket and client together: with limits that fit, whatever run they made, at rest the gate is open and empty, nobody sleeps on it, and the client has shown exactly what the gate accepted |
| TerminalConnection.Connection.Flush | runtime/hermit/gateway/connection.js:79-97 | The flush loop leaves the specified record, wire, references and flags |
| TerminalConnection.Connection.Output | runtime/hermit/gateway/connection.js:111-119 | A payload of the worker is queued under a lease, refused, or discarded as specified |
| TerminalConnection.Connection.CreditMessage | runtime/hermit/gateway/connection.js:201-211 | A credit is refused or taken exactly as specified |
| TerminalConnection.Connection.Acknowledge | runtime/hermit/gateway/connection.js:206 | The loop takes exactly the consumed marks |
| TerminalConnection.Connection.Settle | runtime/hermit/gateway/ws.js:102-116 | The callback of the oldest write returns its bytes and its reference, and reports a drain |
| TerminalConnection.Connection.FinalExit | runtime/hermit/gateway/connection.js:302-313 | What still waits is cut, counted and its memory returned, once |
| TerminalConnection.Connection.SocketClosed | runtime/hermit/gateway/connection.js:330-343 | A closed socket gives up what waits and keeps writes in flight until their callbacks |
| TerminalConnection.ClientRecord.OnFrame | runtime/hermit/client/ws-adapter.js:75-83 | The client's counters, gap report and renewal decision are the specified ones |
| WsTheorems.CuttingIsInvisible | runtime/hermit/gateway/ws.js:191-243 | However a masked stream is cut into socket chunks, messages, control events and failure code are the same |
| WsTheorems.ConformingStreamDelivered | runtime/hermit/gateway/ws.js:191-315 | A conforming stream, masked by a client that has its own masking, any fragmentation, masks and interleaved controls, cut anywhere, is delivered message by message and leaves nothing behind |
| WsTheorems.MessageReceived | runtime/hermit/gateway/ws.js:246-298 | A message in any conforming fragmentation arrives as it was sent |
| WsTheorems.FrameReceived | runtime/hermit/gateway/ws.js:208-243 | A frame within the limits is read back whole, whatever its mask, applied by the client as RFC 6455 says, and length form |
| WsTheorems.StorageBounded | runtime/hermit/gateway/ws.js:223-238 | What is stored of an unfinished message never exceeds the message limit nor the fragment limit, whatever the peer sends |
| WsTheorems.DecidedStays | runtime/hermit/gateway/ws.js:208-229 | What a prefix of a header decides stays decided when more arrives |
| WsTheorems.FourteenDecide | runtime/hermit/gateway/ws.js:208-229 | Fourteen bytes decide every header |
| WsTheorems.HeaderRead | runtime/hermit/gateway/ws.js:208-229 | A header is read back as it was written |
| WsModel.UnmaskTwice | runtime/hermit/gateway/ws.js:315 | Masking is its own inverse |
| WsTheorems.UnmaskIsXor | runtime/hermit/gateway/ws.js:315 | Byte `i` of what is unmasked is the exclusive or, on eight bits, of byte `i` of the payload and byte `i % 4` of the mask |
| WsTheorems.MaskedIsUnmask | runtime/hermit/gateway/ws.js:315 | A client that masks its first byte with the first of the key and turns the key for the rest, as section 5.3 of RFC 6455 says, is undone by the server |
| WsTheorems.HelloReceived | runtime/hermit/gateway/ws.js:191-315 | The masked frame of section 5.7 of RFC 6455 is received as the text `Hello` |
| WsRefusals.HeaderDecided | runtime/hermit/gateway/ws.js:208-229 | Fourteen bytes are refused with 1002 or 1009, or open the frame they announce, exactly as their fields and what is stored of the message say |
| WsRefusals.DataDecided | runtime/hermit/gateway/ws.js:249-274 | What every data frame does to an open connection: delivered, kept, or refused with 1002 or 1007 |
| WsRefusals.LastPartDecided | runtime/hermit/gateway/ws.js:254-296 | The last part delivers all parts one behind another, a text exactly if they are UTF-8 together |
| WsRefusals.ControlDecided | runtime/hermit/gateway/ws.js:268-307 | What a ping, a pong and a close do, also between the parts of a message; which close codes and reasons are refused |
| WsRefusals.ClosingIgnores | runtime/hermit/gateway/ws.js:248 | While this side is closing only the close of the peer is looked at |
| WsRefusals.ClosingDecided | runtime/hermit/gateway/ws.js:138-157 | A close from this side begins once, and what fails afterwards is not told to the peer again |
| Reassembly.UnmaskInPlace | runtime/hermit/gateway/ws.js:315 | The loop makes of every byte of the view its exclusive or with the mask byte it meets (`WsTheorems.UnmaskIsXor`) and leaves the rest of the buffer alone |
| Reassembly.Storage.Rent | runtime/hermit/gateway/ws.js:180-189 | The class size is reserved in the account before the buffer is obtained; a refusal leaves one count in the ledger and nothing else, a grant one empty part with its lease and, when a class is large enough, a slab that nobody had; slabs lent to others, other accounts and other leases of the account are untouched |
| Reassembly.Storage.Append | runtime/hermit/gateway/ws.js:196-200 | Bytes go behind those in use of one part, its lease records them, and every other part and every idle buffer is untouched |
| Reassembly.Storage.Release | runtime/hermit/gateway/ws.js:160 | A part's slab leaves the lent ones with nothing left in it, onto its shelf exactly when there is room, and its lease is released; slabs lent to others, other accounts and other leases are untouched |
| Reassembly.Storage.ReleaseAll | runtime/hermit/gateway/ws.js:161-163 | The loop gives back exactly the parts of a list, each slab erased, and touches no buffer but theirs |
| Reassembly.Storage.Collect | runtime/hermit/gateway/ws.js:262 | The loop copies the fragments behind one another into one buffer |
| Reassembly.BooksElsewhere | runtime/hermit/ram/ledger.js:71-112 | What others do in the ledger leaves the agreement of parts and leases intact |
| WebSocketReceiver.Receiver.OnData | runtime/hermit/gateway/ws.js:191-243 | One chunk leaves the receiver where the byte-by-byte meaning of the stream puts it, with storage from the ledger account and the pool; when a buffer is refused, the connection fails with 1013 or 1011 after the bytes read so far. After a first failure or the peer's close that is its verdict and what it had delivered, and it goes on reading as in a closing handshake until the socket is gone. The ledger counts what it refuses; slabs lent to others, other accounts and other leases are untouched, and no buffer is written but its own and idle ones |
| WebSocketReceiver.Receiver.Heed | runtime/hermit/gateway/ws.js:191-243 | The loop up to the first failure or the peer's close computes exactly the byte-by-byte meaning |
| WebSocketReceiver.Receiver.Linger | runtime/hermit/gateway/ws.js:191-248 | What comes after a failure or the peer's close is read and stored as while closing, delivers nothing, and leaves the receiver sound |
| WebSocketReceiver.Receiver.Balanced | runtime/hermit/gateway/ws.js:160-189 | After every chunk, frame and failure, before and after the connection has failed or closed, the account has exactly one reassembly lease, with one reference and the capacity and extent of its buffer, for each stored part; buffers and leases are distinct, slabs are lent by the pool, and every idle slab is all zero. `Gateway.Server.AllBalanced` says it of all connections together |
| WebSocketReceiver.Receiver.OnFrame | runtime/hermit/gateway/ws.js:246-291 | A complete frame is delivered, kept, answered or refused as specified; the storage behind its payload becomes a kept fragment or leaves the parts with its lease and its slab, and what is lent to others stays so |
| WebSocketReceiver.Receiver.KeepFragment | runtime/hermit/gateway/ws.js:278-291 | A fragment that is not the last is kept in its own storage, rented when the payload lies in the socket chunk, or the connection fails for want of memory |
| WebSocketReceiver.Receiver.Finale | runtime/hermit/gateway/ws.js:258-267 | A whole message is put together once in a rented buffer and delivered, and fragments, last payload and that buffer all leave the parts with their leases and slabs; or it is refused and all is dropped |
| WebSocketReceiver.Receiver.ReadHead | runtime/hermit/gateway/ws.js:208-229 | The header read at an offset is the specified decision on those bytes |
| WebSocketReceiver.Receiver.FailWith | runtime/hermit/gateway/ws.js:155-167 | A failure gives back every part and lease, each slab with nothing left in it, touches nothing of others, and begins the closing handshake if none was begun |
| WebSocketReceiver.Receiver.Close | runtime/hermit/gateway/ws.js:138-152 | Closing from this side changes the state and nothing that is stored |
| WebSocketReceiver.Receiver.Destroy | runtime/hermit/gateway/ws.js:168-178 | Afterwards no part is held, none of its slabs is lent, each is erased, and the slabs lent to others are those that were |
| Gateway.Server.constructor | runtime/hermit/gateway/server.js:53-54 | One ledger and one pool, and no connection |
| Gateway.Server.Connect | runtime/hermit/gateway/server.js:240-247 | A connection is admitted to the ledger before it gets its storage; it starts with nothing, and no other connection moves |
| Gateway.Server.OnData | runtime/hermit/gateway/ws.js:191-243 | A chunk for one connection takes it where the byte-by-byte meaning puts it, as far as that can be seen, or the connection fails for want of memory and the refusal is counted; every other connection is as sound as before and where it was |
| Gateway.Server.Destroy | runtime/hermit/gateway/ws.js:168-178 | When a socket is gone exactly the slabs of its connection stop being lent, each erased, and no other connection moves |
| Gateway.Server.Account | runtime/hermit/ram/ledger.js:71-112 | Other uses of the ledger, such as output, workers and closing an account, leave every connection sound and where it was |
| Gateway.Server.AfterEvent | runtime/hermit/gateway/server.js:53-54 | Whatever the event of one connection was, if it wrote to its own buffers and to idle ones only, all connections are sound, share nothing but ledger and pool, and each lent slab has its holder |
| Gateway.Server.Serve | runtime/hermit/gateway/server.js:246 | Over any interleaving of chunks, closes and ends of any number of connections on one ledger and one pool, each connection that was never refused storage ends, as far as that can be seen, where its own events alone would have taken it; when the ledger counted no refusal none was refused, and one that was has stopped |
| Gateway.Server.AllBalanced | runtime/hermit/gateway/ws.js:160-189 | Between events the lent slabs are exactly those of the parts that connections store, each held by one connection; idle slabs are all zero; and each account has one reassembly lease for each stored part, also for what arrives after a failure or a close, within the limits on a message |
| Gateway.AloneReceives | runtime/hermit/gateway/ws.js:191-243 | The events of a connection that is only sent chunks mean the byte-by-byte reading of its bytes |
| Utf8.DecodeEncoded | runtime/hermit/gateway/ws.js:292-298 | Encoding then strict decoding of scalar values gives them back |
| Utf8.EncodeDecoded | runtime/hermit/gateway/ws.js:292-298 | What the strict decoder accepts is the only encoding of what it decodes to |
| Utf8.AsciiDecoded | runtime/hermit/gateway/ws.js:292-298 | Bytes below 128 stand for themselves |
| Utf8.Examples | runtime/hermit/gateway/ws.js:292-298 | The examples of section 7 of RFC 3629 |
| Utf16.PairExample | runtime/hermit/protocol/bridge.js:33 | The example of section 2 of RFC 2781: a pair of surrogates is one character of four bytes |
| BridgeRecords.ValuesArrive | runtime/hermit/protocol/bridge.js:31-107 | JSON values that are printed, written as UTF-8, framed and concatenated arrive, in whatever pieces the bytes come, as exactly those values in order, with a clean end |
| BridgeRecords.RecordRead | runtime/hermit/protocol/bridge.js:31-106 | A sent value is decoded, parsed and validated to itself |
| BridgeRecords.PrintWhole | runtime/hermit/protocol/bridge.js:33 | Whatever strings a value holds its print is well-formed, so its UTF-8 loses nothing |
| BridgeModel.RoundTrip | runtime/hermit/protocol/bridge.js:31-107 | Bodies that are framed and concatenated are received as exactly those bodies, in order |
| BridgeModel.TruncationSeen | runtime/hermit/protocol/bridge.js:108-111 | A stream that ends inside a record gives every record before it and is reported truncated |
| BridgeModel.CuttingIsInvisible | runtime/hermit/protocol/bridge.js:75-107 | Any cutting decodes as the whole, failures included |
| BridgeModel.RecordLayout | runtime/hermit/protocol/bridge.js:31-38 | A record is the length of its body in four bytes, most significant first, and the body |
| BridgeModel.HeaderDecided | runtime/hermit/protocol/bridge.js:83-86 | Four bytes fail for a length of nothing or beyond 65536 and open a body of that length otherwise |
| BridgeModel.BodyDecided | runtime/hermit/protocol/bridge.js:94-101 | A body that may not be taken fails the stream and is not delivered |
| BridgeCodec.Encode | runtime/hermit/protocol/bridge.js:34-39 | The bytes written are the length and the body, or the body is refused for its size |
| BridgeCodec.FrameDecoder.Push | runtime/hermit/protocol/bridge.js:75-107 | One chunk leaves the decoder where the byte-by-byte meaning puts it |
| BridgeCodec.FrameDecoder.End | runtime/hermit/protocol/bridge.js:108-111 | Clean exactly when no header and no body is begun |
| JsonTheorems.ParsePrinted | runtime/hermit/protocol/codec.js:40-132 | A printed value is parsed to itself if its depth is within the bound, and refused if not |
| JsonTheorems.ParseAccepts | runtime/hermit/protocol/codec.js:46-100 | Whatever text is accepted, no object has a duplicate key and nothing nests past the bound |
| JsonTheorems.PrintInjective | runtime/hermit/protocol/codec.js:40-132 | Two values with finite numbers that print alike are the same value |
| JsonTheorems.ParseWritten | lib/common.js:22 | A printed value is parsed, strictly or not, to itself with `null` for every number that is not finite |
| JsonTheorems.StringRead | runtime/hermit/protocol/codec.js:101-118 | A printed string is read back, every escape included, whatever follows |
| JsonDocuments.ParsedIff | runtime/hermit/protocol/codec.js:40-132 | A text is parsed to a value if and only if it is the text of a document of the grammar of RFC 8259, with any white space, any form of escape and of number, that the rules allow (depth, one key once, short finite numbers) and that means this value; the documents and their meanings are written down apart from the parser |
| JsonDocuments.DocumentParsed | runtime/hermit/protocol/codec.js:128-132 | Every such document is accepted |
| JsonGrammar.NumberThen | runtime/hermit/protocol/codec.js:119-126 | A number of the grammar, with fraction and exponent, is read to its end, whatever ends it |
| JsonGrammar.NumberParsed | runtime/hermit/protocol/codec.js:119-126 | Whatever is taken for a number is one of the grammar |
| JsonGrammar.StringThen | runtime/hermit/protocol/codec.js:101-118 | A string of the grammar is read as the units its pieces stand for, upper-case and lower-case digits of `\u` alike |
| JsonGrammar.StringParsed | runtime/hermit/protocol/codec.js:101-118 | Whatever is taken for a string is one of the grammar |
| JsonDocuments.UnitPrinted | lib/common.js:22 | How each unit of a string is printed: by name, as six characters, or as itself |
| JsonDocuments.PairPrinted | lib/common.js:22 | A pair of surrogates is printed as it is |
| JsonDocuments.LiteralPrinted | lib/common.js:22 | How `null`, `true`, `false` and an empty list or object are printed |
| JsonDocuments.ArrayPrinted | lib/common.js:22 | An array is printed without white space, its elements in order |
| JsonDocuments.ObjectPrinted | lib/common.js:22 | So is an object, its members in order |
| StrictJson.StrictParse | runtime/hermit/protocol/codec.js:40-132 | The shared-index parser terminates on every text and answers exactly what the grammar function does |
| StrictJson.Parser.ReadValue | runtime/hermit/protocol/codec.js:46-59 | From any index, a value and the index behind it, or the specified error |
| StrictJson.Parser.ReadMembers | runtime/hermit/protocol/codec.js:60-81 | The loop over members with its set of seen keys |
| StrictJson.Parser.ReadElements | runtime/hermit/protocol/codec.js:88-100 | The loop over elements |
| StrictJson.Parser.String | runtime/hermit/protocol/codec.js:101-118 | The loop over the characters of a string literal |
| Base64.DecodeEncoded | runtime/hermit/protocol/codec.js:200-240 | decode(encode(b)) is b for all bytes |
| Base64.EncodeDecoded | runtime/hermit/protocol/codec.js:213-240 | Whenever a text is accepted it is the encoding of what it decodes to |
| Base64.CharIsTable | runtime/hermit/protocol/codec.js:197 | The character of a value is the one at that place of the alphabet of RFC 4648, written out |
| Base64.ValueIsTable | runtime/hermit/protocol/codec.js:198 | A character has a value exactly when it is in that alphabet: its place |
| Base64.TestVectors | runtime/hermit/protocol/codec.js:200-212 | The test vectors of section 10 of RFC 4648 |
| Base64.EncodeLoop | runtime/hermit/protocol/codec.js:200-212 | The encoding loop over 24-bit words writes the specified text |
| Base64.DecodeLoop | runtime/hermit/protocol/codec.js:213-240 | The decoding loop accepts and writes exactly the specified bytes |
| VfsSnapshot.RunAccounts | runtime/hermit/src/main/spiral/vfs.js:102-229 | Over any run without a move of the root or onto an ancestor the node count is exact, the byte count is exact but for two bytes for each character joined by an append, and the tree never exceeds a quota |
| VfsSnapshot.RunExact | runtime/hermit/src/main/spiral/vfs.js:102-229 | Without text appends both totals equal the recursive cost of the tree after every operation |
| VfsSnapshot.ImportExact | runtime/hermit/src/main/spiral/vfs.js:242-272 | A refused import changes nothing; an accepted one leaves exact totals within the quotas |
| VfsSnapshot.ExportImport | runtime/hermit/src/main/spiral/vfs.js:234-272 | Importing an export restores the tree if and only if its names and depth are those a snapshot may have |
| VfsSafety.WriteDrifts | runtime/hermit/src/main/spiral/vfs.js:155-175 | A refused write changes nothing; one that is done keeps the totals exact unless it splits a character |
| VfsSafety.WriteExactIff | runtime/hermit/src/main/spiral/vfs.js:155-175 | A write keeps the totals exact if and only if it does not append the second half of a character to its first |
| VfsSafety.SplitCharacterDrifts | runtime/hermit/src/main/spiral/vfs.js:69-77 | A character written as two appends is charged six bytes and stored in four |
| VfsSafety.MakeAllDrifts | runtime/hermit/src/main/spiral/vfs.js:176-186 | Making directories along a path, even when it stops half-way, accounts for what was made |
| VfsSafety.MoveExactIff | runtime/hermit/src/main/spiral/vfs.js:215-229 | A move of anything but the root keeps the totals if and only if it replaces no ancestor of its source |
| VfsSafety.MoveOverAncestor | runtime/hermit/src/main/spiral/vfs.js:215-229 | Replacing an ancestor leaves fewer nodes counted than there are |
| VfsSafety.MoveOverParentDrifts | runtime/hermit/src/main/spiral/vfs.js:215-229 | Moving the file /a/a to / stops half-way and leaves totals that were exact before wrong |
| VfsSafety.MoveOfRoot | runtime/hermit/src/main/spiral/vfs.js:215-229 | When the code would give the root a second place in the tree: an outcome code, returned if and only if the destination can take an entry |
| VfsContents.RemoveDecided | runtime/hermit/src/main/spiral/vfs.js:199-213 | A removal succeeds exactly on what exists below the root in a directory and is a file, an empty directory, or removed recursively; nothing is then found there, and every other path leads where it did but for the entry missing from the directories above; a refusal changes nothing |
| VfsContents.RemoveRefused | runtime/hermit/src/main/spiral/vfs.js:199-207 | The reason of every refused removal |
| VfsContents.WriteDecided | runtime/hermit/src/main/spiral/vfs.js:155-172 | A write succeeds exactly when its directory is there, no directory stands in its place and both quotas have room; then the file reads back as the contents, behind the old ones for an append, and every other path as before |
| VfsContents.PlaceRefused | runtime/hermit/src/main/spiral/vfs.js:155-182 | The reason of every refused write and new directory |
| VfsContents.MkdirDecided | runtime/hermit/src/main/spiral/vfs.js:176-185 | A new directory is empty, stands where nothing stood, and is all that is new |
| VfsContents.MakeAllDecided | runtime/hermit/src/main/spiral/vfs.js:113-126 | Making a path adds directories along it and nothing else, also when it stops half-way; it stops with ENOTDIR exactly when a file stands on the way, and else only for a quota |
| VfsContents.MoveDecided | runtime/hermit/src/main/spiral/vfs.js:215-229 | When a move is done, refused, or has nothing to do; apart from its source it moves the node whole, and every other path is as it was |
| VfsContents.SnapshotDecided | runtime/hermit/src/main/spiral/vfs.js:242-266 | Which names, depths and files a snapshot may hold |
| VfsContents.RunDistinct | runtime/hermit/src/main/spiral/vfs.js:113-270 | Over every run of operations a directory has each name once |
| VirtualFiles.Vfs.Write | runtime/hermit/src/main/spiral/vfs.js:155-175 | Tree and totals after a write, or its error, are the specified ones, which `VfsContents.WriteDecided` determines |
| VirtualFiles.Vfs.MakeDirs | runtime/hermit/src/main/spiral/vfs.js:176-186 | The loop along the path leaves the specified tree |
| VirtualFiles.Vfs.RemoveNode | runtime/hermit/src/main/spiral/vfs.js:199-213 | Tree and totals after a removal, or its error, are the specified ones, which `VfsContents.RemoveDecided` determines |
| VirtualFiles.Vfs.MoveNode | runtime/hermit/src/main/spiral/vfs.js:215-229 | Tree and totals after a move, or its outcome, are the specified ones |
| VirtualFiles.Vfs.ImportSnapshot | runtime/hermit/src/main/spiral/vfs.js:242-272 | A snapshot is validated detached and swapped in whole |
| VfsPaths.ResolvedIsPlain | runtime/hermit/src/main/spiral/vfs.js:26-37 | A resolved path has no empty, `.` or `..` segment |
| VfsPaths.ResolveTwice | runtime/hermit/src/main/spiral/vfs.js:26-37 | Resolving what is resolved changes nothing, from any directory |
| VfsPaths.StepDecided | runtime/hermit/src/main/spiral/vfs.js:26-36 | Behind any path `..` is the directory above what it resolves to, and the root above the root, `.` is that place itself, and a name is an entry of it |
| VfsPaths.StartDecided | runtime/hermit/src/main/spiral/vfs.js:26-36 | A path that begins with the separator starts at the root and any other in the working directory |
| Splitting.SplitBoth | runtime/hermit/src/main/spiral/vfs.js:21-23 | Splitting at a separator gives the parts on both sides of it |
| VtTheorems.StreamNext | runtime/hermit/src/renderer/vt/parser.js:46-80 | No stream of units takes the grid, cursor, scroll region or scrollback out of bounds, and every row that changed is marked dirty, so long as the cursor is never restored to a place that a resize left outside |
| VtTheorems.FeedKeeps | runtime/hermit/src/renderer/vt/parser.js:46-80 | With a saved cursor on the screen, or none, that restriction is met by every stream, and stays so |
| VtTheorems.SavedAgain | runtime/hermit/src/renderer/vt/screen.js:141-146 | Once the cursor is saved anew the restriction is met by whatever follows |
| VtTheorems.FeedBounded | runtime/hermit/src/renderer/vt/parser.js:96-170 | Parameters, intermediates and string stay within 64, 4 and 4096 units, and only the ground state has text to print |
| VtTheorems.WriteClean | runtime/hermit/src/renderer/vt/parser.js:193-205 | Every title handed on has at most 256 units and no control character |
| VtTheorems.AnyCuttingIsInvisible | runtime/hermit/src/renderer/vt/parser.js:46-53 | However a stream is cut between its characters into `write` calls, parser and screen end the same |
| VtTheorems.CuttingIsInvisible | runtime/hermit/src/renderer/vt/parser.js:46-53 | Two writes are one, unless the cut is in the middle of a printed pair of surrogates |
| VtTheorems.CuttingIff | runtime/hermit/src/renderer/vt/screen.js:84-86 | For a last unit written alone the result is the same if and only if it is not the second half of a printed pair |
| VtSequences.SequenceDecoded | runtime/hermit/src/renderer/vt/parser.js:96-170 | A control sequence of numbers prints what was collected and performs the operation of its final character on exactly those numbers; what each operation then does to the screen is stated by the laws of `VtMeaning` |
| VtSequences.CursorAddressed | runtime/hermit/src/renderer/vt/parser.js:153 | `ESC [ row ; col H` puts the cursor there, counted from one, or at the edge |
| VtMeaning.MotionMeans | runtime/hermit/src/renderer/vt/parser.js:145-152 | What `A`, `B`, `C`, `D`, `E`, `F`, `G` and `d` with a number do to row and column: up and down stop at the scroll region, the others at the screen, zero counts as one, and nothing but the cursor moves |
| VtMeaning.RowMeans | runtime/hermit/src/renderer/vt/parser.js:155-160 | What `K`, `X`, `@` and `P` do to the cells of the cursor's row, cell by cell, and that nothing else changes |
| VtMeaning.RowsMean | runtime/hermit/src/renderer/vt/parser.js:154-162 | What `J`, `L`, `M`, `S` and `T` do to the rows, cell by cell, and to what is kept of them |
| VtMeaning.PairMeans | runtime/hermit/src/renderer/vt/parser.js:153-163 | What `H`, `f` and `r` do with two numbers |
| VtMeaning.DefaultsMean | runtime/hermit/src/renderer/vt/parser.js:142-164 | What each of these does without a number |
| VtMeaning.ShortMeans | runtime/hermit/src/renderer/vt/parser.js:96-112 | What `ESC` with `7`, `8`, `D`, `E`, `M`, `H` and `c` does to cursor, pen, grid, region and tab stops |
| VtMeaning.OthersMean | runtime/hermit/src/renderer/vt/parser.js:139-170 | `s` and `u` are `ESC 7` and `ESC 8`; a final character without a meaning does nothing |
| VtMeaning.ControlsMean | runtime/hermit/src/renderer/vt/parser.js:82-92 | What bell, backspace, tab, line feed and carriage return do |
| VtMeaning.PrintMeans | runtime/hermit/src/renderer/vt/screen.js:88-103 | A character is drawn where the cursor is, in a full line at the beginning of the next |
| VtMeaning.StyleMeans | runtime/hermit/src/renderer/vt/screen.js:259-288 | What each of the numbers of `m` does to the pen, style by style and color by color, and to nothing else |
| VtMeaning.ColorMeans | runtime/hermit/src/renderer/vt/screen.js:291-296 | 38 and 48 with `5;k` or `2;r;g;b` set the color of the text or of the ground, and nothing else |
| VtMeaning.StylesCompose | runtime/hermit/src/renderer/vt/screen.js:259-296 | Several numbers in one sequence are as many sequences, one color counting as one |
| VtMeaning.ColorDropped | runtime/hermit/src/renderer/vt/screen.js:291-296 | 38 and 48 without a kind of color mean nothing, and what follows is read on its own |
| VtMeaning.ModesMean | runtime/hermit/src/renderer/vt/screen.js:300-309 | Of the modes only the private 25 means anything: whether the cursor shows |
| VtMeaning.OverlongIgnored | runtime/hermit/src/renderer/vt/parser.js:116-118 | A sequence of more than sixty-four parameter characters does nothing, to its end |
| VtMeaning.ParameterMeans | runtime/hermit/src/renderer/vt/parser.js:130-137 | A number too large is 65535; what stands behind the digits of a parameter is not looked at |
| VtMeaning.NoNumberMeans | runtime/hermit/src/renderer/vt/parser.js:142 | A parameter that begins with no digit is the default, and no style |
| VtMeaning.TitleMeans | runtime/hermit/src/renderer/vt/parser.js:193-205 | A title is handed on as it was sent, for the codes 0 and 2 and no other digit |
| VtMeaning.StringMeans | runtime/hermit/src/renderer/vt/parser.js:175-191 | A string does the same whichever way it is ended, and nothing when it is cancelled or broken by another escape |
| VtMeaning.LongStringIgnored | runtime/hermit/src/renderer/vt/parser.js:180-197 | A string of more than 4096 characters is not acted upon |
| VtMeaning.DeviceStringIgnored | runtime/hermit/src/renderer/vt/parser.js:209-213 | A device control string does nothing, to its end |
| VtMeaning.ShorthandMeans | runtime/hermit/src/renderer/vt/parser.js:76-78 | The single character for `ESC [`, and one that is not looked at |
| VtMeaning.InterruptionMeans | runtime/hermit/src/renderer/vt/parser.js:121-128 | What cancels a sequence, what begins another, and what makes no difference in it |
| ScreenMeaning.RegionMeans | runtime/hermit/src/renderer/vt/screen.js:245-253 | A region of at least two rows on the screen is set, and any other is not |
| ScreenMeaning.ScrollMeans | runtime/hermit/src/renderer/vt/screen.js:223-239 | The region moves by the count with empty rows behind it; what leaves it at the top of the screen is kept in order |
| ScreenMeaning.LinesMean | runtime/hermit/src/renderer/vt/screen.js:202-219 | Inside the region the rows from the cursor to its end move; outside nothing does |
| ScreenMeaning.DisplayMeans | runtime/hermit/src/renderer/vt/screen.js:159-171 | Which rows and columns each mode of erasing blanks, and that no others change |
| ScreenMeaning.ResizeMeans | runtime/hermit/src/renderer/vt/screen.js:322-347 | Which cell stands where after a resize, which rows leave at the top, and where the cursor goes |
| ScreenSafety.PutNext | runtime/hermit/src/renderer/vt/screen.js:88-103 | A printed character keeps the screen in bounds, marks what changed and leaves the counter as exact as it was |
| ScreenSafety.PutShows | runtime/hermit/src/renderer/vt/screen.js:88-103 | It is the one shown before the cursor |
| ScreenSafety.ScrollUpNext | runtime/hermit/src/renderer/vt/screen.js:223-231 | Scrolling keeps the grid its size, the scrollback bounded, and marks the region |
| ScreenSafety.TapeMoves | runtime/hermit/src/renderer/vt/screen.js:223-231 | While the bounds allow, scrollback followed by the region is afterwards the same rows followed by blank ones: no row is lost or repeated |
| ScreenSafety.RetainLongest | runtime/hermit/src/renderer/vt/screen.js:182-188 | No row is dropped from the scrollback that could have stayed |
| ScreenSafety.ArchiveTwice | runtime/hermit/src/renderer/vt/screen.js:182-188 | Trimming after each row is trimming once |
| ScreenSafety.DisplayNext | runtime/hermit/src/renderer/vt/screen.js:159-171 | Erasing keeps the bounds and marks the rows |
| ScreenSafety.EraseLoses | runtime/hermit/src/renderer/vt/screen.js:165-168 | Erasing the scrollback leaves its cells in the counter: it stays exact if and only if it was and there were none |
| ScreenSafety.NothingKept | runtime/hermit/src/renderer/vt/screen.js:182-188 | With the counter full when the scrollback is erased no later row is ever kept |
| ScreenSafety.RestoreIff | runtime/hermit/src/renderer/vt/screen.js:141-146 | A restored cursor is on the screen if and only if the saved one is |
| ScreenSafety.ResizeKeeps | runtime/hermit/src/renderer/vt/screen.js:322-347 | Every resize keeps the screen whole; the saved cursor still fits if and only if it is within the new size |
| ScreenSafety.RestoredOutside | runtime/hermit/src/renderer/vt/screen.js:141-146 | Save, shrink, restore: the cursor is outside the screen |
| ScreenSafety.StopFits | runtime/hermit/src/renderer/vt/screen.js:110-115 | A tab goes to the first tab stop behind the cursor, or to the last column |
| TerminalScreen.Screen.Print | runtime/hermit/src/renderer/vt/screen.js:84-86 | The loop over the characters of a text leaves the specified screen |
| TerminalScreen.Screen.PutChar | runtime/hermit/src/renderer/vt/screen.js:88-103 | One character, with its deferred wrap, leaves the specified screen |
| TerminalScreen.Screen.Tab | runtime/hermit/src/renderer/vt/screen.js:110-115 | The search loop stops at the specified column |
| TerminalScreen.Screen.EraseInDisplay | runtime/hermit/src/renderer/vt/screen.js:159-171 | The loops over rows leave the specified screen |
| TerminalScreen.Screen.EraseChars | runtime/hermit/src/renderer/vt/screen.js:173-178 | The loop blanks exactly the cells the count reaches |
| TerminalScreen.Screen.PushScrollback | runtime/hermit/src/renderer/vt/screen.js:182-188 | The trimming loop leaves the longest end within the bounds and never takes from an empty ring |
| TerminalScreen.Screen.InsertChars | runtime/hermit/src/renderer/vt/screen.js:190-195 | Repeated splice and pop move the rest of the row by the count |
| TerminalScreen.Screen.DeleteChars | runtime/hermit/src/renderer/vt/screen.js:196-201 | Repeated splice and push move the rest of the row by the count |
| TerminalScreen.Screen.InsertLines | runtime/hermit/src/renderer/vt/screen.js:202-210 | Repeated splices move the rows below the cursor down, inside the region |
| TerminalScreen.Screen.DeleteLines | runtime/hermit/src/renderer/vt/screen.js:211-219 | Repeated splices move them up |
| TerminalScreen.Screen.ScrollUp | runtime/hermit/src/renderer/vt/screen.js:223-231 | The loop moves the region up and archives what leaves its top when it begins at row 0 |
| TerminalScreen.Screen.ScrollDown | runtime/hermit/src/renderer/vt/screen.js:232-239 | The loop moves the region down |
| TerminalScreen.Screen.SetSgr | runtime/hermit/src/renderer/vt/screen.js:259-298 | The loop over parameters, extended colors included, leaves the specified pen |
| TerminalScreen.Screen.Resize | runtime/hermit/src/renderer/vt/screen.js:322-347 | The loops over rows and columns leave the specified screen, in bounds, wherever the saved cursor is |
| VtParser.Parser.Write | runtime/hermit/src/renderer/vt/parser.js:46-53 | One chunk leaves parser and screen as the stream means, in bounds, with every changed row marked, unless it restores a cursor from outside |
| VtParser.Parser.Accept | runtime/hermit/src/renderer/vt/parser.js:55-70 | Each state handles one unit as specified |
| VtParser.Parser.DispatchCsi | runtime/hermit/src/renderer/vt/parser.js:139-170 | The switch on the final character calls the specified operation with the specified arguments, whose effects on cursor, grid, region and pen `VtMeaning` states without its tables |

## Left out

- Files, sockets, TLS, worker threads, timers and clocks: what they do is a parameter or a step that may happen at any time. Deadlines, heartbeats, rate limits, ping floods, assembly timeouts and backoff are such steps or absent.
- Digests, tickets, tokens, attestation, custody: `sha` is a function (injective where that is said), ids and leases are fresh names, a fingerprint is the triple it hashes.
- Command syntax, operation payload checks, metrics and views of `lib/fabric.js` and `lib/agent.js`. RESULT_LIMIT: the agent applies the same bound to a result before it stores it, so no stored outcome meets it.
- FabricHub.Fabric.Append: events in the journal's memory are values, where the code's share the job objects, so that a `reason` changed in place (`lib/fabric.js:81`, `:85`) shows in them too; the file keeps what was written. Whether a result or the data of a request has a refused object key is a flag of it; `JournalModel` works on the keys themselves. A placement from the oracle is taken to have none.
- The placement oracle (`adapter`) is any answer that names a node it was told is free; the asynchronous `schedule` is cut at its awaits, and registrations may come in between. How the Python scheduler chooses is not part of this model.
- The network between hub and agents is a set of packets that may be lost, reordered and, for receipts and acknowledgements, duplicated: more than the FIFO channel does.
- Journal appends and the agent's atomic file writes happen or fail as a whole; `room` is how many appends still succeed.
- FabricHub.Fabric.Command: results and data are compared as whole canonical texts, standing for the `canonical` comparison that `Canonical.CanonicalIff` characterizes; so a number that is not finite counts as `null` there too.
- JournalFile.Store.Replay: an object keeps the order of its members, where the language moves integer-like keys to the front; minus zero is zero; an event is made of JSON values and numbers that are not finite, with no member `undefined`.
- StrictJson.StrictParse: members stay in the order of the text, where the language moves integer-like keys to the front.
- JournalTheorems.HeadDeterminesHistory: needs an injective digest and the two laws of number printing named in `NumberLaws`.
- JsonTheorems.ParsePrinted: a number is the text the language prints for it, and reading one is the function `num`; how doubles are rounded is not part of this model. The schema checks behind `strictParse` are not modelled.
- RamLedger.Controller.Admit: high-water marks are not modelled; a lease is named by its generation.
- Admission.AdmitsDescribed: the walk over the structure of a descriptor that was not built by the server is one flag.
- WorkerOutput.OutputGate.WhenDrained: callbacks of woken producers run as later operations.
- Delivery.AllIsDelivered: is about sessions that stay ACTIVE; output refused for memory or cut by ending the session is counted, not delivered.
- TerminalConnection.Connection.Flush: heartbeats, acknowledgements of input and other control messages appear only as writes that use the socket budget.
- CreditLedger.ChargedExactly: connection and ledger are values that step side by side; the object `TerminalConnection.Connection` keeps the references as a map, proved equal to the connection's side. Leases of other buckets of the account are other parties' operations.
- WebSocketReceiver.Receiver.OnData: says of the bytes after the first failure or the peer's close that storage stays in balance and nothing is delivered, not which of them open a frame. An endpoint without account or pool is not modelled, nor the assembly deadline (`FailWith` at any time) and the ping flood count, nor handlers that close the connection from inside an event, nor a PING whose answer does not fit the send queue, which ends the session (`terminate`, "send queue exhausted"; that end is `CreditModel.Control`).
- Gateway.Server.Connect: a connection that is gone stays in the list, with nothing held; its name is drawn at random, so it is asked to be new. Limits on connections per principal, tickets and the upgrade itself are left out.
- BridgeModel.RoundTrip: speaks of bodies; `BridgeRecords.ValuesArrive` speaks of the values in them. A number in a value is the text the language prints for it.
- BridgeCodec.Encode: starts from the bytes of a body; printing a value to them is `BridgeRecords.BodyOf`.
- BridgeCodec.FrameDecoder.Push: whether a body is an allowed record that its handler takes is a predicate (`BridgeRecords.Accepts` when bodies are JSON); pausing and the assembly timeout are left out.
- VirtualFiles.Vfs.Write: times and modes, reading and listing, and the seed content are left out; a buffer in a snapshot is its bytes, the base64 around it is the codec's. Paths are resolved to segments first.
- VirtualFiles.Vfs.MoveNode: a move of the root into itself, after which the code's tree is cyclic, is the outcome `Cyclic` with an unchanged tree, since a finite tree cannot hold itself.
- VfsSafety.MoveOfRoot: says when that outcome occurs, not what the cyclic tree then does.
- VfsSnapshot.ExportImport: modes, times and the base64 text around a buffer are left out of the snapshot.
- TerminalScreen.Screen.Resize: sizes are integers already cut to 32 bits. After a restored cursor has left the screen the code throws or lengthens a row; operations are modelled on screens in bounds, and `ScreenSafety.RestoreIff` and `VtTheorems.NeverOutside` say when that is.
- VtParser.Parser.Write: the callbacks for bell and title are set, and are a count and a list; painting, scrolling back and the canvas are left out.
- Claims the code's comments suggest and the code does not keep are stated with their exact condition: `restoreCursor` after `resize` (`RestoreIff`), the scrollback counter (`EraseLoses`), `VFS.move` (`MoveExactIff`), byte counts of appended text (`WriteExactIff`), the journal in memory and in its file (`LoadOfAppended`), the head of a journal (`HeadDeterminesHistory`), the smallest credit window (`DeadlockFreeIff`), text cut inside a surrogate pair (`CuttingIff`).
- Coreutils, command line, backup, release and deployment tools, the Python donor code, the Electron shell, and the fabric-lease slot files.
