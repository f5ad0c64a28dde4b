# A verified model of the process runtime

A process is a log of messages, applied one by one by a virtual machine, with money and routing state
on top. This project models the parts of the runtime that keep that log, run it, send from it and charge
for it, and proves what they promise. `dafny verify dfyconfig.toml` checks all of it.

| files | what they model |
|---|---|
| `InstanceProtocol`, `InstanceRuntime` | the actor protocol of the VM manager: admission, bounded channels, closers, drain loops and shutdown, as a step relation for any number of PIDs, and the objects whose critical sections are its steps |
| `JsonGrammar`, `ModuleName`, `ModuleJson`, `ModuleJsonCorrect`, `ModuleJsonReader` | the streaming JSON scanner of module files, against syntax trees of RFC 8259, and the unescaping and folding of a field's name |
| `Tags` | tag lists and what they decode to |
| `Execution`, `Recovery`, `SpawnRegistry`, `Life` | applying a message, numbering and emitting, spawning, checkpoints, recovery from a log, and whole lives of runs, crashes and recoveries |
| `Turns` | what one log entry does to its process's state and what it makes the process send, in terms of the VM's answer |
| `Delivery` | one queue to one target under retries, crashes and lost executions |
| `AssignWaiter` | a wait for an assignment at this node, against the loop that hands out the results |
| `Acceptance` | which messages of its log a process accepts, and those of a queue among them |
| `Log`, `LogStore`, `LogEffects` | the log store, the assignment of nonces, and a follower of another node's log |
| `PayLedger`, `Pay`, `PayEffects`, `PayJobs` | the payment ledger, its settlement, what every operation does cell by cell, and the jobs above |
| `Registry`, `RegistryStore`, `RegistryVm`, `RegistryEffects` | the registry's indexes, the store with its shared node objects, the requests, and what they do to the answers |
| `TokenState`, `TokenEffects`, `TokenCache`, `Token` | the token ledgers, what every action does account by account, the incremental cache and the token process |
| `StakeRegistration` | stakes in one process against registrations in another, across the messages between them |
| `Common`, `Sums` | numerals, sums over maps, the order of strings |

Where the program changes objects or maps in place the model has a class whose methods' contracts give the
whole new state as a function of the old one; what is promised is then proved about that function, over
every run. Loops over Go maps take their keys in any order.

## What the code does not do

Fifteen places where a property one would expect, or a comment promises, fails. The model follows the code,
and each has its exact condition or a concrete input.

- `MergeTags` promises unique names and keeps a name that the second list holds twice
  (`MergedNoDuplicates`, `MergeKeepsDuplicates`).
- A queue to a process on the same node stops for good when its head is logged while the sending loop is
  not waiting: the retry is refused as a duplicate and that is not a commit. A queue to another node stops
  for good when its head is logged and never gets a result, because that node answers for a message by the
  result saved for it: a crash or a stop can drop the execution, and a recovery in DryRun mode saves none.
  Only a node started to rebuild saves it later, unless a checkpoint it keeps covers the message
  (`MovesOnUnlessStuck`, `StuckForever`, `CrashLeavesQueueStuck`, `RemoteLostResultLeavesQueueStuck`, `CheckpointLeavesQueueStuck`).
- A wait for a local assignment never removes its handler, because it compares two addresses. A result that
  comes between that and the closing of its channels brings the node down; two that come when the wait has
  just ended block the loop that hands out all results, which holds the lock the wait needs. The wait's own
  retries are enough for both (`WhatCanHappen`, `OwnRetryPanics`, `OwnRetriesBlock`).
- One message whose Sequence is no integer of 64 bits makes a process refuse every later message: it is logged, takes up
  a nonce, and is never handed to the VM. Anybody can send it (`PassedOverIff`, `AcceptedIffHigher`,
  `OneBadMessageBlocks`).
- A message taken in before its process's recovery lock can be logged after the recovery has read the last nonce.
  The process then refuses it and every later one until it is restarted (`LateEntryBlocks`, `RestartRecovers`).
- The numbers of a process's messages have gaps: when an entry is logged, not run, and first run in a recovery;
  when a crash empties the outbox channel; and when a target is no account (`LifeIsLive`,
  `CompleteIffNothingLost`, `SkippedEntryIsMissing`, `CrashLosesEmission`, `UnknownTargetIsMissing`).
- They can also repeat: a spawn is run before it is logged, and after a crash in between it is run again. The
  receiver then refuses the second message of that number (`UnloggedSpawnSendsAgain`, `SpawnRegistersTwice`,
  `DeliveredIsAccepted`, `RepeatedNumberIsRefused`).
- A process recovered from its spawn numbers its messages differently when it saw a registry only at one of the
  two spawns, as the token process can (`RecoveryNeedsRegistry`).
- The cached view of the token goes stale when a call is first run in a DryRun recovery, which saves no cache
  (`AlwaysFaithfulIff`, `LostCacheGoesStale`).
- An instance whose restore failed closes its VM while the next one of its PID may be running
  (`FailedCloseOverlaps`, `OnePublishedPerPid`).
- A stake whose name, description or URL is empty does not register its account, because an empty tag is
  dropped on the way (`LastActionDecides`, `EmptyNameIsLost`). Such a value can come from a parameter that
  was sent encrypted.
- A process id with a colon would mislead the message index (`IndexFinds`, `ColonLogsTwice`). The ids in
  use are base64url hashes and have none, which is what the log's invariant asks of them.
- Recovery leaves the process locked after a checkpoint beyond the last nonce, an unreadable entry, a last
  entry that does not decode, or a spawn that fails (`LockIsReleased`).
- A deposit notice with a bad amount uses up its transaction hash (`FailureChangesNothing`, `CreditedOnce`).
- A restored process index holds node details that go stale; the query is right because it does not read
  them (`IndexGoesStale`, `ByProcessIsExact`).

## Assumptions

- A user's VM is a deterministic function of its environment, its state, the sender and the message, and does
  not read the mode (`IgnoresMode`, `Env`); it comes back from its own checkpoint (`Restorable`). The registry
  id visible at a spawn is an input; `RecoveryNeedsRegistry` says what depends on it.
- The account check is any partial function that leaves canonical identifiers alone and refuses the empty
  one (`Idempotent`).
- Signatures are what makes an assignment genuine: one that carries the scheduler's signature is in the
  scheduler's store, and an item is determined by its id (`Genuine`).
- Each public operation of the payment store, each deposit notice, each assignment with its commit, saving one
  result's cache, and taking the sending lock are single steps; the code drops its lock between `CanCover` and
  the accrual, within a deposit notice, and between `isSending` and `sendingLock`.
- In `Life` nothing is logged for a process while it recovers (`LateEntryBlocks` says what happens otherwise).
- Every item a node signs has an id of its own (`Push`).
- Only the process's own node sends in its name, so that the entries of a log that name it are those of its
  queue (`StandsAt`).
- The node that a sending loop asks is the one that schedules the target, for the whole of a queue's life.
- In `StakeRegistration` the actions name one registry, and the notices reach it in the order they were sent.

## Model

| member | source | states |
|---|---|---|
| InstanceProtocol.ReachableInv | vmm/instance.go:24-142 | every state of every interleaving keeps the invariant: FIFO of sent tasks, counted senders, channel state, initialisation status, publication and owed stops |
| InstanceProtocol.InvStep | vmm/instance.go:24-142 | each atomic section of creators, senders, stoppers, closers, loops and Close preserves the invariant, for any number of PIDs and tasks |
| InstanceProtocol.NoPanic | vmm/instance.go:60-100 | in every interleaving nothing is sent on a closed `Tasks` and no channel is closed twice; once closed, no counted sender is still before its send |
| InstanceProtocol.AnswersFollowSends | vmm/instance.go:110-123 | answers are a prefix of the tasks in send order, no task answered twice, at every moment of every run |
| InstanceProtocol.FailedInitAnswers | vmm/instance.go:38-52 | after a failed initialisation only the first task has run and every answer reports an error; after a good one every answered task ran |
| InstanceProtocol.DoneMeansDrained | vmm/instance.go:110-142 | when `Done` closes, every admitted task, and nothing else, has been answered exactly once in send order |
| InstanceProtocol.HistoryGrows | vmm/instance.go:60-142 | sends, answers and admissions are only ever appended to along any run |
| InstanceProtocol.CleanupKeepsReplacement | vmm/instance.go:102-108 | whatever step is taken, a published instance leaves the map only by its own clean-up, so a late clean-up never removes a replacement |
| InstanceProtocol.OnePublishedPerPid | vmm/instance.go:24-58 | an instance that may still be published is published; once initialised, an instance that still runs tasks or still closes its VM is the one in the map; so two instances of one PID never both use their VMs unless one of them failed to initialise; an unpublished one is stopping or about to stop itself unless the manager is closed |
| InstanceProtocol.FailedCloseOverlaps | vmm/manage.go:146-174 | a reachable state in which an instance whose restore failed closes its VM while the next one of its PID is published and running |
| InstanceProtocol.CloseIsFinal | vmm/vmm.go:84-101 | once `Close` has returned, in all later states every loop has exited, the map is empty and no instance was created |
| InstanceProtocol.StepDecreases | vmm/instance.go:60-126 | every step of an instance except a repeated stop strictly lowers its measure over admitted senders, queued tasks, closer and loop phase |
| InstanceProtocol.StoppingMakesProgress | vmm/instance.go:90-126 | a stopping instance whose loop has not exited always has a step of its own, even with a full queue |
| InstanceProtocol.ProgressAt | vmm/instance.go:60-126 | such a step is enabled in every reachable state and lowers the instance's measure, so every admitted call is answered if each Run returns |
| InstanceProtocol.OthersKeepWeight | vmm/instance.go:60-126 | no step of others and no admission makes a stopping instance heavier |
| InstanceProtocol.ClosingDecreases | vmm/vmm.go:84-101 | once Close has begun, every step that changes anything lowers the whole manager's measure |
| InstanceProtocol.ClosingMakesProgress | vmm/vmm.go:84-101 | until Close returns a state-changing step is enabled, so Close returns within that measure |
| InstanceRuntime.VmInstance.Stop | vmm/instance.go:90-100 | the new state is the protocol's stop: stopping, with at most one closer ever started |
| InstanceRuntime.VmInstance.AnswerTask | vmm/instance.go:113-122 | one answer of the loop: Run is skipped and the error reported after a failed initialisation |
| InstanceRuntime.Vmm.GetInstance | vmm/instance.go:10-21 | the published instance of the PID, or the closed and not-found errors |
| InstanceRuntime.Vmm.CreateInstance | vmm/instance.go:24-58 | succeeds exactly when the protocol allows a creation and is then that action; otherwise nothing changes and the right error is returned |
| InstanceRuntime.Vmm.AdmitSender | vmm/instance.go:60-76 | succeeds exactly when the gate is open and the instance not stopping, and is then the admission action |
| InstanceRuntime.Vmm.SendTask | vmm/instance.go:77 | the channel send, panicking exactly on a closed channel |
| InstanceRuntime.Vmm.StopInstance | vmm/instance.go:90-100 | is the protocol's stop of that instance |
| InstanceRuntime.Vmm.CloseChannel | vmm/instance.go:95-98 | is the closer's step, taken when no counted sender is left |
| InstanceRuntime.Vmm.RemoveInstance | vmm/instance.go:102-108 | takes the instance out of the map exactly if it is the one published under its PID |
| InstanceRuntime.Vmm.ShutGate | vmm/vmm.go:87-93 | closes the gate and collects exactly the published instances, in any map order |
| InstanceRuntime.Vmm.Initialise | vmm/instance.go:38-52 | the first task's run: success, or the recorded failure that goes on to remove and stop the instance |
| InstanceRuntime.Vmm.RemoveFailedInstance | vmm/instance.go:40-41 | after a failed initialisation the loop takes exactly its own entry, if it is still the published one, out of the map and leaves every other entry |
| InstanceRuntime.Vmm.StopFailedInstance | vmm/instance.go:42 | and stops it |
| InstanceRuntime.Vmm.CloseAndRemove | vmm/instance.go:124-138 | after the range the VM is closed and the instance takes its own entry, and no other, out of the map |
| InstanceRuntime.Vmm.SignalDone | vmm/instance.go:111-112 | the deferred close of `Done`, then the wait group |
| InstanceRuntime.Vmm.FinishTask | vmm/instance.go:113-123 | the task taken from the queue gets exactly one answer, decided by the initialisation, by whether the initialisation fails and by its own Run; a failed initialisation removes its instance and no other entry |
| InstanceRuntime.Vmm.ProcessNext | vmm/instance.go:113-123 | one turn of the loop takes exactly the head of the queue and appends exactly the answer that the initialisation status and the task's own Run give it |
| InstanceRuntime.Vmm.DrainQueue | vmm/instance.go:110-123 | whether the channel is open or closed, the loop answers everything queued, in order, and ends with every sent task answered |
| InstanceRuntime.Vmm.RunInstance | vmm/instance.go:110-142 | on a closed channel the loop answers everything that was sent, in order, and ends exited, with its own entry and no other out of the map |
| ModuleJsonCorrect.SkipValueExact | node/spawn.go:255-326 | the skipper succeeds, ending at `rest`, if and only if the input is white space and one JSON value of RFC 8259 sections 2 to 7 within the depth and scalar limits, with a delimiter after a bare scalar, followed by `rest` |
| ModuleJsonCorrect.ValueEndIsUnique | node/spawn.go:255-326 | the input and the depth determine where the value ends |
| ModuleJsonCorrect.SkipValueOver | node/spawn.go:255-326 | every well-formed value printed from its syntax tree is skipped exactly, whatever follows it |
| ModuleJsonCorrect.SkipValueSplits | node/spawn.go:255-326 | whatever was skipped is white space and the text of a syntax tree |
| ModuleJsonCorrect.SkipMembersOver | node/spawn.go:280-300 | member lists of objects and arrays are skipped to just after their closing bracket |
| ModuleJsonCorrect.SkipMembersSplits | node/spawn.go:280-300 | a skipped member list parses as a non-empty list of members |
| ModuleJsonCorrect.ScanStringOver | node/spawn.go:197-253 | the string scanner consumes exactly a string of section 7 and its closing quote |
| ModuleJsonCorrect.ScanStringSplits | node/spawn.go:197-253 | what the string scanner consumed is a string of section 7 |
| ModuleJsonCorrect.ValidScalarOver | node/spawn.go:301-324 | every number of section 6 and literal name of section 3 passes the scalar check |
| ModuleJsonCorrect.ScalarAt | node/spawn.go:301-324 | whatever passes the scalar check is such a number or literal |
| ModuleJsonCorrect.ReadTagsExact | node/spawn.go:143-184 | for any test of names: the tag decoder is started, on `rest`, if and only if the file is an object whose first field that passes the test follows fields within the limits and is followed by `rest` |
| ModuleJsonCorrect.TagsFieldExact | node/spawn.go:143-253 | with the source's own test: the decoder is started, on `rest`, if and only if that first field is spelled tags, in any case and with any of its letters escaped |
| ModuleName.NamesTagsExact | node/spawn.go:143-253 | the raw text of a name, unescaped and compared under case folding, is tags if and only if it is four characters in a row that each spell their letter: as itself, in the other case, as an escape of either, or for the s as the long s, raw or escaped |
| ModuleJsonReader.Reader.JsonNonSpace | node/spawn.go:186-193 | reads past white space and returns the first other byte, or the end |
| ModuleJsonReader.Reader.ModuleJsonString | node/spawn.go:197-253 | agrees with the string scanner on what is accepted, what is left unread and what is captured, within the size limit |
| ModuleJsonReader.Reader.SkipScalar | node/spawn.go:301-324 | accepts exactly valid scalars within the limit and leaves the delimiter unread |
| ModuleJsonReader.Reader.SkipModuleJsonValue | node/spawn.go:255-326 | terminates, and succeeds and stops where the suffix form of the skipper does |
| ModuleJsonReader.Reader.SkipModuleJsonMembers | node/spawn.go:280-300 | the member loop refines the suffix form |
| ModuleJsonReader.Reader.ReadFieldName | node/spawn.go:156-165 | a bounded top-level field name, as it stands between its quotes, with its colon |
| ModuleJsonReader.Reader.ReadModuleTags | node/spawn.go:143-184 | terminates, and hands the decoder exactly the first 1 MiB after the colon of the first field whose name is tags, or fails |
| Tags.CheckDuplicateTag | utils/tags.go:302-311 | true exactly when no two tags share a name |
| Tags.MergeTags | utils/tags.go:321-335 | the first list, then the tags of the second with names not in the first, in order |
| Tags.TagsToBase | utils/tags.go:58-70 | each base field is the last value its tag is given, empty when missing |
| Tags.LastIsFirst | utils/tags.go:58-70 | where no name is repeated that is the value by which every other field is read |
| Tags.TagsToMessage | utils/tags.go:191-223 | fails exactly on a duplicate name; otherwise every field is its tag's value and the rest are the kept tags in order |
| Tags.TagsToProcess | utils/tags.go:136-169 | the same for a process |
| Tags.TagsToParams | utils/tags.go:289-300 | fails exactly on a duplicate name; otherwise maps every name to its value |
| Tags.MergedNoDuplicates | utils/tags.go:321-335 | a merge has no duplicate names if and only if the first list has none and neither has what is kept of the second |
| Tags.MergeKeepsDuplicates | utils/tags.go:321-335 | the documented promise of unique names fails: a name twice in the second list survives twice |
| Tags.LookupMerged | utils/tags.go:321-335 | a merged list says what the first list says of its names and what the second says of the others |
| Tags.HeadIsMerged | vmm/outbox.go:27-34 | merging the VMM's envelope with the protocol's own tags is putting them together |
| Tags.EmittedMessageDecodes | vmm/outbox.go:27-43 | whatever tags without duplicates a VM produced, the receiver decodes the process, sequence and origin the VMM set, the VM's action, and parameters that never fail to parse |
| Tags.EmittedTags | node/outbox.go:29-33 | exactly the VM's own non-empty, extractable tags arrive, plus the time stamp |
| Tags.EmittedProcessDecodes | vmm/outbox.go:60-78 | a spawn arrives with the process, origin, module and scheduler the VMM set, and its parameters parse |
| Execution.DecryptParams | vmm/apply.go:53-84 | in whatever order the map is ranged over, plain parameters stay and every other name gets the decryption of its encrypted form, or the failure text |
| Execution.Runner.ApplyCheck | vmm/apply.go:86-111 | a wrong nonce changes nothing, a low sequence uses up the nonce, an accepted message also records its sequence |
| Execution.Runner.SendMessageOut | vmm/outbox.go:14-44 | one message: skipped without a number if its tags do not parse, else numbered, and sent only in Apply mode |
| Execution.Runner.SendSpawnOut | vmm/outbox.go:46-79 | one spawn, likewise |
| Execution.Runner.SendMessagesOut | vmm/outbox.go:14-44 | messages with parsing tags are numbered on from the last sequence, and sent only in Apply mode |
| Execution.Runner.SendSpawnsOut | vmm/outbox.go:46-79 | spawns are numbered on from the messages, and sent only in Apply mode |
| Execution.Runner.SendOut | vmm/outbox.go:13-83 | messages, then spawns, then the result itself |
| Execution.Runner.Apply | vmm/apply.go:10-51 | one message on the published instance: check, decrypt, run, send, and release of the recovery lock at the last nonce outside Apply mode |
| Execution.Runner.Spawn | vmm/spawn.go:13-62 | a new instance, made from its own environment, with nonce 0 and sequence -1, that has sent its spawn messages, or nothing at all when the VM cannot be made |
| Execution.Runner.Checkpoint | vmm/manage.go:132-144 | the VM's data with the environment, nonce, sequence and received sequences of that moment |
| Execution.Runner.Restore | vmm/manage.go:146-174 | the instance, made anew from the snapshot's environment if none is published, with exactly the snapshot's data and environment |
| Recovery.ModeOnlyEmits | vmm/apply.go:10-51 | for a VM that does not read the mode, one message leaves the same VM state, nonce, sequence and received sequences in every mode, and only Apply emits |
| Recovery.RecoveryReachesLive | node/recovery.go:55-104 | for every log, every checkpoint position and both other modes, recovery ends with the instance of the live run of the whole log and sends nothing |
| Recovery.LiveCanRespawn | vmm/manage.go:146-174 | whatever instance a live run leaves, the factory that made it makes a VM from its environment again |
| Recovery.LiveIsStable | vmm/apply.go:86-94 | entries up to a checkpoint, applied again to the restored instance, change nothing |
| Recovery.ReplayedSplit | node/recovery.go:81-102 | replaying a log is replaying its front and then its rest |
| Recovery.LockIsHeld | node/recovery.go:55-104 | the recovery lock is held at every task boundary before the last nonce |
| Recovery.LockIsReleased | node/recovery.go:55-104 | recovery ends unlocked if and only if the checkpoint is at the last nonce, or all entries from the start can be read, the last decodes and an instance runs it, including logs holding only the spawn; a checkpoint beyond the last nonce keeps the lock |
| Recovery.StopsAtUnreadable | node/recovery.go:86-94 | an entry that cannot be read ends recovery with the lock held |
| Recovery.SequencesAreConsecutive | vmm/outbox.go:13-83 | in an uninterrupted Apply run a process's messages and spawns carry exactly 0, 1, 2, ... from its spawn, each in the VMM's envelope with the Pushed-For of the log entry that sent it |
| Recovery.SentByOne | vmm/outbox.go:13-83 | exactly one log entry sends a given number |
| Recovery.SentIsReceived | vmm/outbox.go:13-83 | number k sent by a process decodes at the receiver as number k of that process, with the Pushed-For of the entry that sent it and parameters that parse |
| Recovery.HandleMode | node/handle.go:68-82 | a spawn is spawned at nonce 0 and a message applied at its nonce in the mode asked for; anything else changes nothing |
| Recovery.ReplayLog | node/recovery.go:81-103 | the loop reaches what replaying the entries in order specifies, stopping at an unreadable one |
| Recovery.RecoveryProcess | node/recovery.go:55-104 | lock, restore, early release and replay together are the specified recovery |
| Life.LifeIsLive | node/recovery.go:55-104 | over any life of live runs, stops and crashes that lose any tail of what is in the outbox channel, each followed by a recovery from any checkpoint or none, the instance is that of one live run of the whole log, and what was stored for sending is, in order and under its number, exactly what was sent live, taken out of the channel, and had an account for its target |
| Life.CompleteIffNothingLost | node/channel.go:117-122 | a life stores all that the live run sends if and only if everything sent live was taken out of the channel, every target has an account, and every entry that a restart is the first to run sends nothing |
| Life.SilentIff | vmm/outbox.go:13-83 | an entry sends nothing if and only if the VM refuses it, or each message it returns repeats a tag name and no spawn it returns decodes |
| Life.SkippedEntryIsMissing | node/recovery.go:55-104 | a life with an entry logged, not run, and first run in a recovery: its message is missing |
| Life.CrashLosesEmission | node/channel.go:117-122 | a life with a crash between the run of an entry and the reading of the channel: the message is missing |
| Life.UnknownTargetIsMissing | node/outbox.go:18-23 | a life without any stop whose message to a target that is no account is numbered and dropped |
| Life.LifeFillsRisingQueues | node/outbox.go:18-49 | whatever such a life loses, the messages it stores for a target, in order, carry increasing numbers |
| Life.LifeIsAccepted | vmm/apply.go:86-108 | from end to end: what a life stores for a process, and its queue delivers, is accepted there if and only if that process was spawned and was handed everything logged before |
| Life.UnloggedSpawnSendsAgain | node/channel.go:47-54 | a spawn is run before it is logged: what a first attempt stored before a crash is stored again under the same number |
| Life.SpawnRegistersTwice | node/channel.go:47-54 | a spawn under a visible registry for which that happens: its message to the registry is stored twice under number 0 |
| Life.LifeIsNumbered | vmm/outbox.go:13-83 | everything stored in such a life carries the number and the Pushed-For of the log entry that sends it |
| Life.LateEntryBlocks | node/recovery.go:55-104 | an entry logged after a recovery has read the last nonce, and not taken by the VM, makes it take nothing that comes after, until the next restart |
| Life.RestartRecovers | node/recovery.go:55-104 | a restart at any moment recovers the instance of the live run of all that is logged, and sends nothing |
| Turns.StateMoves | vmm/apply.go:10-51 | over any readable log: an accepted message leaves the state that the VM computes from the state before, the sending process or else account, and the message with its parameters decrypted name by name; any other message leaves it alone, and none changes the environment |
| Turns.ResultIsReported | vmm/apply.go:13-50 | and its result is reported: the VM's data, error, messages and spawns but for the numbers, or the refusal's error and nothing, under the message's id, nonce and Pushed-For |
| Turns.DecryptedIsPlain | vmm/apply.go:53-84 | a parameter that came plain stays, one that came encrypted only is what it decrypts to or the failure text, and no other name appears |
| Turns.AnswerIsSent | vmm/outbox.go:13-79 | an accepted message sends exactly the VM's messages that name no tag twice, in their order, then its spawns that do not, numbered on from what was sent before; any other sends nothing |
| Turns.SentIsAnswer | vmm/outbox.go:13-79 | number k is what the VM answered to the message that sent it: to the target and with the data and action it gave, and a receiver decodes, besides the envelope, exactly its own tags and the time stamp |
| Turns.MessageGoesOut | vmm/outbox.go:14-44 | what a receiver reads of a message: its action, its own tags of no reserved name, the time stamp, and the sender's number and Pushed-For |
| Turns.SpawnGoesOutIs | vmm/outbox.go:46-79 | what the scheduler named reads of a spawn: its module, its own tags, the number and the time stamp |
| Turns.GoesOutIsHanded | node/message.go:58-101 | a message that went out is handed to its receiver's VM exactly when its number has 64 bits, with that action, those tags for parameters, and that process, number and Pushed-For |
| Turns.SentIsHanded | node/message.go:58-101 | the two together: each message a VM answers reaches the receiver's VM as it was given, exactly when its number has 64 bits |
| Turns.SpawnStarts | vmm/spawn.go:30-126 | a spawned process starts with what its factory makes, at nonce 0 with nothing received; it tells the registry that its own scheduler runs it and its parent its id, reference and X- parameters; without a VM it sends nothing |
| SpawnRegistry.RecoveryNeedsRegistry | vmm/spawn.go:92-102 | recovered from its spawn while another registry is visible, a process differs from its live run only in its numbering, by one if exactly one of the two spawns saw a registry; so it is the same if and only if both or neither did |
| PayLedger.InvStep | db/cache/pay.go:128-386 | every operation keeps the tables free of zero cells and every beneficiary's pending total within its balance total |
| PayLedger.InvRun | db/cache/pay.go:128-386 | so does every run of operations |
| PayLedger.ReachableIsSolvent | db/cache/pay.go:185-386 | after any run from empty books 0 <= pending <= balance for every beneficiary, so a settlement fails if and only if its ratio is invalid |
| PayLedger.FailureChangesNothing | db/cache/pay.go:128-386 | a failing operation changes nothing, except that a deposit notice with a bad amount uses up its transaction hash |
| PayLedger.TakenSum | db/cache/pay.go:353-376 | the sponsors together pay the charge, or all they have |
| PayLedger.PrefixIsDrained | db/cache/pay.go:331-376 | whoever pays anything, everyone before it in the order self, then by name, has paid all: a drained prefix, at most one partial amount, the rest untouched |
| PayLedger.LastPaysTheRest | db/cache/pay.go:353-376 | the last of the order pays what the others could not, and does not change what they pay |
| PayLedger.DrainedCells | db/cache/pay.go:353-376 | a settlement changes only the beneficiary's column, by what each sponsor pays |
| PayLedger.DrainedColumns | db/cache/pay.go:353-376 | the ledger goes down by exactly the charge in that column and by nothing in the others |
| PayLedger.FeesAreTheCharge | db/cache/pay.go:270-385 | node fee plus developer fees is the pending total and the drop of the balance; rounding leaves at most 9999 ten-thousandths of a unit a process; other columns and pendings are untouched |
| PayLedger.FeesOfRow | db/cache/pay.go:281-293 | 0 <= total*ratio - 10000*fees <= 9999*processes, and fees never exceed the total |
| PayLedger.PendingNonNegative | db/cache/pay.go:388-449 | a beneficiary has nothing pending exactly when it is in none of the three tables |
| PayLedger.PutColumns | db/cache/pay.go:136-182 | setting a cell moves one column's total by the difference and no other |
| PayStore.Pay.constructor | db/cache/pay.go:36-46 | a new store has empty books, which satisfy the invariant |
| PayStore.Pay.OtherSponsors | db/cache/pay.go:339-347 | exactly the other sponsors with a balance, each once, in any map order |
| PayStore.Pay.Charge | db/cache/pay.go:331-383 | on books that cover the charge nothing remains after the deduction, so the internal error is never reached |
| PayStore.Pay.IsExecuted | db/cache/pay.go:61-65 | whether the hash was marked |
| PayStore.Pay.Deposit | db/cache/pay.go:128-148 | the new books are those of a deposit, or unchanged for a non-positive amount |
| PayStore.Pay.Withdraw | db/cache/pay.go:150-183 | refuses more than the cell or than the balance not pending; otherwise lowers the cell, dropping it and its row at zero |
| PayStore.Pay.CanCover | db/cache/pay.go:185-198 | true exactly when the balance minus what is pending reaches a positive amount of a named beneficiary |
| PayStore.Pay.UseOnce | db/cache/pay.go:200-223 | accrues a covered positive fee to the transaction table, else changes nothing |
| PayStore.Pay.SpawnFee | db/cache/pay.go:225-248 | the same for the spawn table |
| PayStore.Pay.ResidencyFee | db/cache/pay.go:250-268 | the same for the residency table |
| PayStore.Pay.TotalBal | db/cache/pay.go:533-541 | the column's sum, in any order of the sponsors |
| PayStore.Pay.TotalPending | db/cache/pay.go:511-531 | the sum over the three tables |
| PayStore.Pay.CollectDevFees | db/cache/pay.go:278-293 | per process the rounded-down share, and the row's total, in any order |
| PayStore.Pay.SettlementOrder | db/cache/pay.go:331-351 | exactly the sponsors with a balance, the beneficiary first, the others by name, whatever order the map gives |
| PayStore.Pay.Deduct | db/cache/pay.go:353-376 | the loop leaves the ledger drained as specified and returns what could not be paid |
| PayStore.Pay.SettleTxFee | db/cache/pay.go:270-386 | books and fees are the specified settlement, a function of the books alone, so the map iteration order never matters |
| PayStore.Pay.AllPending | db/cache/pay.go:395-449 | exactly the beneficiaries with something pending, with their totals, in any order |
| PayStore.Pay.MarkExecuted | db/cache/pay.go:66-74 | marks the hash, and says whether it was marked before |
| PayStore.RestPaysNothing | db/cache/pay.go:354-357 | once nothing remains the sponsors further down pay nothing, so the early exit is right |
| PayEffects.DepositRaises | db/cache/pay.go:128-148 | a deposit or notice raises exactly its cell, exactly when the amount is positive and the notice's hash new; a notice uses its hash up in any case |
| PayEffects.WithdrawLowers | db/cache/pay.go:150-183 | a withdrawal is done if and only if its amount is positive, in the cell and not needed for what is pending; then exactly that cell falls by it, and pending, executed hashes and all other cells stay |
| PayEffects.FeesAccrue | db/cache/pay.go:200-268 | a fee is taken exactly when positive, for a named beneficiary and covered, and noted in the table of its kind under that beneficiary and process and nowhere else |
| PayEffects.SettlementShares | db/cache/pay.go:270-386 | each process is paid its ratio of the transaction fees noted for it, rounded down; what is noted for the beneficiary is cleared and for all others kept; refused exactly on a bad ratio or with nothing pending |
| PayEffects.OwnDepositFirst | db/cache/pay.go:331-376 | the beneficiary's own deposit pays first, as far as it goes, and a sponsor only when that and all sponsors of smaller names have nothing left; no other beneficiary's cell changes |
| PayEffects.OpBrings | db/cache/pay.go:128-386 | each operation changes each balance and each pending total by what it deposited, withdrew, accrued or paid out for it |
| PayEffects.BalanceFromEmpty | db/cache/pay.go:128-386 | over any run from empty books a balance is the deposits less the withdrawals done and the charges settled, and what is pending the fees taken less the charges settled |
| PayJobs.SettleAll | pay/settle.go:10-40 | whatever other callers do before each beneficiary's turn, books, node fee and fees per process are those of the rounds, which settle each beneficiary that had something pending at the start exactly once, in any order |
| PayJobs.InterruptedAddsUp | pay/settle.go:10-40 | over any rounds with any operations of others in between, with a valid ratio no settlement fails, each leaves nothing pending for its beneficiary, and node fee and fees per process together are what was pending at the moments of settling |
| PayJobs.UndisturbedSettlesAll | pay/settle.go:10-40 | with nobody in between all pending tables end empty, every cell is what its beneficiary's settlement leaves, and node fee, fees per process and charges are the sums over all beneficiaries |
| PayJobs.SettleOne | pay/settle.go:15-37 | one round of the loop: what others did, then one settlement, and its fees added to the totals |
| PayJobs.AddFees | pay/settle.go:27-36 | fees added per process, zero fees skipped, in any map order |
| PayJobs.SettleOneMore | pay/settle.go:15-21 | settling one beneficiary leaves every other's pending and column as they were, so the order of settlement does not matter |
| PayJobs.CellsDetermine | pay/settle.go:15-21 | cells determine a ledger, so the outcome of settling all is unique |
| PayJobs.TotalsOneMore | pay/settle.go:23-36 | one more beneficiary adds its node fee and fees per process to the totals, and both together its charge |
| PayJobs.HandleDeposit | pay/handle.go:9-16 | an unused hash is marked and its deposit made; a used one changes nothing |
| PayJobs.CreditedOnce | pay/handle.go:9-16 | over any run of notices a hash is credited at most once, by the first notice carrying it and only if its amount is positive: a first notice with a bad amount uses the hash up |
| RegistryState.InvStep | db/cache/registry.go:63-179 | every operation keeps one set of accounts in all tables and the two process indexes each other's inverse |
| RegistryState.ByProcessIsExact | db/cache/registry.go:198-216 | after any run an account is listed for a process if and only if it is registered and has the process, with what GetNode says |
| RegistryState.UnregisterThenRegister | db/cache/registry.go:63-101 | unregistering hides a node from every query; registering it again brings back exactly its earlier processes and lists, and touches no other account |
| RegistryState.NodeIsLastWord | db/cache/registry.go:63-118 | GetNode answers with the last registration of an account unless it was unregistered since |
| RegistryStore.Registry.constructor | db/cache/registry.go:29-45 | a new registry has the main node, registered and shared |
| RegistryStore.Registry.Register | db/cache/registry.go:63-88 | updates the shared node object in place or adds a new one; the visible state is the specified registration, and sharing is kept |
| RegistryStore.Registry.Unregister | db/cache/registry.go:90-101 | only the registered flag goes down |
| RegistryStore.Registry.RegisterProcess | db/cache/registry.go:133-159 | both indexes gain the pair, or an unknown account is refused |
| RegistryStore.Registry.UnregisterProcess | db/cache/registry.go:161-179 | both indexes lose the pair |
| RegistryStore.Registry.GetNode | db/cache/registry.go:103-118 | the details of a registered node, else nothing |
| RegistryStore.Registry.GetNodes | db/cache/registry.go:120-131 | exactly the registered nodes |
| RegistryStore.Registry.GetProcesses | db/cache/registry.go:181-196 | every process of the account once |
| RegistryStore.Registry.GetNodesByProcess | db/cache/registry.go:198-216 | every registered account of the process exactly once with its current details, though the index objects may be stale |
| RegistryStore.Registry.Checkpoint | db/cache/registry.go:218-239 | a snapshot whose state is the visible one |
| RegistryStore.Registry.Restore | db/cache/registry.go:241-259 | the snapshot's state, with node objects made anew and shared by nothing |
| RegistryStore.RestoredAnswersAlike | db/cache/registry.go:218-259 | after any further operations the restored registry and the original have the same visible state, on which every query depends |
| RegistryStore.IndexGoesStale | db/cache/registry.go:63-75 | after a restore an update reaches the node map only: the index object keeps the old details and nothing is shared any more |
| RegistryVm.Authority | vmm/core/registry/handle.go:11-116 | only the token process changes who is registered, only a process itself changes its listing and only under a registered account, and a refused request changes nothing |
| RegistryVm.RequestsAreEnabled | vmm/core/registry/handle.go:48-74 | an authorised request never fails in the store |
| RegistryVm.Apply | vmm/core/registry/registry.go:19-42 | state and error are those of the request after its authorisation checks |
| RegistryVm.Authorise | vmm/core/registry/handle.go:89-116 | process, account and node checks in the code's order |
| RegistryEffects.ProcessIsListed | vmm/core/registry/handle.go:48-60 | RegisterProcess puts the sending process on the account's list and the account on the process's, changing no other answer, exactly when it speaks for itself under a registered account; else which error it gets |
| RegistryEffects.ProcessIsUnlisted | vmm/core/registry/handle.go:62-74 | UnregisterProcess takes exactly that pair off both lists, under the same condition |
| RegistryEffects.NodeIsRegistered | vmm/core/registry/handle.go:11-27 | Register succeeds exactly when it comes from the token process and describes a node; then GetNode gives those details, as a follower, and every other node and all lists of processes stay |
| RegistryEffects.NodeIsUnregistered | vmm/core/registry/handle.go:29-46 | Unregister from the token process makes GetNode answer nothing for that account and changes nothing else; else which error |
| RegistryEffects.OthersAreRefused | vmm/core/registry/registry.go:19-42 | any other action is refused and changes nothing |
| RegistryEffects.StartsWithMain | db/cache/registry.go:29-45 | a new registry answers its main node and nothing else |
| TokenState.InvStep | vmm/core/token/internal.go:10-120 | every action keeps balances and stakes non-negative, under canonical accounts, and adding up to the supply |
| TokenState.PayerIsCanonical | vmm/core/token/internal.go:72-88 | only an account in the ledger, hence a canonical one, can pay a positive amount |
| TokenState.FailureChangesNothing | vmm/core/token/token.go:22-49 | a failed action changes nothing; supply and details never change |
| TokenState.ParseAmount | vmm/core/token/handle.go:291-300 | an accepted quantity is never negative |
| TokenCache.SupplyIsConserved | vmm/core/token/internal.go:10-120 | over any run from genesis balances plus stakes are the supply and no entry is negative |
| TokenCache.FoldedCacheIsCurrent | vmm/core/token/cache.go:12-95 | after any run whose caches are all saved, every entry of the stored view is current, and it covers every account once Info was asked |
| TokenCache.AlwaysFaithfulIff | node/channel.go:80-93 | with any caches lost, because the call was run in DryRun only or the node stopped before it came to the result, the stored view is current and complete at every moment if and only if each lost one is of a call that is not the first Info and that changes nothing, or before Info nothing the view has |
| TokenCache.LostCacheGoesStale | node/channel.go:80-93 | a transfer whose cache is lost after Info leaves the view with the old balance |
| TokenCache.StepReports | vmm/core/token/handle.go:108-251 | whatever an action changes it caches, and all it caches is current |
| TokenCache.FullCacheIsCurrent | vmm/core/token/cache.go:12-48 | the first Info's cache is current and has all accounts |
| TokenVm.Token.constructor | db/cache/token.go:24-41 | the supply is the sum of the given balances and stakes |
| TokenVm.Token.Increase | vmm/core/token/internal.go:58-70 | adds to a balance; zero touches nothing |
| TokenVm.Token.Decrease | vmm/core/token/internal.go:72-88 | takes from a balance that reaches the amount, else refuses and changes nothing |
| TokenVm.Token.IncreaseStake | vmm/core/token/internal.go:90-102 | adds to a stake; zero touches nothing |
| TokenVm.Token.DecreaseStake | vmm/core/token/internal.go:104-120 | takes from a stake that reaches the amount, else refuses and changes nothing |
| TokenVm.Token.HandleInfo | vmm/core/token/handle.go:17-35 | the token's details, with the whole cache the first time only |
| TokenVm.Token.HandleBalanceOf | vmm/core/token/handle.go:56-80 | the balance of the recipient, target or sender asked for, in canonical form |
| TokenVm.Token.HandleBalances | vmm/core/token/handle.go:82-106 | every balance, in any map order |
| TokenVm.Token.Transfer | vmm/core/token/internal.go:10-25 | moves the amount to the canonical recipient, or changes nothing and says why |
| TokenVm.Token.Stake | vmm/core/token/internal.go:27-37 | moves the amount from balance to stake, or changes nothing |
| TokenVm.Token.Unstake | vmm/core/token/internal.go:39-49 | moves the amount back, or changes nothing |
| TokenVm.Token.CacheChangeBalance | vmm/core/token/cache.go:65-76 | the current balance of each account's canonical form |
| TokenVm.Token.InitCache | vmm/core/token/cache.go:12-48 | everything on the first call, nothing later, in any map order |
| TokenVm.Token.HandleTransfer | vmm/core/token/handle.go:108-159 | state and reply are the specified transfer, with exactly the request's X- tags forwarded in some order |
| TokenVm.Token.HandleStake | vmm/core/token/handle.go:161-205 | state and reply are the specified stake |
| TokenVm.Token.HandleUnstake | vmm/core/token/handle.go:207-251 | state and reply are the specified unstake |
| TokenVm.Token.GenNodeNotice | vmm/core/token/handle.go:258-289 | Register exactly when the stake reaches the minimum, else Unregister |
| TokenVm.Token.Apply | vmm/core/token/token.go:22-49 | the dispatch: state and reply are those of the action |
| TokenEffects.StakeMoves | vmm/core/token/handle.go:161-205 | a stake of q succeeds if and only if the request describes the sender's node and q is at most its balance; then q goes from its balance to its stake, no other account changes, the sender is told, and the registry is told to register or unregister as the new stake reaches the minimum or not |
| TokenEffects.UnstakeMoves | vmm/core/token/handle.go:207-251 | an unstake of q is the reverse, if and only if q is at most the stake |
| TokenEffects.TransferMoves | vmm/core/token/handle.go:108-159 | a transfer of q succeeds if and only if the recipient is an account and q is at most the balance; then q goes from the sender to the recipient's canonical account, to itself nothing, and both are told with the request's X- tags |
| TokenEffects.QuestionsAnswer | vmm/core/token/handle.go:17-106 | Balance answers for the recipient, else the target, else the sender; supply, balances and details are as they are; no question moves a token |
| TokenEffects.OthersDoNothing | vmm/core/token/token.go:22-49 | any other action moves nothing, and only Slash is not refused |
| StakeRegistration.StakedMeansRegistered | vmm/core/token/handle.go:161-289 | after any run of actions naming one registry whose notices were applied there in order, with non-empty details in each successful stake or unstake, every account with at least one is registered if and only if its stake reaches the minimum |
| StakeRegistration.LastActionDecides | vmm/core/token/handle.go:258-289 | for any successful stake or unstake, stake and registration agree afterwards if and only if the stake is below the minimum, or name, description and URL are non-empty, or the account was registered already |
| StakeRegistration.EmptyNameIsLost | vmm/core/token/handle.go:258-289 | from genesis, a stake of nothing under a given name leaves stake and registration in agreement if and only if the name is not empty: an empty tag does not survive, and the registration is refused |
| StakeRegistration.DeliveredNotice | vmm/core/registry/handle.go:11-46 | what a delivered notice leaves of every account's registration |
| StakeRegistration.ParamArrives | utils/tags.go:191-223 | a notice's parameter arrives exactly when its tag is not empty, with its value |
| Delivery.DeliveredInOrder | node/outbox.go:51-124 | for any queue, under any retries, crashes and copies in flight, what the target has logged of it is a prefix of what was pushed, at most one ahead of what was committed, each item once; its numbers increase if and only if they were pushed so |
| Delivery.InvStep | node/outbox.go:51-224 | every step of sender, network and target, with executions, losses, checkpoints, lost checkpoints and rebuilds there, keeps that |
| Delivery.MovesOnUnlessStuck | node/outbox.go:104-121 | a non-empty queue can still commit if and only if its head is not yet logged, or the loop has seen the assignment, or the target is another node's and a result of the head is saved, or still to come, or that node will be rebuilt and no checkpoint covers the head or none that lasts |
| Delivery.RemoteLostResultLeavesQueueStuck | node/node.go:224-238 | another node answers for a message by the result saved for it, so a run in which the head is logged and its execution then lost ends stuck if that node is never rebuilt |
| Delivery.CheckpointLeavesQueueStuck | node/node.go:224-238 | and so does one in which a checkpoint that lasts covers the head before the rebuild |
| Delivery.AttemptCommits | node/outbox.go:104-121 | an attempt of the loop, as steps of sender, network and target, commits exactly its head and exactly when it reports the assignment, and nothing is pushed but by others |
| Delivery.StuckForever | node/outbox.go:126-224 | a queue for which none of that holds never commits again and its target logs nothing more of it, by any further run |
| Delivery.CrashLeavesQueueStuck | node/outbox.go:155-187 | on the sender's own node, a five-step run from the empty queue that ends so: the retry is refused as a duplicate, and that is no commit |
| Delivery.Outbox.PushOutbox | db/rdb/outbox.go:12-18 | appends to the one queue |
| Delivery.Outbox.PeekOutbox | db/rdb/outbox.go:20-33 | the head, if there is one |
| Delivery.Outbox.CommitOutbox | db/rdb/outbox.go:35-41 | pops the head, or fails on an empty queue; no other queue changes |
| Delivery.Outbox.TrySend | node/outbox.go:51-124 | is a run of that state machine: whatever the attempts do that can happen, and whatever is pushed meanwhile, it commits one item after another up to the first attempt that fails, or all, and leaves in the queue what that run has not committed; it does nothing under a held lock and frees its own |
| AssignWaiter.WhatCanHappen | node/outbox.go:126-187 | at any moment of any interleaving of one local wait and the loop that hands out assignment results: the loop can come back if and only if it is not waiting for room in a channel nobody reads any more while the wait waits for the loop's lock, nor holds a result that can only be sent after the close; and a send on the closed channel can still happen if and only if it is not so blocked and the wait has not closed `closed` with the loop elsewhere |
| AssignWaiter.PanicNeedsLateResult | node/outbox.go:126-187 | a panic takes a result that passes the handler's check after the removal, which removes nothing, and before `closed` is closed |
| AssignWaiter.BlockedForever | node/outbox.go:126-187 | once so blocked, the loop hands out no result of any item again |
| AssignWaiter.OwnRetryPanics | node/outbox.go:155-187 | a run from the start in which the wait's own second try is answered in that gap and the node panics |
| AssignWaiter.OwnRetriesBlock | node/outbox.go:155-187 | a run from the start in which three of the wait's own tries are answered at once and the loop is blocked for good |
| Acceptance.PassedOverIff | node/message.go:72-83 | a message that decodes, and is therefore logged, is never handed to the VM if and only if its Sequence is set and no integer of 64 bits |
| Acceptance.BadSequenceIsLogged | node/message.go:13-83 | two such messages, from anybody: one with a letter, one with the first number too large |
| Acceptance.KeepsUp | vmm/apply.go:86-94 | in any log the VM exists if and only if its spawn succeeded, and is at the last nonce if and only if everything logged since was a message handed to it |
| Acceptance.AcceptedIffHigher | vmm/apply.go:86-111 | in any log a message is accepted if and only if the spawn succeeded, every entry since was handed to the VM, and its sequence is above all earlier ones from its process; the nonce check fails if and only if some entry was passed over |
| Acceptance.AcceptedOnce | vmm/apply.go:96-108 | in any log the sequences accepted from a process strictly increase, so none is accepted twice |
| Acceptance.OneBadMessageBlocks | node/message.go:58-101 | for every process and message: one logged message with a bad Sequence before it, and it is refused; without that one it is accepted |
| Acceptance.DeliveredIsAccepted | vmm/apply.go:86-108 | a message that a queue delivered is accepted, among whatever else the log holds, if and only if the spawn succeeded, everything logged before was handed to the VM, and its number is above those of the queue's earlier messages |
| Acceptance.RisingQueueIsAccepted | vmm/apply.go:86-108 | so the messages of a queue whose numbers increase never stand in each other's way |
| Acceptance.RepeatedNumberIsRefused | vmm/apply.go:96-108 | a number pushed twice under two ids: both items are delivered, everything before the second was handed to the VM, and the second is refused |
| Log.LogIsFaithful | db/rdb/get.go:14-82 | after any requests a process's nonce is its log length less one, assignment i is the scheduler's and binds message i at nonce i, and an id leads back to the item committed under it |
| Log.LoggedOnce | node/assignment.go:15-19 | no id is logged twice, in one log or in two |
| Log.InvStep | node/assignment.go:13-42 | every request keeps the lists, the nonce and the index in agreement, with the spawn first |
| Log.IndexFinds | db/rdb/get.go:32-49 | the index finds the process again if and only if its id has no colon |
| Log.ColonLogsTwice | db/rdb/get.go:32-49 | an id with a colon for which the same item is accepted twice |
| Log.VerifiesIffInLog | node/fork.go:146-161 | of genuine items the follower's check passes exactly those at its position of the scheduler's log |
| Log.LearnedIsRight | node/fork.go:84-94 | whatever verified spawn it is served, a follower learns this scheduler or nothing |
| Log.RoundKeepsPiece | node/fork.go:79-119 | one round, with anything genuine served for it, leaves the follower with a contiguous piece of the scheduler's log |
| Log.FollowerHoldsPiece | node/fork.go:70-131 | at every moment of every interleaving with the scheduler, whatever it is served, a follower that learns its scheduler on the way holds a contiguous piece of that scheduler's log from where it started |
| Log.ForkSchedulerIsRight | node/fork.go:134-143 | the scheduler read off a verified spawn is the one whose log it is |
| LogStore.Rdb.Commit | db/rdb/set.go:25-46 | nonce, both lists and the index change together |
| LogStore.Rdb.GetNonce | db/rdb/get.go:14-30 | the stored nonce, or -1 |
| LogStore.Rdb.GetMessageByNonce | db/rdb/get.go:52-66 | the message at a position, from the end for a negative one |
| LogStore.Rdb.GetAssignByNonce | db/rdb/get.go:68-82 | the assignment at a position |
| LogStore.Rdb.GetMessage | db/rdb/get.go:32-50 | by way of the index, nothing when its number does not parse |
| LogStore.Assignment | node/assignment.go:13-42 | refuses a logged id, else commits at the next nonce |
| LogStore.FollowerSeesItsRounds | node/fork.go:79-119 | what the scheduler does between the rounds reaches the follower only through what it is served |
| LogStore.RunForkProcess | node/fork.go:70-131 | from the restored checkpoint or the spawn, reading the scheduler off the spawn, the loop ends where its rounds lead, with a contiguous piece of the log of the store it interleaved with |
| LogEffects.RequestIsLogged | node/assignment.go:13-42 | what a node takes in is refused exactly when its id is logged; else it is appended to its process's log with an assignment for the next nonce that the scheduler signs, is found by its id, and no other log changes |
| LogEffects.FromTheEnd | db/rdb/get.go:52-83 | a negative position counts back from the latest entry, and beyond either end there is nothing |
| LogEffects.RoundAdvancesIff | node/fork.go:79-119 | a follower's round takes the next item exactly when it is served that item with its assignment, applies it, and knows the scheduler or is served the spawn; otherwise it stays where it is |
| LogEffects.FollowerCatchesUp | node/fork.go:70-131 | served honestly, a follower ends with everything that is logged |

## Left out

- HTTP routes, the SDK client, the command line, configuration, logging and scheduler jobs: input and output only.
- Signatures, bundle encoding, ECIES and address hashing: foreign libraries, present as predicates and functions.
- Redis itself: keys are maps and lists, every pipeline one step; connection errors are not modelled.
- The chainkit upload, download and GraphQL code, and `RevertSpawn`, which nothing calls.
- The JSON text of checkpoints and caches: a checkpoint is a deep copy, cached JSON an uninterpreted function.
- The Go JSON decoder behind `readModuleTags` that reads the tags themselves.
- The 64-bit width of nonces and sequences, except where a Sequence is read: integers are unbounded.
- Nil amounts and nil list entries: an amount is an integer and a decoded item is there.
- The whitelist and the daily usage counters of the payment store: independent maps.
- Timers, retry delays, the multi-client branch of `Fork`, and the download fallback of `getMessageAndAssignByNonce`.
- `MessageToTags` with a non-empty `PushedFor` and modules with encoding fields: writer and reader use different names.
- The reset of the core registry and token in `runInstance` after a failed initialisation, and `Vm.Close` errors.
- Waiting on `Done` after a failed task.
- A result's Output, Assignments and Cache: they go unchanged to the result channel; the token's cache is in `TokenCache`.
- The encoding of a signed item, which is what makes an item's data the body that its receiver decodes: `time` and `body` are inputs.
- A spawn's queue, with its one item, and the order in which a spawned process is run before its spawn is assigned: `Delivery` models queues of messages.
- The redirect, registration and queue-length checks of `handleMessage` and `handleProcess`, apart from the scheduler being this node and the process being there.
- The transfers that `settle` sends for the settled fees.
- InstanceRuntime.Vmm.StopInstance: setting the flag and starting the closer are one step; nothing observes the state between them.
- InstanceRuntime.Vmm.RunInstance: starts on a closed channel, since a sequential method cannot wait for a sender; with an open one the turns are ProcessNext and DrainQueue, and the interleaving with senders is the protocol's.
- ModuleJsonReader.Reader.ReadFieldName: returns the name as it stands in the file; the source unescapes it at once, here `NamesTags` does.
- ModuleJsonReader.Reader.ReadModuleTags: the decoder of the tags is a parameter.
- Execution.Runner.Spawn: does not model the wait for the first registry; the module is the one that the environment's process names, and the environment keeps neither the mode nor the recovery bound, which a snapshot's text drops. Of the VM factories only the registry's reads the mode, to make its node the main one.
- Execution.Runner.Checkpoint: the module is not copied into the snapshot, because the process in its environment names it.
- AssignWaiter.WhatCanHappen: one wait at a time; the handlers of other waits can only hold the loop longer, or block it in the same way. A result that reports another error than a duplicate is one kind of answer.
- Life.LifeIsLive: begins when the spawn is logged; what an attempt to spawn sends before that comes on top (`UnloggedSpawnSendsAgain`). Signing and storing an outgoing item do not fail.
- LogStore.RunForkProcess: runs for a given number of rounds, because the program's loop ends only with the node; what the rounds do to the VM is in `Recovery`.
- `GetAllProcess`, `GetResults` and the other cursor reads of the store.
