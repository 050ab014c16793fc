# Verification model of exodus-mcp

A Dafny model of the stateful core of exodus-mcp: the native plugin that records trace
sessions and answers requests over a pipe, and the Go server that schedules mutations,
keeps annotations, resolves symbols and runs experiments. Code that updates fields or
buffers is modelled by classes and loops; each method is tied to a function on values, and
the theorems are proved about runs of those functions.

| file | what it models |
|---|---|
| `SegmentStreams.dfy`, `SegmentTables.dfy` | one rotated segment stream: seal, rotate, evict, drain; the vectors and counters behind it |
| `TraceSessions.dfy`, `TracePlugin.dfy` | the trace session under its lock: monitor thread, drain requests, start, stop, lost processor |
| `AccessSwitch.dfy`, `CommittedBytes.dfy`, `SessionLaws.dfy` | over its runs: the access-log switch; everything committed reaches the replies; what a client is answered, the parameters of a session, what rotating, sealing and stopping leave behind |
| `MutationSteps.dfy`, `CallLaws.dfy`, `MutationScheduler.dfy`, `AuditLogs.dfy` | the mutation scheduler, the target generation, the control lock, the audit stream |
| `BridgeRequest.dfy`, `Framing.dfy`, `Base64.dfy` | the request lines, the length-prefixed response, base64 |
| `Annotations.dfy`, `AnnotationLaws.dfy`, `AnnotationStores.dfy`, `KeysetWalk.dfy`, `AnnotationCursors.dfy` | the annotation store, its pages, and the cursor tokens |
| `EntryMemory.dfy`, `Checksum.dfy`, `SymbolIndex.dfy` | byte access to multi-byte entries, the streaming checksum, symbol resolution |
| `ExperimentLoop.dfy`, `DebugEvents.dfy`, `RunState.dfy`, `CaptureGuard.dfy` | the experiment message loop, the ring of debugger stops, run-state tracking, the capture guard |
| `Basics.dfy`, `Numerals.dfy` | shared types; decimal numerals |

## How runs are modelled

A trace session is a state machine whose steps are the blocks executed under the session
lock, together with what the engine and the user do in between; theorems range over all
sequences of steps. Refused paths, failed reads and lost processors are arguments of the
steps. The two segment streams of the source are one class with two instances: their code
is the same line for line except in the rotation, and that difference is kept.

A mutation is five steps, each with its own reads of shared state: read the generation, look
at the unknown flag and the expected generation, look for a control lock, check its owner and
prepare, finish the native action. Read-only commands and control-lock calls may fall between
any two. `MutationScheduler` runs one call through these steps with a given schedule of the
others' steps.

What an operation means is stated apart from its body: the modules `SessionLaws`, `CallLaws` and
`AnnotationLaws`, and the lemmas named `...Exactly`, say for every state and every argument when it
is refused, what it changes, and what it leaves alone.

Time, randomness, I/O results, read sizes and process events are parameters. New ids are
required to be new.

## Where the code does not do what it says

* A guarded mutation reads the generation before it looks at the unknown flag. If a read-only
  command resynchronizes the target between the two, a generation held from before an
  ambiguous failure is accepted (`MutationSteps.RacedGuardGetsThrough`). For a guarded call that
  gets through the promise holds exactly when the target was known in the state the call began
  in (`MutationSteps.GuardHolds`, `MutationSteps.GuardFromState`).
* When an access-log segment path is refused the note says capture stays in the previous
  segment, but that segment is already sealed and the log switched off
  (`TraceSessions.RefusedPaths`). Nothing is evicted then: the access stream exceeds its caps
  exactly when what it has sealed does not fit (`TraceSessions.AccessWithinCapsExactly`), by one
  segment at most (`SessionLaws.AccountingOverRuns`); `TraceSessions.RefusedAccessOverCaps` is a
  run that gets there.
* The access log is switched on before it is known that its file could be opened, and nothing
  switches it off when it could not. Without a session a processor's access-log switch is on
  exactly when the last start that armed it found no file
  (`AccessSwitch.AccessSwitchExactly`, `AccessSwitch.AccessLogLeftOn`); the trace switches are always put back
  (`TraceSessions.SwitchesRestored`).
* Cursor tokens carry times as 64-bit nanoseconds. The zero time of a record imported without a
  creation time wraps round to a later one, and the walk returns to its first page for ever
  (`AnnotationCursors.ZeroTimesRepeat`). Tokens page like the positions they name exactly for
  times in range and ids without the separator (`AnnotationCursors.TokensExactly`); import checks
  neither.
* An import can change a creation time, the paging key. Some walk returns a record twice exactly
  when it is older later on and was not the oldest wanted one before (`KeysetWalk.OlderAgain`,
  `KeysetWalk.AgainOnlyOlder`); `KeysetWalk.ImportLowersExactly` says which imports do that and
  `KeysetWalk.OverwriteAgain` gives one. Some walk misses a record that is always wanted exactly
  when it moves from behind another one to before it
  (`KeysetWalk.NewerMissed`, `KeysetWalk.MissedOnlyNewer`). Ordinary walks fail: without a filter,
  one record a page up to some point and then any page size.
* Sending the original arguments again with a cursor is documented as allowed, but is refused
  when the filter text has blanks around it (`AnnotationCursors.ResendingAccepted`). Tag lists
  are compared as multisets although repetitions are said not to matter
  (`AnnotationCursors.SameTagsAccepted`, `AnnotationCursors.RepeatedTagRefused`).
* An export is announced as newest first; after a create it is only when it was before and
  nothing stored is older (`Annotations.ExportOrder`).
* Base64 texts with non-zero spare bits are accepted (`Base64.CanonicalExactly`).
* A duplicated address is said to keep its first name. An exact query does; a nearby one names
  the last, so they agree exactly when the two names are equal (`SymbolIndex.SharedAddress`,
  `SymbolIndex.SecondNameFound`).
* A debugger stop seen again after a hundred other records is recorded a second time
  (`DebugEvents.FoldsExactly`).
* The message cap of an experiment can never be reached before the other caps
  (`ExperimentLoop.CapsHold`).
* The capture guard restores the run state except when the tracker's last observation is out of
  date or there was none (`CaptureGuard.RunStateRestored`); of several reads only the first can
  fail to (`CaptureGuard.AllReadsRestore`).

## Model

| member | source | states |
|---|---|---|
| `SegmentStreams.SealKeeps` | native-plugin/ExodusMcpPlugin.cpp:4165-4191 | sealing keeps order, byte and window conservation and delivery, and leaves nothing open |
| `SegmentStreams.OpenKeeps` | native-plugin/ExodusMcpPlugin.cpp:4194-4240 | taking an index (also a burnt one) and opening a segment at it keeps the invariant |
| `SegmentStreams.AppendKeeps` | native-plugin/ExodusMcpPlugin.cpp:4194-4240 | bytes committed to the open file disturb neither counters nor delivery |
| `SegmentStreams.EvictOldestKeeps` | native-plugin/ExodusMcpPlugin.cpp:4290-4306 | evicting one segment keeps conservation; if unread it is the one at the cursor and is counted lost |
| `SegmentStreams.EvictKeeps` | native-plugin/ExodusMcpPlugin.cpp:4261-4307 | so does eviction down to the caps |
| `SegmentStreams.EvictShortestPrefix` | native-plugin/ExodusMcpPlugin.cpp:4261-4307 | eviction removes the shortest oldest prefix after which both caps hold and counts exactly it, in segments and bytes |
| `SegmentStreams.EvictCountsUnread` | native-plugin/ExodusMcpPlugin.cpp:4290-4305 | of that prefix exactly the part the cursor had not passed is counted unread, and the cursor moves just behind it |
| `SegmentStreams.DrainKeeps` | native-plugin/ExodusMcpPlugin.cpp:4538-4590 | a drain keeps the invariant, whether the file could be read or not |
| `SegmentStreams.DrainMoves` | native-plugin/ExodusMcpPlugin.cpp:4538-4582 | a readable drain returns the next bytes of the first undelivered segment and moves the cursor over exactly them |
| `SegmentStreams.PositionIs` | native-plugin/ExodusMcpPlugin.cpp:4540-4550 | the scan from the cursor finds the first segment neither delivered nor lost |
| `SegmentStreams.NothingTwice` | native-plugin/ExodusMcpPlugin.cpp:4538-4590 | all replies joined go strictly forward by segment and position, and each byte is the byte of its file |
| `SegmentStreams.NothingMissing` | native-plugin/ExodusMcpPlugin.cpp:4538-4590 | with nothing pending and no unread eviction counted the replies are all sealed files, whole and in order |
| `SegmentStreams.EverySegmentPassed` | native-plugin/ExodusMcpPlugin.cpp:4538-4590 | a segment is behind the cursor exactly when it was handed out whole or is lost; a lost one was evicted and, unless empty, not handed out whole; the lost ones number exactly the unread evictions |
| `SegmentStreams.RepliesArePrefix` | native-plugin/ExodusMcpPlugin.cpp:4538-4590 | with no unread eviction the bytes handed out are a prefix of the bytes written, and all of them once nothing is pending or open |
| `SegmentStreams.DrainFrame` | native-plugin/ExodusMcpPlugin.cpp:4538-4590 | a drain changes only its cursor |
| `SegmentStreams.DrainProgress` | native-plugin/ExodusMcpPlugin.cpp:4570-4582 | every readable drain with something pending makes strict progress |
| `SegmentStreams.DrainReplies` | native-plugin/ExodusMcpPlugin.cpp:4551-4569 | with readable files the empty reply comes exactly when nothing is pending |
| `SegmentStreams.DrainEnds` | native-plugin/ExodusMcpPlugin.cpp:4583-4590 | done is reported exactly when no sealed segment is left at or behind the cursor |
| `SegmentStreams.DrainTerminates` | native-plugin/ExodusMcpPlugin.cpp:4538-4590 | asking until done ends, evicts nothing, and leaves nothing pending |
| `SegmentTables.SegmentTable.Append` | native-plugin/ExodusMcpPlugin.cpp:4200-4210 | the open entry grows, the stream value with it |
| `SegmentTables.SegmentTable.Seal` | native-plugin/ExodusMcpPlugin.cpp:4172-4182 | the last entry is sealed with the size of its file, as the stream seal |
| `SegmentTables.SegmentTable.TakeIndex` | native-plugin/ExodusMcpPlugin.cpp:4200-4200 | an index is used up before the path is tried |
| `SegmentTables.SegmentTable.Open` | native-plugin/ExodusMcpPlugin.cpp:4228-4233 | an empty unsealed entry is appended at the last index |
| `SegmentTables.SegmentTable.SealedTotals` | native-plugin/ExodusMcpPlugin.cpp:4267-4285 | the scan yields count, bytes and oldest of the sealed entries |
| `SegmentTables.SegmentTable.Evict` | native-plugin/ExodusMcpPlugin.cpp:4261-4307 | the loop computes the eviction of the stream value |
| `SegmentTables.SegmentTable.EvictAt` | native-plugin/ExodusMcpPlugin.cpp:4290-4305 | removing one victim is one eviction of the stream value |
| `SegmentTables.SegmentTable.Rotate` | native-plugin/ExodusMcpPlugin.cpp:4217-4236 | seal, open and evict in this order |
| `SegmentTables.SegmentTable.FirstSealed` | native-plugin/ExodusMcpPlugin.cpp:4310-4321 | the first sealed entry at or after an index |
| `SegmentTables.SegmentTable.Drain` | native-plugin/ExodusMcpPlugin.cpp:4538-4590 | the drain of the vectors is the drain of the stream value, reply included |
| `SegmentTables.SegmentTable.DeleteFiles` | native-plugin/ExodusMcpPlugin.cpp:4990-5005 | deleting the files resets table and cursor and keeps the loss counters |
| `SegmentTables.SegmentTable.Reset` | native-plugin/ExodusMcpPlugin.cpp:3776-3793 | a new session starts from empty streams |
| `TraceSessions.StepKeeps` | native-plugin/ExodusMcpPlugin.cpp:3978-4122 | every locked block of every thread keeps the session invariants |
| `TraceSessions.AllRunsGood` | native-plugin/ExodusMcpPlugin.cpp:3978-4122 | so they hold after any interleaving |
| `TraceSessions.DeliveryOverRuns` | native-plugin/ExodusMcpPlugin.cpp:4538-4590 | delivery for either stream over any interleaving of rotations, seals, evictions and drains; every passed segment was handed out whole or was evicted before, and the latter number exactly the unread evictions |
| `SessionLaws.AccountingOverRuns` | native-plugin/ExodusMcpPlugin.cpp:4165-4307 | over every run windows started, completed, open, retained and evicted balance; for both streams bytes balance and indices increase; each stream is held to the caps its start asked for, the access stream up to one sealed segment with nothing open |
| `SessionLaws.RequestServes` | native-plugin/ExodusMcpPlugin.cpp:4826-4870 | a drain request reads the stream it asks for and changes nothing else: data is the next chunk of that stream, nothing is answered exactly when nothing is pending, a file that cannot be read changes nothing |
| `SessionLaws.AnswersOverRuns` | native-plugin/ExodusMcpPlugin.cpp:4859-4870 | over every run the replies of a stream are exactly what the requests for that stream were answered |
| `SessionLaws.ClientGetsCommitted` | native-plugin/ExodusMcpPlugin.cpp:4859-4870 | over every run, with no unread eviction, the answers to the requests for a stream are a prefix of what the engine committed to it since the start, and all of it once nothing is pending or open |
| `SessionLaws.StartExactly` | native-plugin/ExodusMcpPlugin.cpp:3716-3960 | a start succeeds exactly when the trace log was free and directory, path, file and thread were to be had; the session then has the processor, mode, caps, disassembly, gate and access log of its arguments and one empty segment open |
| `SessionLaws.ParametersOverRuns` | native-plugin/ExodusMcpPlugin.cpp:3754-3818 | over every run a session that runs, or whose files are still there, has the parameters of the last start |
| `SessionLaws.MonitorRotates` | native-plugin/ExodusMcpPlugin.cpp:4194-4258 | a rotation seals the open segment of both streams and opens an empty one under the next index, with gate, file log and access log on; a refused path goes on as before |
| `SessionLaws.WindowOpens` | native-plugin/ExodusMcpPlugin.cpp:4090-4105 | the next window of a sampled session opens in the same way, with the gate on |
| `SessionLaws.WindowCloses` | native-plugin/ExodusMcpPlugin.cpp:4071-4089 | it is closed by the gate first; then both streams are sealed and the file log is off |
| `SessionLaws.SealingSeals` | native-plugin/ExodusMcpPlugin.cpp:4826-4850 | a sealing request rotates a continuous session and seals a sampled one, with what the engine flushes in the closed file; any other seals nothing |
| `SessionLaws.StopSeals` | native-plugin/ExodusMcpPlugin.cpp:4125-4162 | stopping seals what is open of both streams and puts the switches back; deleting empties both and keeps the counters |
| `TraceSessions.ContinuousNeverStops` | native-plugin/ExodusMcpPlugin.cpp:4243-4258 | an active continuous session is capturing with gate and file log on, after failed rotations too |
| `TraceSessions.SwitchesRestored` | native-plugin/ExodusMcpPlugin.cpp:4125-4162 | a processor without a session has the trace switches the user last gave it, across replaced, failed and stopped sessions |
| `AccessSwitch.AccessSwitchExactly` | native-plugin/ExodusMcpPlugin.cpp:3880-3918 | the access-log switch is not put back: without a session it is on exactly when the last step that decides left it on, that is a start whose access file could not be opened, or a processor loaded with it on |
| `AccessSwitch.AccessLogLeftOn` | native-plugin/ExodusMcpPlugin.cpp:3906-3913 | a run that leaves it on: a start whose access file cannot be opened, and a stop |
| `AccessSwitch.StepSwitch` | native-plugin/ExodusMcpPlugin.cpp:4324-4379 | under every step a session that keeps an access log has the switch on exactly while a segment is open |
| `TraceSessions.FinishFlags` | native-plugin/ExodusMcpPlugin.cpp:4132-4153 | ending a session puts the switches of its start back if the processor is still there |
| `TraceSessions.StartGood` | native-plugin/ExodusMcpPlugin.cpp:3716-3960 | a start ends with an armed session or with none, whatever fails on the way |
| `CommittedBytes.NoEntryLost` | native-plugin/ExodusMcpPlugin.cpp:4203-4216 | each step but a start or a deletion adds to the files of both streams exactly what the engine commits in it |
| `CommittedBytes.WrittenOverRuns` | native-plugin/ExodusMcpPlugin.cpp:4203-4216 | over every run the files of either stream hold exactly what was committed since the start, in order |
| `CommittedBytes.RepliesAreCommitted` | native-plugin/ExodusMcpPlugin.cpp:4203-4216 | over every run, with no unread eviction, the replies joined are a prefix of what was committed since the start, and all of it once nothing is pending or open |
| `TraceSessions.RefusedPaths` | native-plugin/ExodusMcpPlugin.cpp:4353-4379 | after a refused path the trace stream goes on, the access stream records nothing |
| `TraceSessions.RefusedAccessOverCaps` | native-plugin/ExodusMcpPlugin.cpp:4353-4370 | a run that gets over the access caps: a start with the least caps, two rotations, one refused access path |
| `TraceSessions.AccessWithinCapsExactly` | native-plugin/ExodusMcpPlugin.cpp:4347-4379 | an access rotation ends within its caps exactly when its path is accepted or what it has sealed already fits |
| `TraceSessions.RotateTraceStreams` | native-plugin/ExodusMcpPlugin.cpp:4194-4240 | a rotation, refused or not, keeps both streams sound and within the trace caps |
| `TraceSessions.RotateAccessKeeps` | native-plugin/ExodusMcpPlugin.cpp:4347-4379 | a rotation of the access stream, refused or not, keeps its invariant and its retention |
| `TraceSessions.SealForDrainGood` | native-plugin/ExodusMcpPlugin.cpp:4826-4850 | the sealing half of a drain request keeps the session invariants and re-arms the gate |
| `TracePlugin.TraceSession.SealAccess` | native-plugin/ExodusMcpPlugin.cpp:4324-4344 | log off, seal, evict |
| `TracePlugin.TraceSession.RotateAccess` | native-plugin/ExodusMcpPlugin.cpp:4347-4379 | seals before the new path is checked |
| `TracePlugin.TraceSession.SealTrace` | native-plugin/ExodusMcpPlugin.cpp:4165-4191 | file log off, seal and count the window, evict, then the access stream |
| `TracePlugin.TraceSession.RotateTrace` | native-plugin/ExodusMcpPlugin.cpp:4194-4240 | keeps the open segment when the path is refused |
| `TracePlugin.TraceSession.Arm` | native-plugin/ExodusMcpPlugin.cpp:4243-4258 | re-opens the gate of a capturing continuous session |
| `TracePlugin.TraceSession.Finish` | native-plugin/ExodusMcpPlugin.cpp:4125-4162 | ends a session as the state machine does |
| `TracePlugin.TraceSession.DeleteFiles` | native-plugin/ExodusMcpPlugin.cpp:4990-5005 | both streams are cleared |
| `TracePlugin.TraceSession.Begin` | native-plugin/ExodusMcpPlugin.cpp:3765-3819 | resets the session and captures the switches |
| `TracePlugin.TraceSession.StartAccess` | native-plugin/ExodusMcpPlugin.cpp:3882-3918 | the access log is armed or given up |
| `TracePlugin.TraceSession.Start` | native-plugin/ExodusMcpPlugin.cpp:3716-3960 | a start with all its failures is the start of the state machine |
| `TracePlugin.TraceSession.SealForDrain` | native-plugin/ExodusMcpPlugin.cpp:4826-4850 | rotate and re-arm, or seal |
| `TracePlugin.TraceSession.DrainRequest` | native-plugin/ExodusMcpPlugin.cpp:4806-4870 | a drain request is one step of the state machine |
| `TracePlugin.TraceSession.MonitorRotate` | native-plugin/ExodusMcpPlugin.cpp:4106-4116 | the monitor rotates a continuous session |
| `TracePlugin.TraceSession.MonitorOpenWindow` | native-plugin/ExodusMcpPlugin.cpp:4090-4104 | the monitor opens a sampled window |
| `TracePlugin.TraceSession.MonitorSealWindow` | native-plugin/ExodusMcpPlugin.cpp:4082-4088 | the monitor seals a sampled window |
| `TracePlugin.TraceSession.ProcessorLost` | native-plugin/ExodusMcpPlugin.cpp:3992-4004 | a session whose processor is gone ends without touching it |
| `TracePlugin.TraceSession.Stop` | native-plugin/ExodusMcpPlugin.cpp:4920-4950 | stop, with or without deleting the files |
| `MutationSteps.GenerationCounts` | internal/analysis/target.go:53-84 | over every run the generation is one plus landings plus resynchronizations |
| `MutationSteps.GuardHolds` | internal/mcp/mutation.go:120-147 | a guarded native action starts on a known target; its generation is still the expected one and nothing touched the target since, exactly when the target was known as the call read the generation |
| `MutationSteps.GuardFromState` | internal/mcp/mutation.go:91-138 | the same condition read off the state the call begins in |
| `MutationSteps.RacedExactly` | internal/mcp/mutation.go:91-138 | a guarded call that gets through was raced by a resynchronization exactly when it began on an unknown target |
| `MutationSteps.RacedGuardGetsThrough` | internal/mcp/mutation.go:91-138 | a generation held from before an ambiguous failure passes when raced |
| `MutationSteps.QuietSince` | internal/analysis/target.go:53-84 | an unchanged generation on a known target means no landing, ambiguous failure or resynchronization in between |
| `MutationSteps.AuditIsComplete` | internal/mcp/mutation.go:93-118 | each call writes one mutation entry and each landing one landed entry |
| `MutationSteps.AuditIntervals` | internal/mcp/mutation.go:161-210 | landed entries name disjoint generation intervals in audit order |
| `MutationSteps.LandingStep` | internal/mcp/mutation.go:156-209 | a landing, whole or partial, writes one entry and advances by one, or by two after a resynchronization, which for a guarded call is exactly when it began on an unknown target |
| `MutationSteps.NoGenerationZero` | internal/analysis/target.go:30-36 | no run has or records generation zero |
| `MutationSteps.ExclusiveControl` | internal/analysis/target.go:174-275 | while a lock lasts every native action that starts carries its id |
| `CallLaws.OutcomeExactly` | internal/mcp/mutation.go:156-209 | an ambiguous outcome makes the target unknown, whoever holds the control lock, and keeps the generation; a plain failure leaves the target as it was; each writes its one entry |
| `CallLaws.TargetMovesExactly` | internal/mcp/mutation.go:156-209 | the generation moves by a landing or an observation of an unknown target only, by one; the target turns unknown by an ambiguous outcome only |
| `CallLaws.NoGuardAfterAmbiguous` | internal/mcp/mutation.go:86-130 | after an ambiguous outcome no guarded call passes its check before a landing or an observation, whatever else happens |
| `CallLaws.GenerationOverSteps` | internal/analysis/target.go:53-84 | the generation counts the landings and resynchronizations among the steps |
| `CallLaws.CallExactly` | internal/mcp/mutation.go:86-160 | a call that is alone reaches its native action exactly when guard, control lock and preconditions let it; otherwise it ends with the record of the first that did not |
| `CallLaws.ChecksExactly` | internal/mcp/mutation.go:86-160 | each check of a call with others at work: a live lock lets in its owner and nobody else |
| `CallLaws.LockLasts` | internal/analysis/target.go:159-225 | a lock is granted exactly when none is live and lasts as long as asked for, an hour at most; only the live owner renews it |
| `CallLaws.NoLockEndsUnseen` | internal/analysis/target.go:146-168 | a lock ends, or changes hands, only with a record of its end |
| `CallLaws.LockEnds` | internal/analysis/target.go:229-256 | the owner gives it back, a lost bridge or context ends it, and each end is written down once |
| `MutationSteps.StepKeeps` | internal/mcp/mutation.go:85-210 | every step of a call or of another caller keeps the scheduler invariant |
| `MutationScheduler.Target.ResynchronizeIfUnknown` | internal/analysis/target.go:64-73 | advances and clears the flag exactly when it was set |
| `MutationScheduler.Target.Advance` | internal/analysis/target.go:78-84 | advances by one and makes the target known |
| `MutationScheduler.Target.MarkUnknown` | internal/analysis/target.go:53-57 | keeps the last known generation |
| `MutationScheduler.ControlRegistry.Active` | internal/analysis/target.go:159-168 | an expired lock is dropped on touch |
| `MutationScheduler.ControlRegistry.Acquire` | internal/analysis/target.go:174-200 | taken exactly when no lock is live, for at most an hour |
| `MutationScheduler.ControlRegistry.Renew` | internal/analysis/target.go:204-225 | only the live owner extends the lock |
| `MutationScheduler.ControlRegistry.Release` | internal/analysis/target.go:229-241 | only the owner releases it |
| `MutationScheduler.Server.ObserveTarget` | internal/mcp/server.go:700-707 | a successful read-only command is one observation step |
| `MutationScheduler.Server.CheckGeneration` | internal/mcp/mutation.go:120-147 | the two guards as one step |
| `MutationScheduler.Server.Prepare` | internal/mcp/mutation.go:157-163 | preparation, then the native action starts |
| `MutationScheduler.Server.Conclude` | internal/mcp/mutation.go:165-210 | the four outcomes of the native action with their bookkeeping |
| `MutationScheduler.Server.ExecuteMutation` | internal/mcp/mutation.go:85-210 | a whole call with other callers at work in between is a run of the step machine |
| `AuditLogs.AuditLog.Record` | internal/analysis/audit.go:76-89 | the log is the last 2000 records of the stream with consecutive ids |
| `AuditLogs.AuditLog.Query` | internal/analysis/audit.go:105-117 | exactly the matching retained entries, newest first, none twice |
| `AuditLogs.AuditLog.RetainedWindow` | internal/analysis/audit.go:121-155 | id span and, where no entry names generation zero, the generation range of the retained entries |
| `AuditLogs.RunNamesNoZero` | internal/analysis/audit.go:121-155 | entries recorded by a scheduler run never do |
| `AuditLogs.FilterExactly` | internal/analysis/audit.go:157-193 | which entries a filter leaves out |
| `AuditLogs.RangeExactly` | internal/analysis/audit.go:157-193 | a generation range selects the entries that name a generation inside it |
| `BridgeRequest.BuildRequest` | internal/bridge/bridge.go:72-88 | the printed request, for parameters in any order |
| `BridgeRequest.ParseRequestBody` | native-plugin/BridgeWire.cpp:10-69 | the loop computes the reading of the lines, refusals included |
| `BridgeRequest.RoundTrip` | internal/bridge/bridge.go:70-88 | parsing a built request gives id, method and parameters back exactly when capability and method are non-empty, nothing holds a newline, no value ends in a carriage return, and keys are free of = and not reserved |
| `BridgeRequest.OtherCapabilityRefused` | native-plugin/BridgeWire.cpp:42-47 | under any other capability it is refused as unauthorized |
| `BridgeRequest.AcceptedIsClean` | native-plugin/BridgeWire.cpp:16-39 | an accepted request names no reserved parameter and holds no newline |
| `BridgeRequest.ParseExactly` | native-plugin/BridgeWire.cpp:10-69 | any request of key=value lines: the last line of a key counts, what follows an empty line is ignored, a line without a separator spoils it; when it is unauthorized, malformed or accepted, and with what |
| `Framing.MakeFrameHeader` | native-plugin/BridgeWire.cpp:256-271 | eight hexadecimal digits, clamped |
| `Framing.HeaderRoundTrip` | native-plugin/BridgeWire.cpp:256-271 | the reader parses the size back, or the clamp |
| `Framing.HexIsUpper` | native-plugin/BridgeWire.cpp:258-270 | digits are 0-9 and A-F |
| `Framing.WriteAll` | native-plugin/ExodusMcpPlugin.cpp:757-806 | what is on the pipe is a prefix of the frame, and the whole of it exactly on success |
| `Framing.WriteProgress` | native-plugin/ExodusMcpPlugin.cpp:766-805 | full-pipe turns only delay completion |
| `Framing.BreakEnds` | native-plugin/ExodusMcpPlugin.cpp:757-806 | a stop, an error, or a full pipe that asks for more ends the writing where it stands |
| `Framing.CountsAddUp` | native-plugin/ExodusMcpPlugin.cpp:757-806 | the writer stands behind exactly the bytes the pipe took |
| `Framing.ReadFramedResponse` | internal/bridge/client_windows.go:94-120 | the loop computes the verdict on the bytes that arrive |
| `Framing.SplitIndependent` | internal/bridge/client_windows.go:94-120 | the verdict does not depend on how the stream is cut |
| `Framing.VerdictExactly` | internal/bridge/client_windows.go:94-120 | what the reader answers to any stream of bytes: bad length, too large, payload, failure or waiting |
| `Framing.EndToEnd` | internal/bridge/client_windows.go:94-120 | the reader returns the payload exactly when the whole frame arrived and it is within 64 MiB, and never any other payload |
| `Base64.Base64Encode` | native-plugin/BridgeWire.cpp:117-135 | the loop computes the encoding |
| `Base64.Base64Decode` | native-plugin/BridgeWire.cpp:137-200 | the loop accepts and computes the decoding |
| `Base64.AlphabetIs` | native-plugin/BridgeWire.cpp:119-119 | the alphabet of section 4 of RFC 4648 |
| `Base64.StandardVectors` | native-plugin/BridgeWire.cpp:117-135 | the test vectors of section 10 of RFC 4648 |
| `Base64.RoundTrip` | native-plugin/BridgeWire.cpp:117-200 | decoding an encoding gives the bytes back at every length |
| `Base64.AcceptsExactly` | native-plugin/BridgeWire.cpp:152-186 | accepted is exactly a multiple of four, alphabet characters, then at most two padding characters |
| `Base64.CanonicalExactly` | native-plugin/BridgeWire.cpp:169-198 | encoding what was decoded gives the text back exactly when its spare bits are zero |
| `Base64.TwoTextsOneByte` | native-plugin/BridgeWire.cpp:169-198 | two texts of one byte |
| `Annotations.UpdateLaws` | internal/analysis/annotations.go:243-300 | an update is idempotent and leaves a coherent address domain, whatever was stored |
| `Annotations.EmptyUpdate` | internal/analysis/annotations.go:243-300 | an empty update keeps stored content exactly when its title is trimmed and a range has its length |
| `Annotations.CreateKeeps` | internal/analysis/annotations.go:201-220 | create keeps ids unique, list and map equal, the cap, and validity |
| `Annotations.UpdateKeeps` | internal/analysis/annotations.go:237-304 | so does update |
| `Annotations.DeleteKeeps` | internal/analysis/annotations.go:309-325 | so does delete |
| `Annotations.ImportKeeps` | internal/analysis/annotations.go:428-495 | so does import; a rejected one changes nothing; imported plus conflicts is the document length, repeated ids included |
| `Annotations.ImportedWithinCap` | internal/analysis/annotations.go:446-470 | the growth an import is judged by is the growth it causes |
| `Annotations.ExportImport` | internal/analysis/annotations.go:409-495 | importing an export into an empty context restores every record up to its owner |
| `Annotations.ExportOrder` | internal/analysis/annotations.go:405-420 | after a create the export is newest first exactly when it was before and nothing stored is older |
| `Annotations.OrderAfterUpdate` | internal/analysis/annotations.go:298-301 | after an update the list is newest first |
| `Annotations.UpdateMovesForward` | internal/analysis/annotations.go:291-302 | the update time moves strictly forward; the paging key and other records stay |
| `AnnotationLaws.UpdateExactly` | internal/analysis/annotations.go:234-304 | an update is refused exactly when there is no such record or the result could not be stored; otherwise every field is the given one or the stored one, and no other record changes |
| `AnnotationLaws.CreateExactly` | internal/analysis/annotations.go:201-222 | a create is refused exactly for content that cannot be stored or at the cap; otherwise it adds one record with the content as given |
| `AnnotationLaws.DeleteExactly` | internal/analysis/annotations.go:309-324 | a delete takes out the record and nothing else, in place |
| `AnnotationLaws.ImportExactly` | internal/analysis/annotations.go:428-495 | an import is accepted exactly when every entry could be a record and the result fits; it writes what the document brings, over stored records only when asked to, and names what it skipped |
| `AnnotationLaws.StorableExactly` | internal/analysis/annotations.go:516-552 | what a record may hold |
| `AnnotationLaws.SortStable` | internal/analysis/annotations.go:509-514 | records of one update time keep their order |
| `AnnotationLaws.ListingOrder` | internal/analysis/annotations.go:361-366 | a listing goes from the last created to the first, and within one time from the greater id to the smaller |
| `AnnotationLaws.LessExactly` | internal/analysis/annotations.go:361-366 | what the greater id is |
| `AnnotationLaws.OffsetPage` | internal/analysis/annotations.go:372-404 | a page by offset: what lies behind it, up to the limit |
| `AnnotationLaws.TrimIs` | internal/analysis/annotations.go:516-552 | trimming takes all white space from both ends and nothing else |
| `AnnotationStores.AnnotationStore.Create` | internal/analysis/annotations.go:201-220 | the object computes the store function |
| `AnnotationStores.AnnotationStore.Update` | internal/analysis/annotations.go:237-304 | the object computes the store function |
| `AnnotationStores.AnnotationStore.Delete` | internal/analysis/annotations.go:309-325 | the object computes the store function |
| `AnnotationStores.AnnotationStore.ImportDocument` | internal/analysis/annotations.go:428-495 | the object computes the store function |
| `AnnotationStores.AnnotationStore.Export` | internal/analysis/annotations.go:409-420 | the records in list order |
| `AnnotationStores.AnnotationStore.List` | internal/analysis/annotations.go:334-394 | one page of the sorted listing; what fits the filter is shown or counted as excluded |
| `KeysetWalk.ListingIs` | internal/analysis/annotations.go:346-371 | a listing holds exactly the wanted records, in strictly descending key order |
| `KeysetWalk.PageCovers` | internal/analysis/annotations.go:372-404 | a page shows nothing up to the anchor, and of the rest all the next page would not |
| `KeysetWalk.NoIdTwice` | internal/analysis/annotations.go:327-394 | with any creates, updates, deletes and imports between pages no id is returned twice, as long as no import lowers a creation time |
| `KeysetWalk.NothingSkipped` | internal/analysis/annotations.go:327-394 | a record there and wanted at every request of a finished walk, and never made newer, is returned, whatever happens to others |
| `KeysetWalk.MissedOnlyNewer` | internal/analysis/annotations.go:327-394 | a wanted record that is missed was behind the last record of some page and before it at the next request |
| `KeysetWalk.OlderAgain` | internal/analysis/annotations.go:478-484 | over any history and whatever else is wanted: a record that is older later on and was not the oldest wanted one is returned twice by some finished walk |
| `KeysetWalk.AgainOnlyOlder` | internal/analysis/annotations.go:327-394 | and only such a record is |
| `KeysetWalk.OverwriteAgain` | internal/analysis/annotations.go:428-495 | an input: an accepted overwriting import that lowers one time, and a finished walk that then returns the record twice, for every filter that holds of the records concerned |
| `KeysetWalk.NewerMissed` | internal/analysis/annotations.go:327-394 | over any history and whatever else is wanted: a record that moves from behind another one to before it is missed by some finished walk |
| `KeysetWalk.RepeatIsOlder` | internal/analysis/annotations.go:327-394 | over any edits and walk a record returned twice is older the second time |
| `KeysetWalk.OnlyImportsLower` | internal/analysis/annotations.go:201-325 | create, update and delete never lower a creation time |
| `KeysetWalk.ImportLowersExactly` | internal/analysis/annotations.go:428-495 | an import lowers one exactly when it is accepted and brings a lower one for an id it may write |
| `KeysetWalk.ApplyKeeps` | internal/analysis/annotations.go:201-495 | every edit keeps the store invariant, and the last creation time of every id is known |
| `KeysetWalk.WalkIsListing` | internal/analysis/annotations.go:372-394 | on an unchanging store the pages joined are the listing |
| `KeysetWalk.WalkFromTheStart` | internal/analysis/annotations.go:334-394 | and the walk ends |
| `AnnotationCursors.TokenRoundTrip` | internal/mcp/tools_annotations.go:615-638 | a token gives its cursor back exactly for times in 64 bits and non-empty ids without the separator |
| `AnnotationCursors.TokensPageAlike` | internal/mcp/paging.go:51-72 | then a token pages like the anchor it names |
| `AnnotationCursors.TokensExactly` | internal/mcp/paging.go:51-72 | and only then: for the position of any other record some store pages differently by token |
| `AnnotationCursors.ZeroTimesRepeat` | internal/mcp/tools_annotations.go:615-638 | an input: an accepted import of more records without a creation time than fit on a page; the token of the first page leads back to it |
| `AnnotationCursors.SameTagSet` | internal/mcp/tools_annotations.go:671-686 | the counting loop compares multisets |
| `AnnotationCursors.ReconcileQuery` | internal/mcp/tools_annotations.go:643-667 | the first contradicting argument is reported |
| `AnnotationCursors.RefusedExactly` | internal/mcp/tools_annotations.go:643-686 | a request next to a cursor is refused exactly when it disagrees with the query, and the refusal names where |
| `AnnotationCursors.ResendingAccepted` | internal/mcp/tools_annotations.go:643-667 | resending the original arguments is accepted exactly when the filter is blank or trimmed |
| `AnnotationCursors.CursorAloneAccepted` | internal/mcp/tools_annotations.go:640-667 | a cursor alone is always accepted |
| `AnnotationCursors.SameTagsAccepted` | internal/mcp/tools_annotations.go:669-686 | a list of the same tags is accepted exactly when it repeats each as often |
| `AnnotationCursors.RepeatedTagRefused` | internal/mcp/tools_annotations.go:669-686 | a repeated tag is refused |
| `EntryMemory.WriteMemoryEntries` | native-plugin/ExodusMcpPlugin.cpp:869-896 | bytes in the range become the input, all others keep their value, at any alignment, for either byte order |
| `EntryMemory.ReadMemoryEntries` | native-plugin/ExodusMcpPlugin.cpp:822-847 | the bytes of the range, with the cached entry always current |
| `EntryMemory.WriteThenRead` | native-plugin/ExodusMcpPlugin.cpp:822-896 | writing with the catalog byte order and reading any range gives written bytes inside, old bytes outside |
| `EntryMemory.ByteOrders` | native-plugin/ExodusMcpPlugin.cpp:1274-1286 | which byte of an entry comes first in either order |
| `EntryMemory.AnyOrderOfOne` | native-plugin/ExodusMcpPlugin.cpp:1274-1286 | for one-byte entries the order makes no difference |
| `EntryMemory.OtherOrderReadsMirrored` | native-plugin/ExodusMcpPlugin.cpp:836-838 | the reader sees the other byte order mirrored |
| `Checksum.ComputeFileChecksum` | internal/mcp/romid.go:191-228 | any cut into reads gives the sixteen-bit sum of the big-endian words, an odd last byte as a high byte |
| `Checksum.AddChunk` | internal/mcp/romid.go:203-217 | one read keeps the sum of whole words and the odd byte |
| `Checksum.SumOfBytes` | internal/mcp/romid.go:191-228 | the sum is that of the bytes, even places counting 256 times, in sixteen bits |
| `SymbolIndex.ScanIs` | internal/mcp/tools_backtrace.go:116-139 | the closest symbol at or below within the limit, an exact one at distance zero, no name exactly when there is none |
| `SymbolIndex.SymbolBusIndex.constructor` | internal/mcp/symbol_coordinates.go:90-116 | the map holds the first symbol of each address and the list is sorted stably |
| `SymbolIndex.SymbolBusIndex.Resolve` | internal/mcp/tools_backtrace.go:116-139 | map and binary search answer every query as the linear scan at its masked address does |
| `SymbolIndex.SymbolBusIndex.ResolveZ80` | internal/mcp/tools_backtrace.go:431-454 | the same with the mask and the reach of the Z80 |
| `SymbolIndex.SymbolBusIndex.Lookup` | internal/mcp/tools_backtrace.go:118-139 | the search shared by both |
| `SymbolIndex.NearestIsLast` | internal/mcp/tools_backtrace.go:121-138 | the nearest entry is the last in store order at its address |
| `SymbolIndex.SymbolBusIndex.CountUpTo` | internal/mcp/tools_backtrace.go:438-447 | the binary search splits the sorted list |
| `SymbolIndex.RecordedAgrees` | internal/mcp/symbol_coordinates.go:38-56 | recorded and derived bus coordinates make the same entry, on its own bus only |
| `SymbolIndex.EntryExactly` | internal/mcp/symbol_coordinates.go:38-56 | which symbols make an entry on a bus, and where |
| `SymbolIndex.SharedAddress` | internal/mcp/symbol_coordinates.go:86-115 | an exact and a nearby query name the same symbol exactly when the first and last entry at the address carry one name |
| `SymbolIndex.SecondNameFound` | internal/mcp/symbol_coordinates.go:86-115 | in any symbol store: an exact query names the first symbol at an address, a nearby one the last; they agree exactly when the names are equal |
| `ExperimentLoop.CapsHold` | internal/experiment/runner.go:337-527 | no id twice, steps and artifacts within caps, the message cap never hit |
| `ExperimentLoop.RepliesMatch` | internal/experiment/runner.go:376-527 | at every loop head messages, seen ids, steps plus artifacts and replies agree |
| `ExperimentLoop.EndsInTime` | internal/experiment/runner.go:337-527 | a run ends with the line after the last its caps allow |
| `ExperimentLoop.CompletedMeans` | internal/experiment/runner.go:505-512 | a completed run read a complete message with every request answered |
| `ExperimentLoop.CompletedExactly` | internal/experiment/runner.go:376-527 | a run completes exactly by a complete message that decodes, read while it goes on |
| `ExperimentLoop.CallExactly` | internal/experiment/runner.go:412-460 | a call is executed exactly when it is well-formed, new and within the step cap; every other ending has its code |
| `ExperimentLoop.ArtifactExactly` | internal/experiment/runner.go:461-504 | an artifact is published exactly when it is well-formed, new, within its caps and stored; every other ending has its code |
| `ExperimentLoop.EndingExactly` | internal/experiment/runner.go:376-527 | every other event ends the run, with its own code |
| `ExperimentLoop.EndIsFinal` | internal/experiment/runner.go:376-527 | the first ending decides |
| `ExperimentLoop.Session.HandleCall` | internal/experiment/runner.go:412-460 | one call message |
| `ExperimentLoop.Session.HandleArtifact` | internal/experiment/runner.go:461-504 | one artifact message |
| `ExperimentLoop.Session.Loop` | internal/experiment/runner.go:376-527 | the loop computes the run |
| `ExperimentLoop.BoundedBuffer.Write` | internal/experiment/runner.go:749-762 | the first limit bytes of all writes, truncated exactly when more arrived |
| `DebugEvents.HistoryHolds` | internal/mcp/server.go:976-1023 | ids consecutive, no retained stop recorded twice in a row, every observation counted once |
| `DebugEvents.FoldsExactly` | internal/mcp/server.go:987-1001 | an observation folds exactly while the last record of its resource is retained and is that stop |
| `DebugEvents.SeenAgain` | internal/mcp/server.go:987-1001 | a stop seen twice in a row is one record |
| `DebugEvents.ObservedExactly` | internal/mcp/server.go:976-1023 | an observation counts in the record it repeats or makes one that holds what was observed; other records stay |
| `DebugEvents.FilterExactly` | internal/mcp/server.go:1049-1076 | which records a filter leaves out |
| `DebugEvents.PageExactly` | internal/mcp/server.go:1128-1152 | what a page holds and when it is cut off |
| `DebugEvents.EventRing.Push` | internal/mcp/server.go:976-1023 | the ring is the last hundred records of the history; recorded is retained plus dropped |
| `DebugEvents.EventRing.List` | internal/mcp/server.go:1128-1152 | one page of the matching records |
| `DebugEvents.EventRing.Describe` | internal/mcp/server.go:1097-1124 | counts agree with the ring and with what paging the filter yields |
| `DebugEvents.PagesCover` | internal/mcp/server.go:1128-1152 | paging walks through the matching records, each once |
| `RunState.AlwaysConsistent` | internal/mcp/runstate.go:67-152 | a recorded expectation equals the observed state |
| `RunState.McpExactly` | internal/mcp/runstate.go:67-152 | the server takes responsibility exactly when its last action asked for the state and every observation since agreed |
| `RunState.ObservedExactly` | internal/mcp/runstate.go:67-152 | the observed state is the last one set or seen |
| `RunState.EveryTransitionAudited` | internal/mcp/runstate.go:114-167 | every observed change is audited exactly once |
| `RunState.RunStateTracker.Observe` | internal/mcp/runstate.go:114-140 | one passive observation |
| `RunState.AttributionExactly` | internal/mcp/runstate.go:172-185 | the source of a state, over any history: a standing debugger stop, a standing server action, someone else, or never seen |
| `RunState.StopExactly` | internal/mcp/runstate.go:67-152 | a debugger stop stands until a server action or a running observation |
| `RunState.RunStateTracker.Attribute` | internal/mcp/runstate.go:172-185 | the attribution of an observed state |
| `CaptureGuard.ResumeExactly` | internal/mcp/consistency.go:361-445 | a resume is issued exactly for a target observed running and paused by this call, also when the read fails |
| `CaptureGuard.RunStateRestored` | internal/mcp/consistency.go:361-445 | the run state ends as it began except in two named families |
| `CaptureGuard.KnownStateRestored` | internal/mcp/consistency.go:361-445 | nothing changes when the known state is right, and it is right afterwards |
| `CaptureGuard.AllReadsRestore` | internal/mcp/consistency.go:361-445 | over many guarded reads only the first can change the run state, exactly in the two families; the tracker ends right exactly when it did not begin saying paused of a running target |
| `CaptureGuard.CodesExactly` | internal/mcp/consistency.go:478-512 | restored exactly when the resume was issued and verified; each other code names its case |
| `CaptureGuard.OutcomeExactly` | internal/mcp/consistency.go:522-600 | the guard fails exactly when a needed pause was refused or the read failed inside the window |
| `CaptureGuard.FinalExactly` | internal/mcp/consistency.go:361-445 | the final state reported, in every case |
| `CaptureGuard.FinalStateRight` | internal/mcp/consistency.go:434-446 | the final state is right or unknown when failed resumes had no effect |
| `CaptureGuard.TrackerKept` | internal/mcp/consistency.go:231-265 | the tracker stays consistent and attributes the state left to the server |
| `CaptureGuard.CaptureWindow.Begin` | internal/mcp/consistency.go:361-395 | observe, then pause unless known paused |
| `CaptureGuard.CaptureWindow.CloseWindow` | internal/mcp/consistency.go:407-456 | restore only a known state |
| `CaptureGuard.WithCaptureGuard` | internal/mcp/consistency.go:522-597 | the guard closes its window before it looks at the outcome of the read |

## Left out

- Win32, the Exodus SDK, processes, HTTP and JSON libraries: their results are parameters. Ids drawn at random are required to be new.
- Integer widths of counters (32-bit segment indices, 64-bit byte counts and generations) and their wrap-around, except where the property is about them: the frame header, 64-bit times, sixteen-bit sums, entry bits.
- A sealed segment file is an immutable byte sequence and the size recorded at sealing is its size; a size query that fails is not modelled.
- A processor that is unloaded is noticed in the step that unloads it; the open segment of such a session stays unsealed, as in the source. The engine writes only while a session is active. A user who switches the traced processor's own trace windows during a session is not modelled: that the gate of a continuous session stays on assumes nobody does. The monitor thread of an earlier session has ended before a new one starts; the source waits for it up to five seconds.
- `trace_capture` shares the engine's trace file with a session and bypasses the session lock; watches, notes, ticks, frame limits and the temporary directory carry no obligation here.
- Registry operations of the control lock are atomic; the source releases its mutex while it reports a drop. Exclusivity is claimed for the moment a native action starts.
- Writes that bypass the scheduler (frozen memory values are rewritten through the read path) count as observations.
- Audit entries of the step machine carry outcome and generations only; ROM identity, resource ids and result summaries are data without rules. Records that other tools write are one kind of entry without generations.
- BuildRequest: the order of the keys is arbitrary here; the server sorts them.
- WriteAll: a pipe that reports no room takes no bytes and a pipe never reports more than it was given.
- ReadFramedResponse: the size of one read is not bounded by the buffer of the source.
- ComputeFileChecksum: a read that fails ends the computation without a sum and is not modelled, nor are the coverage fields around it.
- Annotations: persistence, staleness rules and text search are not modelled; filter and policy are arbitrary predicates. White space is ASCII. Stable sorting is a function, not the library's algorithm.
- Start arguments: the source raises segment caps below 2 and byte caps below 1 MiB and lowers large ones; here any caps may be given.
- AnnotationCursors: the base64url and JSON layers around the three fields are taken as faithful.
- ExperimentLoop: which of several ready events is taken first is the order of the events; fixtures, values and artifact storage are data.
- DebugEvents: event ids wrap and times are not modelled.
- SymbolIndex: the symbol store and its ROM filter hand over symbols in store order; bus masks are one less than a power of two, so masking is a remainder.
- CaptureGuard: clients are sequential; frame tokens, artifact stamping and the live mode, which touches nothing, are left out.
- JSON string escaping, identifier sanitizing, unsigned parsing, backtrace frame merging, tool schemas, alias tables and status builders would add only easy members.
