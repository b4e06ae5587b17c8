# Verification of the mhl runtime

Dafny models of the parts of the mhl core runtime (`src/mhl-runtime`) whose correctness is hardest to
see by reading, with machine-checked proofs. `dafny verify dfyconfig.toml` checks everything.

| file | what it models |
|---|---|
| `Lease`, `LeaseSafety`, `RunLock` | the per-run execution lease and the checkpoint fence: a state machine over the single store operations of any number of replicas, its history theorems, and the operations as they run |
| `Heartbeat`, `HeartbeatRun`, `FirstTick` | the renew loop as a timed machine (ticker, bounded renews, watchdog), as it runs, and joined with the acquire it follows |
| `Intake`, `IntakeSafety`, `IntakeKV`, `ClaimLoop`, `Reconcile` | durable intake: accept, claim, reconcile, publish and both sweeps over shared status records, and the claim and reconcile loops as they run on that machine |
| `Slots` | the concurrency semaphore shared by launches, queued legs, the claim drain and synchronous calls |
| `A2ATask`, `A2ARun` | one A2A task: the runner against any number of cancels, as a machine and as the goroutines run it |
| `Paths`, `PathMeaning`, `PackFS`, `PackCodec` | the encrypted workflows pack and its in-memory directory index |
| `Interp`, `InterpMeaning`, `InterpSafety`, `InterpRun`, `Plan` | statement execution, error positions, try/finally, the statement bound, and the static goto plan |
| `RunLog`, `RunLogSafety` | the bounded, redacting run log and its polling readers |
| `Scanner`, `Framing` | the signature-help scanner and the Content-Length framing of the language server |

The distributed parts are state machines in which every event is one store operation, clock reading or
lost reply of one call, so other replicas act between any two of them. A store call that fails may have
applied, or may still apply later. Code that works in place is a class or a loop proved against a
function, and the theorems are about that function. JSON is an injective encoding, lease tokens are
unique, there is one clock that never runs backwards, and the cipher is ideal (`PackCodec.Ideal`, which
`IdealExists` shows can be met).

## What the proofs found

Where the code and its comments differ, the model follows the code.

- **Reconcile swaps on bytes it did not judge** (`claim.go:78-106`). The record of the scan decides, the
  bytes read later are swapped on. `IntakeSafety.CompletedReturnsToPending` is a run in which a completed
  run is put back to pending.
- **A put writes the state the run has by then, pending included** (`runs.go:182-201`, `476-501`). run/start
  sets pending after the run is registered, so a cancel published in between is overwritten
  (`CanceledReturnsToPending`); a cancel that set its state before and prepares its put after that carries
  pending itself, and can land on the terminal record another replica has written since
  (`FailedReturnsToPending`); and a poll can copy pending from the store into a run that is resumed here
  and still marked remote, for its next step to publish (`CompletedReturnsByPublish`). `TerminalReturnsIff`
  says that a terminal record turns pending exactly by such a put or by the swap above.
- **The sweep of a replica's own runs reads no store** (`runs.go:1076-1090`): a completed run whose last
  publish failed (`runs.go:201`) can be reclaimed by another replica, and a session TTL later the first one
  removes the live record, the lease and the checkpoint (`LostByOwnSweep`). `NeverLostIff` says that an
  accepted run is lost exactly by such a sweep of a run no terminal status was written for.
- **A sweep judges its scan too** (`runs.go:1099-1115`): `LiveRecordRemoved` removes the record of a run
  that is working again. `LiveRemovedIff` covers both sweeps.
- **`queued` is outside reconcile's switch** (`claim.go:84-88`): `RecoverableIff` shows that a live run
  whose holder stopped can be taken up again exactly when it is not queued.
- **The confirm margin does not reach the first renew** (`runlock.go:194-198`): TTL/4 is less than TTL/3.
  The lease is alive at the first tick exactly when the acquire round trip took less than the TTL minus a
  heartbeat (`FirstTick.FirstTickIff`), and for every TTL acquire accepts longer ones
  (`MarginEndsBeforeFirstTick`).
- **The default renew budget breaks the coarse timing bound** (`runlock.go:65-69`): 8 s is more than half
  of 15 s. The bound holds from the phase of the ticks; from acquire on it holds exactly when the acquire
  round trip took at most 7 s (`Heartbeat.DefaultsKeepDeadline`).
- **The stopwatch of `confirmFresh` starts after the record was stamped** (`runlock.go:126-128`): a stall
  between the two goes unseen, and acquire can report success on a lease that has expired
  (`LeaseSafety.SuccessOnExpiredLease`). The comment says Expires was computed from `start`.
- **Dropping entries from the end of a workflows pack is not detected** (`pack.go:11-15`): the count in the
  header is not authenticated. `PackCodec.SelectionOpens` shows that a selection of a sealed pack's entries
  opens exactly when it is the entries 0, 1, 2, ... up to some point. Entries of two packs sealed under one
  key can be mixed position by position (`OpensExactly`).
- **A route declared twice makes the static plan unsound** (`inspect.go:196-201`, `match.go:100-112`):
  inspection keeps the last route of a name, execution takes the first
  (`Plan.DuplicateRouteEscapes`). Unique names are enough (`UniqueNamesAgree`).
- **A goto inside a closure or tool method is not in the plan** (`tool.go:146-157`, `inspect.go:216-251`):
  such a block's goto leaves the call as a control signal and the step jumps, but inspection does not enter
  expressions (`Plan.CalledGotoEscapes`). Every goto of a step is planned or came out of an evaluation it
  made (`PlanSound`).
- **Writing after a poll of the sealed log** can show a secret in two parts (`runlog.go:57-67`,
  `RunLogSafety.LateWriteShows`). A write of any content is harmless exactly when the output shown does not
  break off inside what may become a secret (`HarmlessIff`); while no write completes a secret over an
  earlier cut, every text a reader got is a piece of the redaction of the whole output, also after drops.
- **An A2A run that fails with an empty error text is reported completed, without a result**
  (`server.go:342-354`): finish decides by the text (`A2ARun.EndedAs`).
- **The secret search never goes on past an occurrence** (`resolver.go:217-257`): its window is so tight
  that the cut falls inside every occurrence found there, so the loop's advance is dead code.

## Model

| member | source | states |
|---|---|---|
| Lease.ApplyKeeps | src/mhl-runtime/internal/mcpserver/runlock.go:112-270 | every step of every lease or checkpoint call, answered, failed or landing late, keeps the invariant and only moves the store forward: a token that left the lock key never returns, a record leaves it only when lapsed or released by its own acquisition |
| LeaseSafety.RunKeeps | src/mhl-runtime/internal/mcpserver/runlock.go:116-270 | the same over any interleaving of any number of calls |
| LeaseSafety.TakeoverOnlyLapsed | src/mhl-runtime/internal/mcpserver/runlock.go:146-192 | an acquisition lands only over an absent, unparseable, tombstoned or expired record |
| LeaseSafety.VerdictMeansOwner | src/mhl-runtime/internal/mcpserver/runlock.go:250-270 | ownsLease decides on a copy read earlier; its yes still means the handle owns the lease at the moment of the verdict, unless the handle has released it itself |
| LeaseSafety.Exclusion | src/mhl-runtime/internal/mcpserver/runlock.go:250-270 | at no moment do two unreleased handles both pass ownsLease |
| LeaseSafety.SuccessMeansOwner | src/mhl-runtime/internal/runlock.go:126-198 | when the freshness check of acquire reads the stopwatch, acquire succeeds if and only if less than TTL - TTL/4 has passed, and otherwise turns to releasing what it wrote; on success it owns the lease if and only if the record it stamped is unexpired, and a gap of at most TTL/4 between the stamp and the start of the stopwatch is enough for that |
| LeaseSafety.SuccessOnExpiredLease | src/mhl-runtime/internal/mcpserver/runlock.go:126-144 | witness: without that gap bound acquire can succeed on an expired lease |
| LeaseSafety.SupersededNeverOwns | src/mhl-runtime/internal/mcpserver/runlock.go:200-270 | once the lock key stops naming an acquisition it never does again, and no check begun later says yes for it |
| LeaseSafety.SupersededLeavesAlone | src/mhl-runtime/internal/mcpserver/runlock.go:221-248 | a late renew or release of a superseded acquisition changes nothing, however late it lands |
| LeaseSafety.FencedInOrder | src/mhl-runtime/internal/mcpserver/extstore.go:287-372 | with a fence-capable store the checkpoint writes that land are ordered by acquisition |
| LeaseSafety.FencedAfterSuccession | src/mhl-runtime/internal/mcpserver/extstore.go:313-372 | once a later acquisition has landed no save or clear of an earlier one takes effect |
| LeaseSafety.PlainSaveWasOwner | src/mhl-runtime/internal/mcpserver/runs.go:663-689 | without atomic fencing a checkpoint write follows a moment at which its acquisition owned the lease or had just released it |
| LeaseSafety.UnfencedOvertaken | src/mhl-runtime/internal/mcpserver/extstore.go:302-304 | witness: and no more than that, since an overtaken acquisition can overwrite its successor's checkpoint |
| RunLock.Shared.Others | src/mhl-runtime/internal/mcpserver/extstore.go:42-54 | between two store calls any other calls take any steps of the lease machine and any time passes; the caller's program point stays |
| RunLock.Shared.Send | src/mhl-runtime/internal/mcpserver/extstore.go:14-54 | a conditional write is answered yes exactly if the store accepted it at the moment it arrived, and then landed, and changed nothing otherwise; after an error it may still land |
| RunLock.StaysReachable | src/mhl-runtime/internal/mcpserver/runlock.go:116-270 | each of these methods takes exactly steps of the lease machine, so what holds in its reachable states holds after any of them |
| RunLock.Lock.Acquire | src/mhl-runtime/internal/runlock.go:123-198 | a win means exactly that the stamped record landed, over an absent or lapsed one, and that the stopwatch then read less than TTL - TTL/4; the handle owns the lease if and only if that record is unexpired. When the record landed and the stopwatch read more, acquire fails, and unless a store call failed too it has released the record it wrote; without a landed record it fails only when a store call did. A refusal changes nothing and names the holder of a record that was read and is still fresh, or this replica when the key changed between its read and its write |
| RunLock.Lock.Renew | src/mhl-runtime/internal/mcpserver/runlock.go:204-222 | it answers an error exactly when a store call of its failed; otherwise yes exactly if the read named this acquisition and the key had not changed by the swap; then the key holds the same acquisition with an expiry one TTL after a time in between and nothing else changed, and on a no nothing changed |
| RunLock.Lock.Release | src/mhl-runtime/internal/mcpserver/runlock.go:229-248 | unless a store call failed it turns its own record into a tombstone that expired a second before, if the key still held what it read, and otherwise changes nothing |
| RunLock.Lock.OwnsLease | src/mhl-runtime/internal/mcpserver/runlock.go:254-270 | yes exactly if the record read was this acquisition and is fresh at the verdict, which means ownership at that moment, or a release by the handle itself |
| RunLock.Lock.Save | src/mhl-runtime/internal/mcpserver/extstore.go:333-372 | a checkpoint save or clear is written exactly if the record it rests on is this acquisition's and fresh: with a fence at the moment of the write itself, without one at an earlier check, when the handle owned the lease or had released it |
| Heartbeat.LockTiming.SetRunLockTiming | src/mhl-runtime/internal/mcpserver/runlock.go:74-82 | every TTL, after the 10 s floor, yields a heartbeat and budget that satisfy both timing conditions |
| Heartbeat.DeadlineAnyTicks | src/mhl-runtime/internal/mcpserver/runs.go:260-321 | whatever the ticks do the loop renews or cancels within one TTL of the last stamp, also when the watchdog falls due during a renew, and back to acquire when its trip leaves a budget within the heartbeat |
| Heartbeat.DeadlineTripIff | src/mhl-runtime/internal/mcpserver/runs.go:246-321 | for the stretch from acquire that bound on the trip is exact, for every timing that meets the coarse condition |
| Heartbeat.DeadlineAnyTicksIff | src/mhl-runtime/internal/mcpserver/runs.go:246-321 | without the phase of the ticks that holds if and only if two budgets fit in a heartbeat |
| Heartbeat.DefaultsNeedThePhase | src/mhl-runtime/internal/mcpserver/runlock.go:59-70 | the default values fail the coarse condition and satisfy the one from the phase |
| Heartbeat.DeadlineOnPhase | src/mhl-runtime/internal/mcpserver/runs.go:271-285 | on a ticker that keeps its phase the loop ends at most a budget past the safe window of the tick it last renewed on |
| Heartbeat.DefaultsKeepDeadline | src/mhl-runtime/internal/mcpserver/runlock.go:59-70 | with the defaults every renew is in time, and the stretch from acquire if and only if its trip took at most 7 s |
| FirstTick.OwnsWhileFresh | src/mhl-runtime/internal/mcpserver/runlock.go:126-144 | from a successful acquire on, and whatever other calls do, the handle owns the lease exactly while the record it stamped is fresh, until it renews or releases |
| FirstTick.NoRenewBeforeTick | src/mhl-runtime/internal/mcpserver/runs.go:260-299 | the loop renews nothing before its first tick falls due |
| FirstTick.FirstTickIff | src/mhl-runtime/internal/mcpserver/runlock.go:194-198 | when the first tick of the loop that follows an acquire falls due, the handle still owns the lease if and only if the time from its stamp to the loop was shorter than the TTL minus a heartbeat |
| FirstTick.MarginEndsBeforeFirstTick | src/mhl-runtime/internal/mcpserver/runlock.go:194-198 | for every TTL some acquire that passes its margin check has lost its lease by then, with nobody else around |
| Heartbeat.NoTimelock | src/mhl-runtime/internal/mcpserver/runs.go:260-321 | the loop is never stuck: while the run goes on some event is always possible |
| HeartbeatRun.HeartbeatLock | src/mhl-runtime/internal/mcpserver/runs.go:260-321 | the select loop, with its own lastRenew and watchdog and however its selects are decided, is over or still running no later than one TTL after the stamp of its last renew; it renews once for every tick it takes, stops only when told to, and cancels only for a lost lease or a TTL less a heartbeat without a renew, a lost lease always |
| Heartbeat.ReplyDecides | src/mhl-runtime/internal/mcpserver/runs.go:286-321 | a renew that finds the lease taken ends the loop; one that succeeds moves the last renew to now and the watchdog to a TTL less a heartbeat from now; one the store failed ends the loop exactly when that long has passed since the last success, and otherwise changes nothing |
| Intake.ApplyKeeps | src/mhl-runtime/internal/mcpserver/claim.go:74-112 | every step of registering, accepting, publishing a run in any state, claiming, reconciling and the two sweeps keeps the accounting of status records and their log; both only grow |
| IntakeSafety.LostIff | src/mhl-runtime/internal/mcpserver/runs.go:1076-1090 | an accepted run without a terminal status loses its record in one way only: a replica sweeps its own completed run by its own view |
| IntakeSafety.NeverLostIff | src/mhl-runtime/internal/mcpserver/runs.go:483-501 | along a whole run no accepted run is ever without a record and an end if and only if every such sweep comes after a terminal status was written |
| IntakeSafety.NotLost | src/mhl-runtime/internal/mcpserver/runs.go:483-501 | then an accepted run keeps a status record until a terminal status was written for it |
| IntakeSafety.LostByOwnSweep | src/mhl-runtime/internal/mcpserver/runs.go:1080-1090 | witness: otherwise the record, lease and checkpoint of a run that works on another replica are removed, with no terminal status ever written |
| IntakeSafety.LiveRecordStays | src/mhl-runtime/internal/mcpserver/runs.go:1073-1116 | when each removal of either sweep finds the record it judged no live record is ever removed |
| IntakeSafety.LiveRemovedIff | src/mhl-runtime/internal/mcpserver/runs.go:1073-1116 | a live record is removed if and only if one of the two sweeps is at its removal of that run: the shared one, which scanned a terminal record of it, or the local one, which saw only its own completed run |
| IntakeSafety.LiveRecordRemoved | src/mhl-runtime/internal/mcpserver/runs.go:1096-1115 | witness: without that the record of a working run can be removed |
| IntakeSafety.RemovalFollowsProbe | src/mhl-runtime/internal/mcpserver/runs.go:1096-1115 | a removal by the shared sweep follows its own probe of that run, made when the scanned record was terminal and older than the terminal TTL |
| IntakeSafety.DropFollowsLook | src/mhl-runtime/internal/mcpserver/runs.go:1073-1090 | a removal by the sweep of a replica's own runs follows a moment at which it saw that run completed, its own and idle for a session TTL |
| IntakeSafety.SweepRemoves | src/mhl-runtime/internal/mcpserver/runs.go:1096-1115 | and a terminal record that old, without a checkpoint, can always be swept, with its lease and nothing else |
| IntakeSafety.ClaimsSeparated | src/mhl-runtime/internal/mcpserver/claim.go:314-327 | between two claims of a run lies the write of the very pending record the second took: one winner for each pending version |
| IntakeSafety.ClaimsBounded | src/mhl-runtime/internal/mcpserver/claim.go:282-328 | a run's claims never outnumber the times pending was written for it |
| IntakeSafety.SwapBackFollowsPeek | src/mhl-runtime/internal/mcpserver/claim.go:92-106 | every landing swap back to pending follows a peek that found no live lease and lands on the bytes read after it |
| IntakeSafety.TerminalReturnsIff | src/mhl-runtime/internal/mcpserver/claim.go:98-106 | a terminal record turns pending if and only if a reconcile swaps on those terminal bytes, which then differ from what its scan judged, or run/start or a publish puts a run that was pending when the put was prepared |
| IntakeSafety.FaithfulReconcileKeepsEnds | src/mhl-runtime/internal/mcpserver/claim.go:83-111 | when the bytes swapped on are the record judged, and pending is put only where no record is, no terminal run returns to pending |
| IntakeSafety.CompletedReturnsToPending | src/mhl-runtime/internal/mcpserver/claim.go:78-106 | witness: otherwise a completed run can |
| IntakeSafety.CanceledReturnsToPending | src/mhl-runtime/internal/mcpserver/runs.go:476-501 | witness: and so can a run canceled while run/start writes its intake |
| IntakeSafety.FailedReturnsToPending | src/mhl-runtime/internal/mcpserver/runs.go:870-880 | witness: a cancel whose put carries pending lands on a run another replica has failed, though no reconcile ran and run/start found no record |
| IntakeSafety.CompletedReturnsByPublish | src/mhl-runtime/internal/mcpserver/runs.go:326-357 | witness: a poll copies pending into a resumed run, and its next publish lands on the completion another replica has written |
| IntakeSafety.RecoverableIff | src/mhl-runtime/internal/mcpserver/claim.go:67-112 | a live run whose holder has stopped can be reconciled and claimed again, once the clock advances, if and only if it is not queued |
| IntakeKV.Shared.Others | src/mhl-runtime/internal/mcpserver/claim.go:282-328 | between two store calls any other calls take any steps of the intake machine; this replica's calls stay where they are |
| IntakeKV.StaysReachable | src/mhl-runtime/internal/mcpserver/claim.go:74-328 | the claim and reconcile loops take exactly steps of the intake machine, so its run theorems hold of them |
| ClaimLoop.ClaimNextCAS | src/mhl-runtime/internal/mcpserver/claim.go:282-328 | the winner is the oldest pending record of the snapshot apart from those whose swap this call lost; its record is in the store as claimed by this replica at a time read during the call, everything else in it as it was, and no run that was pending all along and could be read is older; with no failed listing every run pending all along is in the snapshot unless its read failed, nothing is claimed only when there is none, and an error means that the listing or the swap of the last candidate failed |
| Reconcile.ReconcileRuns | src/mhl-runtime/internal/mcpserver/claim.go:74-112 | the loop takes reconcile's steps of the machine and no others, all judged by one cut-off read during the pass, and leaves no call open; every run it counts as moved had a claimed, working or paused record that was silent since before the cut-off, and a pending one with everything else kept was written over a record of it; and, unless the listing failed, every run that has such a record and no unexpired lease, which nobody else writes during the pass and none of whose store calls fails, is moved |
| Reconcile.SwapOne | src/mhl-runtime/internal/mcpserver/claim.go:102-110 | a swap that took effect wrote the scanned record as pending over exactly the bytes read, with a time already past; one that was refused, and did not fail, found other bytes; no other record is touched |
| Slots.RunKeeps | src/mhl-runtime/internal/mcpserver/runs.go:85-177 | every step of launches, waiting legs, the drain and synchronous calls keeps the slot and done-channel bookkeeping |
| Slots.TokensAreObligations | src/mhl-runtime/internal/mcpserver/runs.go:85-126 | the tokens in the semaphore are the releases still owed and never exceed the cap |
| Slots.ReleaseNeverBlocks | src/mhl-runtime/internal/mcpserver/runs.go:136-177 | whoever owes a release finds a token to take out |
| Slots.ReleasedExactlyOnce | src/mhl-runtime/internal/mcpserver/claim.go:117-217 | each slot is given back at most once and, once all is at rest, exactly once, on every exit path |
| Slots.SlotFreeIff | src/mhl-runtime/internal/mcpserver/runs.go:85-126 | a waiting leg, the drain or a synchronous call can take a slot if and only if fewer than the cap are held, or there is no cap |
| Slots.LaunchRunsIff | src/mhl-runtime/internal/mcpserver/runs.go:128-149 | a launch runs its leg, working and holding a slot, if and only if a slot is free; otherwise the run is queued and waits |
| Slots.RecheckRunsIff | src/mhl-runtime/internal/mcpserver/runs.go:165-177 | a leg that got its slot runs if and only if its run is still queued, and otherwise gives the slot back and changes no run |
| Slots.DoneClosedOnce | src/mhl-runtime/internal/mcpserver/runs.go:151-177 | a leg's done channel is open while the leg is live and closed exactly once by its end |
| A2ATask.Task.SetStateLocked | src/mhl-runtime/internal/a2aserver/server.go:330-340 | setState changes state and message unless the task is canceled and reports whether it is terminal |
| A2ATask.Task.FinishLocked | src/mhl-runtime/internal/a2aserver/server.go:342-354 | finish records the result as completed or failed unless the task is canceled |
| A2ARun.Server.Take | src/mhl-runtime/internal/a2aserver/server.go:300-406 | every step of the machine is carried out on the task by its own locked methods |
| A2ARun.Server.RunTask | src/mhl-runtime/internal/a2aserver/server.go:300-354 | whatever cancels do meanwhile, in the end done is closed once and the task is as the run's outcome, the runner's reading of its context and the state it then met say; with no cancel asked for it is completed with the result of a run that ended well, failed with the run's own error text, or with the text of a run directory that could not be made; an error with an empty text counts as completed without a result |
| A2ARun.Server.Cancel | src/mhl-runtime/internal/a2aserver/server.go:376-406 | a cancel is refused if and only if the task was terminal when it looked, and otherwise answered with done closed and the task in the terminal state it had when the cancel wrote, or canceled |
| A2ATask.TerminalStays | src/mhl-runtime/internal/a2aserver/server.go:300-406 | in every interleaving a terminal state, and its result, is never left |
| A2ATask.CanceledMeansAsked | src/mhl-runtime/internal/a2aserver/server.go:312-406 | in every interleaving a task is canceled, or its context done, only if a cancel was asked for |
| A2ATask.DoneClosedOnce | src/mhl-runtime/internal/a2aserver/server.go:153-153 | done is closed at most once, only in a terminal state, and by the time the runner is gone or an accepted cancel was answered |
| A2ATask.CanceledReportsNothing | src/mhl-runtime/internal/a2aserver/server.go:330-406 | a task canceled before it finished stays canceled and never reports a result |
| A2ATask.ResultMeansCompleted | src/mhl-runtime/internal/a2aserver/server.go:342-354 | a result is only held by a completed task without an error |
| Paths.DirValid | src/mhl-runtime/internal/pack/pack.go:175-190 | the parent of a valid path is the root or a valid path, its UTF-8 included |
| Paths.SamePath | src/mhl-runtime/internal/pack/fs.go:36-48 | a clean path is determined by its parent and its name |
| PathMeaning.ValidIff | src/mhl-runtime/internal/pack/pack.go:175-190 | a path is valid if and only if it is UTF-8 text without backslash or NUL and joins one or more elements, none of them empty, `.` or `..` |
| PathMeaning.Utf8Iff | src/mhl-runtime/internal/pack/pack.go:178-181 | bytes pass the UTF-8 test if and only if they encode some sequence of Unicode scalar values, so no overlong form, surrogate or cut sequence does |
| PathMeaning.AncestorIff | src/mhl-runtime/internal/pack/fs.go:36-48 | the ancestors of a clean path are the root and what stands before each of its slashes |
| PackFS.Climb | src/mhl-runtime/internal/pack/fs.go:36-49 | the climb from one file that stops at the first known directory keeps every known directory linked to a known parent, or meets an ancestor that is a file |
| PackFS.NewFS | src/mhl-runtime/internal/pack/fs.go:25-54 | fails exactly when a path is invalid, repeated or an ancestor of another; otherwise, in any map order, the directories are the root and all proper ancestors, each listing exactly its immediate children once in increasing name order; the error names the first unacceptable file, or a file above another |
| PackFS.OpenDir.ReadDir | src/mhl-runtime/internal/pack/fs.go:142-154 | one page and the new offset, or the end, and the same listing as before |
| PackFS.PageIs | src/mhl-runtime/internal/pack/fs.go:142-154 | a page is the next n entries, or all that are left when n is not positive or fewer are left; the end is only announced for a positive n with nothing left |
| PackFS.PagesJoin | src/mhl-runtime/internal/pack/fs.go:142-154 | pages of any sizes join up to a contiguous part of the listing, nothing missing and nothing twice |
| PackFS.EndAfterAll | src/mhl-runtime/internal/pack/fs.go:142-154 | the end is announced if and only if everything was delivered |
| PackCodec.IdealExists | src/mhl-runtime/internal/pack/pack.go:57-162 | the laws assumed of the cipher can be met |
| PackCodec.Open | src/mhl-runtime/internal/pack/pack.go:57-120 | the position-by-position reader computes the recursive definition of opening, error cases included |
| PackCodec.Seal | src/mhl-runtime/internal/pack/pack.go:125-162 | succeeds exactly on sealable files within the limits and then writes the encoding of each file at its own position; a refusal names the first file that cannot be sealed and the test it fails |
| PackCodec.Layout | src/mhl-runtime/internal/pack/pack.go:6-30 | an encoded pack is its magic, version 2, three bytes, the count in little-endian order, and the entries |
| PackCodec.EntryLayout | src/mhl-runtime/internal/pack/pack.go:137-158 | an encoded entry is its nonce, the length of what was sealed, and path length, path and content sealed with the little-endian position as additional data |
| PackCodec.SealableIff | src/mhl-runtime/internal/pack/pack.go:130-149 | a file can be sealed if and only if its path is valid and at most 65535 bytes, and its sealed entry at most 16 MiB |
| PackCodec.EntryReads | src/mhl-runtime/internal/pack/pack.go:77-115 | a sealed entry is read back at the position it was sealed for and fails authentication at every other |
| PackCodec.OpensExactly | src/mhl-runtime/internal/pack/pack.go:57-120 | entries sealed under one key, from anywhere and in any order, open if and only if each stands at its own position and no path repeats |
| PackCodec.SealThenOpen | src/mhl-runtime/internal/pack/pack.go:122-162 | Open returns what Seal was given, in order, if and only if the paths are distinct |
| PackCodec.OpenedIsEncoding | src/mhl-runtime/internal/pack/pack.go:57-120 | whatever opens is, apart from the header bytes 5 to 7, the encoding of what it opened to: nothing reordered, spliced or trailing |
| PackCodec.SelectionOpens | src/mhl-runtime/internal/pack/pack.go:6-15 | a selection of a pack's entries opens if and only if it is a prefix of them |
| InterpRun.StepRun.Block | src/mhl-runtime/internal/engine/interpreter/exec.go:301-311 | the statement loop computes the block semantics |
| InterpRun.StepRun.Statement | src/mhl-runtime/internal/engine/interpreter/exec.go:346-359 | an error is positioned unless it is a control signal or positioned already |
| InterpRun.StepRun.Loop | src/mhl-runtime/internal/engine/interpreter/exec.go:618-638 | the while loop computes its semantics, the iteration cap included |
| InterpRun.StepRun.Each | src/mhl-runtime/internal/engine/interpreter/exec.go:640-664 | so does the for-in loop, whose length is settled at its start while each element is read when its turn comes |
| InterpRun.StepRun.Guarded | src/mhl-runtime/internal/engine/interpreter/exec.go:676-690 | so does try, with its catch binding and finally |
| InterpRun.StepRun.CallRoute | src/mhl-runtime/internal/engine/interpreter/match.go:71-98 | a called route binds its argument in a copy of the environment and leaves the step's own as it was |
| InterpMeaning.ForInRuns | src/mhl-runtime/internal/engine/interpreter/exec.go:645-664 | a for-in fails on what is no array and on more than 10000 items; otherwise turn k runs the body in the world the turn before left, with the name bound to item k, and unless a body raises something there are exactly as many turns as items |
| InterpMeaning.WhileRuns | src/mhl-runtime/internal/engine/interpreter/exec.go:618-638 | a while runs its body after each condition that came out true, in the world that left, and ends with the first false one, with what a body or a condition raised, or with the failure after 10000 turns |
| InterpMeaning.IfRuns | src/mhl-runtime/internal/engine/interpreter/exec.go:603-616 | an if runs the first block when its condition is true and the second when it is false |
| InterpMeaning.Unwinds | src/mhl-runtime/internal/engine/interpreter/exec.go:387-406 | a return or break leaves as its own signal carrying the value, without a position |
| InterpMeaning.Declares | src/mhl-runtime/internal/engine/interpreter/exec.go:361-386 | a declaration binds its name to the value and nothing else; a const makes the name constant, a var of a constant name fails before its value is evaluated |
| InterpMeaning.CatchSees | src/mhl-runtime/internal/engine/interpreter/exec.go:334-344 | the handler of a try runs in the world the body left with the error's name bound to its message, without the position |
| InterpMeaning.FirstArmDecides | src/mhl-runtime/internal/engine/interpreter/match.go:46-69 | the patterns before the one that gives the subject are evaluated in order, and its arm decides: a goto to its target, or a failure with its reason |
| InterpMeaning.RouteTakesArgument | src/mhl-runtime/internal/engine/interpreter/match.go:71-98 | a called route tries its arms on the value of its one argument, bound to its parameter in a copy of the environment |
| InterpSafety.BlockBlames | src/mhl-runtime/internal/engine/interpreter/exec.go:313-359 | a block's error is that of the innermost statement that failed by itself during the run, under that statement's position |
| InterpSafety.PositionedOnce | src/mhl-runtime/internal/engine/interpreter/exec.go:313-359 | a block ends in success, a control signal, or an error positioned exactly once, for every nesting |
| InterpSafety.ControlSkipsCatch | src/mhl-runtime/internal/engine/interpreter/exec.go:672-682 | a control signal never enters catch: any other handler gives the same run |
| InterpSafety.FinallyDecides | src/mhl-runtime/internal/engine/interpreter/exec.go:666-690 | finally runs after every way out, on the world it left, and its own outcome overrides when it is not success |
| InterpSafety.BlockBound | src/mhl-runtime/internal/engine/interpreter/exec.go:295-299 | every block terminates after at most its size times 10000 to the power of its loop depth statements |
| Plan.Collector.Walk | src/mhl-runtime/internal/execsvc/inspect.go:216-251 | the appending walk collects the recursive list of goto targets, in source order |
| Plan.CollectedIff | src/mhl-runtime/internal/execsvc/inspect.go:216-251 | a name is collected if and only if some goto, match arm or arm of an inspected route that is called, at any depth of the block, names it and does not fail |
| Plan.BlockPlanned | src/mhl-runtime/internal/execsvc/inspect.go:216-251 | any goto that a block raises is among the targets collected for it or came out of an evaluation made while it ran |
| Plan.CallSoundIff | src/mhl-runtime/internal/engine/interpreter/match.go:71-98 | a called goto itself raises only collected targets, for every evaluator, if and only if the reachable arms of the route it finds were collected for it |
| Plan.PlanSound | src/mhl-runtime/internal/execsvc/inspect.go:188-214 | any goto a plain step raises, through any nesting and any route, is an edge listed for that step or came out of an evaluation the step made, if the routes it calls agree with those inspected |
| Plan.CallRaises | src/mhl-runtime/internal/engine/interpreter/tool.go:139-157 | a closure or tool method takes up only a return: a goto of its block leaves the call as that goto; the caller's variables, and its constants unless a closure shares them, are as before |
| Plan.CallReturns | src/mhl-runtime/internal/engine/interpreter/tool.go:139-157 | such a call gives the value its block returned, null when the block just ended, and otherwise fails with the block's own error |
| Plan.CalledGotoEscapes | src/mhl-runtime/internal/engine/interpreter/tool.go:139-157 | a step that calls a function jumps exactly where the block of that function does, and inspection lists no edge for it |
| Plan.StepFound | src/mhl-runtime/internal/engine/interpreter/exec.go:76-106 | the step that runs is the first of that name, a branch of a parallel block included, in any declaration of the pipeline, and none is found only if there is none |
| Plan.StepEnds | src/mhl-runtime/internal/engine/interpreter/exec.go:43-74 | a step ends well when its block does or returns, and otherwise with what the block raised |
| Plan.FirstRouteFound | src/mhl-runtime/internal/engine/interpreter/match.go:100-112 | a called route is the first of its name in any declaration of the pipeline |
| Plan.UniqueNamesAgree | src/mhl-runtime/internal/engine/interpreter/match.go:100-112 | they agree when the pipeline is declared once and names each route once |
| Plan.DuplicateRouteEscapes | src/mhl-runtime/internal/execsvc/inspect.go:196-201 | witness: with a route declared twice a goto that runs is not in the plan |
| RunLog.AdjustCut | src/mhl-runtime/internal/features/auth/resolver.go:217-257 | the repeated pull-back finds the largest clear index, or forward the smallest |
| RunLog.FindSafeCut | src/mhl-runtime/internal/features/auth/resolver.go:193-201 | SafeCut is the largest index up to the cut that divides no secret |
| RunLog.FindSafeCutForward | src/mhl-runtime/internal/features/auth/resolver.go:207-215 | SafeCutForward is the smallest such index from the cut on |
| RunLog.RedactSplits | src/mhl-runtime/internal/features/auth/resolver.go:159-171 | cut where no secret is divided, the parts are redacted apart |
| RunLog.RedactPlain | src/mhl-runtime/internal/features/auth/resolver.go:159-171 | text in which no registered secret occurs is left as it is, an empty secret counting for nothing |
| RunLog.RedactMasks | src/mhl-runtime/internal/features/auth/resolver.go:159-171 | otherwise the text before the first occurrence of any registered secret is kept, the secret that occurs there and was registered first is replaced by [REDACTED], and the rest is redacted likewise |
| RunLog.RingLog.Write | src/mhl-runtime/internal/mcpserver/runlog.go:33-47 | the buffer stays the end of everything written and at most 64 KiB, dropping up to a clear cut |
| RunLog.RingLog.Read | src/mhl-runtime/internal/mcpserver/runlog.go:69-115 | a read computes text, next cursor and dropped flag as defined |
| RunLogSafety.ReadIsRedaction | src/mhl-runtime/internal/mcpserver/runlog.go:74-114 | from a clear cursor the text is exactly the redaction of the bytes up to the next cursor |
| RunLogSafety.ReadMasks | src/mhl-runtime/internal/mcpserver/runlog.go:69-115 | so a text handed out shows no more than the bytes before the first occurrence of any registered secret, then [REDACTED], and so on after it |
| RunLogSafety.ReadReaches | src/mhl-runtime/internal/mcpserver/runlog.go:57-67 | a read of a sealed log, or without secrets, reaches its end; otherwise the last clear cut that leaves room for every secret |
| RunLogSafety.DropsLeast | src/mhl-runtime/internal/mcpserver/runlog.go:33-47 | a write drops nothing below 64 KiB, and above it no more than up to the first clear cut that brings the rest within |
| RunLogSafety.StaysClear | src/mhl-runtime/internal/mcpserver/runlog.go:19-23 | a cursor a whole secret before the end stays clear whatever is written next |
| RunLogSafety.CursorsKeep | src/mhl-runtime/internal/mcpserver/runlog.go:10-115 | over any run, with any change of the registry, chained reads never go back or repeat a byte, the buffer is bounded, and a gap after a positive cursor is always reported |
| RunLogSafety.HarmlessIff | src/mhl-runtime/internal/mcpserver/runlog.go:57-67 | a cut of the output stays clear of secrets whatever is written next if and only if the output does not break off inside what may become a secret across it |
| RunLogSafety.StreamIsRedaction | src/mhl-runtime/internal/mcpserver/runlog.go:15-23 | while no write completes a secret over an earlier cut, each text a polling reader received stands in the redaction of the whole output in its place, whatever was dropped, and with nothing missed the joined texts are one redaction of what they cover |
| RunLogSafety.OrdinaryIsSteady | src/mhl-runtime/internal/mcpserver/runlog.go:33-67 | no write does, if the registry is fixed, drops leave a secret's length and nothing is written after a poll of the sealed log |
| RunLogSafety.CalmStream | src/mhl-runtime/internal/mcpserver/runlog.go:15-23 | and while nothing is dropped that last condition alone makes the stream the redacted output |
| RunLogSafety.LateWriteShows | src/mhl-runtime/internal/mcpserver/runlog.go:57-67 | witness: not so when a write after a reopen completes a secret whose beginning a poll of the sealed log showed |
| Scanner.EnclosingCall | src/mhl-runtime/internal/lsp/signaturehelp.go:108-171 | the one-pass scan answers as the two-pass specification: mask strings, triple strings and comments, then the innermost unmatched parenthesis, its own commas and the start of its current argument |
| Scanner.EnclosesUnique | src/mhl-runtime/internal/lsp/signaturehelp.go:98-107 | that specification has one answer |
| Scanner.MaskCode | src/mhl-runtime/internal/lsp/signaturehelp.go:108-163 | masking keeps code up to the first opening of a comment or string |
| Scanner.MaskOpens | src/mhl-runtime/internal/lsp/signaturehelp.go:118-142 | there it blanks the two, three or one characters that open it |
| Scanner.MaskComment | src/mhl-runtime/internal/lsp/signaturehelp.go:118-124 | a comment is blanked through its line end |
| Scanner.MaskString | src/mhl-runtime/internal/lsp/signaturehelp.go:125-142 | a string through its first quote that no backslash escapes |
| Scanner.MaskTriple | src/mhl-runtime/internal/lsp/signaturehelp.go:125-142 | a triple string through the first three quotes in a row |
| Scanner.StepKeeps | src/mhl-runtime/internal/lsp/signaturehelp.go:143-163 | the stack always holds exactly the parentheses still open, with their own commas |
| Framing.Reader.Next | src/mhl-runtime/internal/lsp/rpc.go:61-97 | next consumes what the header and body definition says, with each way to fail, a body that does not decode included |
| Framing.Writer.Send | src/mhl-runtime/internal/lsp/rpc.go:109-118 | send appends one frame |
| Framing.HeaderReads | src/mhl-runtime/internal/lsp/rpc.go:67-86 | a header line whose name is Content-Length in any letter case, with white space around name and value, gives the number its digits spell, negated after a minus; digits beyond 63 bits and anything that is not digits after at most one sign are malformed |
| Framing.OthersPassed | src/mhl-runtime/internal/lsp/rpc.go:67-86 | a line without a colon, or with another name before the first one, is passed over |
| Framing.ReadOne | src/mhl-runtime/internal/lsp/rpc.go:61-97 | a frame is read back whole whatever other header lines surround its length |
| Framing.RoundTrip | src/mhl-runtime/internal/lsp/rpc.go:61-118 | any sequence of sent frames is read back as those bodies in order with nothing left over, through the printed length, and a body that does not decode costs no other message |
| Framing.CutFrame | src/mhl-runtime/internal/lsp/rpc.go:61-97 | a frame cut short anywhere is never read as a message |

## Left out

- HTTP, JSON-RPC and JSON plumbing, metrics, logging, session stores and drain timing: nothing hard to state.
- The runtime's step runner, the checkpoint format, expression evaluation, spawn/wait and lambdas: an arbitrary evaluator over an environment and an opaque rest; of calls only the block of a closure or tool method is modelled (Plan.CallBlock).
- The rules of execAssign (`exec.go:493-583`): an assignment is an opaque action of the evaluator.
- Gotos inside parallel branch steps: inspection walks plain steps only.
- Plan.PlanSound: asks for agreement on every called goto of the step, also on one that can never run; for each call alone the condition is exact (Plan.CallSoundIff).
- The store extension's own claim_next, its SQL and its status scan: external code. Its fenced writes are modelled by their documented contract.
- The times a status record carries are any earlier readings of the clock; which statement read them is not kept.
- sweepRuns, launch, waitAndRun, drainClaims and the slot functions are state machines over values, since what matters of them is interleaving; their fields under the mutex are not a class.
- The lease of one run: keys of different runs never meet. Deleting a whole run with its lock key is left out of the lease machine; in the intake machine it removes the status record, the lease and the checkpoint.
- Run/resume of a leg still queued or winding down: Slots lets a run have a new leg only after the last one ended.
- A run taken back by reconcile while its replica is alive but paused with the lease released: the machine has it, no theorem is about it.
- Changing the secret registry during a run: covered by RunLogSafety.CursorsKeep, fixed in the redaction theorems.
- RunLog.FindDivided: the search loop runs at most once and is written without the loop.
- Lease.ApplyKeeps: token uniqueness is a precondition of drawing one; 64 random bits are not modelled.
- PackCodec.OpensExactly: the cipher is ideal; AES-GCM, key schedules and the random source are parameters.
- Framing.Reader.Next: which bodies decode as JSON-RPC messages is a parameter.
- Error texts are abbreviated; a position is its rendered text.
- Memory limits: a length too large to allocate reads as a short body.
- A2A task sweeping, blocking waits, the agent card and result views.
- Unfenced WriteResult, owner records and remote cancel flags.
