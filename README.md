# Backup and restore coordination of a percona-backup-mongodb agent

This project models `agent/snapshot.go`. That file is the part of a pbm-agent that decides
whether a node runs a backup or a restore. It also coordinates the node with the PITR
(point-in-time-recovery) slicer and with peer nodes.

- **The single-slot registry of the running backup.** The agent has a `bcp` field holding the
  backup's command and its cancel function. Three operations use it:
  - `setBcp` publishes an entry only into an empty slot.
  - `unsetBcp` empties the slot.
  - `CancelBackup` calls the stored cancel function, if there is one.
- **`Backup(b)`.** It runs these steps in order:
  1. It checks that the node suits and that its node info is available.
  2. It raises the process-wide intent flag, with a deferred reset.
  3. It waits `pitrCheckPeriod * 11 / 10`.
  4. It releases the replica set's PITR lock; a failure there is only logged.
  5. It wakes the slicer.
  6. It tries for the backup lock.
  7. If it wins the lock, it offers its entry to the slot with `setBcp`, runs the backup and
     empties the slot with `unsetBcp`.
  8. It logs the outcome (cancelled, failed or finished).
  9. It sleeps until `WaitBackupStart` has passed since the runner started.
  10. It releases the lock.
- **`Restore(r)`.** Only a primary restores. It restores under a restore lock, which a deferred
  call releases on every return after the lock is won.

### How it is modelled

The agent is a class, `Snapshot.Agent`, with three fields:

- `bcp`, the slot.
- `intent`, the flag.
- `trace`, everything the agent has done, as a sequence of `Effect`s.

The timing constants are a constant field, `timing`.

**Collaborators are inputs.** Each of these is a field of a `BackupReplies` or
`RestoreReplies` value that the methods receive:

- the node checks;
- the lock store's `(got, err)` answers;
- the runners' results;
- the cancel function of the new context;
- the time the runner took.

**Side effects are trace entries.** Each of these is appended to the trace:

- sleeps;
- lock acquisitions and releases;
- the wake-up;
- the calls of `setBcp` and `unsetBcp` (`SetBcpCalled`, `UnsetBcpCalled`);
- runner calls;
- cancel calls;
- log lines.

The slot itself is the `bcp` field: `SetBcpCalled` records the call, not whether it
published.

**Each method is specified by a pure function.** `Backup` and `Restore` promise that the new
trace is the old one extended by `BackupEffects` or `RestoreEffects`. The properties are then
proved about those functions in `snapshot_props.dfy` and `restore_props.dfy`.

**Go's `defer` becomes a helper method.** The body that runs under a `defer` is a separate
method, with its own early returns: `BackupUnderIntent` or `RestoreHoldingLock`. The deferred
step follows that method's call, so it runs after every return of the body.

### Quirks of the code that the model keeps

- **The result of `setBcp` is ignored** (`agent/snapshot.go:114`).
  - If the slot were already occupied, `setBcp` would leave the other entry in place, and the
    new backup would still run. The trace still shows `SetBcpCalled` for the new entry, since
    the call is made; `Agent.SetBcp` promises that it leaves an occupied slot as it was.
  - A `CancelBackup` during that run would then cancel the other entry, not the running
    backup.
  - `unsetBcp` would then empty the slot for the other entry. `Agent.Backup` promises
    `bcp == None` after any backup that won its lock, whatever the slot held before.
- **Restore's lock is keyed by the restore's own name**, `r.Name`, while its log lines carry
  `r.BackupName`. `RestoreProps.RestoreNaming` states this.
- **Backup releases its lock with a plain call, not a deferred one.** This makes no difference
  here, because every path that won the lock reaches the release.
- **The PITR wait rounds down.** It is `pitrCheckPeriod * 11 / 10` in integer nanoseconds, so it
  can be up to 1ns short of 1.1 periods. `Quo` models Go's truncating division.

## Model

| member | source | states |
|---|---|---|
| Snapshot.Agent.constructor | agent/snapshot.go:19-23 | a new agent has an empty slot, the intent flag at none and an empty trace |
| Snapshot.Agent.SetBcp | agent/snapshot.go:25-34 | publishes the entry exactly when the slot was empty, and reports whether it did; an occupied slot is never overwritten |
| Snapshot.Agent.UnsetBcp | agent/snapshot.go:36-40 | the slot is empty afterwards, whatever it held |
| Snapshot.Agent.CancelBackup | agent/snapshot.go:42-51 | with an empty slot nothing happens; otherwise the stored cancel function is called exactly once more, and the slot is left as it was |
| Snapshot.Agent.Backup | agent/snapshot.go:54-151 | the trace grows by exactly `BackupEffects`; the intent flag is back at none whenever it was raised; the slot is empty after a backup that won its lock, and untouched otherwise |
| Snapshot.Agent.BackupUnderIntent | agent/snapshot.go:84-111 | the trace grows by the handoff, the acquisition attempt and what follows it; the slot is touched only when the lock was won |
| Snapshot.Agent.BackupHoldingLock | agent/snapshot.go:113-150 | the trace grows by the setBcp call, started, run, the unsetBcp call, outcome log, the dwell sleep if any, and the release with its error log; the slot ends empty |
| Snapshot.Agent.Restore | agent/snapshot.go:153-196 | the trace grows by exactly `RestoreEffects` |
| Snapshot.Agent.RestoreHoldingLock | agent/snapshot.go:189-195 | the trace grows by started, the run, and a failure or success log matching the runner's result |
| Pbm.LockKindsDistinct | agent/snapshot.go:86-170 | the PITR header (lines 86-89), a backup header (96-101) and a restore header (165-170) never coincide, whatever the nodes and commands |
| Pbm.BackupLockKey | agent/snapshot.go:96-101 | two backup headers are equal exactly when replica set, node and backup name all agree |
| Pbm.RestoreLockKey | agent/snapshot.go:165-170 | two restore headers are equal exactly when replica set, node and the restore's own name agree; the name of the backup being restored plays no part |
| Snapshot.Quo | agent/snapshot.go:84 | Go's integer division: the magnitude is the quotient of the magnitudes, and the sign follows the dividend |
| SnapshotProps.PitrWaitCoversPeriod | agent/snapshot.go:84 | for a non-negative period, the wait is at least one period and is 1.1 periods rounded down |
| SnapshotProps.QuoAgreesWhenExact | agent/snapshot.go:84 | on a non-negative dividend, or one the divisor divides exactly, Go's division equals Euclidean division |
| SnapshotProps.QuoRoundsTowardZero | agent/snapshot.go:84 | on a negative dividend that the divisor does not divide, Go's division is one above the Euclidean quotient |
| SnapshotProps.BackupIneligibleOnlyLogs | agent/snapshot.go:55-71 | when the node check fails, the node does not suit, or its info is unavailable, Backup writes one log line for the backup, at Info exactly when the node does not suit, and does nothing else |
| SnapshotProps.UnderIntentLeavesFlag | agent/snapshot.go:84-150 | nothing done under the raised flag sets the flag |
| SnapshotProps.BackupIntentReset | agent/snapshot.go:80-82 | once raised, the flag is raised once and reset once, as the last step, on every path |
| SnapshotProps.BackupHandoffBeforeAcquire | agent/snapshot.go:73-103 | the order is flag raised, sleep of `PitrWait`, release of the PITR lock, wake-up, backup lock acquisition; a failed PITR release does not stop the sequence; the backup lock is tried once |
| SnapshotProps.BackupReleasesIffWon | agent/snapshot.go:96-150 | for every backup-type header: acquired once exactly when the node is eligible and it is this node's header for this backup; released once exactly when the lock was also won; never otherwise, whatever the runner returned |
| SnapshotProps.BackupTouchesOnlyItsLocks | agent/snapshot.go:86-150 | the only lock Backup tries for is this node's header for this backup, and the only locks it releases are that one and the replica set's PITR lock, both only when the node is eligible |
| SnapshotProps.BackupRunsIffWon | agent/snapshot.go:103-120 | the runner runs exactly once when the lock was won without error, and never otherwise |
| SnapshotProps.BackupOutcomeLogged | agent/snapshot.go:122-130 | the outcome log is a cancellation at Info, another error at Error, or success at Info, matching what the runner returned |
| SnapshotProps.BackupAcquiredPositions | agent/snapshot.go:113-147 | exact positions in a won Backup's trace: setBcp is called right after the acquisition, the runner two steps later, unsetBcp right after the runner, the release right after the outcome log and the dwell |
| SnapshotProps.BackupRunToReleaseSlice | agent/snapshot.go:120-147 | between the runner and the release of a won Backup there are exactly the unsetBcp call, the outcome log and the dwell sleep if any |
| SnapshotProps.BackupRunOrder | agent/snapshot.go:81-150 | for a won lock: acquire, then the setBcp call, then run, then the unsetBcp call, then release, then reset the flag |
| SnapshotProps.RunToReleaseSpan | agent/snapshot.go:119-146 | from the runner's start to the release, the time that passes is `max(elapsed, WaitBackupStart)`; after the runner returns it is `max(0, WaitBackupStart - elapsed)` |
| SnapshotProps.BackupDwellFloor | agent/snapshot.go:119-147 | in a won Backup's trace, the lock is released no earlier than `WaitBackupStart` after the runner started, and at once if the runner took at least that long |
| RestoreProps.RestoreGate | agent/snapshot.go:154-163 | when the node info is unavailable, or the node is not primary, Restore writes one log line naming the backup, at Info exactly in the not-primary case, and neither locks nor restores |
| RestoreProps.RestoreReleasesIffWon | agent/snapshot.go:165-190 | for every restore-type header: acquired once exactly when the node is an eligible primary and it is its header; released once exactly when the lock was won; the restore runs exactly then; an acquisition error or a lost lock releases nothing |
| RestoreProps.RestoreTouchesOnlyItsLock | agent/snapshot.go:165-187 | the only lock Restore takes is this node's restore header, and only when the node is an eligible primary; it releases that header only when it was won |
| RestoreProps.RestoreOrder | agent/snapshot.go:172-196 | acquisition comes first, then the run, then the release, also when the restore failed; the failure and success logs match the runner's result |
| RestoreProps.RestoreNaming | agent/snapshot.go:153-196 | every log line of a restore names the backup being restored, while the lock taken and released is keyed by the restore's own name |

## Left out

- **Concurrency.** The `mx` mutex around the slot, the atomic store of the intent flag, and
  interleaving with the PITR slicer are not modelled. Calls run one at a time. In particular,
  `CancelBackup` cannot arrive while a modelled `Backup` is running.
- **Real time.** `time.Sleep` is a `Sleep` effect. `time.Since(tstart)` is the `elapsed` input,
  and all of it is attributed to the `RunBackup` effect.
- **Cross-node behaviour.** The race between nodes for a lock cannot be stated from one agent's
  file.
- **Duration width.** Durations are unbounded integers. The `int64` overflow of
  `pitrCheckPeriod * 11` and of the subtraction is not modelled.
- **Panics.** The deferred reset and release are modelled for returns, not for panics.
- **The lock store.** `pbm.NewLock`, `aquireLock`, `MarkBcpStale` and `Release` are not modelled
  internally. They appear as `AcquireLock` and `ReleaseLock` effects, with their `(got, err)`
  and error answers as inputs.
- **The PITR slicer.** `wakeupPitr` is the `WakeupPitr` effect.
- **Collaborators called from this file.** The following are not part of this model; their
  results are inputs:
  - `backup.NodeSuits` and `node.GetInfo`;
  - `backup.New(...).Run` and `restore.New(...).Snapshot`;
  - the `backup.ErrCancelled` test, as the `RunCancelled` result.
- **The context.** The cancel function is an opaque token, so calling it is the
  `CancelCalled(token)` effect.
- **Log lines.** A log line is recorded as its level, command, name and which message it is.
  The message text and the error it wraps are not kept.
- **Timing constants.** `pitrCheckPeriod` and `WaitBackupStart` are defined in files that are
  not part of this model. They are parameters (`Timing`), not fixed values.
- **Agent fields not used here.** `New` only stores its `pbm` handle. The other agent fields
  (`node`, `log`) are collaborators.
