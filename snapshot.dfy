/** The backup/restore coordination of one agent (agent/snapshot.go): the
    single-slot registry of the running backup, and the step-by-step control
    flow of Backup and Restore. Every collaborator (node checks, the lock
    store, the runners, the clock) is an input; every side effect is appended
    to the agent's trace. */
module Snapshot {
  import opened Pbm
  import Seqs

  datatype Option<T> = None | Some(value: T)

  /** An error return of a collaborator; the message only reaches the log. */
  datatype Result<T> = Ok(value: T) | Err(error: string)

  /** Durations are Go's time.Duration: integer nanoseconds. */
  type Duration = int

  /** The identity of the cancel function a backup's context was created with. */
  type CancelToken = nat

  /** The entry of the running backup: its command and its cancel handle. */
  datatype CurrentBackup = CurrentBackup(header: BackupCmd, cancel: CancelToken)

  /** The process-wide flag that asks the PITR slicer to hold back. */
  datatype Intent = IntentNone | IntentBackup

  /** The two timing constants the coordination reads: the poll period of the
      PITR slicer and the time peers wait before racing for a backup lock. */
  datatype Timing = Timing(pitrCheckPeriod: Duration, waitBackupStart: Duration)

  datatype Level = Info | Warning | Error

  /** Which log line was written; the text itself is not modelled. */
  datatype Event =
    | NodeCheckFailed | NotSuitable | GetInfoFailed | ClearPitrLocksFailed
    | AcquireFailed | ScheduledElsewhere | LockBusy
    | Started | Canceled | Failed | Finished | ReleaseFailed

  /** The side effects of the coordination code, in the order they happen. */
  datatype Effect =
    | SetIntent(intent: Intent)
    | Sleep(d: Duration)
    | ReleaseLock(header: LockHeader)
    | WakeupPitr
    | AcquireLock(header: LockHeader)
    // a call of setBcp with this entry; it publishes the entry only into an
    // empty slot, and the caller does not look at which happened
    | SetBcpCalled(entry: CurrentBackup)
    // a call of unsetBcp, which empties the slot whatever it holds
    | UnsetBcpCalled
    | RunBackup(backup: BackupCmd, took: Duration)
    | RunRestore(restore: RestoreCmd)
    | CancelCalled(token: CancelToken)
    | Log(level: Level, cmd: Command, name: string, event: Event)

  /** What the backup runner returned: nothing, the cancellation error, or another error. */
  datatype RunResult = RunOk | RunCancelled | RunFailed(error: string)

  /** The answers of Backup's collaborators, in the order they are asked. */
  datatype BackupReplies = BackupReplies(
    suits: Result<bool>,          // backup.NodeSuits
    info: Result<NodeInfo>,       // node.GetInfo
    pitrRelease: Result<()>,      // releasing the replica set's PITR lock
    lock: Result<bool>,           // acquiring the backup lock: (got, err)
    cancel: CancelToken,          // the cancel function of the new context
    run: RunResult,               // the backup runner
    elapsed: Duration,            // time since the runner was started
    release: Result<()>)          // releasing the backup lock

  /** The answers of Restore's collaborators, in the order they are asked. */
  datatype RestoreReplies = RestoreReplies(
    info: Result<NodeInfo>,       // node.GetInfo
    lock: Result<bool>,           // acquiring the restore lock: (got, err)
    run: Result<()>,              // the restore runner
    release: Result<()>)          // releasing the restore lock

  function Max(a: int, b: int): int { if a < b then b else a }

  function Abs(a: int): nat { if a < 0 then -a else a }

  /** Go's integer division, which truncates toward zero (Dafny's `/` is
      Euclidean): the magnitude is the quotient of the magnitudes, and the sign
      is that of the dividend. */
  function Quo(a: int, b: int): (q: int)
    requires b > 0
    ensures Abs(q) == Abs(a) / b
    ensures a < 0 ==> q <= 0
    ensures 0 <= a ==> 0 <= q
  {
    if 0 <= a then a / b else -((-a) / b)
  }

  /** How long a backup waits for the PITR slicer to notice the intent flag:
      pitrCheckPeriod * 11 / 10 in Go's duration arithmetic. */
  function PitrWait(pitrCheckPeriod: Duration): Duration
  {
    Quo(pitrCheckPeriod * 11, 10)
  }

  /** Time that passes during one effect: a sleep of a non-positive duration
      returns at once, and the runner's effect lasts what was measured. */
  function Cost(e: Effect): Duration
  {
    match e
    case Sleep(d) => Max(d, 0)
    case RunBackup(_, took) => took
    case _ => 0
  }

  /** Time that passes over a stretch of the trace. */
  function Span(s: seq<Effect>): Duration
  {
    if s == [] then 0 else Cost(s[0]) + Span(s[1..])
  }

  /** Backup goes past its eligibility checks: the node suits and its info is known. */
  predicate BackupEligible(rp: BackupReplies)
  {
    rp.suits == Ok(true) && rp.info.Ok?
  }

  /** Backup wins its lock and runs. */
  predicate BackupAcquired(rp: BackupReplies)
  {
    BackupEligible(rp) && rp.lock == Ok(true)
  }

  /** Restore reaches lock acquisition: the node info is known and the node is primary. */
  predicate RestoreEligible(rp: RestoreReplies)
  {
    rp.info.Ok? && rp.info.value.isPrimary
  }

  /** Restore wins its lock and runs. */
  predicate RestoreAcquired(rp: RestoreReplies)
  {
    RestoreEligible(rp) && rp.lock == Ok(true)
  }

  /** The effects of Backup(b): fast rejection, or the work done while the
      intent flag is raised, bracketed by raising and resetting it. */
  function BackupEffects(t: Timing, b: BackupCmd, rp: BackupReplies): seq<Effect>
  {
    if rp.suits.Err? then [Log(Error, CmdBackup, b.name, NodeCheckFailed)]
    else if !rp.suits.value then [Log(Info, CmdBackup, b.name, NotSuitable)]
    else if rp.info.Err? then [Log(Error, CmdBackup, b.name, GetInfoFailed)]
    else [SetIntent(IntentBackup)] + UnderIntentEffects(t, b, rp.info.value, rp) + [SetIntent(IntentNone)]
  }

  /** Waiting for the PITR slicer, clearing its lock and waking it up. A failed
      release is only logged. */
  function PitrHandoffEffects(t: Timing, b: BackupCmd, ni: NodeInfo, pitrRelease: Result<()>): seq<Effect>
  {
    [Sleep(PitrWait(t.pitrCheckPeriod)), ReleaseLock(PitrLock(ni.setName))]
    + (if pitrRelease.Err? then [Log(Warning, CmdBackup, b.name, ClearPitrLocksFailed)] else [])
    + [WakeupPitr]
  }

  /** What Backup does between raising the intent flag and its deferred reset. */
  function UnderIntentEffects(t: Timing, b: BackupCmd, ni: NodeInfo, rp: BackupReplies): seq<Effect>
  {
    (PitrHandoffEffects(t, b, ni, rp.pitrRelease) + [AcquireLock(BackupLock(ni, b))])
    + AcquiredEffects(t, b, ni, rp)
  }

  /** What follows the attempt to take the backup lock. */
  function AcquiredEffects(t: Timing, b: BackupCmd, ni: NodeInfo, rp: BackupReplies): seq<Effect>
  {
    if rp.lock.Err? then [Log(Error, CmdBackup, b.name, AcquireFailed)]
    else if !rp.lock.value then [Log(Info, CmdBackup, b.name, ScheduledElsewhere)]
    else LockedBackupEffects(t, b, ni, rp)
  }

  /** The run of a backup whose lock was won, up to and including the lock's release. */
  function LockedBackupEffects(t: Timing, b: BackupCmd, ni: NodeInfo, rp: BackupReplies): seq<Effect>
  {
    (RunEffects(b, rp) + DwellEffects(t, rp.elapsed))
    + ([ReleaseLock(BackupLock(ni, b))]
       + (if rp.release.Err? then [Log(Error, CmdBackup, b.name, ReleaseFailed)] else []))
  }

  /** Offering the backup to the slot, running it and emptying the slot again. */
  function RunEffects(b: BackupCmd, rp: BackupReplies): seq<Effect>
  {
    [SetBcpCalled(CurrentBackup(b, rp.cancel)), Log(Info, CmdBackup, b.name, Started),
     RunBackup(b, rp.elapsed), UnsetBcpCalled, Log(RunLevel(rp.run), CmdBackup, b.name, RunEvent(rp.run))]
  }

  /** The sleep that keeps a fast backup's lock until waitBackupStart has passed. */
  function DwellEffects(t: Timing, elapsed: Duration): seq<Effect>
  {
    var needToWait := t.waitBackupStart - elapsed;
    if needToWait > 0 then [Sleep(needToWait)] else []
  }

  function RunLevel(r: RunResult): Level
  {
    if r.RunFailed? then Error else Info
  }

  function RunEvent(r: RunResult): Event
  {
    match r
    case RunOk => Finished
    case RunCancelled => Canceled
    case RunFailed(_) => Failed
  }

  /** The effects of Restore(r). Its log lines carry the backup's name, its
      lock the restore's own name. */
  function RestoreEffects(r: RestoreCmd, rp: RestoreReplies): seq<Effect>
  {
    if rp.info.Err? then [Log(Error, CmdRestore, r.backupName, GetInfoFailed)]
    else if !rp.info.value.isPrimary then [Log(Info, CmdRestore, r.backupName, NotSuitable)]
    else
      [AcquireLock(RestoreLock(rp.info.value, r))]
      + (if rp.lock.Err? then [Log(Error, CmdRestore, r.backupName, AcquireFailed)]
         else if !rp.lock.value then [Log(Error, CmdRestore, r.backupName, LockBusy)]
         else RestoreRunEffects(r, rp) + ReleaseEffects(r, rp.info.value, rp.release))
  }

  /** The restore run itself, ending at either of its returns. */
  function RestoreRunEffects(r: RestoreCmd, rp: RestoreReplies): seq<Effect>
  {
    [Log(Info, CmdRestore, r.backupName, Started), RunRestore(r)]
    + (if rp.run.Err? then [Log(Error, CmdRestore, r.backupName, Failed)]
       else [Log(Info, CmdRestore, r.backupName, Finished)])
  }

  /** The deferred release of the restore lock. */
  function ReleaseEffects(r: RestoreCmd, ni: NodeInfo, release: Result<()>): seq<Effect>
  {
    [ReleaseLock(RestoreLock(ni, r))]
    + (if release.Err? then [Log(Error, CmdRestore, r.backupName, ReleaseFailed)] else [])
  }

  /** One agent process. `bcp` is the slot of the running backup, `intent` the
      flag the PITR slicer polls, `trace` everything the agent has done so far.
      The mutex that guards `bcp` is not modelled: calls run one at a time. */
  class Agent {
    const timing: Timing
    var bcp: Option<CurrentBackup>
    var intent: Intent
    var trace: seq<Effect>

    constructor (timing: Timing)
      ensures this.timing == timing
      ensures bcp == None && intent == IntentNone && trace == []
    {
      this.timing := timing;
      bcp := None;
      intent := IntentNone;
      trace := [];
    }

    /** Publishes `b` as the running backup, unless a backup is already published. */
    method SetBcp(b: CurrentBackup) returns (changed: bool)
      modifies this`bcp
      ensures changed <==> old(bcp) == None
      ensures changed ==> bcp == Some(b)
      ensures !changed ==> bcp == old(bcp)
    {
      if bcp != None {
        return false;
      }
      bcp := Some(b);
      return true;
    }

    /** Empties the slot, whatever it holds. */
    method UnsetBcp()
      modifies this`bcp
      ensures bcp == None
    {
      bcp := None;
    }

    /** Calls the cancel function of the running backup, if there is one. */
    method CancelBackup()
      modifies this`trace
      ensures bcp == old(bcp)
      ensures old(bcp) == None ==> trace == old(trace)
      ensures old(bcp).Some? ==> trace == old(trace) + [CancelCalled(old(bcp).value.cancel)]
      ensures old(bcp).Some? ==>
        Seqs.Count(trace, CancelCalled(bcp.value.cancel)) == Seqs.Count(old(trace), CancelCalled(bcp.value.cancel)) + 1
    {
      if bcp == None {
        return;
      }
      var cancel := bcp.value.cancel;
      Seqs.CountConcat(trace, [CancelCalled(cancel)], CancelCalled(cancel));
      trace := trace + [CancelCalled(cancel)];
    }

    /** Backup(b): the eligibility checks, then the work under the raised
        intent flag, then the flag's deferred reset. */
    method Backup(b: BackupCmd, rp: BackupReplies)
      modifies this`trace, this`intent, this`bcp
      ensures trace == old(trace) + BackupEffects(timing, b, rp)
      ensures intent == if BackupEligible(rp) then IntentNone else old(intent)
      ensures bcp == if BackupAcquired(rp) then None else old(bcp)
    {
      if rp.suits.Err? {
        trace := trace + [Log(Error, CmdBackup, b.name, NodeCheckFailed)];
        return;
      }
      if !rp.suits.value {
        trace := trace + [Log(Info, CmdBackup, b.name, NotSuitable)];
        return;
      }
      if rp.info.Err? {
        trace := trace + [Log(Error, CmdBackup, b.name, GetInfoFailed)];
        return;
      }
      var nodeInfo := rp.info.value;
      ghost var t0 := trace;
      intent := IntentBackup;
      trace := trace + [SetIntent(IntentBackup)];
      BackupUnderIntent(b, nodeInfo, rp);
      // the deferred reset runs on every return of the body above
      intent := IntentNone;
      trace := trace + [SetIntent(IntentNone)];
      ghost var under := UnderIntentEffects(timing, b, nodeInfo, rp);
      Seqs.Assoc(t0, [SetIntent(IntentBackup)], under);
      Seqs.Assoc(t0, [SetIntent(IntentBackup)] + under, [SetIntent(IntentNone)]);
    }

    /** The body of Backup after the intent flag is raised, with its early returns. */
    method BackupUnderIntent(b: BackupCmd, nodeInfo: NodeInfo, rp: BackupReplies)
      modifies this`trace, this`bcp
      ensures trace == old(trace) + UnderIntentEffects(timing, b, nodeInfo, rp)
      ensures bcp == if rp.lock == Ok(true) then None else old(bcp)
    {
      ghost var t0 := trace;
      trace := trace + [Sleep(PitrWait(timing.pitrCheckPeriod)), ReleaseLock(PitrLock(nodeInfo.setName))];
      if rp.pitrRelease.Err? {
        trace := trace + [Log(Warning, CmdBackup, b.name, ClearPitrLocksFailed)];
      }
      trace := trace + [WakeupPitr];
      ghost var handoff := PitrHandoffEffects(timing, b, nodeInfo, rp.pitrRelease);
      assert trace == t0 + handoff;

      var lock := BackupLock(nodeInfo, b);
      trace := trace + [AcquireLock(lock)];
      Seqs.Assoc(t0, handoff, [AcquireLock(lock)]);
      Seqs.Assoc(t0, handoff + [AcquireLock(lock)], AcquiredEffects(timing, b, nodeInfo, rp));
      if rp.lock.Err? {
        trace := trace + [Log(Error, CmdBackup, b.name, AcquireFailed)];
        return;
      }
      if !rp.lock.value {
        trace := trace + [Log(Info, CmdBackup, b.name, ScheduledElsewhere)];
        return;
      }
      BackupHoldingLock(b, lock, rp);
    }

    /** The rest of Backup once its lock `lock` is won: offer the entry to the
        slot, run, empty the slot, keep the lock until waitBackupStart has passed, release it. */
    method BackupHoldingLock(b: BackupCmd, lock: LockHeader, rp: BackupReplies)
      modifies this`trace, this`bcp
      ensures trace == old(trace) + RunEffects(b, rp) + DwellEffects(timing, rp.elapsed)
        + [ReleaseLock(lock)] + (if rp.release.Err? then [Log(Error, CmdBackup, b.name, ReleaseFailed)] else [])
      ensures bcp == None
    {
      var entry := CurrentBackup(b, rp.cancel);
      var changed := SetBcp(entry);  // the result is not looked at
      trace := trace + [SetBcpCalled(entry), Log(Info, CmdBackup, b.name, Started)];
      trace := trace + [RunBackup(b, rp.elapsed)];
      UnsetBcp();
      trace := trace + [UnsetBcpCalled];
      match rp.run {
        case RunOk =>
          trace := trace + [Log(Info, CmdBackup, b.name, Finished)];
        case RunCancelled =>
          trace := trace + [Log(Info, CmdBackup, b.name, Canceled)];
        case RunFailed(_) =>
          trace := trace + [Log(Error, CmdBackup, b.name, Failed)];
      }

      var needToWait := timing.waitBackupStart - rp.elapsed;
      if needToWait > 0 {
        trace := trace + [Sleep(needToWait)];
      }
      trace := trace + [ReleaseLock(lock)];
      if rp.release.Err? {
        trace := trace + [Log(Error, CmdBackup, b.name, ReleaseFailed)];
      }
    }

    /** Restore(r): only a primary restores, and only under its restore lock,
        which the deferred release gives back on every return after acquisition. */
    method Restore(r: RestoreCmd, rp: RestoreReplies)
      modifies this`trace
      ensures trace == old(trace) + RestoreEffects(r, rp)
    {
      if rp.info.Err? {
        trace := trace + [Log(Error, CmdRestore, r.backupName, GetInfoFailed)];
        return;
      }
      var nodeInfo := rp.info.value;
      if !nodeInfo.isPrimary {
        trace := trace + [Log(Info, CmdRestore, r.backupName, NotSuitable)];
        return;
      }

      var lock := RestoreLock(nodeInfo, r);
      trace := trace + [AcquireLock(lock)];
      if rp.lock.Err? {
        trace := trace + [Log(Error, CmdRestore, r.backupName, AcquireFailed)];
        return;
      }
      if !rp.lock.value {
        trace := trace + [Log(Error, CmdRestore, r.backupName, LockBusy)];
        return;
      }

      RestoreHoldingLock(r, rp);
      // the deferred release runs on every return of the body above
      trace := trace + [ReleaseLock(lock)];
      if rp.release.Err? {
        trace := trace + [Log(Error, CmdRestore, r.backupName, ReleaseFailed)];
      }
    }

    /** The body of Restore once its lock is held, with its early return. */
    method RestoreHoldingLock(r: RestoreCmd, rp: RestoreReplies)
      modifies this`trace
      ensures trace == old(trace) + RestoreRunEffects(r, rp)
    {
      trace := trace + [Log(Info, CmdRestore, r.backupName, Started), RunRestore(r)];
      if rp.run.Err? {
        trace := trace + [Log(Error, CmdRestore, r.backupName, Failed)];
        return;
      }
      trace := trace + [Log(Info, CmdRestore, r.backupName, Finished)];
    }
  }
}
