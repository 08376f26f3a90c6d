/** Properties of Restore's effects: who gets to restore, which lock it takes
    and releases, the order of its steps and the names its log lines carry. */
module RestoreProps {
  import opened Pbm
  import opened Seqs
  import opened Snapshot

  /** A node that cannot tell whether it is primary, or is not primary, only
      logs, under the backup's name; it neither locks nor restores. */
  lemma RestoreGate(r: RestoreCmd, rp: RestoreReplies)
    requires !RestoreEligible(rp)
    ensures var e := RestoreEffects(r, rp);
      && |e| == 1 && e[0].Log? && e[0].cmd == CmdRestore && e[0].name == r.backupName
      && (e[0].level == Info <==> rp.info.Ok?)
      && (e[0].event == NotSuitable <==> rp.info.Ok?)
  {
  }

  /** The effects once the lock is won: acquire, log, run, the outcome's log,
      then the release, whatever the restore returned. */
  lemma RestoreAcquiredShape(r: RestoreCmd, rp: RestoreReplies)
    requires RestoreAcquired(rp)
    ensures var lock := RestoreLock(rp.info.value, r);
      var outcome := if rp.run.Err? then Log(Error, CmdRestore, r.backupName, Failed)
                     else Log(Info, CmdRestore, r.backupName, Finished);
      RestoreEffects(r, rp)
        == [AcquireLock(lock), Log(Info, CmdRestore, r.backupName, Started), RunRestore(r), outcome]
           + ReleaseEffects(r, rp.info.value, rp.release)
  {
  }

  /** The restore lock is acquired exactly when the node is an eligible
      primary, released exactly when it was won, and the restore runs exactly
      then; a failed or lost acquisition releases nothing. */
  lemma RestoreReleasesIffWon(r: RestoreCmd, rp: RestoreReplies, h: LockHeader, x: RestoreCmd)
    requires h.typ == CmdRestore
    ensures var e := RestoreEffects(r, rp);
      var mine := rp.info.Ok? && h == RestoreLock(rp.info.value, r);
      && Count(e, AcquireLock(h)) == (if RestoreEligible(rp) && mine then 1 else 0)
      && Count(e, ReleaseLock(h)) == (if RestoreAcquired(rp) && mine then 1 else 0)
      && Count(e, RunRestore(x)) == (if RestoreAcquired(rp) && x == r then 1 else 0)
  {
    if RestoreEligible(rp) {
      var lock := RestoreLock(rp.info.value, r);
      var tail := RestoreEffects(r, rp)[1..];
      assert RestoreEffects(r, rp) == [AcquireLock(lock)] + tail;
      CountConcat([AcquireLock(lock)], tail, AcquireLock(h));
      CountConcat([AcquireLock(lock)], tail, ReleaseLock(h));
      CountConcat([AcquireLock(lock)], tail, RunRestore(x));
      if RestoreAcquired(rp) {
        var run := RestoreRunEffects(r, rp);
        var rel := ReleaseEffects(r, rp.info.value, rp.release);
        assert tail == run + rel;
        CountConcat(run, rel, AcquireLock(h));
        CountConcat(run, rel, ReleaseLock(h));
        CountConcat(run, rel, RunRestore(x));
        CountConcat([ReleaseLock(lock)], rel[1..], ReleaseLock(h));
        assert rel == [ReleaseLock(lock)] + rel[1..];
        CountConcat([Log(Info, CmdRestore, r.backupName, Started), RunRestore(r)], run[2..], RunRestore(x));
        assert run == [Log(Info, CmdRestore, r.backupName, Started), RunRestore(r)] + run[2..];
      }
    }
  }

  /** The only lock Restore takes or releases is this node's restore lock. */
  lemma RestoreTouchesOnlyItsLock(r: RestoreCmd, rp: RestoreReplies, h: LockHeader)
    ensures var e := RestoreEffects(r, rp);
      && (AcquireLock(h) in e ==> RestoreEligible(rp) && h == RestoreLock(rp.info.value, r))
      && (ReleaseLock(h) in e ==> RestoreAcquired(rp) && h == RestoreLock(rp.info.value, r))
  {
    if RestoreAcquired(rp) {
      RestoreAcquiredShape(r, rp);
    }
  }

  /** Once the lock is won, the steps come in order: acquire, run, release;
      the release follows the run whether the restore failed or not. */
  lemma RestoreOrder(r: RestoreCmd, rp: RestoreReplies)
    requires RestoreAcquired(rp)
    ensures var e := RestoreEffects(r, rp);
      var lock := RestoreLock(rp.info.value, r);
      && AcquireLock(lock) in e && RunRestore(r) in e && ReleaseLock(lock) in e
      && IndexOf(e, AcquireLock(lock)) == 0
      && IndexOf(e, AcquireLock(lock)) < IndexOf(e, RunRestore(r)) < IndexOf(e, ReleaseLock(lock))
      && (rp.run.Err? <==> Log(Error, CmdRestore, r.backupName, Failed) in e)
      && (rp.run.Ok? <==> Log(Info, CmdRestore, r.backupName, Finished) in e)
  {
    var e := RestoreEffects(r, rp);
    var lock := RestoreLock(rp.info.value, r);
    RestoreAcquiredShape(r, rp);
    IndexOfUnique(e, AcquireLock(lock), 0);
    assert e[..2] == [AcquireLock(lock), Log(Info, CmdRestore, r.backupName, Started)];
    IndexOfUnique(e, RunRestore(r), 2);
    assert e[..4] == [AcquireLock(lock), Log(Info, CmdRestore, r.backupName, Started), RunRestore(r), e[3]];
    IndexOfUnique(e, ReleaseLock(lock), 4);
    var outcome := e[3];
    var rel := ReleaseEffects(r, rp.info.value, rp.release);
    assert e == [AcquireLock(lock), Log(Info, CmdRestore, r.backupName, Started), RunRestore(r)]
      + [outcome] + rel;
    assert Log(Error, CmdRestore, r.backupName, Failed) !in rel;
    assert Log(Info, CmdRestore, r.backupName, Finished) !in rel;
  }

  /** The naming quirk: every log line of a restore names the backup being
      restored, while the lock it takes and releases is keyed by the restore's
      own name. */
  lemma RestoreNaming(r: RestoreCmd, rp: RestoreReplies)
    ensures var e := RestoreEffects(r, rp);
      && (forall k :: 0 <= k < |e| && e[k].Log? ==> e[k].cmd == CmdRestore && e[k].name == r.backupName)
      && (forall k :: 0 <= k < |e| && e[k].AcquireLock? ==>
            e[k].header.typ == CmdRestore && e[k].header.backupName == r.name)
      && (forall k :: 0 <= k < |e| && e[k].ReleaseLock? ==>
            e[k].header.typ == CmdRestore && e[k].header.backupName == r.name)
  {
  }
}
