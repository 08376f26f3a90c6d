/** What the coordination code of agent/snapshot.go promises, stated over the
    effect traces of Backup and Restore for all answers of their collaborators. */
module SnapshotProps {
  import opened Pbm
  import opened Seqs
  import opened Snapshot

  // ---------------------------------------------------------------- timing

  lemma {:induction false} SpanConcat(a: seq<Effect>, b: seq<Effect>)
    ensures Span(a + b) == Span(a) + Span(b)
  {
    if a == [] {
      assert a + b == b;
    } else {
      assert (a + b)[0] == a[0];
      assert (a + b)[1..] == a[1..] + b;
      SpanConcat(a[1..], b);
    }
  }

  /** The wait for the PITR slicer is at least one poll period, and is 1.1
      poll periods rounded down to the nanosecond. */
  lemma PitrWaitCoversPeriod(p: Duration)
    requires 0 <= p
    ensures p <= PitrWait(p)
    ensures 10 * PitrWait(p) <= 11 * p < 10 * PitrWait(p) + 10
  {
  }

  /** Multiplying by a positive number keeps integers at least that far apart. */
  lemma MulKeepsGap(b: int, x: int, y: int)
    requires b > 0
    ensures x < y ==> b * x + b <= b * y
  {
    if x < y {
      var d := y - x - 1;
      assert b * y == b * x + b * d + b;
      assert 0 <= b * d;
    }
  }

  /** Euclidean division is determined by the bracket its quotient sits in. */
  lemma DivByBracket(a: int, b: int, q: int)
    requires b > 0 && b * q <= a < b * q + b
    ensures a / b == q
  {
    assert a == b * (a / b) + a % b;
    MulKeepsGap(b, a / b, q);
    MulKeepsGap(b, q, a / b);
  }

  /** Go's truncating division agrees with Euclidean division on non-negative
      dividends and on exact quotients. */
  lemma QuoAgreesWhenExact(a: int, b: int)
    requires b > 0 && (0 <= a || a % b == 0)
    ensures Quo(a, b) == a / b
  {
    if a < 0 {
      var k := a / b;
      assert a == b * k + a % b;
      assert -a == b * -k;
      DivByBracket(-a, b, -k);
    }
  }

  /** On a negative dividend that is not a multiple of the divisor, Go's
      division truncates toward zero, one above the Euclidean quotient. */
  lemma QuoRoundsTowardZero(a: int, b: int)
    requires b > 0 && a < 0 && a % b != 0
    ensures Quo(a, b) == a / b + 1
  {
    var k, r := a / b, a % b;
    assert a == b * k + r && 0 < r < b;
    assert -a == b * (-k - 1) + (b - r);
    DivByBracket(-a, b, -k - 1);
  }

  // ---------------------------------------------------------------- backup

  /** A node that fails its eligibility checks only logs: no intent change,
      no lock, no runner, no call on the slot. */
  lemma BackupIneligibleOnlyLogs(t: Timing, b: BackupCmd, rp: BackupReplies)
    requires !BackupEligible(rp)
    ensures var e := BackupEffects(t, b, rp);
      |e| == 1 && e[0].Log? && e[0].cmd == CmdBackup && e[0].name == b.name
      && e[0].level == (if rp.suits == Ok(false) then Info else Error)
  {
  }

  /** The shape of an eligible Backup's trace: the intent flag is raised first
      and reset last, around the handoff, the acquisition and what follows. */
  lemma BackupEligibleShape(t: Timing, b: BackupCmd, rp: BackupReplies)
    requires BackupEligible(rp)
    ensures BackupEffects(t, b, rp)
      == [SetIntent(IntentBackup)] + PitrHandoffEffects(t, b, rp.info.value, rp.pitrRelease)
         + [AcquireLock(BackupLock(rp.info.value, b))] + AcquiredEffects(t, b, rp.info.value, rp)
         + [SetIntent(IntentNone)]
  {
    var ni := rp.info.value;
    var h := PitrHandoffEffects(t, b, ni, rp.pitrRelease);
    var ac := [AcquireLock(BackupLock(ni, b))];
    var rest := AcquiredEffects(t, b, ni, rp);
    Assoc([SetIntent(IntentBackup)], h + ac, rest);
    Assoc([SetIntent(IntentBackup)], h, ac);
  }

  /** Nothing Backup does under the raised flag touches the flag. */
  lemma UnderIntentLeavesFlag(t: Timing, b: BackupCmd, ni: NodeInfo, rp: BackupReplies, v: Intent)
    ensures SetIntent(v) !in UnderIntentEffects(t, b, ni, rp)
  {
  }

  /** Once Backup raises the intent flag, it resets it exactly once, as its very
      last step, whatever happens in between. */
  lemma BackupIntentReset(t: Timing, b: BackupCmd, rp: BackupReplies)
    requires BackupEligible(rp)
    ensures var e := BackupEffects(t, b, rp);
      && e[0] == SetIntent(IntentBackup) && e[|e| - 1] == SetIntent(IntentNone)
      && Count(e, SetIntent(IntentBackup)) == 1 && Count(e, SetIntent(IntentNone)) == 1
      && IndexOf(e, SetIntent(IntentNone)) == |e| - 1
  {
    var u := UnderIntentEffects(t, b, rp.info.value, rp);
    UnderIntentLeavesFlag(t, b, rp.info.value, rp, IntentBackup);
    UnderIntentLeavesFlag(t, b, rp.info.value, rp, IntentNone);
    assert [SetIntent(IntentBackup)] + u + [SetIntent(IntentNone)]
      == [] + [SetIntent(IntentBackup)] + (u + [SetIntent(IntentNone)]);
    CountOnce([], SetIntent(IntentBackup), u + [SetIntent(IntentNone)]);
    CountOnce([SetIntent(IntentBackup)] + u, SetIntent(IntentNone), []);
    assert [SetIntent(IntentBackup)] + u + [SetIntent(IntentNone)]
      == [SetIntent(IntentBackup)] + u + [SetIntent(IntentNone)] + [];
    IndexOfAfter([SetIntent(IntentBackup)] + u, SetIntent(IntentNone), []);
  }

  /** The effects of a Backup that won its lock, as consecutive pieces. */
  lemma BackupAcquiredShape(t: Timing, b: BackupCmd, rp: BackupReplies)
    requires BackupAcquired(rp)
    ensures var ni := rp.info.value;
      BackupEffects(t, b, rp)
      == [SetIntent(IntentBackup)] + PitrHandoffEffects(t, b, ni, rp.pitrRelease)
         + [AcquireLock(BackupLock(ni, b))] + RunEffects(b, rp) + DwellEffects(t, rp.elapsed)
         + [ReleaseLock(BackupLock(ni, b))]
         + ((if rp.release.Err? then [Log(Error, CmdBackup, b.name, ReleaseFailed)] else [])
            + [SetIntent(IntentNone)])
  {
    var ni := rp.info.value;
    BackupEligibleShape(t, b, rp);
    var p := [SetIntent(IntentBackup)] + PitrHandoffEffects(t, b, ni, rp.pitrRelease)
      + [AcquireLock(BackupLock(ni, b))];
    var run := RunEffects(b, rp);
    var dwell := DwellEffects(t, rp.elapsed);
    var rel := [ReleaseLock(BackupLock(ni, b))]
      + (if rp.release.Err? then [Log(Error, CmdBackup, b.name, ReleaseFailed)] else []);
    assert AcquiredEffects(t, b, ni, rp) == (run + dwell) + rel;
    Assoc(p, run + dwell, rel);
    Assoc(p, run, dwell);
    Assoc(p + run + dwell, [ReleaseLock(BackupLock(ni, b))],
      (if rp.release.Err? then [Log(Error, CmdBackup, b.name, ReleaseFailed)] else []));
    Assoc(p + run + dwell + [ReleaseLock(BackupLock(ni, b))], (if rp.release.Err? then [Log(Error, CmdBackup, b.name, ReleaseFailed)] else []),
      [SetIntent(IntentNone)]);
  }

  /** Before trying for its own lock, Backup waits for the PITR slicer, clears
      the replica set's PITR lock and wakes the slicer, in that order; a failed
      clear does not stop it. It tries for the backup lock exactly once. */
  lemma BackupHandoffBeforeAcquire(t: Timing, b: BackupCmd, rp: BackupReplies)
    requires BackupEligible(rp)
    ensures var e := BackupEffects(t, b, rp);
      var ni := rp.info.value;
      var sleep := Sleep(PitrWait(t.pitrCheckPeriod));
      var clear := ReleaseLock(PitrLock(ni.setName));
      var acquire := AcquireLock(BackupLock(ni, b));
      && sleep in e && clear in e && WakeupPitr in e && acquire in e
      && IndexOf(e, SetIntent(IntentBackup)) < IndexOf(e, sleep) < IndexOf(e, clear)
      && IndexOf(e, clear) < IndexOf(e, WakeupPitr) < IndexOf(e, acquire)
      && Count(e, acquire) == 1
  {
    var e := BackupEffects(t, b, rp);
    var ni := rp.info.value;
    var sleep := Sleep(PitrWait(t.pitrCheckPeriod));
    var clear := ReleaseLock(PitrLock(ni.setName));
    var acquire := AcquireLock(BackupLock(ni, b));
    var h := PitrHandoffEffects(t, b, ni, rp.pitrRelease);
    var rest := AcquiredEffects(t, b, ni, rp);
    BackupEligibleShape(t, b, rp);
    var w := |h| - 1;
    assert e == [SetIntent(IntentBackup)] + h + [acquire] + (rest + [SetIntent(IntentNone)]);
    assert e[0] == SetIntent(IntentBackup) && e[1] == sleep && e[2] == clear;
    assert e[1 + w] == WakeupPitr && e[2 + w] == acquire;
    assert e[..1] == [SetIntent(IntentBackup)];
    assert e[..2] == [SetIntent(IntentBackup), sleep];
    assert e[..1 + w] == [SetIntent(IntentBackup)] + h[..w];
    assert e[..2 + w] == [SetIntent(IntentBackup)] + h;
    IndexOfUnique(e, SetIntent(IntentBackup), 0);
    IndexOfUnique(e, sleep, 1);
    IndexOfUnique(e, clear, 2);
    IndexOfUnique(e, WakeupPitr, 1 + w);
    IndexOfUnique(e, acquire, 2 + w);
    assert acquire !in rest;
    CountOnce([SetIntent(IntentBackup)] + h, acquire, rest + [SetIntent(IntentNone)]);
  }

  /** For every backup-type lock header: Backup tries for it exactly once when
      it is the header of this node and backup and the node is eligible, and
      releases it exactly once when, in addition, the lock was won; otherwise
      never. A lost race or a failed acquisition releases nothing, and the
      runner's outcome does not matter. */
  lemma BackupReleasesIffWon(t: Timing, b: BackupCmd, rp: BackupReplies, h: LockHeader)
    requires h.typ == CmdBackup
    ensures var e := BackupEffects(t, b, rp);
      && Count(e, AcquireLock(h)) == (if BackupEligible(rp) && h == BackupLock(rp.info.value, b) then 1 else 0)
      && Count(e, ReleaseLock(h)) == (if BackupAcquired(rp) && h == BackupLock(rp.info.value, b) then 1 else 0)
  {
    var e := BackupEffects(t, b, rp);
    if !BackupEligible(rp) {
      BackupIneligibleOnlyLogs(t, b, rp);
      assert AcquireLock(h) !in e && ReleaseLock(h) !in e;
      return;
    }
    var ni := rp.info.value;
    var hand := PitrHandoffEffects(t, b, ni, rp.pitrRelease);
    var rest := AcquiredEffects(t, b, ni, rp);
    BackupEligibleShape(t, b, rp);
    assert ReleaseLock(h) !in hand && AcquireLock(h) !in hand;
    assert AcquireLock(h) !in rest;
    assert e == [SetIntent(IntentBackup)] + hand + [AcquireLock(BackupLock(ni, b))] + (rest + [SetIntent(IntentNone)]);
    if h == BackupLock(ni, b) {
      CountOnce([SetIntent(IntentBackup)] + hand, AcquireLock(h), rest + [SetIntent(IntentNone)]);
    } else {
      assert AcquireLock(h) !in e;
    }
    if !BackupAcquired(rp) || h != BackupLock(ni, b) {
      assert ReleaseLock(h) !in rest;
      assert ReleaseLock(h) !in e;
    } else {
      BackupAcquiredShape(t, b, rp);
      var before := [SetIntent(IntentBackup)] + hand + [AcquireLock(h)] + RunEffects(b, rp) + DwellEffects(t, rp.elapsed);
      var after := (if rp.release.Err? then [Log(Error, CmdBackup, b.name, ReleaseFailed)] else []) + [SetIntent(IntentNone)];
      assert e == before + [ReleaseLock(h)] + after;
      CountOnce(before, ReleaseLock(h), after);
    }
  }

  /** The only lock Backup tries for is this node's backup lock, and the only
      locks it releases are that one and the replica set's PITR lock. */
  lemma BackupTouchesOnlyItsLocks(t: Timing, b: BackupCmd, rp: BackupReplies, h: LockHeader)
    ensures var e := BackupEffects(t, b, rp);
      && (AcquireLock(h) in e ==> BackupEligible(rp) && h == BackupLock(rp.info.value, b))
      && (ReleaseLock(h) in e ==>
            BackupEligible(rp) && (h == PitrLock(rp.info.value.setName) || h == BackupLock(rp.info.value, b)))
  {
    if !BackupEligible(rp) {
      BackupIneligibleOnlyLogs(t, b, rp);
      return;
    }
    var ni := rp.info.value;
    var hand := PitrHandoffEffects(t, b, ni, rp.pitrRelease);
    var rest := AcquiredEffects(t, b, ni, rp);
    BackupEligibleShape(t, b, rp);
    assert AcquireLock(h) in hand ==> false;
    assert ReleaseLock(h) in hand ==> h == PitrLock(ni.setName);
    assert AcquireLock(h) in rest ==> false;
    assert ReleaseLock(h) in rest ==> h == BackupLock(ni, b);
  }

  /** The runner runs at most once, and only when the lock was won. */
  lemma BackupRunsIffWon(t: Timing, b: BackupCmd, rp: BackupReplies, x: BackupCmd, d: Duration)
    ensures Count(BackupEffects(t, b, rp), RunBackup(x, d))
      == (if BackupAcquired(rp) && x == b && d == rp.elapsed then 1 else 0)
  {
    var e := BackupEffects(t, b, rp);
    if !BackupAcquired(rp) {
      if BackupEligible(rp) {
        BackupEligibleShape(t, b, rp);
      }
      assert RunBackup(x, d) !in e;
      return;
    }
    var ni := rp.info.value;
    BackupAcquiredShape(t, b, rp);
    var p := [SetIntent(IntentBackup)] + PitrHandoffEffects(t, b, ni, rp.pitrRelease)
      + [AcquireLock(BackupLock(ni, b))];
    var run := RunEffects(b, rp);
    var back := DwellEffects(t, rp.elapsed) + [ReleaseLock(BackupLock(ni, b))]
      + (if rp.release.Err? then [Log(Error, CmdBackup, b.name, ReleaseFailed)] else [])
      + [SetIntent(IntentNone)];
    assert e == p + run + back;
    assert RunBackup(x, d) !in p && RunBackup(x, d) !in back;
    CountConcat(p + run, back, RunBackup(x, d));
    CountConcat(p, run, RunBackup(x, d));
    assert run == [SetBcpCalled(CurrentBackup(b, rp.cancel)), Log(Info, CmdBackup, b.name, Started)]
      + [RunBackup(b, rp.elapsed)] + [UnsetBcpCalled, Log(RunLevel(rp.run), CmdBackup, b.name, RunEvent(rp.run))];
    if x == b && d == rp.elapsed {
      CountOnce([SetBcpCalled(CurrentBackup(b, rp.cancel)), Log(Info, CmdBackup, b.name, Started)], RunBackup(x, d),
        [UnsetBcpCalled, Log(RunLevel(rp.run), CmdBackup, b.name, RunEvent(rp.run))]);
    } else {
      assert RunBackup(x, d) !in run;
    }
  }

  /** The runner's outcome is logged as what it was: a cancellation at Info,
      another error at Error, success at Info. */
  lemma BackupOutcomeLogged(t: Timing, b: BackupCmd, rp: BackupReplies)
    requires BackupAcquired(rp)
    ensures var e := BackupEffects(t, b, rp);
      && (Log(Info, CmdBackup, b.name, Canceled) in e <==> rp.run == RunCancelled)
      && (Log(Error, CmdBackup, b.name, Failed) in e <==> rp.run.RunFailed?)
      && (Log(Info, CmdBackup, b.name, Finished) in e <==> rp.run == RunOk)
  {
    var ni := rp.info.value;
    var q := [SetIntent(IntentBackup)] + PitrHandoffEffects(t, b, ni, rp.pitrRelease)
      + [AcquireLock(BackupLock(ni, b))];
    var dwell := DwellEffects(t, rp.elapsed);
    var rel := [ReleaseLock(BackupLock(ni, b))];
    var tl := (if rp.release.Err? then [Log(Error, CmdBackup, b.name, ReleaseFailed)] else [])
      + [SetIntent(IntentNone)];
    InRunOnly(q, RunEffects(b, rp), dwell, rel, tl, Log(Info, CmdBackup, b.name, Canceled));
    InRunOnly(q, RunEffects(b, rp), dwell, rel, tl, Log(Error, CmdBackup, b.name, Failed));
    InRunOnly(q, RunEffects(b, rp), dwell, rel, tl, Log(Info, CmdBackup, b.name, Finished));
    BackupAcquiredShape(t, b, rp);
  }

  /** Membership in a trace made of five pieces, for an effect only the second can hold. */
  lemma InRunOnly(q: seq<Effect>, run: seq<Effect>, dwell: seq<Effect>, rel: seq<Effect>,
                  tl: seq<Effect>, x: Effect)
    requires x !in q && x !in dwell && x !in rel && x !in tl
    ensures x in q + run + dwell + rel + tl <==> x in run
  {
  }

  /** What may precede the runner's effects in a Backup trace: no call on the slot,
      no run, and no release of the backup lock `lock`. */
  predicate PrecedesRun(x: Effect, lock: LockHeader)
  {
    !x.SetBcpCalled? && !x.RunBackup? && x != UnsetBcpCalled && x != ReleaseLock(lock)
  }

  lemma PrefixPrecedesRun(t: Timing, b: BackupCmd, ni: NodeInfo, rp: BackupReplies)
    ensures var q := [SetIntent(IntentBackup)] + PitrHandoffEffects(t, b, ni, rp.pitrRelease);
      forall x :: x in q ==> PrecedesRun(x, BackupLock(ni, b)) && x != AcquireLock(BackupLock(ni, b))
  {
  }

  /** Positions in a trace made of a prefix, the runner's effects, sleeps,
      the release of `lock` and anything after. */
  lemma LockedLayout(q: seq<Effect>, b: BackupCmd, rp: BackupReplies, dwell: seq<Effect>,
                     lock: LockHeader, tl: seq<Effect>)
    requires forall x :: x in q ==> PrecedesRun(x, lock) && x != AcquireLock(lock)
    requires forall x :: x in dwell ==> x.Sleep?
    ensures var p := q + [AcquireLock(lock)];
      var e := p + RunEffects(b, rp) + dwell + [ReleaseLock(lock)] + tl;
      var n := |p|;
      && n + 6 + |dwell| <= |e|
      && AcquireLock(lock) in e && IndexOf(e, AcquireLock(lock)) == n - 1
      && e[n + 2 .. n + 5 + |dwell|] == [RunBackup(b, rp.elapsed)] + ([UnsetBcpCalled, Log(RunLevel(rp.run), CmdBackup, b.name, RunEvent(rp.run))] + dwell)
      && SetBcpCalled(CurrentBackup(b, rp.cancel)) in e && IndexOf(e, SetBcpCalled(CurrentBackup(b, rp.cancel))) == n
      && RunBackup(b, rp.elapsed) in e && IndexOf(e, RunBackup(b, rp.elapsed)) == n + 2
      && UnsetBcpCalled in e && IndexOf(e, UnsetBcpCalled) == n + 3
      && ReleaseLock(lock) in e && IndexOf(e, ReleaseLock(lock)) == n + 5 + |dwell|
  {
    var p := q + [AcquireLock(lock)];
    var e := p + RunEffects(b, rp) + dwell + [ReleaseLock(lock)] + tl;
    var entry := CurrentBackup(b, rp.cancel);
    var started := Log(Info, CmdBackup, b.name, Started);
    var run := RunBackup(b, rp.elapsed);
    var outcome := Log(RunLevel(rp.run), CmdBackup, b.name, RunEvent(rp.run));
    var z := [ReleaseLock(lock)];
    assert SetBcpCalled(entry) !in p && run !in p && UnsetBcpCalled !in p;
    assert ReleaseLock(lock) !in p && ReleaseLock(lock) !in RunEffects(b, rp) && ReleaseLock(lock) !in dwell;
    assert ReleaseLock(lock) !in p + RunEffects(b, rp) + dwell;

    assert RunEffects(b, rp) == [] + ([SetBcpCalled(entry)] + [started, run, UnsetBcpCalled, outcome]);
    Regroup(p, [], SetBcpCalled(entry), [started, run, UnsetBcpCalled, outcome], dwell, z, tl);
    assert p + [] == p;
    FirstAt(p, SetBcpCalled(entry), [started, run, UnsetBcpCalled, outcome] + dwell, z + tl);

    assert RunEffects(b, rp) == [SetBcpCalled(entry), started] + ([run] + [UnsetBcpCalled, outcome]);
    Regroup(p, [SetBcpCalled(entry), started], run, [UnsetBcpCalled, outcome], dwell, z, tl);
    FirstAt(p + [SetBcpCalled(entry), started], run, [UnsetBcpCalled, outcome] + dwell, z + tl);
    SliceAt(p + [SetBcpCalled(entry), started], [run] + ([UnsetBcpCalled, outcome] + dwell), z + tl);

    assert RunEffects(b, rp) == [SetBcpCalled(entry), started, run] + ([UnsetBcpCalled] + [outcome]);
    Regroup(p, [SetBcpCalled(entry), started, run], UnsetBcpCalled, [outcome], dwell, z, tl);
    FirstAt(p + [SetBcpCalled(entry), started, run], UnsetBcpCalled, [outcome] + dwell, z + tl);

    IndexOfAfter(p + RunEffects(b, rp) + dwell, ReleaseLock(lock), tl);

    RegroupAt(q, AcquireLock(lock), RunEffects(b, rp), dwell, [ReleaseLock(lock)], tl);
    IndexOfAfter(q, AcquireLock(lock), RunEffects(b, rp) + dwell + [ReleaseLock(lock)] + tl);
  }

  /** Where the steps of a Backup that won its lock stand in its trace: the
      runner's effects start right after the acquisition and the release
      right after the dwell. */
  lemma BackupAcquiredPositions(t: Timing, b: BackupCmd, rp: BackupReplies)
    requires BackupAcquired(rp)
    ensures var e := BackupEffects(t, b, rp);
      var ni := rp.info.value;
      var n := |PitrHandoffEffects(t, b, ni, rp.pitrRelease)| + 2;
      var lock := BackupLock(ni, b);
      var dwell := DwellEffects(t, rp.elapsed);
      && n + 6 + |dwell| <= |e|
      && AcquireLock(lock) in e && IndexOf(e, AcquireLock(lock)) == n - 1
      && SetBcpCalled(CurrentBackup(b, rp.cancel)) in e && IndexOf(e, SetBcpCalled(CurrentBackup(b, rp.cancel))) == n
      && RunBackup(b, rp.elapsed) in e && IndexOf(e, RunBackup(b, rp.elapsed)) == n + 2
      && UnsetBcpCalled in e && IndexOf(e, UnsetBcpCalled) == n + 3
      && ReleaseLock(lock) in e && IndexOf(e, ReleaseLock(lock)) == n + 5 + |dwell|
  {
    var ni := rp.info.value;
    var lock := BackupLock(ni, b);
    var q := [SetIntent(IntentBackup)] + PitrHandoffEffects(t, b, ni, rp.pitrRelease);
    var dwell := DwellEffects(t, rp.elapsed);
    var tl := (if rp.release.Err? then [Log(Error, CmdBackup, b.name, ReleaseFailed)] else [])
      + [SetIntent(IntentNone)];
    PrefixPrecedesRun(t, b, ni, rp);
    LockedLayout(q, b, rp, dwell, lock, tl);
    BackupAcquiredShape(t, b, rp);
  }

  /** What lies between the runner and the release in a won Backup's trace:
      the unsetBcp call, the outcome log and the dwell sleep, nothing else. */
  lemma BackupRunToReleaseSlice(t: Timing, b: BackupCmd, rp: BackupReplies)
    requires BackupAcquired(rp)
    ensures var e := BackupEffects(t, b, rp);
      var n := |PitrHandoffEffects(t, b, rp.info.value, rp.pitrRelease)| + 2;
      var dwell := DwellEffects(t, rp.elapsed);
      && n + 6 + |dwell| <= |e|
      && e[n + 2 .. n + 5 + |dwell|] == [RunBackup(b, rp.elapsed)]
           + ([UnsetBcpCalled, Log(RunLevel(rp.run), CmdBackup, b.name, RunEvent(rp.run))] + dwell)
  {
    var ni := rp.info.value;
    var lock := BackupLock(ni, b);
    var q := [SetIntent(IntentBackup)] + PitrHandoffEffects(t, b, ni, rp.pitrRelease);
    var dwell := DwellEffects(t, rp.elapsed);
    var tl := (if rp.release.Err? then [Log(Error, CmdBackup, b.name, ReleaseFailed)] else [])
      + [SetIntent(IntentNone)];
    PrefixPrecedesRun(t, b, ni, rp);
    LockedLayout(q, b, rp, dwell, lock, tl);
    BackupAcquiredShape(t, b, rp);
  }

  /** Once the lock is won: setBcp is called before the runner starts and
      unsetBcp after it returns, and the lock is released after that, before
      the intent flag is reset. Whether setBcp published the entry depends on
      the slot; when another entry sits there, the call leaves it in place. */
  lemma BackupRunOrder(t: Timing, b: BackupCmd, rp: BackupReplies)
    requires BackupAcquired(rp)
    ensures var e := BackupEffects(t, b, rp);
      var lock := BackupLock(rp.info.value, b);
      var entry := CurrentBackup(b, rp.cancel);
      var run := RunBackup(b, rp.elapsed);
      && AcquireLock(lock) in e && SetBcpCalled(entry) in e && run in e && UnsetBcpCalled in e
      && ReleaseLock(lock) in e && SetIntent(IntentNone) in e
      && IndexOf(e, AcquireLock(lock)) < IndexOf(e, SetBcpCalled(entry)) < IndexOf(e, run)
      && IndexOf(e, run) < IndexOf(e, UnsetBcpCalled) < IndexOf(e, ReleaseLock(lock))
      && IndexOf(e, ReleaseLock(lock)) < IndexOf(e, SetIntent(IntentNone))
  {
    BackupAcquiredPositions(t, b, rp);
    BackupIntentReset(t, b, rp);
  }

  /** Time spent from the runner's start to the release, and after the
      runner returns: the runner's own time plus the dwell sleep. */
  lemma RunToReleaseSpan(t: Timing, b: BackupCmd, rp: BackupReplies)
    ensures var s := [RunBackup(b, rp.elapsed)] + ([UnsetBcpCalled, Log(RunLevel(rp.run), CmdBackup, b.name, RunEvent(rp.run))] + DwellEffects(t, rp.elapsed));
      && |s| >= 1
      && Span(s) == Max(rp.elapsed, t.waitBackupStart)
      && Span(s[1..]) == Max(t.waitBackupStart - rp.elapsed, 0)
  {
    var dwell := DwellEffects(t, rp.elapsed);
    var logged := [UnsetBcpCalled, Log(RunLevel(rp.run), CmdBackup, b.name, RunEvent(rp.run))];
    SpanConcat(logged, dwell);
    SpanConcat([RunBackup(b, rp.elapsed)], logged + dwell);
    assert ([RunBackup(b, rp.elapsed)] + (logged + dwell))[1..] == logged + dwell;
  }

  /** Spans of a slice of `e` known to equal `s`, and of its tail. */
  lemma SpanOfSlice(e: seq<Effect>, i: nat, j: nat, s: seq<Effect>, v: Duration, w: Duration)
    requires i < j <= |e| && e[i..j] == s && Span(s) == v && Span(s[1..]) == w
    ensures Span(e[i..j]) == v && Span(e[i + 1 .. j]) == w
  {
    assert e[i + 1 .. j] == s[1..];
  }

  /** The dwell floor: from the runner's start to the lock's release at least
      waitBackupStart passes, and exactly the runner's time when it already
      took that long (no extra wait after it returns). */
  lemma BackupDwellFloor(t: Timing, b: BackupCmd, rp: BackupReplies)
    requires BackupAcquired(rp)
    ensures var e := BackupEffects(t, b, rp);
      var run := RunBackup(b, rp.elapsed);
      var release := ReleaseLock(BackupLock(rp.info.value, b));
      && run in e && release in e && IndexOf(e, run) < IndexOf(e, release)
      && Span(e[IndexOf(e, run) .. IndexOf(e, release)]) == Max(rp.elapsed, t.waitBackupStart)
      && Span(e[IndexOf(e, run) + 1 .. IndexOf(e, release)]) == Max(t.waitBackupStart - rp.elapsed, 0)
  {
    RunToReleaseSpan(t, b, rp);
    BackupAcquiredPositions(t, b, rp);
    BackupRunToReleaseSlice(t, b, rp);
    var e := BackupEffects(t, b, rp);
    var dwell := DwellEffects(t, rp.elapsed);
    var n := |PitrHandoffEffects(t, b, rp.info.value, rp.pitrRelease)| + 2;
    var s := [RunBackup(b, rp.elapsed)] + ([UnsetBcpCalled, Log(RunLevel(rp.run), CmdBackup, b.name, RunEvent(rp.run))] + dwell);
    var run := RunBackup(b, rp.elapsed);
    var release := ReleaseLock(BackupLock(rp.info.value, b));
    var i, j := IndexOf(e, run), IndexOf(e, release);
    assert i == n + 2 && j == n + 5 + |dwell|;
    SpanOfSlice(e, i, j, s, Max(rp.elapsed, t.waitBackupStart), Max(t.waitBackupStart - rp.elapsed, 0));
  }
}
