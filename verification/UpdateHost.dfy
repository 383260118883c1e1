/** The updater program and the agent's update coordinator, changing the install directory and the
    persisted transaction in place.  Every method is a history of the transition system, whatever file
    operation fails or is the last before the process dies. */
module UpdateHost {
  import opened Common
  import opened UpdateTransaction

  /** Where a pass over the files goes wrong: at this file operation, with this content in the temporary
      file if it was being written, by an exception or by the death of the process. */
  datatype Fault = NoFault | FaultAt(op: nat, torn: Option<Content>, dies: bool)

  datatype Outcome = Done | Threw | Died

  datatype Claim = Claim(release: nat, payload: Tree)

  /** What the updater process has come to: it refused the transaction, is waiting for the new build's health,
      saw it completed, rolled back, could not roll back, or is gone. */
  datatype Exit = Refused | AwaitingHealth | Updated | UndoneUpdate | UndoFailed | Dead

  /** The trail grew, and by other steps than preparations. */
  ghost predicate Extends(before: seq<Step>, after: seq<Step>) {
    before <= after && forall k :: |before| <= k < |after| ==> !after[k].Prepare?
  }

  lemma InvCarriesOver(start: Sys, before: seq<Step>, after: seq<Step>)
    requires Extends(before, after) && Inv(History(start, before))
    ensures Inv(History(start, after))
  {
    var more := after[|before|..];
    assert after == before + more;
    assert AllProper(more) by {
      forall k | 0 <= k < |more|
        ensures Proper(more[k])
      {
        assert more[k] == after[|before| + k];
      }
    }
    HistoryConcat(start, before, more);
    TreeIsAlwaysRecoverable(History(start, before), more);
  }

  predicate Dies(fault: Fault) {
    fault.FaultAt? && fault.dies
  }

  class UpdateMachine {
    var files: Tree
    var txn: Option<Txn>
    ghost var pc: Pc
    ghost var original: Tree
    const portable: bool
    ghost const start: Sys
    ghost var trail: seq<Step>

    ghost function Now(): Sys
      reads this
    {
      Sys(files, txn, pc, original)
    }

    /** Everything that happened is a history of the transition system. */
    ghost predicate Tracked()
      reads this
    {
      Now() == History(start, trail)
    }

    /** What the transition system guarantees holds for the machine, whatever was called and whatever went
        wrong: `rolled_back` means the backed-up tree, which is the original one if no preparation replaced
        an unfinished update over a changed tree. */
    lemma RolledBackIsOriginal()
      requires Tracked() && Inv(start) && BackupIsOriginal(start) && AllProper(trail)
      ensures Inv(Now())
      ensures InState(Now(), {RolledBack}) ==> Clean(files, txn.value.backup)
      ensures InState(Now(), {RolledBack}) ==> (Clean(files, original) <==> Clean(txn.value.backup, original))
      ensures InState(Now(), {RolledBack}) && PreparesCleanly(start, trail) ==> Clean(files, original)
    {
      TreeIsAlwaysRecoverable(start, trail);
      if PreparesCleanly(start, trail) {
        CleanPreparationsRestore(start, trail);
      }
    }

    constructor (files: Tree, portable: bool)
      ensures Tracked() && Inv(start) && BackupIsOriginal(start) && trail == []
      ensures this.files == files && original == files && txn.None? && pc.Idle? && this.portable == portable
    {
      this.portable := portable;
      this.files, txn, pc, original := files, None, Idle, files;
      start, trail := Sys(files, None, Idle, files), [];
    }

    ghost method Record(e: Step)
      requires Next(History(start, trail), e) == Now()
      modifies this`trail
      ensures Tracked() && trail == old(trail) + [e]
    {
      HistorySnoc(start, trail, e);
      trail := trail + [e];
    }

    /** A file operation fails: a half-written temporary file may stay, and the process may be gone. */
    method Fail(fault: Fault, temp: Path, writing: bool) returns (outcome: Outcome)
      requires Tracked() && fault.FaultAt?
      requires pc.Copying? || pc.Restoring?
      requires pc.todo != [] && pc.written == !writing
      requires temp == if pc.Copying? then UpdateTemp(pc.todo[0]) else RollbackTemp(pc.todo[0])
      modifies this`files, this`pc, this`trail
      ensures Tracked() && Extends(old(trail), trail)
      ensures outcome == if fault.dies then Died else Threw
      ensures pc == if fault.dies then Idle else old(pc)
      ensures files == if fault.torn.Some? && writing then old(files)[temp := fault.torn.value] else old(files)
    {
      if fault.torn.Some? && writing {
        files := files[temp := fault.torn.value];
        Record(TornWrite(fault.torn.value));
      }
      outcome := Threw;
      if fault.dies {
        outcome, pc := Died, Idle;
        Record(Crash);
      }
    }

    method ReplaceFile(staged: Tree, ghost todo: seq<Path>, file: Path, fault: Fault, op: nat)
      returns (outcome: Outcome)
      requires Tracked() && txn.Some? && txn.value.staged == staged
      requires pc == Copying(todo, false) && todo != [] && file == todo[0] && file in staged
      modifies this`files, this`pc, this`trail
      ensures Tracked() && Extends(old(trail), trail)
      ensures outcome == Done ==> pc == Copying(todo[1..], false) && files == CopyFile(old(files), file, staged[file])
      ensures outcome == Threw ==> pc.Copying?
      ensures outcome == Died ==> pc.Idle? && Dies(fault)
      ensures fault == NoFault ==> outcome == Done
    {
      var temp := UpdateTemp(file);
      if fault.FaultAt? && fault.op == op {
        outcome := Fail(fault, temp, true);
        return;
      }
      files := files[temp := staged[file]];
      pc := Copying(todo, true);
      Record(CopyStep);
      if fault.FaultAt? && fault.op == op + 1 {
        outcome := Fail(fault, temp, false);
        return;
      }
      files := Move(files, temp, file);
      pc := Copying(todo[1..], false);
      Record(CopyStep);
      outcome := Done;
    }

    method CopyTree(staged: Tree, order: seq<Path>, fault: Fault) returns (outcome: Outcome)
      requires Tracked() && txn.Some? && txn.value.staged == staged
      requires pc == Copying(order, false) && Lists(order, staged)
      modifies this`files, this`pc, this`trail
      ensures Tracked() && Extends(old(trail), trail)
      ensures outcome == Done ==> pc == Copying([], false) && files == CopyAll(old(files), staged, order)
      ensures outcome == Threw ==> pc.Copying?
      ensures outcome == Died ==> pc.Idle? && Dies(fault)
      ensures fault == NoFault ==> outcome == Done
    {
      var i := 0;
      assert order[0..] == order;
      while i < |order|
        invariant i <= |order| && Tracked() && Extends(old(trail), trail)
        invariant pc == Copying(order[i..], false)
        invariant forall p <- order[i..] :: p in staged
        invariant CopyAll(files, staged, order[i..]) == CopyAll(old(files), staged, order)
      {
        assert order[i..][0] == order[i] && order[i..][1..] == order[i + 1..];
        outcome := ReplaceFile(staged, order[i..], order[i], fault, 2 * i);
        if outcome != Done {
          return;
        }
        i := i + 1;
      }
      outcome := Done;
    }

    method PutBack(backup: Tree, ghost todo: seq<Path>, file: Path, fault: Fault, op: nat) returns (outcome: Outcome)
      requires Tracked() && txn.Some? && txn.value.backup == backup
      requires pc == Restoring(todo, false) && todo != [] && file == todo[0]
      modifies this`files, this`pc, this`trail
      ensures Tracked() && Extends(old(trail), trail)
      ensures outcome == Done ==> pc == Restoring(todo[1..], false) && files == RestoreFile(old(files), backup, file)
      ensures outcome == Threw ==> pc.Restoring?
      ensures outcome == Died ==> pc.Idle? && Dies(fault)
      ensures fault == NoFault ==> outcome == Done
    {
      var temp := RollbackTemp(file);
      if fault.FaultAt? && fault.op == op {
        outcome := Fail(fault, temp, true);
        return;
      }
      if file !in backup {
        files := files - {file};
      } else {
        files := files[temp := backup[file]];
        pc := Restoring(todo, true);
        Record(RestoreStep);
        if fault.FaultAt? && fault.op == op + 1 {
          outcome := Fail(fault, temp, false);
          return;
        }
        files := Move(files, temp, file);
      }
      pc := Restoring(todo[1..], false);
      Record(RestoreStep);
      outcome := Done;
    }

    method RestoreReplacedFiles(backup: Tree, order: seq<Path>, fault: Fault) returns (outcome: Outcome)
      requires Tracked() && txn.Some? && txn.value.backup == backup && pc == Restoring(order, false)
      modifies this`files, this`pc, this`trail
      ensures Tracked() && Extends(old(trail), trail)
      ensures outcome == Done ==> pc == Restoring([], false) && files == RestoreAll(old(files), backup, order)
      ensures outcome == Threw ==> pc.Restoring?
      ensures outcome == Died ==> pc.Idle? && Dies(fault)
      ensures fault == NoFault ==> outcome == Done
    {
      var i := 0;
      assert order[0..] == order;
      while i < |order|
        invariant i <= |order| && Tracked() && Extends(old(trail), trail)
        invariant pc == Restoring(order[i..], false)
        invariant RestoreAll(files, backup, order[i..]) == RestoreAll(old(files), backup, order)
      {
        assert order[i..][0] == order[i] && order[i..][1..] == order[i + 1..];
        outcome := PutBack(backup, order[i..], order[i], fault, 2 * i);
        if outcome != Done {
          return;
        }
        i := i + 1;
      }
      outcome := Done;
    }

    method Save(state: State)
      requires txn.Some?
      modifies this`txn
      ensures txn == Some(old(txn).value.(state := state))
    {
      txn := Some(txn.value.(state := state));
    }

    method EndRollback(restored: Outcome, restarted: bool) returns (outcome: Outcome)
      requires Tracked() && txn.Some? && restored != Died
      requires if restored == Done then pc == Restoring([], false) else pc.Restoring?
      modifies this`txn, this`pc, this`trail
      ensures Tracked() && Extends(old(trail), trail) && pc.Idle?
      ensures outcome == if restored == Done && restarted then Done else Threw
      ensures txn == Some(old(txn).value.(state := if outcome == Done then RolledBack else RollbackFailed))
      ensures files == old(files)
    {
      if restored == Threw {
        Save(RollbackFailed);
        pc := Idle;
        Record(RestoreFails);
        return Threw;
      }
      Save(if restarted then RolledBack else RollbackFailed);
      pc := Idle;
      Record(RestoreEnds(restarted));
      return if restarted then Done else Threw;
    }

    /** The rollback branch; a host that does not stop is a fault before the first file.  It ends in `rolled_back`
        only after a complete restoring pass. */
    method Rollback(order: seq<Path>, fault: Fault, restarted: bool) returns (outcome: Outcome)
      requires Tracked() && txn.Some? && Lists(order, txn.value.staged)
      requires pc.Stopping? || pc.Copying? || pc.Starting? || pc.Waiting?
      modifies this`files, this`txn, this`pc, this`trail
      ensures Tracked() && Extends(old(trail), trail) && pc.Idle?
      ensures outcome == Done ==>
                && restarted && txn == Some(old(txn).value.(state := RolledBack))
                && files == RestoreAll(old(files), old(txn).value.backup, order)
      ensures outcome == Threw ==> txn == Some(old(txn).value.(state := RollbackFailed))
      ensures outcome == Died ==> txn == old(txn) && Dies(fault)
      ensures fault == NoFault ==> outcome == if restarted then Done else Threw
    {
      pc := Restoring(order, false);
      Record(Abort(order));
      outcome := RestoreReplacedFiles(txn.value.backup, order, fault);
      if outcome != Died {
        outcome := EndRollback(outcome, restarted);
      }
    }

    /** Rolls back, and ends the updater with the result.  `before` is the trail on which it was entered. */
    method Undo(order: seq<Path>, fault: Fault, restarted: bool, ghost before: seq<Step>) returns (exit: Exit)
      requires Tracked() && txn.Some? && Lists(order, txn.value.staged) && Extends(before, trail)
      requires pc.Stopping? || pc.Copying? || pc.Starting? || pc.Waiting?
      modifies this`files, this`txn, this`pc, this`trail
      ensures Tracked() && Extends(before, trail) && pc.Idle?
      ensures exit in {UndoneUpdate, UndoFailed, Dead}
      ensures exit.Dead? ==> Dies(fault)
      ensures fault == NoFault ==> exit == if restarted then UndoneUpdate else UndoFailed
      ensures exit.UndoneUpdate? ==>
                && restarted && txn == Some(old(txn).value.(state := RolledBack))
                && files == RestoreAll(old(files), old(txn).value.backup, order)
                && (Inv(History(start, before)) ==> Clean(files, txn.value.backup))
      ensures exit.UndoFailed? ==> txn == Some(old(txn).value.(state := RollbackFailed))
      ensures exit.Dead? ==> txn == old(txn)
    {
      var undone := Rollback(order, fault, restarted);
      if undone == Done {
        if Inv(History(start, before)) {
          InvCarriesOver(start, before, trail);
        }
        return UndoneUpdate;
      }
      return if undone == Threw then UndoFailed else Dead;
    }

    /** Start the new build once all files are in place. */
    method StartHost(hostStarts: bool) returns (outcome: Outcome)
      requires Tracked() && pc == Copying([], false) && txn.Some?
      modifies this`txn, this`pc, this`trail
      ensures Tracked() && Extends(old(trail), trail)
      ensures outcome == if hostStarts then Done else Threw
      ensures if hostStarts then pc.Waiting? else pc.Starting?
      ensures txn == Some(old(txn).value.(state := if hostStarts then VerifyingHealth else FilesReplaced))
    {
      Save(FilesReplaced);
      pc := Starting;
      Record(CopyStep);
      if !hostStarts {
        return Threw;
      }
      Save(VerifyingHealth);
      pc := Waiting;
      Record(HostStarted);
      return Done;
    }

    /** Replace the files and start the new build; on success the updater waits for its health. */
    method Replace(copyOrder: seq<Path>, copyFault: Fault, hostStarts: bool) returns (outcome: Outcome)
      requires Tracked() && pc.Stopping? && txn.Some? && Lists(copyOrder, txn.value.staged)
      modifies this`files, this`txn, this`pc, this`trail
      ensures Tracked() && Extends(old(trail), trail)
      ensures txn.Some? && txn == Some(old(txn).value.(state := txn.value.state))
      ensures outcome == Done ==>
                && pc.Waiting? && txn == Some(old(txn).value.(state := VerifyingHealth))
                && files == CopyAll(old(files), old(txn).value.staged, copyOrder)
      ensures outcome == Threw ==> pc.Copying? || pc.Starting?
      ensures outcome == Died ==> pc.Idle? && Dies(copyFault)
      ensures outcome == Done ==> hostStarts
      ensures copyFault == NoFault && hostStarts ==> outcome == Done
    {
      Save(ServiceStopped);
      pc := Copying(copyOrder, false);
      Record(Begin(copyOrder));
      outcome := CopyTree(txn.value.staged, copyOrder, copyFault);
      if outcome == Done {
        outcome := StartHost(hostStarts);
      }
    }

    /** The updater once it has accepted a transaction.  `before` is the trail on which it was entered. */
    method InstallAccepted(copyOrder: seq<Path>, restoreOrder: seq<Path>, hostStops: bool, copyFault: Fault,
                           hostStarts: bool, restoreFault: Fault, restarted: bool, ghost before: seq<Step>)
      returns (exit: Exit)
      requires Tracked() && pc.Stopping? && txn.Some? && Extends(before, trail)
      requires Lists(copyOrder, txn.value.staged) && Lists(restoreOrder, txn.value.staged)
      modifies this`files, this`txn, this`pc, this`trail
      ensures Tracked() && Extends(before, trail)
      ensures exit in {AwaitingHealth, UndoneUpdate, UndoFailed, Dead}
      ensures hostStops && copyFault == NoFault && hostStarts ==> exit.AwaitingHealth?
      ensures !Dies(copyFault) && restoreFault == NoFault ==>
                exit in {AwaitingHealth, if restarted then UndoneUpdate else UndoFailed}
      ensures exit.AwaitingHealth? ==>
                && hostStops && hostStarts && pc.Waiting?
                && txn == Some(old(txn).value.(state := VerifyingHealth))
                && files == CopyAll(old(files), old(txn).value.staged, copyOrder)
                && (NoTempStaged(old(txn).value.staged) ==> InPlace(files, old(txn).value.staged))
      ensures !exit.AwaitingHealth? ==> pc.Idle?
      ensures exit.Dead? ==> Dies(copyFault) || Dies(restoreFault)
      ensures exit.UndoneUpdate? ==>
                && restarted && txn == Some(old(txn).value.(state := RolledBack))
                && (Inv(History(start, before)) ==> Clean(files, old(txn).value.backup))
      ensures exit.UndoFailed? ==> txn == Some(old(txn).value.(state := RollbackFailed))
    {
      if hostStops {
        var replaced := Replace(copyOrder, copyFault, hostStarts);
        if replaced == Died {
          return Dead;
        }
        if replaced == Done {
          if NoTempStaged(old(txn).value.staged) {
            StagedInPlace(old(files), old(txn).value.staged, copyOrder);
          }
          return AwaitingHealth;
        }
      }
      exit := Undo(restoreOrder, restoreFault, restarted, before);
    }

    /** The updater up to the health wait: it installs only a complete transaction that says `restarting`, and
        undoes it on the first thing that goes wrong. */
    method Install(copyOrder: seq<Path>, restoreOrder: seq<Path>, hostStops: bool, copyFault: Fault,
                   hostStarts: bool, restoreFault: Fault, restarted: bool) returns (exit: Exit)
      requires Tracked() && pc.Idle?
      requires txn.Some? ==> Lists(copyOrder, txn.value.staged) && Lists(restoreOrder, txn.value.staged)
      modifies this`files, this`txn, this`pc, this`trail
      ensures Tracked() && Extends(old(trail), trail)
      ensures exit.Refused? <==> !InState(old(Now()), {Restarting}) || !Installable(old(txn).value)
      ensures !exit.Refused? <==>
                && old(txn).Some? && old(txn).value.state == Restarting
                && var t, exe := old(txn).value,
                       if old(txn).value.portable then "JtlSyncEngine.exe" else "JtlSyncEngine.Service.exe";
                   && exe in t.staged && "JtlSyncEngine.Updater.exe" in t.staged && "version.json" in t.staged
                   && exe in t.backup
      ensures exit.Refused? ==> Now() == old(Now())
      ensures !exit.Refused? && hostStops && copyFault == NoFault && hostStarts ==> exit.AwaitingHealth?
      ensures !Dies(copyFault) && restoreFault == NoFault ==>
                exit in {Refused, AwaitingHealth, if restarted then UndoneUpdate else UndoFailed}
      ensures exit.AwaitingHealth? ==>
                && hostStops && hostStarts && pc.Waiting?
                && txn == Some(old(txn).value.(state := VerifyingHealth))
                && files == CopyAll(old(files), old(txn).value.staged, copyOrder)
                && (NoTempStaged(old(txn).value.staged) ==> InPlace(files, old(txn).value.staged))
      ensures !exit.AwaitingHealth? ==> pc.Idle?
      ensures exit.Dead? ==> Dies(copyFault) || Dies(restoreFault)
      ensures exit.UndoneUpdate? ==>
                && restarted && txn == Some(old(txn).value.(state := RolledBack))
                && (Inv(old(Now())) ==> Clean(files, old(txn).value.backup))
      ensures exit.UndoFailed? ==> txn == Some(old(txn).value.(state := RollbackFailed))
      ensures exit != Updated
    {
      if txn.None? || txn.value.state != Restarting || !Installable(txn.value) {
        return Refused;
      }
      pc := Stopping;
      Record(Spawn);
      exit := InstallAccepted(copyOrder, restoreOrder, hostStops, copyFault, hostStarts, restoreFault, restarted,
                              old(trail));
    }

    /** One look at the transaction during the health wait. */
    method CheckHealth(timedOut: bool, restoreOrder: seq<Path>, restoreFault: Fault, restarted: bool)
      returns (exit: Exit)
      requires Tracked() && pc.Waiting? && txn.Some? && Lists(restoreOrder, txn.value.staged)
      modifies this`files, this`txn, this`pc, this`trail
      ensures Tracked() && Extends(old(trail), trail)
      ensures exit.Updated? <==> InState(old(Now()), {Completed})
      ensures exit.Updated? ==> files == old(files) && txn == old(txn) && pc.Idle?
      ensures exit.AwaitingHealth? <==> !InState(old(Now()), {Completed, HealthFailed}) && !timedOut
      ensures exit.AwaitingHealth? ==> Now() == old(Now())
      ensures exit.Dead? ==> Dies(restoreFault) && pc.Idle?
      ensures restoreFault == NoFault ==> exit in {Updated, AwaitingHealth, if restarted then UndoneUpdate
                                                   else UndoFailed}
      ensures exit.UndoneUpdate? ==>
                && restarted && txn == Some(old(txn).value.(state := RolledBack))
                && (Inv(old(Now())) ==> Clean(files, old(txn).value.backup))
      ensures exit.UndoFailed? ==> txn == Some(old(txn).value.(state := RollbackFailed))
      ensures exit != Refused
    {
      if txn.value.state == Completed {
        pc := Idle;
        Record(HealthSeen);
        return Updated;
      }
      if txn.value.state != HealthFailed && !timedOut {
        return AwaitingHealth;
      }
      exit := Undo(restoreOrder, restoreFault, restarted, old(trail));
    }

    /** Copies the install directory file by file; a cancelled backup is no backup. */
    method BackupAsync(listing: seq<Path>, cancelledAt: nat) returns (backup: Option<Tree>)
      requires Lists(listing, files)
      ensures backup == if cancelledAt < |listing| then None else Some(files)
    {
      var copy: Tree := map[];
      var i := 0;
      while i < |listing|
        invariant i <= |listing| && i <= cancelledAt
        invariant forall p :: p in copy <==> p in listing[..i]
        invariant forall p <- copy :: p in files && copy[p] == files[p]
      {
        if i == cancelledAt {
          return None;
        }
        assert listing[i] in listing;
        assert listing[..i + 1] == listing[..i] + [listing[i]];
        copy := copy[listing[i] := files[listing[i]]];
        i := i + 1;
      }
      assert listing[..i] == listing;
      assert copy == files;
      backup := Some(copy);
    }

    /** Saves a new transaction for a staged payload and its backup. */
    method SaveStaged(update: Claim, backup: Tree)
      requires Tracked() && AgentAlive(Now()) && !Reusable(txn, update.release) && backup == files
      modifies this`txn, this`original, this`trail
      ensures Tracked() && old(trail) <= trail
      ensures txn == Some(Txn(update.release, portable, Staged, update.payload, files))
      ensures original == if Unfinished(old(txn)) then old(original) else files
    {
      ghost var again := Unfinished(txn);
      txn := Some(Txn(update.release, portable, Staged, update.payload, backup));
      original := if again then original else files;
      Record(Prepare(update.release, portable, update.payload));
    }

    /** One poll: reuse a staged transaction of the same release, or stage and back up anew; then, if the
        maintenance window is open, say `restarting`, report that to the backend and launch the updater.  Without a
        report that is answered nothing is launched. */
    method PollAsync(claim: Option<Claim>, listing: seq<Path>, cancelledAt: nat, windowOpen: bool, answered: bool)
      returns (launched: bool)
      requires Tracked() && AgentAlive(Now()) && Lists(listing, files)
      modifies this`txn, this`original, this`trail
      ensures Tracked() && old(trail) <= trail
      ensures var reuse := && claim.Some? && old(txn).Some? && old(txn).value.release == claim.value.release
                           && (old(txn).value.state == Staged || old(txn).value.state == Restarting);
              var staged := claim.Some? && !reuse && cancelledAt >= |listing|;
              && (launched <==> windowOpen && answered && (reuse || staged))
              && (reuse ==>
                    && txn == Some(old(txn).value.(state := if windowOpen then Restarting else old(txn).value.state))
                    && original == old(original))
              && (staged ==>
                    && txn == Some(Txn(claim.value.release, portable, if windowOpen then Restarting else Staged,
                                       claim.value.payload, files))
                    && original == if Unfinished(old(txn)) then old(original) else files)
              && (!reuse && !staged ==> Now() == old(Now()))
    {
      launched := false;
      if claim.Some? {
        var update := claim.value;
        if txn.None? || txn.value.release != update.release || txn.value.state !in {Staged, Restarting} {
          var backup := BackupAsync(listing, cancelledAt);
          if backup.None? {
            return;
          }
          SaveStaged(update, backup.value);
        }
        if windowOpen {
          Save(Restarting);
          Record(Launch);
          launched := answered;
        }
      }
    }

    /** Recovery of one pending transaction when the agent starts: report a rollback, launch the updater again from
        the old build at a safe boundary, or confirm the new build.  `healthy` says that the new build has kept its
        identity and answers locally, `accepted` that the backend accepts the report. */
    method RecoverAsync(runsTarget: bool, runsCurrent: bool, safeBoundary: bool, healthy: bool, accepted: bool)
      returns (launched: bool)
      requires Tracked() && AgentAlive(Now())
      modifies this`txn, this`trail
      ensures Tracked() && Extends(old(trail), trail)
      ensures launched <==>
                && InState(old(Now()), {Restarting, ServiceStopped, FilesReplaced, VerifyingHealth})
                && !runsTarget && runsCurrent && safeBoundary
      ensures InState(old(Now()), {RolledBack, RollbackFailed}) ==>
                txn == if accepted then Some(old(txn).value.(state := RollbackReported)) else old(txn)
      ensures InState(old(Now()), {Restarting, ServiceStopped, FilesReplaced, VerifyingHealth}) ==>
                txn ==
                if runsTarget && healthy && accepted then Some(old(txn).value.(state := Completed))
                else if runsTarget && healthy then Some(old(txn).value.(state := VerifyingHealth))
                else if !runsTarget && runsCurrent && safeBoundary then Some(old(txn).value.(state := Restarting))
                else old(txn)
      ensures !InState(old(Now()), {Restarting, ServiceStopped, FilesReplaced, VerifyingHealth, RolledBack,
                                    RollbackFailed}) ==>
                Now() == old(Now())
    {
      launched := false;
      if txn.None? || txn.value.state !in {Restarting, ServiceStopped, FilesReplaced, VerifyingHealth, RolledBack,
                                           RollbackFailed} {
        return;
      }
      if txn.value.state in {RolledBack, RollbackFailed} {
        if accepted {
          Save(RollbackReported);
          Record(Report);
        }
        return;
      }
      if !runsTarget {
        if runsCurrent && safeBoundary {
          Save(Restarting);
          Record(Relaunch);
          launched := true;
        }
        return;
      }
      if !healthy {
        return;
      }
      Save(VerifyingHealth);
      Record(Confirm);
      if accepted {
        Save(Completed);
        Record(Complete);
      }
    }

    /** A whole update without faults, updater and new build together: if the new build is healthy and the backend
        accepts its report, the update ends with every staged file in place; otherwise the updater waits, and after
        its deadline restores the backed-up tree. */
    method UpdateAndConfirm(copyOrder: seq<Path>, restoreOrder: seq<Path>, runsCurrent: bool, safeBoundary: bool,
                            healthy: bool, accepted: bool, timedOut: bool)
      returns (exit: Exit)
      requires Tracked() && Inv(Now()) && pc.Idle? && InState(Now(), {Restarting}) && Installable(txn.value)
      requires Lists(copyOrder, txn.value.staged) && Lists(restoreOrder, txn.value.staged)
      modifies this`files, this`txn, this`pc, this`trail
      ensures Tracked() && txn.Some?
      ensures healthy && accepted ==>
                && exit.Updated? && pc.Idle? && txn == Some(old(txn).value.(state := Completed))
                && InPlace(files, old(txn).value.staged)
                && files == CopyAll(old(files), old(txn).value.staged, copyOrder)
      ensures !(healthy && accepted) && !timedOut ==>
                && exit.AwaitingHealth? && txn == Some(old(txn).value.(state := VerifyingHealth))
                && InPlace(files, old(txn).value.staged)
      ensures !(healthy && accepted) && timedOut ==>
                && exit.UndoneUpdate? && InState(Now(), {RolledBack}) && Clean(files, old(txn).value.backup)
    {
      exit := Install(copyOrder, restoreOrder, true, NoFault, true, NoFault, true);
      assert Inv(Now()) by { InvCarriesOver(start, old(trail), trail); }
      label Installed:
      var relaunched := RecoverAsync(true, runsCurrent, safeBoundary, healthy, accepted);
      assert Inv(Now()) by { InvCarriesOver(start, old@Installed(trail), trail); }
      exit := CheckHealth(timedOut, restoreOrder, NoFault, true);
    }
  }
}
