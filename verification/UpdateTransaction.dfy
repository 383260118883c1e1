/** The self-update: agent and updater share a persisted transaction over an install directory.  Files
    are replaced one by one, the process can die between any two file operations, and rollback has to
    give back the tree that the update started from. */
module UpdateTransaction {
  import opened Common

  type Path = string
  type Content = int
  type Tree = map<Path, Content>

  // ---------------------------------------------------------------------------------------------
  // Trees
  // ---------------------------------------------------------------------------------------------

  function UpdateTemp(p: Path): Path { p + ".update" }

  function RollbackTemp(p: Path): Path { p + ".rollback" }

  predicate EndsWith(p: Path, suffix: string) {
    |suffix| <= |p| && p[|p| - |suffix|..] == suffix
  }

  /** The names that the updater uses for files it is still writing. */
  predicate IsTemp(p: Path) {
    EndsWith(p, ".update") || EndsWith(p, ".rollback")
  }

  lemma TempNames(p: Path)
    ensures IsTemp(UpdateTemp(p)) && IsTemp(RollbackTemp(p))
  {
  }

  /** Temporary names are those of files with one of the two suffixes. */
  lemma TempNamesIff(p: Path)
    ensures IsTemp(p) <==> exists q: Path :: p == q + ".update" || p == q + ".rollback"
  {
    if EndsWith(p, ".update") {
      assert p == p[..|p| - 7] + ".update";
    }
    if EndsWith(p, ".rollback") {
      assert p == p[..|p| - 9] + ".rollback";
    }
    if q: Path :| p == q + ".update" || p == q + ".rollback" {
      assert IsTemp(p);
    }
  }

  predicate Same(a: Tree, b: Tree, p: Path) {
    (p in a <==> p in b) && (p in a ==> a[p] == b[p])
  }

  /** The two trees agree on every file that is not a temporary one. */
  ghost predicate Clean(files: Tree, original: Tree) {
    forall p :: !IsTemp(p) ==> Same(files, original, p)
  }

  /** The original tree with some of the staged files laid over it. */
  ghost predicate Overlay(files: Tree, original: Tree, staged: Tree) {
    forall p :: !IsTemp(p) ==> Same(files, original, p) || (p in staged && p in files && files[p] == staged[p])
  }

  ghost predicate NoTempStaged(staged: Tree) {
    forall p <- staged :: !IsTemp(p)
  }

  function Move(files: Tree, from: Path, to: Path): Tree
    requires from in files
  {
    (files - {from})[to := files[from]]
  }

  // ---------------------------------------------------------------------------------------------
  // The transaction as a transition system
  // ---------------------------------------------------------------------------------------------

  datatype State =
    | Staged | Restarting | ServiceStopped | FilesReplaced | VerifyingHealth | Completed | HealthFailed
    | RolledBack | RollbackFailed | RollbackReported

  datatype Txn = Txn(release: nat, portable: bool, state: State, staged: Tree, backup: Tree)

  /** The files without which the updater refuses a transaction. */
  function Executable(portable: bool): Path {
    if portable then "JtlSyncEngine.exe" else "JtlSyncEngine.Service.exe"
  }

  const UPDATER := "JtlSyncEngine.Updater.exe"
  const VERSION_FILE := "version.json"

  predicate Installable(t: Txn) {
    && Executable(t.portable) in t.staged && UPDATER in t.staged && VERSION_FILE in t.staged
    && Executable(t.portable) in t.backup
  }

  /** Where the updater process is: not running, waiting for the host to stop, copying or restoring (with
      the files left to do, and whether the temporary file of the first is complete), about to start
      the host, or waiting for its health. */
  datatype Pc =
    | Idle
    | Stopping
    | Copying(todo: seq<Path>, written: bool)
    | Starting
    | Waiting
    | Restoring(todo: seq<Path>, written: bool)

  /** `original` is the tree from which the current update started. */
  datatype Sys = Sys(files: Tree, txn: Option<Txn>, pc: Pc, original: Tree)

  datatype Step =
    // the agent
    | Prepare(release: nat, portable: bool, payload: Tree)
    | Launch
    | Relaunch
    | Confirm
    | Complete
    | Report
    // the updater
    | Spawn
    | Begin(order: seq<Path>)
    | CopyStep
    | HostStarted
    | HealthSeen
    | Abort(order: seq<Path>)
    | RestoreStep
    | RestoreEnds(restarted: bool)
    | RestoreFails
    | TornWrite(content: Content)
    | Crash

  /** An agent runs only while the updater does not need it stopped. */
  predicate AgentAlive(s: Sys) {
    s.pc in {Idle, Stopping, Waiting}
  }

  /** A transaction that a new preparation replaces before it came to an end. */
  predicate Unfinished(t: Option<Txn>) {
    t.Some? && t.value.state !in {Completed, RolledBack, RollbackReported}
  }

  predicate Reusable(t: Option<Txn>, release: nat) {
    t.Some? && t.value.release == release && t.value.state in {Staged, Restarting}
  }

  predicate InState(s: Sys, states: set<State>) {
    s.txn.Some? && s.txn.value.state in states
  }

  function Become(s: Sys, state: State): Sys
    requires s.txn.Some?
  {
    s.(txn := Some(s.txn.value.(state := state)))
  }

  /** The staged files in some order, each once. */
  ghost predicate Lists(order: seq<Path>, staged: Tree) {
    (forall p :: p in order <==> p in staged) && (forall i, j :: 0 <= i < j < |order| ==> order[i] != order[j])
  }

  function CopyNext(s: Sys): Sys
    requires s.pc.Copying? && s.txn.Some?
  {
    var t, todo := s.txn.value, s.pc.todo;
    if todo == [] then Become(s, FilesReplaced).(pc := Starting)
    else if todo[0] !in t.staged then s
    else if !s.pc.written then s.(files := s.files[UpdateTemp(todo[0]) := t.staged[todo[0]]], pc := Copying(todo, true))
    else if UpdateTemp(todo[0]) !in s.files then s
    else s.(files := Move(s.files, UpdateTemp(todo[0]), todo[0]), pc := Copying(todo[1..], false))
  }

  function RestoreNext(s: Sys): Sys
    requires s.pc.Restoring? && s.txn.Some?
  {
    var t, todo := s.txn.value, s.pc.todo;
    if todo == [] then s
    else if todo[0] !in t.backup then s.(files := s.files - {todo[0]}, pc := Restoring(todo[1..], false))
    else if !s.pc.written then s.(files := s.files[RollbackTemp(todo[0]) := t.backup[todo[0]]],
                                  pc := Restoring(todo, true))
    else if RollbackTemp(todo[0]) !in s.files then s
    else s.(files := Move(s.files, RollbackTemp(todo[0]), todo[0]), pc := Restoring(todo[1..], false))
  }

  /** Writing a temporary file is interrupted and leaves some content behind. */
  function Tear(s: Sys, content: Content): Sys {
    match s.pc
    case Copying(todo, false) => if todo == [] then s else s.(files := s.files[UpdateTemp(todo[0]) := content])
    case Restoring(todo, false) => if todo == [] then s else s.(files := s.files[RollbackTemp(todo[0]) := content])
    case _ => s
  }

  /** A step that its guard forbids changes nothing. */
  ghost function Next(s: Sys, e: Step): Sys {
    match e
    case Prepare(release, portable, payload) =>
      if !AgentAlive(s) || Reusable(s.txn, release) then s
      else s.(txn := Some(Txn(release, portable, Staged, payload, s.files)),
              original := if Unfinished(s.txn) then s.original else s.files)
    case Launch => if AgentAlive(s) && InState(s, {Staged, Restarting}) then Become(s, Restarting) else s
    case Relaunch =>
      if AgentAlive(s) && InState(s, {Restarting, ServiceStopped, FilesReplaced, VerifyingHealth})
        then Become(s, Restarting) else s
    case Confirm =>
      if AgentAlive(s) && InState(s, {Restarting, ServiceStopped, FilesReplaced, VerifyingHealth})
        then Become(s, VerifyingHealth) else s
    case Complete => if AgentAlive(s) && InState(s, {VerifyingHealth}) then Become(s, Completed) else s
    case Report => if AgentAlive(s) && InState(s, {RolledBack, RollbackFailed}) then Become(s, RollbackReported) else s
    case Spawn => if s.pc.Idle? && InState(s, {Restarting}) && Installable(s.txn.value) then s.(pc := Stopping) else s
    case Begin(order) =>
      if s.pc.Stopping? && s.txn.Some? && Lists(order, s.txn.value.staged)
      then Become(s, ServiceStopped).(pc := Copying(order, false)) else s
    case CopyStep => if s.pc.Copying? && s.txn.Some? then CopyNext(s) else s
    case HostStarted => if s.pc.Starting? && s.txn.Some? then Become(s, VerifyingHealth).(pc := Waiting) else s
    case HealthSeen => if s.pc.Waiting? && InState(s, {Completed}) then s.(pc := Idle) else s
    case Abort(order) =>
      if (s.pc.Stopping? || s.pc.Copying? || s.pc.Starting? || s.pc.Waiting?) && s.txn.Some?
        && Lists(order, s.txn.value.staged)
      then s.(pc := Restoring(order, false)) else s
    case RestoreStep => if s.pc.Restoring? && s.txn.Some? then RestoreNext(s) else s
    case RestoreEnds(restarted) =>
      if s.pc == Restoring([], false) && s.txn.Some?
      then Become(s, if restarted then RolledBack else RollbackFailed).(pc := Idle) else s
    case RestoreFails => if s.pc.Restoring? && s.txn.Some? then Become(s, RollbackFailed).(pc := Idle) else s
    case TornWrite(content) => Tear(s, content)
    case Crash => s.(pc := Idle)
  }

  ghost function History(s: Sys, steps: seq<Step>): Sys
    decreases |steps|
  {
    if steps == [] then s else History(Next(s, steps[0]), steps[1..])
  }

  // ---------------------------------------------------------------------------------------------
  // What every step keeps
  // ---------------------------------------------------------------------------------------------

  /** What the updater has done so far in its current pass over the staged files. */
  ghost predicate Progress(s: Sys, t: Txn) {
    match s.pc
    case Copying(todo, written) =>
      && t.state == ServiceStopped
      && (forall p <- todo :: p in t.staged)
      && (forall p <- t.staged :: p !in todo ==> p in s.files && s.files[p] == t.staged[p])
      && (written ==> todo != [] && UpdateTemp(todo[0]) in s.files && s.files[UpdateTemp(todo[0])] == t.staged[todo[0]])
    case Restoring(todo, written) =>
      && (forall p <- todo :: p in t.staged)
      && (forall p <- t.staged :: p !in todo ==> Same(s.files, t.backup, p))
      && (written ==> todo != [] && todo[0] in t.backup
                      && RollbackTemp(todo[0]) in s.files && s.files[RollbackTemp(todo[0])] == t.backup[todo[0]])
    case Starting => t.state == FilesReplaced && forall p <- t.staged :: p in s.files && s.files[p] == t.staged[p]
    case _ => true
  }

  /** At every point the tree is the one that was backed up, with staged files on some staged paths; in the
      states where the transaction says so it is the backed-up tree itself. */
  ghost predicate Inv(s: Sys) {
    match s.txn
    case None => s.pc == Idle
    case Some(t) =>
      && NoTempStaged(t.staged)
      && Overlay(s.files, t.backup, t.staged)
      && (t.state in {Staged, RolledBack} ==> Clean(s.files, t.backup))
      && Progress(s, t)
  }

  /** No release ships files under the updater's temporary names. */
  ghost predicate Proper(e: Step) {
    e.Prepare? ==> NoTempStaged(e.payload)
  }

  ghost predicate AllProper(steps: seq<Step>) {
    forall e <- steps :: Proper(e)
  }

  lemma CopyKeepsInv(s: Sys)
    requires Inv(s)
    ensures Inv(Next(s, CopyStep))
  {
    if s.pc.Copying? {
      var t, todo, s' := s.txn.value, s.pc.todo, Next(s, CopyStep);
      if todo != [] {
        TempNames(todo[0]);
        assert todo == [todo[0]] + todo[1..];
        assert todo[0] in t.staged;
        forall p | p in t.staged && s.pc.written && p !in todo[1..]
          ensures p in s'.files && s'.files[p] == t.staged[p]
        {
          assert p == todo[0] || p !in todo;
        }
      }
    }
  }

  lemma RestoreKeepsInv(s: Sys)
    requires Inv(s)
    ensures Inv(Next(s, RestoreStep))
  {
    if s.pc.Restoring? {
      var t, todo, s' := s.txn.value, s.pc.todo, Next(s, RestoreStep);
      if todo != [] {
        TempNames(todo[0]);
        assert todo == [todo[0]] + todo[1..];
        assert todo[0] in t.staged && !IsTemp(todo[0]);
        forall p | p in t.staged && p !in s'.pc.todo
          ensures Same(s'.files, t.backup, p)
        {
          assert p == todo[0] || p !in todo;
        }
      }
    }
  }

  lemma RestoreEndsClean(s: Sys)
    requires Inv(s) && s.pc == Restoring([], false)
    ensures Clean(s.files, s.txn.value.backup)
  {
  }

  lemma TornWriteKeepsInv(s: Sys, content: Content)
    requires Inv(s)
    ensures Inv(Next(s, TornWrite(content)))
  {
    if (s.pc.Copying? || s.pc.Restoring?) && s.pc.todo != [] {
      TempNames(s.pc.todo[0]);
    }
  }

  lemma StepKeepsInv(s: Sys, e: Step)
    requires Inv(s) && Proper(e)
    ensures Inv(Next(s, e))
  {
    match e
    case CopyStep => CopyKeepsInv(s);
    case RestoreStep => RestoreKeepsInv(s);
    case RestoreEnds(_) => if s.pc == Restoring([], false) { RestoreEndsClean(s); }
    case TornWrite(content) => TornWriteKeepsInv(s, content);
    case _ =>
  }

  /** Through any interleaving of agent and updater, any number of crashes between or inside file
      operations, and any number of relaunches and new preparations: the tree is always the backed-up one
      overlaid by staged files on staged paths, and a transaction in state rolled back means the backed-up
      tree.  So the rolled-back tree is the one the update started from if and only if the last preparation
      backed that one up. */
  lemma {:induction false} TreeIsAlwaysRecoverable(s: Sys, steps: seq<Step>)
    requires Inv(s) && AllProper(steps)
    ensures var s' := History(s, steps);
            && Inv(s')
            && (s'.txn.Some? ==> Overlay(s'.files, s'.txn.value.backup, s'.txn.value.staged))
            && (InState(s', {RolledBack}) ==>
                  && Clean(s'.files, s'.txn.value.backup)
                  && (Clean(s'.files, s'.original) <==> Clean(s'.txn.value.backup, s'.original)))
    decreases |steps|
  {
    if steps != [] {
      StepKeepsInv(s, steps[0]);
      TreeIsAlwaysRecoverable(Next(s, steps[0]), steps[1..]);
    } else if InState(s, {RolledBack}) {
      CleanIsShared(s.files, s.txn.value.backup, s.original);
    }
  }

  lemma CleanIsShared(a: Tree, b: Tree, original: Tree)
    requires Clean(a, b)
    ensures Clean(a, original) <==> Clean(b, original)
  {
    forall p | !IsTemp(p)
      ensures Same(a, original, p) <==> Same(b, original, p)
    {
      assert Same(a, b, p);
    }
  }

  // ---------------------------------------------------------------------------------------------
  // Preparing again
  // ---------------------------------------------------------------------------------------------

  /** While the updater copies, restores or starts the host, nothing that the agent does changes anything. */
  lemma AgentWaits(s: Sys, e: Step)
    requires s.pc.Copying? || s.pc.Starting? || s.pc.Restoring?
    requires e.Prepare? || e.Launch? || e.Relaunch? || e.Confirm? || e.Complete? || e.Report?
    ensures Next(s, e) == s
  {
  }

  /** Where the steps can happen: the updater starts on a restarting, complete transaction and goes through its phases
      in order, it stops waiting only for a completed one, and the agent launches, confirms and reports only what it
      finds in the states for that. */
  lemma StepHappensWhere(s: Sys, e: Step)
    requires Next(s, e) != s && s.txn.Some?
    ensures e.Prepare? ==>
              s.txn.value.release != e.release || !(s.txn.value.state.Staged? || s.txn.value.state.Restarting?)
    ensures e.Spawn? ==> s.pc.Idle? && s.txn.value.state.Restarting? && Installable(s.txn.value)
    ensures e.Begin? ==> s.pc.Stopping? && Lists(e.order, s.txn.value.staged)
    ensures e.HostStarted? ==> s.pc.Starting?
    ensures e.HealthSeen? ==> s.pc.Waiting? && s.txn.value.state.Completed?
    ensures e.Abort? ==>
              && (s.pc.Stopping? || s.pc.Copying? || s.pc.Starting? || s.pc.Waiting?)
              && Lists(e.order, s.txn.value.staged)
    ensures e.RestoreEnds? ==> s.pc == Restoring([], false)
    ensures e.RestoreFails? ==> s.pc.Restoring?
    ensures e.Launch? ==> s.txn.value.state.Staged?
    ensures e.Relaunch? || e.Confirm? ==>
              || s.txn.value.state.Restarting? || s.txn.value.state.ServiceStopped?
              || s.txn.value.state.FilesReplaced? || s.txn.value.state.VerifyingHealth?
    ensures e.Complete? ==> s.txn.value.state.VerifyingHealth?
    ensures e.Report? ==> s.txn.value.state.RolledBack? || s.txn.value.state.RollbackFailed?
  {
  }

  /** A preparation starts from the tree as it is after an update that completed or was rolled back, and keeps the
      earlier start after one that is under way, failed its health check or could not be rolled back. */
  lemma PreparationStartsFrom(s: Sys, release: nat, portable: bool, payload: Tree)
    requires AgentAlive(s) && !Reusable(s.txn, release)
    ensures var s' := Next(s, Prepare(release, portable, payload));
            && s' == Sys(s.files, Some(Txn(release, portable, Staged, payload, s.files)), s.pc, s'.original)
            && s'.original == if InState(s, {Staged, Restarting, ServiceStopped, FilesReplaced, VerifyingHealth,
                                             HealthFailed, RollbackFailed})
                              then s.original else s.files
  {
    assert s.txn.Some? ==>
        var state := s.txn.value.state;
        || state.Staged? || state.Restarting? || state.ServiceStopped? || state.FilesReplaced? || state.VerifyingHealth?
        || state.Completed? || state.HealthFailed? || state.RolledBack? || state.RollbackFailed?
        || state.RollbackReported?;
  }

  /** The step replaces an unfinished transaction, and with it the backup. */
  ghost predicate PreparesAgain(s: Sys, e: Step) {
    e.Prepare? && AgentAlive(s) && !Reusable(s.txn, e.release) && Unfinished(s.txn)
  }

  /** Every preparation over an unfinished transaction finds the original tree. */
  ghost predicate PreparesCleanly(s: Sys, steps: seq<Step>)
    decreases |steps|
  {
    steps == [] ||
    ((PreparesAgain(s, steps[0]) ==> Clean(s.files, s.original)) && PreparesCleanly(Next(s, steps[0]), steps[1..]))
  }

  ghost predicate BackupIsOriginal(s: Sys) {
    s.txn.Some? ==> Clean(s.txn.value.backup, s.original)
  }

  /** The step leaves the transaction's backup and the tree that the update started from alone. */
  ghost predicate KeepsBackup(s: Sys, s': Sys) {
    && s'.original == s.original
    && (s.txn.Some? <==> s'.txn.Some?)
    && (s.txn.Some? ==> s'.txn.value.backup == s.txn.value.backup)
  }

  lemma StepKeepsBackup(s: Sys, e: Step)
    requires e.Prepare? ==> !AgentAlive(s) || Reusable(s.txn, e.release)
    ensures KeepsBackup(s, Next(s, e))
  {
    match e
    case CopyStep =>
    case RestoreStep =>
    case TornWrite(_) =>
    case _ =>
  }

  lemma StepKeepsOriginal(s: Sys, e: Step)
    requires BackupIsOriginal(s) && (PreparesAgain(s, e) ==> Clean(s.files, s.original))
    ensures BackupIsOriginal(Next(s, e))
  {
    if e.Prepare? {
    } else {
      StepKeepsBackup(s, e);
    }
  }

  /** Then rolling back gives the original tree, over whole histories. */
  lemma {:induction false} CleanPreparationsRestore(s: Sys, steps: seq<Step>)
    requires Inv(s) && BackupIsOriginal(s) && AllProper(steps) && PreparesCleanly(s, steps)
    ensures var s' := History(s, steps);
            BackupIsOriginal(s') && (InState(s', {RolledBack}) ==> Clean(s'.files, s'.original))
    decreases |steps|
  {
    if steps != [] {
      StepKeepsInv(s, steps[0]);
      StepKeepsOriginal(s, steps[0]);
      CleanPreparationsRestore(Next(s, steps[0]), steps[1..]);
    } else if InState(s, {RolledBack}) {
      CleanIsShared(s.files, s.txn.value.backup, s.original);
    }
  }

  ghost predicate NoPreparation(s: Sys, steps: seq<Step>)
    decreases |steps|
  {
    steps == [] ||
    ((steps[0].Prepare? ==> !AgentAlive(s) || Reusable(s.txn, steps[0].release))
     && NoPreparation(Next(s, steps[0]), steps[1..]))
  }

  lemma {:induction false} BackupStays(s: Sys, steps: seq<Step>)
    requires s.txn.Some? && NoPreparation(s, steps)
    ensures var s' := History(s, steps);
            s'.txn.Some? && s'.txn.value.backup == s.txn.value.backup && s'.original == s.original
    decreases |steps|
  {
    if steps != [] {
      StepKeepsBackup(s, steps[0]);
      BackupStays(Next(s, steps[0]), steps[1..]);
    }
  }

  /** After a preparation over an unfinished transaction, and until the next one, every state rolled back has
      the tree that the update started from if and only if the tree was that one when it was prepared. */
  lemma PreparedAgainRestoresIff(s: Sys, e: Step, steps: seq<Step>)
    requires PreparesAgain(s, e) && Proper(e) && AllProper(steps) && NoPreparation(Next(s, e), steps)
    ensures var s' := History(Next(s, e), steps);
            InState(s', {RolledBack}) ==> (Clean(s'.files, s.original) <==> Clean(s.files, s.original))
  {
    assert Inv(Next(s, e));
    TreeIsAlwaysRecoverable(Next(s, e), steps);
    BackupStays(Next(s, e), steps);
  }

  // ---------------------------------------------------------------------------------------------
  // Whole passes
  // ---------------------------------------------------------------------------------------------

  ghost predicate InPlace(files: Tree, staged: Tree) {
    forall p <- staged :: p in files && files[p] == staged[p]
  }

  function CopyFile(files: Tree, p: Path, content: Content): Tree {
    Move(files[UpdateTemp(p) := content], UpdateTemp(p), p)
  }

  function RestoreFile(files: Tree, backup: Tree, p: Path): Tree {
    if p !in backup then files - {p} else Move(files[RollbackTemp(p) := backup[p]], RollbackTemp(p), p)
  }

  function CopyAll(files: Tree, staged: Tree, order: seq<Path>): Tree
    requires forall p <- order :: p in staged
    decreases |order|
  {
    if order == [] then files else CopyAll(CopyFile(files, order[0], staged[order[0]]), staged, order[1..])
  }

  function RestoreAll(files: Tree, backup: Tree, order: seq<Path>): Tree
    decreases |order|
  {
    if order == [] then files else RestoreAll(RestoreFile(files, backup, order[0]), backup, order[1..])
  }

  lemma {:induction false} RestoreAllMeaning(files: Tree, backup: Tree, order: seq<Path>, p: Path)
    requires !IsTemp(p) && forall q <- order :: !IsTemp(q)
    ensures Same(RestoreAll(files, backup, order), if p in order then backup else files, p)
    decreases |order|
  {
    if order != [] {
      TempNames(order[0]);
      assert order == [order[0]] + order[1..];
      var files' := RestoreFile(files, backup, order[0]);
      assert Same(files', if p == order[0] then backup else files, p);
      RestoreAllMeaning(files', backup, order[1..], p);
    }
  }

  lemma {:induction false} CopyAllMeaning(files: Tree, staged: Tree, order: seq<Path>, p: Path)
    requires (forall q <- order :: q in staged) && NoTempStaged(staged) && !IsTemp(p)
    ensures Same(CopyAll(files, staged, order), if p in order then staged else files, p)
    decreases |order|
  {
    if order != [] {
      TempNames(order[0]);
      assert order == [order[0]] + order[1..];
      var files' := CopyFile(files, order[0], staged[order[0]]);
      assert Same(files', if p == order[0] then staged else files, p);
      CopyAllMeaning(files', staged, order[1..], p);
    }
  }

  /** A complete copying pass puts every staged file in place. */
  lemma StagedInPlace(files: Tree, staged: Tree, order: seq<Path>)
    requires Lists(order, staged) && NoTempStaged(staged)
    ensures InPlace(CopyAll(files, staged, order), staged)
  {
    forall p | p in staged
      ensures Same(CopyAll(files, staged, order), staged, p)
    {
      CopyAllMeaning(files, staged, order, p);
    }
  }

  /** From every state that any history reaches, one complete restoring pass gives back the backed-up tree. */
  lemma RollbackUndoesInstall(s: Sys, order: seq<Path>)
    requires Inv(s) && s.txn.Some? && Lists(order, s.txn.value.staged)
    ensures Clean(RestoreAll(s.files, s.txn.value.backup, order), s.txn.value.backup)
  {
    var t := s.txn.value;
    forall p | !IsTemp(p)
      ensures Same(RestoreAll(s.files, t.backup, order), t.backup, p)
    {
      assert forall q <- order :: q in t.staged;
      RestoreAllMeaning(s.files, t.backup, order, p);
    }
  }

  lemma {:induction false} HistorySnoc(s: Sys, steps: seq<Step>, e: Step)
    ensures History(s, steps + [e]) == Next(History(s, steps), e)
    decreases |steps|
  {
    if steps == [] {
      assert [e][1..] == [];
    } else {
      HistorySnoc(Next(s, steps[0]), steps[1..], e);
      assert (steps + [e])[1..] == steps[1..] + [e];
    }
  }

  lemma {:induction false} HistoryConcat(s: Sys, a: seq<Step>, b: seq<Step>)
    ensures History(s, a + b) == History(History(s, a), b)
    decreases |a|
  {
    if a == [] {
      assert a + b == b;
    } else {
      HistoryConcat(Next(s, a[0]), a[1..], b);
      assert (a + b)[1..] == a[1..] + b;
    }
  }

  // ---------------------------------------------------------------------------------------------
  // A dirty preparation loses the original tree
  // ---------------------------------------------------------------------------------------------

  lemma TwoSteps(s: Sys, a: Step, b: Step)
    ensures History(s, [a, b]) == Next(Next(s, a), b)
  {
    var steps := [a, b];
    assert steps[1..] == [b] && steps[1..][1..] == [];
    assert History(Next(s, a), steps[1..]) == Next(Next(s, a), steps[1..][0]);
  }

  /** The restoring steps for these files. */
  function RestoreSteps(backup: Tree, order: seq<Path>): seq<Step> {
    if order == [] then []
    else (if order[0] in backup then [RestoreStep, RestoreStep] else [RestoreStep]) + RestoreSteps(backup, order[1..])
  }

  lemma RestoreOne(s: Sys)
    requires s.pc.Restoring? && !s.pc.written && s.pc.todo != [] && s.txn.Some?
    ensures var t, todo := s.txn.value, s.pc.todo;
            History(s, if todo[0] in t.backup then [RestoreStep, RestoreStep] else [RestoreStep])
            == s.(files := RestoreFile(s.files, t.backup, todo[0]), pc := Restoring(todo[1..], false))
  {
    if s.pc.todo[0] in s.txn.value.backup {
      TwoSteps(s, RestoreStep, RestoreStep);
    } else {
      assert [RestoreStep][1..] == [];
    }
  }

  lemma {:induction false} RestoringPass(s: Sys)
    requires s.pc.Restoring? && !s.pc.written && s.txn.Some?
    ensures History(s, RestoreSteps(s.txn.value.backup, s.pc.todo))
            == s.(files := RestoreAll(s.files, s.txn.value.backup, s.pc.todo), pc := Restoring([], false))
    decreases |s.pc.todo|
  {
    var t, todo := s.txn.value, s.pc.todo;
    if todo != [] {
      var first := if todo[0] in t.backup then [RestoreStep, RestoreStep] else [RestoreStep];
      var s1 := s.(files := RestoreFile(s.files, t.backup, todo[0]), pc := Restoring(todo[1..], false));
      RestoreOne(s);
      RestoringPass(s1);
      HistoryConcat(s, first, RestoreSteps(t.backup, todo[1..]));
    }
  }

  /** A prepared transaction can always be rolled back before anything is copied. */
  lemma RollsBack(s: Sys, order: seq<Path>) returns (steps: seq<Step>)
    requires s.pc.Idle? && InState(s, {Staged}) && Installable(s.txn.value) && Lists(order, s.txn.value.staged)
    ensures var s' := History(s, steps);
            InState(s', {RolledBack}) && s'.original == s.original
              && s'.files == RestoreAll(s.files, s.txn.value.backup, order)
  {
    var t := s.txn.value;
    var start, pass := [Launch, Spawn] + [Abort(order)], RestoreSteps(t.backup, order);
    var s2 := Become(s, Restarting).(pc := Stopping);
    TwoSteps(s, Launch, Spawn);
    assert History(s, [Launch, Spawn]) == s2;
    HistorySnoc(s, [Launch, Spawn], Abort(order));
    var s3 := s2.(pc := Restoring(order, false));
    assert History(s, start) == s3;
    RestoringPass(s3);
    HistoryConcat(s, start, pass);
    HistorySnoc(s, start + pass, RestoreEnds(true));
    steps := start + pass + [RestoreEnds(true)];
  }

  /** Whenever an update is prepared again over an unfinished transaction while the tree is not the original
      one, some history ends in state rolled back with a tree that is not the original one. */
  lemma DirtyPreparationLosesOriginal(s: Sys, e: Step, order: seq<Path>) returns (steps: seq<Step>)
    requires s.pc.Idle? && PreparesAgain(s, e) && Proper(e) && !Clean(s.files, s.original)
    requires Installable(Txn(e.release, e.portable, Staged, e.payload, s.files)) && Lists(order, e.payload)
    ensures var s' := History(s, [e] + steps);
            InState(s', {RolledBack}) && s'.original == s.original && !Clean(s'.files, s'.original)
  {
    var prepared := Next(s, e);
    steps := RollsBack(prepared, order);
    assert ([e] + steps)[1..] == steps;
    assert Inv(prepared);
    RollbackUndoesInstall(prepared, order);
    CleanIsShared(History(prepared, steps).files, s.files, s.original);
  }

  ghost function Installing(files: Tree, payload: Tree, portable: bool, order: seq<Path>): Sys {
    Sys(files, Some(Txn(7, portable, ServiceStopped, payload, files)), Copying(order, false), files)
  }

  lemma PreparedAndStarted(files: Tree, payload: Tree, portable: bool, order: seq<Path>)
    requires Lists(order, payload) && Installable(Txn(7, portable, Staged, payload, files))
    ensures History(Sys(files, None, Idle, files), [Prepare(7, portable, payload), Launch] + [Spawn, Begin(order)])
            == Installing(files, payload, portable, order)
  {
    var s0 := Sys(files, None, Idle, files);
    var s2 := Sys(files, Some(Txn(7, portable, Restarting, payload, files)), Idle, files);
    TwoSteps(s0, Prepare(7, portable, payload), Launch);
    TwoSteps(s2, Spawn, Begin(order));
    HistoryConcat(s0, [Prepare(7, portable, payload), Launch], [Spawn, Begin(order)]);
  }

  lemma FirstFileReplaced(files: Tree, payload: Tree, portable: bool, order: seq<Path>)
    requires order != [] && order[0] in payload
    ensures History(Installing(files, payload, portable, order), [CopyStep, CopyStep])
            == Installing(files, payload, portable, order[1..]).(files := CopyFile(files, order[0], payload[order[0]]),
                                                                 original := files,
                 txn := Some(Txn(7, portable, ServiceStopped, payload, files)))
  {
    var s := Installing(files, payload, portable, order);
    var p := order[0];
    var s1 := s.(files := files[UpdateTemp(p) := payload[p]], pc := Copying(order, true));
    TwoSteps(s, CopyStep, CopyStep);
    assert Next(s, CopyStep) == s1;
    assert Next(s1, CopyStep) == s.(files := CopyFile(files, p, payload[p]), pc := Copying(order[1..], false));
  }

  ghost function Crashed(original: Tree, payload: Tree, portable: bool, p: Path): Sys
    requires p in payload
  {
    Sys(CopyFile(original, p, payload[p]), Some(Txn(7, portable, ServiceStopped, payload, original)), Idle, original)
  }

  /** The updater dies after the first file. */
  lemma CrashAfterFirstFile(original: Tree, payload: Tree, portable: bool, order: seq<Path>) returns (steps: seq<Step>)
    requires Lists(order, payload) && Installable(Txn(7, portable, Staged, payload, original)) && order != []
    ensures History(Sys(original, None, Idle, original), steps) == Crashed(original, payload, portable, order[0])
  {
    var s0 := Sys(original, None, Idle, original);
    var first, copy := [Prepare(7, portable, payload), Launch] + [Spawn, Begin(order)], [CopyStep, CopyStep];
    PreparedAndStarted(original, payload, portable, order);
    FirstFileReplaced(original, payload, portable, order);
    HistoryConcat(s0, first, copy);
    HistorySnoc(s0, first + copy, Crash);
    steps := first + copy + [Crash];
  }

  lemma CrashedIsDirty(original: Tree, payload: Tree, portable: bool, p: Path)
    requires NoTempStaged(payload) && p in payload && !Same(payload, original, p)
    requires Installable(Txn(7, portable, Staged, payload, original))
    ensures var crashed := Crashed(original, payload, portable, p);
            !Clean(crashed.files, original) && Installable(Txn(7, portable, Staged, payload, crashed.files))
  {
    var crashed := Crashed(original, payload, portable, p);
    TempNames(p);
    assert !Same(crashed.files, original, p);
    ExecutableStays(original, p, payload[p], Executable(portable));
  }

  /** And an update can get there: for every release that changes some file, the process dies after that file
      was replaced, the next poll does not reuse the transaction and backs up the half-installed tree, and
      the rollback of that restores it. */
  lemma CrashedInstallLosesOriginal(original: Tree, payload: Tree, portable: bool, order: seq<Path>)
    returns (steps: seq<Step>)
    requires NoTempStaged(payload) && Lists(order, payload) && Installable(Txn(7, portable, Staged, payload, original))
    requires order != [] && !Same(payload, original, order[0])
    ensures var s' := History(Sys(original, None, Idle, original), steps);
            InState(s', {RolledBack}) && s'.original == original && !Clean(s'.files, original)
  {
    assert order[0] in order;
    var start, crashed := Sys(original, None, Idle, original), Crashed(original, payload, portable, order[0]);
    var before := CrashAfterFirstFile(original, payload, portable, order);
    CrashedIsDirty(original, payload, portable, order[0]);
    var rest := DirtyPreparationLosesOriginal(crashed, Prepare(7, portable, payload), order);
    HistoryConcat(start, before, [Prepare(7, portable, payload)] + rest);
    steps := before + ([Prepare(7, portable, payload)] + rest);
  }

  lemma ExecutableStays(files: Tree, p: Path, content: Content, executable: Path)
    requires executable in files && !IsTemp(executable)
    ensures executable in CopyFile(files, p, content)
  {
    TempNames(p);
  }
}
