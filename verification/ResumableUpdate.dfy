/** The maintenance commands `update` and `backup` as a protocol over durable
    state. One process at a time holds the maintenance lock; it may die at any
    point, and any command may fail. */
module ResumableUpdate {
  import opened Options

  type Image = nat
  type BackupName = nat

  datatype Phase = BackupPhase | CutoverPhase(backup: BackupName)

  /** The durable update record. */
  datatype Pending = Pending(image: Image, source: Image, phase: Phase)

  datatype Container = Container(image: Image, running: bool)

  /** Where the running process stands. `BackupStep`s belong to `backup()`, which
      `update` calls with its pending record. */
  datatype Pc =
    | LoadState
    | EnsureRunning(pending: Pending)
    | BackupCheck(caller: Option<Pending>)
    | BackupStop(caller: Option<Pending>)
    | BackupDump(caller: Option<Pending>)
    | BackupFailed                                            // finally: start, then give up
    | BackupSaved(caller: Option<Pending>, name: BackupName)  // finally: start, then return
    | EnterCutover(pending: Pending, name: BackupName)
    | RunCutover(pending: Pending)
    | WriteSettings(pending: Pending)
    | RemoveState(pending: Pending)
    | Prune

  /** `image` is what the settings named when the process started. */
  datatype Process = Process(image: Image, pc: Pc)

  /** `schema` is the image of the latest cutover ever attempted: the oldest binary
      that may still run against the database. `succeeded` are the completed ones. */
  datatype World = World(settings: Image, container: Container, record: Option<Pending>, backups: set<BackupName>,
                         process: Option<Process>, schema: Image, succeeded: set<Image>)

  datatype Step =
    | StartUpdate
    | StartBackup
    | Die
    | Advance(choice: Choice)

  /** What the environment decides in a step: the downloaded release, whether the
      dump or the cutover works, what a failed cutover leaves behind, what a prune
      removes. */
  datatype Choice = Choice(download: Image, ok: bool, name: BackupName, left: Container, pruned: set<BackupName>)

  function Exit(w: World): World { w.(process := None) }

  function At(w: World, pc: Pc): World
    requires w.process.Some?
  {
    w.(process := Some(w.process.value.(pc := pc)))
  }

  function Started(w: World): World { w.(container := w.container.(running := true)) }

  predicate Enabled(w: World, step: Step) {
    match step
    case StartUpdate => w.process.None?
    case StartBackup => w.process.None?
    case Die => w.process.Some?
    case Advance(choice) =>
      && w.process.Some?
      && (w.process.value.pc.BackupDump? ==> choice.name !in w.backups)
      && (w.process.value.pc.RunCutover? ==>
            choice.left.image == w.container.image || choice.left.image == w.process.value.pc.pending.image)
  }

  function Apply(w: World, step: Step): World
    requires Enabled(w, step)
  {
    match step
    case StartUpdate => w.(process := Some(Process(w.settings, LoadState)))
    case StartBackup => if w.record.Some? then w else w.(process := Some(Process(w.settings, BackupCheck(None))))
    case Die => Exit(w)
    case Advance(c) =>
      var image := w.process.value.image;
      match w.process.value.pc
      case LoadState =>
        if w.record.Some? then
          var pending := w.record.value;
          At(w, if pending.phase.BackupPhase? then EnsureRunning(pending) else RunCutover(pending))
        else if c.download == image then Exit(w)
        else
          var pending := Pending(c.download, image, BackupPhase);
          At(w, EnsureRunning(pending)).(record := Some(pending))
      case EnsureRunning(pending) =>
        if pending.source != image || w.container.image != image then Exit(w)
        else At(Started(w), BackupCheck(Some(pending)))
      case BackupCheck(caller) =>
        if w.container.image != image || !w.container.running then Exit(w) else At(w, BackupStop(caller))
      case BackupStop(caller) => At(w, BackupDump(caller)).(container := w.container.(running := false))
      case BackupDump(caller) =>
        if c.ok then At(w, BackupSaved(caller, c.name)).(backups := w.backups + {c.name}) else At(w, BackupFailed)
      case BackupFailed => Exit(Started(w))
      case BackupSaved(caller, name) =>
        if caller.Some? then At(Started(w), EnterCutover(caller.value, name)) else At(Started(w), Prune)
      case EnterCutover(pending, name) =>
        var next := pending.(phase := CutoverPhase(name));
        At(w, RunCutover(next)).(record := Some(next))
      case RunCutover(pending) =>
        if c.ok then
          At(w, WriteSettings(pending)).(container := Container(pending.image, true), schema := pending.image,
          succeeded := w.succeeded + {pending.image})
        else Exit(w).(container := c.left, schema := pending.image)
      case WriteSettings(pending) => At(w, RemoveState(pending)).(settings := pending.image)
      case RemoveState(_) => Exit(w).(record := None)
      case Prune => Exit(w).(backups := w.backups - c.pruned)
  }

  ghost function Exec(image: Image, running: bool, run: seq<Step>): World {
    if run == [] then World(image, Container(image, running), None, {}, None, image, {image})
    else
      var w := Exec(image, running, run[..|run| - 1]);
      if Enabled(w, run[|run| - 1]) then Apply(w, run[|run| - 1]) else w
  }

  /** Runs go step by step, from an installation without updates or backups. While no
      process runs, either command may be started; a process may die at any point, which
      changes nothing else; and every choice of the environment is possible, except that
      backup names are new and a cutover leaves one of the two images. */
  lemma RunsStepByStep(image: Image, running: bool, run: seq<Step>, step: Step)
    ensures Exec(image, running, []) ==
            World(image, Container(image, running), None, {}, None, image, {image})
    ensures var w := Exec(image, running, run);
            && (Enabled(w, step) ==> Exec(image, running, run + [step]) == Apply(w, step))
            && (w.process.None? ==> Enabled(w, StartUpdate) && Enabled(w, StartBackup))
            && (w.process.Some? ==> Enabled(w, Die) && Apply(w, Die) == w.(process := None))
            && (&& w.process.Some? && step.Advance? && step.choice.name !in w.backups
                && step.choice.left.image in {w.container.image, Candidate(w)} ==>
                  Enabled(w, step))
  {
    assert (run + [step])[..|run|] == run;
  }

  /** The image that a cutover in progress moves to. */
  ghost function Candidate(w: World): Image {
    if w.process.Some? && w.process.value.pc.RunCutover? then w.process.value.pc.pending.image else w.container.image
  }

  // ---- what every step keeps ----

  /** Steps in which the application container is started by these commands. */
  predicate Starts(w: World, step: Step) {
    && step.Advance? && w.process.Some?
    && match w.process.value.pc
       case EnsureRunning(pending) =>
         pending.source == w.process.value.image && w.container.image == w.process.value.image
       case BackupFailed => true
       case BackupSaved(_, _) => true
       case _ => false
  }

  predicate RunsCutover(w: World, step: Step) { step.Advance? && w.process.Some? && w.process.value.pc.RunCutover? }

  /** The record tells how far the database may have moved: without one, or in its
      backup phase, settings, container and schema all name the same image. */
  ghost predicate RecordInv(w: World) {
    && w.settings in w.succeeded
    && match w.record
       case None => w.container.image == w.settings == w.schema
       case Some(p) =>
         if p.phase.BackupPhase? then p.source == w.settings == w.container.image == w.schema && p.image != p.source
         else p.phase.backup in w.backups
  }

  ghost predicate CallerInv(w: World, caller: Option<Pending>) {
    w.record == caller && (caller.Some? ==> caller.value.phase.BackupPhase?)
  }

  ghost predicate ProcessInv(w: World, p: Process) {
    match p.pc
    case LoadState => p.image == w.settings
    case EnsureRunning(pending) => p.image == w.settings && CallerInv(w, Some(pending))
    case BackupCheck(caller) => p.image == w.settings && CallerInv(w, caller)
    case BackupStop(caller) => p.image == w.settings && CallerInv(w, caller)
    case BackupDump(caller) => p.image == w.settings && CallerInv(w, caller)
    case BackupFailed => p.image == w.settings && (w.record.Some? ==> w.record.value.phase.BackupPhase?)
    case BackupSaved(caller, name) => p.image == w.settings && CallerInv(w, caller) && name in w.backups
    case EnterCutover(pending, name) => p.image == w.settings && CallerInv(w, Some(pending)) && name in w.backups
    case RunCutover(pending) => w.record == Some(pending) && pending.phase.CutoverPhase?
    case WriteSettings(pending) => w.record == Some(pending) && pending.phase.CutoverPhase? && AtImage(w, pending)
    case RemoveState(pending) =>
      w.record == Some(pending) && pending.phase.CutoverPhase? && AtImage(w, pending) && w.settings == pending.image
    case Prune => w.record.None?
  }

  ghost predicate AtImage(w: World, p: Pending) { w.container.image == w.schema == p.image && p.image in w.succeeded }

  ghost predicate Inv(w: World) { RecordInv(w) && (w.process.Some? ==> ProcessInv(w, w.process.value)) }

  /** The process is inside `backup`. */
  predicate BackingUp(pc: Pc) {
    pc.BackupCheck? || pc.BackupStop? || pc.BackupDump? || pc.BackupFailed? || pc.BackupSaved?
  }

  lemma BackupInv(w: World, step: Step)
    requires Inv(w) && Enabled(w, step) && step.Advance? && BackingUp(w.process.value.pc)
    ensures Inv(Apply(w, step))
  {
  }

  lemma UpdateInv(w: World, step: Step)
    requires Inv(w) && Enabled(w, step) && step.Advance? && !BackingUp(w.process.value.pc)
    ensures Inv(Apply(w, step))
  {
  }

  lemma StepInv(w: World, step: Step)
    requires Inv(w) && Enabled(w, step)
    ensures Inv(Apply(w, step))
  {
    if step.Advance? {
      hide Inv, Apply, BackingUp;
      if BackingUp(w.process.value.pc) {
        BackupInv(w, step);
      } else {
        UpdateInv(w, step);
      }
    }
  }

  lemma {:induction false} RunInv(image: Image, running: bool, run: seq<Step>)
    ensures Inv(Exec(image, running, run))
  {
    if run != [] {
      RunInv(image, running, run[..|run| - 1]);
      var w := Exec(image, running, run[..|run| - 1]);
      if Enabled(w, run[|run| - 1]) {
        StepInv(w, run[|run| - 1]);
      }
    }
  }

  // ---- the promises ----

  /** Across crashes, failures and re-invocations at any point: the application is
      started only while no cutover is recorded, and always as the image the
      database schema belongs to, which is also the source image of a pending
      update. */
  lemma StartsOnlyBeforeCutover(image: Image, running: bool, run: seq<Step>, step: Step)
    requires Starts(Exec(image, running, run), step)
    ensures var w := Exec(image, running, run);
            && (w.record.Some? ==> w.record.value.phase.BackupPhase? && w.container.image == w.record.value.source)
            && w.container.image == w.schema == w.settings
  {
    RunInv(image, running, run);
  }

  /** A cutover runs only for the recorded update and only once its backup has been
      renamed into place. */
  lemma CutoverOnlyAfterBackup(image: Image, running: bool, run: seq<Step>, step: Step)
    requires RunsCutover(Exec(image, running, run), step)
    ensures var w := Exec(image, running, run);
            && w.record == Some(w.process.value.pc.pending)
            && w.record.value.phase.CutoverPhase? && w.record.value.phase.backup in w.backups
  {
    RunInv(image, running, run);
  }

  /** Settings always name the original image or one whose cutover succeeded, and
      change only to the recorded image right after its cutover. */
  lemma SettingsFollowCutover(image: Image, running: bool, run: seq<Step>, step: Step)
    requires Enabled(Exec(image, running, run), step)
    ensures var w := Exec(image, running, run);
            && w.settings in w.succeeded
            && (Apply(w, step).settings != w.settings ==>
                  && w.record.Some? && w.record.value.phase.CutoverPhase?
                  && Apply(w, step).settings == w.record.value.image == w.container.image
                  && w.record.value.image in w.succeeded)
  {
    RunInv(image, running, run);
  }

  /** While an update is recorded, `backup` is refused and no backup is pruned. */
  lemma BackupRefusedDuringUpdate(image: Image, running: bool, run: seq<Step>, step: Step)
    requires Enabled(Exec(image, running, run), step)
    ensures var w := Exec(image, running, run);
            w.record.Some? ==> w.backups <= Apply(w, step).backups && (step.StartBackup? ==> Apply(w, step) == w)
  {
    RunInv(image, running, run);
  }

  // ---- the application comes back ----

  /** What each step does to the application: those named above start it as it is,
      `backup` stops it, a cutover replaces it, and no other step touches it. */
  lemma OnlyTheseTouchTheApp(w: World, step: Step)
    requires Enabled(w, step)
    ensures var before, after := w.container, Apply(w, step).container;
            if Starts(w, step) then after == before.(running := true)
            else if RunsCutover(w, step)
            then after == if step.choice.ok then Container(w.process.value.pc.pending.image, true) else step.choice.left
            else if step.Advance? && w.process.value.pc.BackupStop? then after == before.(running := false)
            else after == before
  {
  }

  /** A process dies, or a cutover fails. */
  predicate Mishap(w: World, step: Step) {
    (step.Die? && w.process.Some?) || (RunsCutover(w, step) && !step.choice.ok)
  }

  ghost predicate NoMishap(image: Image, running: bool, run: seq<Step>) {
    forall i :: 0 <= i < |run| ==> !Mishap(Exec(image, running, run[..i]), run[i])
  }

  /** The application runs, except while a process has stopped it for its backup. */
  ghost predicate Up(w: World) {
    || w.container.running
    || (w.process.Some? && BackingUp(w.process.value.pc) && !w.process.value.pc.BackupCheck?
        && !w.process.value.pc.BackupStop?)
  }

  lemma StepUp(w: World, step: Step)
    requires Up(w) && Enabled(w, step) && !Mishap(w, step)
    ensures Up(Apply(w, step))
  {
  }

  lemma {:induction false} RunUp(image: Image, run: seq<Step>)
    requires NoMishap(image, true, run)
    ensures Up(Exec(image, true, run))
  {
    if run != [] {
      hide Up, Mishap, Apply, Enabled;
      var init, last := run[..|run| - 1], run[|run| - 1];
      assert forall i :: 0 <= i < |init| ==> run[..i] == init[..i];
      RunUp(image, init);
      if Enabled(Exec(image, true, init), last) {
        StepUp(Exec(image, true, init), last);
      }
    }
  }

  /** Between invocations an application that was running at first is stopped only if
      some process died or a cutover failed. */
  lemma StaysUp(image: Image, run: seq<Step>)
    requires NoMishap(image, true, run) && Exec(image, true, run).process.None?
    ensures Exec(image, true, run).container.running
  {
    RunUp(image, run);
  }

  /** The process driven through the given choices of the environment. */
  ghost function DriveThrough(w: World, cs: seq<Choice>): World
    decreases |cs|
  {
    if cs == [] || !Enabled(w, Advance(cs[0])) then w else DriveThrough(Apply(w, Advance(cs[0])), cs[1..])
  }

  /** Whatever happened before: a `backup` of a running application whose dump works
      ends with one more backup, less what it prunes, and the same application running
      again ... */
  lemma BackupComesBack(image: Image, running: bool, run: seq<Step>, cs: seq<Choice>)
    requires var w := Exec(image, running, run); w.process.None? && w.record.None? && w.container.running
    requires |cs| == 5 && cs[2].ok && cs[2].name !in Exec(image, running, run).backups
    ensures var w := Exec(image, running, run);
            DriveThrough(Apply(w, StartBackup), cs) == w.(backups := w.backups + {cs[2].name} - cs[4].pruned)
  {
    var w := Exec(image, running, run);
    RunInv(image, running, run);
    var w1 := DumpsNext(w, cs);
    var w2 := Apply(w1, Advance(cs[2]));
    var w3 := Apply(w2, Advance(cs[3]));
    assert cs[2..][1..] == cs[3..] && cs[3..][1..] == cs[4..] && cs[4..][1..] == [];
    assert DriveThrough(w1, cs[2..]) == DriveThrough(w2, cs[3..]) == DriveThrough(w3, cs[4..]);
    assert DriveThrough(w3, cs[4..]) == DriveThrough(Apply(w3, Advance(cs[4])), []);
    assert w3.container == w.container;
  }

  /** ... one whose dump fails changes nothing ... */
  lemma FailedBackupComesBack(image: Image, running: bool, run: seq<Step>, cs: seq<Choice>)
    requires var w := Exec(image, running, run); w.process.None? && w.record.None? && w.container.running
    requires |cs| == 4 && !cs[2].ok && cs[2].name !in Exec(image, running, run).backups
    ensures DriveThrough(Apply(Exec(image, running, run), StartBackup), cs) == Exec(image, running, run)
  {
    var w := Exec(image, running, run);
    RunInv(image, running, run);
    var w1 := DumpsNext(w, cs);
    var w2 := Apply(w1, Advance(cs[2]));
    assert cs[2..][1..] == cs[3..] && cs[3..][1..] == [];
    assert DriveThrough(w1, cs[2..]) == DriveThrough(w2, cs[3..]) == DriveThrough(Apply(w2, Advance(cs[3])), []);
    assert Started(w1).container == w.container;
  }

  /** The check passes and the application is stopped for the dump. */
  lemma DumpsNext(w: World, cs: seq<Choice>) returns (w': World)
    requires Inv(w) && w.process.None? && w.record.None? && w.container.running && |cs| > 2
    ensures w' == w.(process := Some(Process(w.settings, BackupDump(None))),
                     container := w.container.(running := false))
    ensures DriveThrough(Apply(w, StartBackup), cs) == DriveThrough(w', cs[2..])
  {
    var w0 := Apply(w, StartBackup);
    var w1 := Apply(w0, Advance(cs[0]));
    w' := Apply(w1, Advance(cs[1]));
    assert cs[1..][1..] == cs[2..];
    assert DriveThrough(w0, cs) == DriveThrough(w1, cs[1..]) == DriveThrough(w', cs[2..]);
  }

  /** ... and so does one of an application that is stopped, or during an update. An
      `update` that finds its own release changes nothing either. */
  lemma NothingToDo(image: Image, running: bool, run: seq<Step>, c: Choice)
    requires Exec(image, running, run).process.None?
    ensures var w := Exec(image, running, run);
            && (w.record.Some? ==> Apply(w, StartBackup) == w)
            && (w.record.None? && !w.container.running ==> DriveThrough(Apply(w, StartBackup), [c]) == w)
            && (w.record.None? && c.download == w.settings ==> DriveThrough(Apply(w, StartUpdate), [c]) == w)
  {
    var w := Exec(image, running, run);
    assert [c][1..] == [];
    if w.record.None? {
      assert DriveThrough(Apply(w, StartBackup), [c]) == DriveThrough(Apply(Apply(w, StartBackup), Advance(c)), []);
      assert DriveThrough(Apply(w, StartUpdate), [c]) == DriveThrough(Apply(Apply(w, StartUpdate), Advance(c)), []);
    }
  }

  // ---- retrying finishes the job ----

  /** A process driven through `n` steps in which nothing fails. */
  ghost function Drive(w: World, c: Choice, n: nat): World
    decreases n
  {
    if n == 0 || !Enabled(w, Advance(c)) then w else Drive(Apply(w, Advance(c)), c, n - 1)
  }

  ghost predicate Finished(w: World, target: Image) {
    w.process.None? && w.record.None? && w.settings == w.schema == target && w.container == Container(target, true)
  }

  /** The image an invocation of `update` is heading for. */
  function Target(w: World, c: Choice): Image { if w.record.Some? then w.record.value.image else c.download }

  lemma CutoverFinishes(w: World, c: Choice)
    requires Inv(w) && w.process.Some? && w.process.value.pc.RunCutover? && c.ok
    requires c.left.image == w.process.value.pc.pending.image
    ensures Finished(Drive(w, c, 3), w.process.value.pc.pending.image)
  {
    var w1 := Apply(w, Advance(c));
    var w2 := Apply(w1, Advance(c));
    assert Drive(w, c, 3) == Drive(w1, c, 2) == Drive(w2, c, 1) == Drive(Apply(w2, Advance(c)), c, 0);
  }

  lemma BackupReachesCutover(w: World, c: Choice)
    requires Inv(w) && w.process.Some? && w.process.value.pc.EnsureRunning? && c.ok && c.name !in w.backups
    ensures var w' := Drive(w, c, 6);
            && Inv(w') && w'.process.Some? && w'.process.value.pc.RunCutover?
            && w'.process.value.pc.pending.image == w.process.value.pc.pending.image
  {
    var w1 := Apply(w, Advance(c));
    var w2 := Apply(w1, Advance(c));
    var w3 := Apply(w2, Advance(c));
    var w4 := Apply(w3, Advance(c));
    var w5 := Apply(w4, Advance(c));
    assert Drive(w, c, 6) == Drive(w1, c, 5) == Drive(w2, c, 4);
    assert Drive(w2, c, 4) == Drive(w3, c, 3) == Drive(w4, c, 2) == Drive(w5, c, 1) ==
           Drive(Apply(w5, Advance(c)), c, 0);
    StepInv(w5, Advance(c));
  }

  lemma {:induction false} DriveSplits(w: World, c: Choice, m: nat, n: nat)
    ensures Drive(w, c, m + n) == Drive(Drive(w, c, m), c, n)
    decreases m
  {
    if m > 0 && Enabled(w, Advance(c)) {
      DriveSplits(Apply(w, Advance(c)), c, m - 1, n);
    }
  }

  /** Wherever earlier invocations died, one more `update` in which nothing fails
      finishes the recorded update, or the new one if none is recorded. */
  lemma RetryCompletes(image: Image, running: bool, run: seq<Step>, c: Choice)
    requires var w := Exec(image, running, run);
             && w.process.None? && c.ok && c.name !in w.backups && c.left.image == Target(w, c)
             && (w.record.None? ==> c.download != w.settings)
    ensures var w := Exec(image, running, run);
            Finished(Drive(Apply(w, StartUpdate), c, 10), Target(w, c))
  {
    var w := Exec(image, running, run);
    RunInv(image, running, run);
    var w0 := Apply(w, StartUpdate);
    var w1 := Apply(w0, Advance(c));
    StepInv(w, StartUpdate);
    StepInv(w0, Advance(c));
    assert Drive(w0, c, 10) == Drive(w1, c, 9);
    if w1.process.value.pc.RunCutover? {
      CutoverFinishes(w1, c);
      DriveSplits(w1, c, 3, 6);
    } else {
      BackupReachesCutover(w1, c);
      DriveSplits(w1, c, 6, 3);
      CutoverFinishes(Drive(w1, c, 6), c);
    }
  }
}
