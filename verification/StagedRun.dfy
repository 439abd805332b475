/** The meaning of one staged execution: steps, snapshots, journal and rollback
    (crates/ngenorca-gateway/src/tools.rs). */
module StagedRun {
  import opened Wrappers
  import opened Json
  import opened Paths
  import opened Skills
  import Utf8

  type Bytes = seq<Utf8.Byte>

  /** The workspace files and the snapshot store. */
  datatype World = World(files: map<PathBuf, Bytes>, backups: map<Artifact, Bytes>)

  datatype Status = Planned | Running | Completed | Failed | Manual | Skipped | RolledBack

  datatype Checkpoint = Checkpoint(name: string, phase: string)

  datatype Record = Record(stepNumber: nat, title: string, tool: Option<string>, status: Status,
                           checkpoints: seq<Checkpoint>, rollback: Option<PlanEntry>)

  datatype Journal = Journal(id: string, status: Status, throughStep: nat, executed: nat, checkpointCount: nat,
                             rollbackReady: nat, steps: seq<Record>, plan: seq<PlanEntry>)

  datatype Prepared = Prepared(stepNumber: nat, title: string, target: PathBuf, display: string,
                               artifact: Option<Artifact>, existedBefore: bool)

  datatype Error =
    | NothingExecutable | NeedsConfirmation | BadThroughStep | MissingRollback | MissingCheckpoints
    | MissingArguments | EscapesWorkspace | SnapshotUnreadable

  /** What running a command leaves behind and how it ended. */
  datatype CommandResult = CommandResult(world: World, outcome: CommandOutcome)

  datatype CommandOutcome = Finished(success: bool, timedOut: bool) | LaunchError

  /** An arbitrary command behaviour: step number, command, arguments, working directory and world before. */
  type Runner = (nat, string, seq<string>, PathBuf, World) -> CommandResult

  datatype Context = Context(runner: Runner, root: seq<Component>, cwd: PathBuf, journalId: string, stopOnFailure: bool)

  datatype RunState = RunState(world: World, journal: Journal, prepared: seq<Prepared>)

  // ---------- one step ----------

  datatype WriteRequest = WriteRequest(target: PathBuf, content: string, append: bool)

  function ParseWrite(root: seq<Component>, arguments: Option<Json>): Result<WriteRequest, Error> {
    var path, content := AsStr(Member(arguments, "path")), AsStr(Member(arguments, "content"));
    if path.None? || content.None? then Err(MissingArguments)
    else
      match Resolve(root, path.value)
      case None => Err(EscapesWorkspace)
      case Some(target) => Ok(WriteRequest(target, content.value, AsBool(Member(arguments, "append"), false)))
  }

  function Lookup(files: map<PathBuf, Bytes>, p: PathBuf): Option<Bytes> {
    if p in files then Some(files[p]) else None
  }

  /** Snapshots the target when it exists, then overwrites or appends. */
  function ApplyWrite(w: World, a: Artifact, r: WriteRequest): World {
    var before := Lookup(w.files, r.target);
    World(w.files[r.target := (if r.append && before.Some? then before.value else []) + Utf8.Encode(r.content)],
          if before.Some? then w.backups[a := before.value] else w.backups)
  }

  function PreparedFor(ctx: Context, w: World, number: nat, title: string, r: WriteRequest): Prepared {
    var existed := r.target in w.files;
    Prepared(number, title, r.target, Relativize(r.target, Normalize(ctx.root)),
             if existed then Some(Artifact(ctx.journalId, number)) else None, existed)
  }

  function PlannedCheckpoints(labels: seq<string>): (r: seq<Checkpoint>)
    ensures |r| == |labels|
    ensures forall i :: 0 <= i < |labels| ==> r[i] == Checkpoint(labels[i], "planned")
  {
    seq(|labels|, i requires 0 <= i < |labels| => Checkpoint(labels[i], "planned"))
  }

  function FindEntry(plan: seq<PlanEntry>, number: nat): Option<PlanEntry> {
    if plan == [] then None else if plan[0].stepNumber == number then Some(plan[0]) else FindEntry(plan[1..], number)
  }

  function Annotate(e: PlanEntry, p: Prepared): PlanEntry {
    e.(available := true, target := Some(p.display), artifact := p.artifact)
  }

  function AnnotateRecord(o: Option<PlanEntry>, p: Prepared): Option<PlanEntry> {
    if o.Some? then Some(Annotate(o.value, p)) else None
  }

  predicate Succeeded(o: CommandOutcome) { o.Finished? && o.success && !o.timedOut }

  /** How a step ended: the journal status of its record and the world and snapshot it left, or an early exit. */
  datatype StepResult = Ended(status: Status, world: World, prepared: Option<Prepared>) | Abort(error: Error)

  function RunStep(ctx: Context, w: World, number: nat, step: Step): StepResult {
    if step.tool == Some("run_command") then
      var command := AsStr(Member(step.arguments, "command"));
      if command.None? then Abort(MissingArguments)
      else
        var r := ctx.runner(number, command.value, StringArray(Member(step.arguments, "args")), ctx.cwd, w);
        Ended(if Succeeded(r.outcome) then Completed else Failed, r.world, None)
    else if step.tool == Some("write_file") then
      match ParseWrite(ctx.root, step.arguments)
      case Err(e) => Abort(e)
      case Ok(r) =>
        Ended(Completed, ApplyWrite(w, Artifact(ctx.journalId, number), r),
              Some(PreparedFor(ctx, w, number, step.title, r)))
    else Ended(Manual, w, None)
  }

  /** Writes the outcome of a step into the journal. */
  function Log(j: Journal, number: nat, step: Step, status: Status, prepared: Option<Prepared>): Journal {
    var entry := FindEntry(j.plan, number);
    var record := Record(number, step.title, step.tool, status, PlannedCheckpoints(step.checkpoints),
                         if prepared.Some? then AnnotateRecord(entry, prepared.value) else entry);
    j.(status := if status == Failed then Failed else j.status,
       executed := j.executed + if status == Completed then 1 else 0,
       checkpointCount := j.checkpointCount + |step.checkpoints|,
       rollbackReady := j.rollbackReady + if prepared.Some? then 1 else 0,
       steps := j.steps + [record])
  }

  datatype Advance = Next(state: RunState, failed: bool) | Exit(error: Error)

  function ProcessStep(ctx: Context, s: RunState, number: nat, step: Step): Advance {
    match RunStep(ctx, s.world, number, step)
    case Abort(e) => Exit(e)
    case Ended(status, world, prepared) =>
      Next(RunState(world, Log(s.journal, number, step, status, prepared),
                    s.prepared + if prepared.Some? then [prepared.value] else []),
           status == Failed)
  }

  // ---------- the loop over the steps ----------

  /** Either all requested steps are done (or the run stopped at a failure), or a step left early. */
  datatype Progress = Reached(state: RunState, processed: nat) | Left(error: Error, state: RunState)

  function RunFrom(ctx: Context, steps: seq<Step>, i: nat, s: RunState): Progress
    requires i <= |steps|
    decreases |steps| - i
  {
    if i == |steps| then Reached(s, i)
    else
      match ProcessStep(ctx, s, i + 1, steps[i])
      case Exit(e) => Left(e, s)
      case Next(s', failed) =>
        if failed && ctx.stopOnFailure then Reached(s', i + 1) else RunFrom(ctx, steps, i + 1, s')
  }

  // ---------- rollback ----------

  /** Undoes one write: None when its snapshot cannot be read. */
  function Restore(p: Prepared, w: World): Option<World> {
    if p.artifact.Some? then
      if p.artifact.value in w.backups
      then Some(w.(files := w.files[p.target := w.backups[p.artifact.value]]))
      else None
    else if !p.existedBefore && p.target in w.files then Some(w.(files := w.files - {p.target}))
    else Some(w)
  }

  function RollbackRecord(p: Prepared): Record {
    Record(p.stepNumber, "Rollback for " + p.title, Some("write_file"), RolledBack,
           [Checkpoint("rollback " + p.display, "rollback")],
           Some(PlanEntry(p.stepNumber, None, p.title, "restore-file-snapshot", true,
                          if p.artifact.Some? then "Restored the captured file snapshot."
                          else "Removed the file created during staged execution.",
                          Some(p.display), p.artifact)))
  }

  function AnnotateFor(e: PlanEntry, p: Prepared): PlanEntry {
    if e.stepNumber == p.stepNumber then Annotate(e, p) else e
  }

  function AnnotatePlan(plan: seq<PlanEntry>, p: Prepared): (r: seq<PlanEntry>)
    ensures |r| == |plan|
    ensures forall i :: 0 <= i < |plan| ==> r[i] == AnnotateFor(plan[i], p)
  {
    seq(|plan|, i requires 0 <= i < |plan| => AnnotateFor(plan[i], p))
  }

  function LogRollback(j: Journal, p: Prepared): Journal {
    j.(steps := j.steps + [RollbackRecord(p)], plan := AnnotatePlan(j.plan, p))
  }

  /** Undoes the first `n` prepared writes, the last of them first. */
  function UndoFirst(prepared: seq<Prepared>, n: nat, w: World, j: Journal): (World, Journal, bool)
    requires n <= |prepared|
  {
    if n == 0 then (w, j, true)
    else
      match Restore(prepared[n - 1], w)
      case None => (w, j, false)
      case Some(w') => UndoFirst(prepared, n - 1, w', LogRollback(j, prepared[n - 1]))
  }

  // ---------- the whole execution ----------

  datatype Request = Request(confirm: bool, throughStep: Option<nat>, cwd: Option<string>, stopOnFailure: bool,
                             autoRollback: bool)

  function ThroughStep(skill: Skill, q: Request): nat {
    if q.throughStep.Some? then q.throughStep.value else |skill.steps|
  }

  predicate Unguarded(step: Step) { IsExecutable(step) && TrimmedText(step.rollback) == "" }

  predicate Unchecked(step: Step) { IsExecutable(step) && step.checkpoints == [] }

  predicate HasRisky(steps: seq<Step>) { exists i :: 0 <= i < |steps| && IsRisky(steps[i]) }

  /** Review is asked for by the lifecycle, or implied by any risky tool. */
  predicate ReviewRequired(skill: Skill) { skill.requiresReview || HasRisky(skill.steps) }

  predicate AsksConfirmation(steps: seq<Step>) { exists i :: 0 <= i < |steps| && steps[i].requiresConfirmation }

  /** The checks made before anything runs, in order. */
  function Gate(root: seq<Component>, skill: Skill, q: Request): (r: Option<Error>)
    ensures r.None? ==> q.confirm && 0 < ThroughStep(skill, q) <= |skill.steps|
    ensures r.None? ==>
              forall i :: 0 <= i < ThroughStep(skill, q) ==> !Unguarded(skill.steps[i]) && !Unchecked(skill.steps[i])
  {
    var n := ThroughStep(skill, q);
    if !HasRisky(skill.steps) then Some(NothingExecutable)
    else if (ReviewRequired(skill) || AsksConfirmation(skill.steps)) && !q.confirm then Some(NeedsConfirmation)
    else if n == 0 || n > |skill.steps| then Some(BadThroughStep)
    else if exists i :: 0 <= i < n && Unguarded(skill.steps[i]) then Some(MissingRollback)
    else if exists i :: 0 <= i < n && Unchecked(skill.steps[i]) then Some(MissingCheckpoints)
    else if q.cwd.Some? && Resolve(root, q.cwd.value).None? then Some(EscapesWorkspace)
    else None
  }

  function ContextFor(runner: Runner, root: seq<Component>, q: Request, journalId: string): (ctx: Context)
    ensures ctx.runner == runner && ctx.root == root && ctx.journalId == journalId
    ensures ctx.stopOnFailure == q.stopOnFailure
  {
    Context(runner, root,
            if q.cwd.Some? && Resolve(root, q.cwd.value).Some?
            then Resolve(root, q.cwd.value).value
            else Normalize(root),
            journalId, q.stopOnFailure)
  }

  function NewJournal(skill: Skill, n: nat, journalId: string): Journal
    requires n <= |skill.steps|
  {
    Journal(journalId, Running, n, 0, 0, 0, [], RollbackPlan(skill.steps, n))
  }

  /** The world and the answer after the step loop has reached its end. */
  function Finish(s: RunState, autoRollback: bool): (World, Result<Journal, Error>) {
    if s.journal.status == Failed && autoRollback then
      var (w, j, ok) := UndoFirst(s.prepared, |s.prepared|, s.world, s.journal);
      if !ok then (w, Err(SnapshotUnreadable))
      else (w, Ok(if s.prepared == [] then j else j.(status := RolledBack)))
    else (s.world, Ok(if s.journal.status == Running then s.journal.(status := Completed) else s.journal))
  }

  function Execute(runner: Runner, root: seq<Component>, skill: Skill, q: Request, journalId: string, w: World)
    : (World, Result<Journal, Error>)
  {
    if Gate(root, skill, q).Some? then (w, Err(Gate(root, skill, q).value))
    else
      var n := ThroughStep(skill, q);
      match RunFrom(ContextFor(runner, root, q, journalId), skill.steps[..n], 0,
                    RunState(w, NewJournal(skill, n, journalId), []))
      case Left(e, s) => (s.world, Err(e))
      case Reached(s, processed) => Finish(s, q.autoRollback)
  }
}
