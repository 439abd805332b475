/** The staged executor, changing files, snapshots and the persisted journals step by step
    (`ExecuteSkillStagesTool` in crates/ngenorca-gateway/src/tools.rs). */
module StagedExecutor {
  import opened Wrappers
  import opened Json
  import opened Paths
  import opened Skills
  import opened StagedRun

  class Executor {
    const root: seq<Component>
    const runner: Runner
    var files: map<PathBuf, Bytes>
    var backups: map<Artifact, Bytes>
    var journals: map<string, Journal>

    function CurrentWorld(): World
      reads this
    {
      World(files, backups)
    }

    constructor (root: seq<Component>, runner: Runner, files: map<PathBuf, Bytes>, backups: map<Artifact, Bytes>)
      ensures this.root == root && this.runner == runner
      ensures CurrentWorld() == World(files, backups) && journals == map[]
    {
      this.root, this.runner, this.files, this.backups, this.journals := root, runner, files, backups, map[];
    }

    method SaveExecutionJournal(j: Journal)
      modifies this`journals
      ensures journals == old(journals)[j.id := j]
    {
      journals := journals[j.id := j];
    }

    /** Snapshots the target if it exists, writes it, and prepares the rollback. */
    method WriteFileStep(ctx: Context, number: nat, step: Step) returns (r: Result<Prepared, Error>)
      requires ctx.root == root && step.tool == Some("write_file")
      modifies this`files, this`backups
      ensures match RunStep(ctx, old(CurrentWorld()), number, step)
              case Abort(e) => r == Err(e) && CurrentWorld() == old(CurrentWorld())
              case Ended(status, world, prepared) =>
                status == Completed && CurrentWorld() == world && r.Ok? && prepared == Some(r.value)
    {
      var request := ParseWrite(root, step.arguments);
      if request.Err? {
        return Err(request.error);
      }
      var target := request.value.target;
      var existedBefore := target in files;
      var artifact := None;
      if existedBefore {
        artifact := Some(Artifact(ctx.journalId, number));
        backups := backups[artifact.value := files[target]];
      }
      var content := Utf8.Encode(request.value.content);
      if request.value.append && existedBefore {
        files := files[target := files[target] + content];
      } else {
        assert [] + content == content;
        files := files[target := content];
      }
      r := Ok(Prepared(number, step.title, target, Relativize(target, Normalize(root)), artifact, existedBefore));
    }

    method RunCommandStep(ctx: Context, number: nat, step: Step) returns (r: Result<bool, Error>)
      requires step.tool == Some("run_command")
      modifies this`files, this`backups
      ensures match RunStep(ctx, old(CurrentWorld()), number, step)
              case Abort(e) => r == Err(e) && CurrentWorld() == old(CurrentWorld())
              case Ended(status, world, prepared) =>
                && status == (if r == Ok(true) then Completed else Failed)
                && r.Ok? && CurrentWorld() == world && prepared == None
    {
      var command := AsStr(Member(step.arguments, "command"));
      if command.None? {
        return Err(MissingArguments);
      }
      assert "run_command" != "write_file" by { assert "run_command"[0] == 'r' && "write_file"[0] == 'w'; }
      var result := ctx.runner(number, command.value, StringArray(Member(step.arguments, "args")), ctx.cwd,
                               CurrentWorld());
      files, backups := result.world.files, result.world.backups;
      r := Ok(Succeeded(result.outcome));
    }

    /** One turn of the loop: runs the step and logs it, or leaves early. */
    method TakeStep(ctx: Context, number: nat, step: Step, journal: Journal, prepared: seq<Prepared>)
      returns (r: Result<bool, Error>, journal': Journal, prepared': seq<Prepared>)
      requires ctx.root == root
      modifies this`files, this`backups
      ensures match ProcessStep(ctx, RunState(old(CurrentWorld()), journal, prepared), number, step)
              case Exit(e) =>
                r == Err(e) && CurrentWorld() == old(CurrentWorld()) && journal' == journal && prepared' == prepared
              case Next(s, failed) => r == Ok(failed) && s == RunState(CurrentWorld(), journal', prepared')
    {
      hide ParseWrite, Log, ApplyWrite, PreparedFor;
      journal', prepared' := journal, prepared;
      if step.tool == Some("run_command") {
        var ended := RunCommandStep(ctx, number, step);
        if ended.Err? {
          return Err(ended.error), journal', prepared';
        }
        var status := if ended.value then Completed else Failed;
        journal' := Log(journal, number, step, status, None);
        assert prepared + [] == prepared;
        r := Ok(status == Failed);
      } else if step.tool == Some("write_file") {
        var written := WriteFileStep(ctx, number, step);
        if written.Err? {
          return Err(written.error), journal', prepared';
        }
        journal' := Log(journal, number, step, Completed, Some(written.value));
        prepared' := prepared + [written.value];
        r := Ok(false);
      } else {
        journal' := Log(journal, number, step, Manual, None);
        assert prepared + [] == prepared;
        r := Ok(false);
      }
    }

    method RunSteps(ctx: Context, steps: seq<Step>, initial: Journal)
      returns (error: Option<Error>, journal: Journal, prepared: seq<Prepared>)
      requires ctx.root == root && initial.id == ctx.journalId
      modifies this
      ensures match RunFrom(ctx, steps, 0, RunState(old(CurrentWorld()), initial, []))
              case Left(e, s) => error == Some(e) && s == RunState(CurrentWorld(), journal, prepared)
              case Reached(s, processed) => error == None && s == RunState(CurrentWorld(), journal, prepared)
      ensures journals == old(journals)[ctx.journalId := journal] && journal.id == ctx.journalId
    {
      hide ProcessStep;
      journal, prepared := initial, [];
      SaveExecutionJournal(journal);
      ghost var before := old(CurrentWorld());
      var i := 0;
      while i < |steps|
        invariant 0 <= i <= |steps|
        invariant journals == old(journals)[ctx.journalId := journal] && journal.id == ctx.journalId
        invariant RunFrom(ctx, steps, i, RunState(CurrentWorld(), journal, prepared)) ==
                    RunFrom(ctx, steps, 0, RunState(before, initial, []))
      {
        StepKeepsId(ctx, RunState(CurrentWorld(), journal, prepared), i + 1, steps[i]);
        var r: Result<bool, Error>;
        r, journal, prepared := TakeStep(ctx, i + 1, steps[i], journal, prepared);
        if r.Err? {
          return Some(r.error), journal, prepared;
        }
        SaveExecutionJournal(journal);
        i := i + 1;
        if r.value && ctx.stopOnFailure {
          return None, journal, prepared;
        }
      }
      error := None;
    }

    /** Restores the snapshot of one write, or removes the file it created; false when the snapshot cannot be read. */
    method ExecuteWriteRollback(p: Prepared) returns (ok: bool)
      modifies this`files
      ensures match Restore(p, old(CurrentWorld()))
              case None => !ok && CurrentWorld() == old(CurrentWorld())
              case Some(w) => ok && CurrentWorld() == w
    {
      if p.artifact.Some? {
        if p.artifact.value !in backups {
          return false;
        }
        files := files[p.target := backups[p.artifact.value]];
      } else if !p.existedBefore && p.target in files {
        files := files - {p.target};
      }
      ok := true;
    }

    /** Undoes the prepared writes in reverse order, logging each. */
    method RollBack(prepared: seq<Prepared>, initial: Journal) returns (ok: bool, journal: Journal)
      modifies this`files
      ensures (CurrentWorld(), journal, ok) == UndoFirst(prepared, |prepared|, old(CurrentWorld()), initial)
      ensures journal.id == initial.id
    {
      hide Restore, LogRollback;
      journal := initial;
      var n: nat := |prepared|;
      while n > 0
        invariant n <= |prepared| && journal.id == initial.id
        invariant UndoFirst(prepared, n, CurrentWorld(), journal) ==
                    UndoFirst(prepared, |prepared|, old(CurrentWorld()), initial)
      {
        var restored := ExecuteWriteRollback(prepared[n - 1]);
        if !restored {
          return false, journal;
        }
        LogRollbackKeepsId(journal, prepared[n - 1]);
        journal := LogRollback(journal, prepared[n - 1]);
        n := n - 1;
      }
      ok := true;
    }

    /** Runs the requested steps of a skill; `journalId` is the fresh identifier of the run. */
    method Execute(skill: Skill, q: Request, journalId: string) returns (r: Result<Journal, Error>)
      modifies this
      ensures CurrentWorld() == StagedRun.Execute(runner, root, skill, q, journalId, old(CurrentWorld())).0
      ensures r == StagedRun.Execute(runner, root, skill, q, journalId, old(CurrentWorld())).1
      ensures r.Ok? ==> journals == old(journals)[journalId := r.value]
      ensures Gate(root, skill, q).Some? ==> journals == old(journals)
    {
      hide ProcessStep, Restore, LogRollback, Gate, ContextFor, RollbackPlan;
      var gate := Gate(root, skill, q);
      if gate.Some? {
        return Err(gate.value);
      }
      var n := ThroughStep(skill, q);
      var ctx := ContextFor(runner, root, q, journalId);
      var error, journal, prepared := RunSteps(ctx, skill.steps[..n], NewJournal(skill, n, journalId));
      if error.Some? {
        return Err(error.value);
      }
      if journal.status == Failed && q.autoRollback {
        var ok;
        ok, journal := RollBack(prepared, journal);
        if !ok {
          return Err(SnapshotUnreadable);
        }
        if prepared != [] {
          journal := journal.(status := RolledBack);
          SaveExecutionJournal(journal);
        }
      }
      if journal.status == Running {
        journal := journal.(status := Completed);
      }
      SaveExecutionJournal(journal);
      r := Ok(journal);
    }
  }

  lemma StepKeepsId(ctx: Context, s: RunState, number: nat, step: Step)
    ensures var a := ProcessStep(ctx, s, number, step); a.Next? ==> a.state.journal.id == s.journal.id
  {
    hide RunStep;
  }

  lemma LogRollbackKeepsId(j: Journal, p: Prepared)
    ensures LogRollback(j, p).id == j.id
  {
  }
}
