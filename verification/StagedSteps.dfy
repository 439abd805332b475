/** What each step of a run does, told from the JSON of its arguments (crates/ngenorca-gateway/src/tools.rs). */
module StagedSteps {
  import opened Wrappers
  import opened Text
  import opened Json
  import opened Paths
  import opened Skills
  import opened StagedRun
  import opened StagedTheorems

  /** The arguments of the step are an object that has this value under this key. */
  predicate HasArgument(step: Step, key: string, value: Json) {
    step.arguments.Some? && step.arguments.value.Obj? && key in step.arguments.value.members
    && step.arguments.value.members[key] == value
  }

  lemma ArgumentMeaning(step: Step, key: string, value: Json)
    ensures HasArgument(step, key, value) <==> Member(step.arguments, key) == Some(value)
  {
  }

  /** The arguments of a write: where it resolves to, and what it writes. */
  ghost predicate AsksToWrite(root: seq<Component>, step: Step, path: string, content: string, target: PathBuf) {
    && step.tool == Some("write_file")
    && HasArgument(step, "path", Str(path)) && HasArgument(step, "content", Str(content))
    && Resolve(root, path) == Some(target)
  }

  ghost predicate AsksForSomeWrite(root: seq<Component>, step: Step) {
    exists path, content, target :: AsksToWrite(root, step, path, content, target)
  }

  lemma ParsedWrite(root: seq<Component>, step: Step, path: string, content: string, target: PathBuf)
    requires AsksToWrite(root, step, path, content, target)
    ensures ParseWrite(root, step.arguments) ==
              Ok(WriteRequest(target, content, HasArgument(step, "append", Bool(true))))
  {
    hide Resolve;
  }

  /** A write step of any run, with a path and a content that are strings and a path inside the workspace, is done.
      Its target then holds the encoded content, after what it held before exactly if `append` is the boolean true;
      no other file changes; and what an existing target held is kept as the snapshot of the step. */
  lemma WriteStepEffect(ctx: Context, steps: seq<Step>, s0: RunState, n: nat, path: string, content: string,
                        target: PathBuf)
    requires 0 < n <= |steps| && StateAfter(ctx, steps, s0, n - 1).Some?
    requires AsksToWrite(ctx.root, steps[n - 1], path, content, target)
    ensures StateAfter(ctx, steps, s0, n).Some? && !FailedAt(ctx, steps, s0, n)
    ensures var before := StateAfter(ctx, steps, s0, n - 1).value.world;
            var after := StateAfter(ctx, steps, s0, n).value.world;
            var kept := if HasArgument(steps[n - 1], "append", Bool(true)) && target in before.files
                       then before.files[target] else [];
            && after.files == before.files[target := kept + Utf8.Encode(content)]
            && after.backups == (if target in before.files
                                 then before.backups[Artifact(ctx.journalId, n) := before.files[target]]
                                 else before.backups)
  {
    hide ParseWrite, PreparedFor, Log, HasArgument, Resolve;
    ParsedWrite(ctx.root, steps[n - 1], path, content, target);
    assert "run_command"[0] != "write_file"[0];
  }

  /** A write step is done only with such arguments; with any others the run ends there. */
  lemma WriteStepDoneIff(ctx: Context, steps: seq<Step>, s0: RunState, n: nat)
    requires 0 < n <= |steps| && StateAfter(ctx, steps, s0, n - 1).Some? && steps[n - 1].tool == Some("write_file")
    ensures StateAfter(ctx, steps, s0, n).Some? <==>
              AsksForSomeWrite(ctx.root, steps[n - 1])
  {
    hide PreparedFor, Log, ApplyWrite, Resolve;
    var step := steps[n - 1];
    assert "run_command"[0] != "write_file"[0];
    if StateAfter(ctx, steps, s0, n).Some? {
      var request := ParseWrite(ctx.root, step.arguments);
      assert request.Ok?;
      var path, content := Member(step.arguments, "path").value.s, Member(step.arguments, "content").value.s;
      assert AsksToWrite(ctx.root, step, path, content, request.value.target);
    } else if path, content, target :| AsksToWrite(ctx.root, step, path, content, target) {
      ParsedWrite(ctx.root, step, path, content, target);
    }
  }

  // ---------- commands ----------

  /** `words` are the string items of a list, in order; items of other kinds are skipped. */
  ghost predicate AreStringsOf(items: seq<Json>, words: seq<string>)
    decreases |items|
  {
    if items == [] then words == []
    else if items[|items| - 1].Str? then
      words != [] && words[|words| - 1] == items[|items| - 1].s
      && AreStringsOf(items[..|items| - 1], words[..|words| - 1])
    else AreStringsOf(items[..|items| - 1], words)
  }

  lemma {:induction false} StringsOfLast(items: seq<Json>, last: Json)
    ensures StringsOf(items + [last]) == StringsOf(items) + if last.Str? then [last.s] else []
    decreases |items|
  {
    if items == [] {
      assert [last][1..] == [];
    } else {
      assert (items + [last])[1..] == items[1..] + [last];
      StringsOfLast(items[1..], last);
      assert (items + [last])[0] == items[0];
    }
  }

  lemma {:induction false} StringsMeaning(items: seq<Json>, words: seq<string>)
    ensures AreStringsOf(items, words) <==> words == StringsOf(items)
    decreases |items|
  {
    if items != [] {
      var front, last := items[..|items| - 1], items[|items| - 1];
      assert front + [last] == items;
      StringsOfLast(front, last);
      if last.Str? {
        if words != [] {
          StringsMeaning(front, words[..|words| - 1]);
          assert words[..|words| - 1] + [words[|words| - 1]] == words;
        }
      } else {
        StringsMeaning(front, words);
      }
    }
  }

  /** The words a command step passes: the strings of its `args` list, none if there is no such list. */
  ghost predicate PassesWords(step: Step, words: seq<string>) {
    if exists items :: HasArgument(step, "args", Arr(items))
    then exists items :: HasArgument(step, "args", Arr(items)) && AreStringsOf(items, words)
    else words == []
  }

  lemma WordsMeaning(step: Step, words: seq<string>)
    requires step.arguments.Some? && step.arguments.value.Obj?
    ensures PassesWords(step, words) <==> words == StringArray(Member(step.arguments, "args"))
  {
    var args := Member(step.arguments, "args");
    if args.Some? && args.value.Arr? {
      assert HasArgument(step, "args", Arr(args.value.items));
      StringsMeaning(args.value.items, words);
    }
  }

  /** A command step of any run that names its command is done: the run goes on from the world the command leaves when
      it is run with these words in the working directory of the run, and the step fails unless that ended successfully
      and in time. */
  lemma CommandStepEffect(ctx: Context, steps: seq<Step>, s0: RunState, n: nat, command: string, words: seq<string>)
    requires 0 < n <= |steps| && StateAfter(ctx, steps, s0, n - 1).Some? && steps[n - 1].tool == Some("run_command")
    requires HasArgument(steps[n - 1], "command", Str(command)) && PassesWords(steps[n - 1], words)
    ensures StateAfter(ctx, steps, s0, n).Some?
    ensures var r := ctx.runner(n, command, words, ctx.cwd, StateAfter(ctx, steps, s0, n - 1).value.world);
            && StateAfter(ctx, steps, s0, n).value.world == r.world
            && (FailedAt(ctx, steps, s0, n) <==> r.outcome != Finished(true, false))
  {
    hide Log, PassesWords;
    WordsMeaning(steps[n - 1], words);
  }

  /** A command step is done only if it names its command. */
  lemma CommandStepDoneIff(ctx: Context, steps: seq<Step>, s0: RunState, n: nat)
    requires 0 < n <= |steps| && StateAfter(ctx, steps, s0, n - 1).Some? && steps[n - 1].tool == Some("run_command")
    ensures StateAfter(ctx, steps, s0, n).Some? <==>
              exists command :: HasArgument(steps[n - 1], "command", Str(command))
  {
    hide Log;
    if StateAfter(ctx, steps, s0, n).Some? {
      assert HasArgument(steps[n - 1], "command", Str(Member(steps[n - 1].arguments, "command").value.s));
    }
  }

  /** Any other step is left to the operator: it changes nothing, never fails and never ends the run. */
  lemma ManualStepEffect(ctx: Context, steps: seq<Step>, s0: RunState, n: nat)
    requires 0 < n <= |steps| && StateAfter(ctx, steps, s0, n - 1).Some?
    requires steps[n - 1].tool != Some("run_command") && steps[n - 1].tool != Some("write_file")
    ensures StateAfter(ctx, steps, s0, n).Some? && !FailedAt(ctx, steps, s0, n)
    ensures StateAfter(ctx, steps, s0, n).value.world == StateAfter(ctx, steps, s0, n - 1).value.world
  {
    hide Log;
  }

  // ---------- where a run starts ----------

  /** An admitted run takes the first `through_step` steps, all of them if none is given, in a working directory that is
      what `cwd` resolves to, or the workspace root; its journal has the given identifier. */
  lemma RunStarts(runner: Runner, root: seq<Component>, skill: Skill, q: Request, journalId: string, w: World)
    requires Gate(root, skill, q).None?
    ensures var ctx := ContextFor(runner, root, q, journalId);
            && ctx.runner == runner && ctx.root == root && ctx.journalId == journalId
            && ctx.stopOnFailure == q.stopOnFailure
            && (q.cwd.Some? ==> Resolve(root, q.cwd.value) == Some(ctx.cwd))
            && (q.cwd.None? ==> ctx.cwd == Normalize(root))
    ensures var steps, s0 := Requested(skill, q), Initial(skill, journalId, q, w);
            && steps <= skill.steps && s0.world == w && s0.prepared == []
            && |steps| == (if q.throughStep.Some? then q.throughStep.value else |skill.steps|)
            && s0.journal == Journal(journalId, Running, |steps|, 0, 0, 0, [], RollbackPlan(skill.steps, |steps|))
  {
    hide Resolve, IsExecutable, TrimmedText, IsRisky, RollbackPlan, Normalize;
    GateOpensIff(root, skill, q);
  }

  // ---------- the plan ----------

  /** What the rollback plan says of a step before the run: a write with a path that is a string can have its snapshot
      restored, one without cannot be undone, and undoing a command is up to the operator, who needs guidance. */
  lemma PlanEntryMeaning(step: Step, number: nat)
    requires step.tool == Some("write_file") || step.tool == Some("run_command")
    ensures IsExecutable(step)
    ensures var e := PlanFor(step, number);
            var guided := step.rollback.Some? && Trim(step.rollback.value) != "";
            && e.stepNumber == number && e.title == step.title && e.stepId == step.stepId && e.artifact == None
            && (guided ==> e.instruction == Trim(step.rollback.value))
            && (step.tool == Some("run_command") ==>
                  e.strategy == "operator-guided" && e.target == None && (e.available <==> guided))
            && (step.tool == Some("write_file") ==>
                  && (e.available <==> exists path :: HasArgument(step, "path", Str(path)))
                  && (e.available <==> e.strategy == "restore-file-snapshot")
                  && (!e.available <==> e.strategy == "manual")
                  && (forall path :: e.target == Some(path) <==> HasArgument(step, "path", Str(path))))
  {
    hide Trim;
    assert "run_command"[0] != "write_file"[0];
    assert "restore-file-snapshot"[0] != "manual"[0];
    var path := Member(step.arguments, "path");
    if path.Some? && path.value.Str? {
      assert HasArgument(step, "path", Str(path.value.s));
    }
  }
}
