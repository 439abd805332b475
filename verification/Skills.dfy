/** Skill artifacts and the plans synthesised from them (crates/ngenorca-gateway/src/skills.rs). */
module Skills {
  import opened Wrappers
  import opened Text
  import opened Json

  datatype Step = Step(title: string, stepId: Option<string>, tool: Option<string>, arguments: Option<Json>,
                       verification: Option<string>, rollback: Option<string>, checkpoints: seq<string>,
                       requiresConfirmation: bool)

  datatype Skill = Skill(name: string, requiresReview: bool, steps: seq<Step>)

  /** The snapshot file `backups/<journal>-step-<n>.bak`. */
  datatype Artifact = Artifact(journal: string, step: nat)

  datatype PlanEntry = PlanEntry(stepNumber: nat, stepId: Option<string>, title: string, strategy: string,
                                 available: bool, instruction: string,
                                 target: Option<string>, artifact: Option<Artifact>)

  predicate IsExecutableTool(tool: string) { tool == "run_command" || tool == "write_file" }

  predicate IsRiskyTool(tool: string) {
    IsExecutableTool(tool) || tool == "fetch_url" || tool == "web_search"
  }

  predicate IsExecutable(step: Step) { step.tool.Some? && IsExecutableTool(step.tool.value) }

  predicate IsRisky(step: Step) { step.tool.Some? && IsRiskyTool(step.tool.value) }

  /** The trimmed text, empty when absent. */
  function TrimmedText(o: Option<string>): string { if o.Some? then Trim(o.value) else "" }

  /** What the plan says about one executable step. */
  function PlanFor(step: Step, number: nat): PlanEntry
    requires IsExecutable(step)
  {
    var writes := step.tool.value == "write_file";
    var rollback := TrimmedText(step.rollback);
    var target := if writes then AsStr(Member(step.arguments, "path")) else None;
    PlanEntry(number, step.stepId, step.title,
              if writes then (if target.Some? then "restore-file-snapshot" else "manual") else "operator-guided",
              if writes then target.Some? else rollback != "",
              if rollback != "" then rollback
              else if writes then "Restore the last captured file snapshot before re-running later stages."
              else "Review step '" + step.title + "' manually before re-running the automation.",
              target, None)
  }

  /** `synthesize_rollback_plan`: the executable steps among the first `through`, last one first. */
  function RollbackPlan(steps: seq<Step>, through: nat): seq<PlanEntry>
    requires through <= |steps|
  {
    if through == 0 then []
    else (if IsExecutable(steps[through - 1]) then [PlanFor(steps[through - 1], through)] else [])
         + RollbackPlan(steps, through - 1)
  }

  ghost predicate DecreasingNumbers(plan: seq<PlanEntry>) {
    forall i, j :: 0 <= i < j < |plan| ==> plan[i].stepNumber > plan[j].stepNumber
  }

  /** The plan lists each executable step in range once, in strictly decreasing order, with its own entry. */
  lemma {:induction false} PlanMeaning(steps: seq<Step>, through: nat)
    requires through <= |steps|
    ensures var plan := RollbackPlan(steps, through);
            && DecreasingNumbers(plan)
            && (forall e :: e in plan ==> 1 <= e.stepNumber <= through && IsExecutable(steps[e.stepNumber - 1])
                                          && e == PlanFor(steps[e.stepNumber - 1], e.stepNumber))
            && (forall k :: 0 <= k < through && IsExecutable(steps[k]) ==> PlanFor(steps[k], k + 1) in plan)
  {
    hide PlanFor, IsExecutable;
    if through > 0 {
      PlanMeaning(steps, through - 1);
      var head := if IsExecutable(steps[through - 1]) then [PlanFor(steps[through - 1], through)] else [];
      var rest := RollbackPlan(steps, through - 1);
      PlanNumber(steps, through);
      forall k | 0 <= k < through && IsExecutable(steps[k])
        ensures PlanFor(steps[k], k + 1) in head + rest
      {
        assert k == through - 1 ==> PlanFor(steps[k], k + 1) in head;
      }
    }
  }

  lemma PlanNumber(steps: seq<Step>, n: nat)
    requires 0 < n <= |steps|
    ensures IsExecutable(steps[n - 1]) ==> PlanFor(steps[n - 1], n).stepNumber == n
  {
  }

  /** The staged preview: number and kind of each executable step, in order. */
  function StagedPreview(steps: seq<Step>, n: nat): seq<(nat, bool)>
    requires n <= |steps|
  {
    if n == 0 then []
    else StagedPreview(steps, n - 1)
         + if IsExecutable(steps[n - 1]) then [(n, steps[n - 1].requiresConfirmation)] else []
  }

  /** The rollback plan visits the staged steps in reverse. */
  lemma {:induction false} PlanReversesPreview(steps: seq<Step>, n: nat)
    requires n <= |steps|
    ensures |RollbackPlan(steps, n)| == |StagedPreview(steps, n)|
    ensures forall i :: 0 <= i < |RollbackPlan(steps, n)| ==>
              RollbackPlan(steps, n)[i].stepNumber == StagedPreview(steps, n)[|RollbackPlan(steps, n)| - 1 - i].0
  {
    hide PlanFor, IsExecutable;
    if n > 0 {
      PlanReversesPreview(steps, n - 1);
      PlanNumber(steps, n);
    }
  }
}
