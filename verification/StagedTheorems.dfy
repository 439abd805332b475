/** What every staged execution keeps: its history, its snapshots, and what rolling back restores. */
module StagedTheorems {
  import opened Wrappers
  import opened Text
  import opened Json
  import opened Paths
  import opened Skills
  import opened StagedRun

  // ---------- the history of a run ----------

  /** The state once `n` steps are done, None when one of them left early. */
  function StateAfter(ctx: Context, steps: seq<Step>, s0: RunState, n: nat): Option<RunState>
    requires n <= |steps|
  {
    if n == 0 then Some(s0)
    else
      var s := StateAfter(ctx, steps, s0, n - 1);
      if s.None? then None
      else
        match ProcessStep(ctx, s.value, n, steps[n - 1])
        case Exit(_) => None
        case Next(s', _) => Some(s')
  }

  /** Step `n` was a command that failed, timed out or could not start. */
  predicate FailedAt(ctx: Context, steps: seq<Step>, s0: RunState, n: nat)
    requires 0 < n <= |steps|
  {
    var s := StateAfter(ctx, steps, s0, n - 1);
    s.Some? && ProcessStep(ctx, s.value, n, steps[n - 1]).Next? && ProcessStep(ctx, s.value, n, steps[n - 1]).failed
  }

  predicate IsWrite(step: Step) { step.tool == Some("write_file") }

  predicate IsCommand(step: Step) { step.tool == Some("run_command") }

  /** A step no run gets past: a command without a name, or a write without its texts or out of the workspace. */
  predicate Malformed(root: seq<Component>, step: Step) {
    || (IsCommand(step) && AsStr(Member(step.arguments, "command")).None?)
    || (IsWrite(step) && ParseWrite(root, step.arguments).Err?)
  }

  /** The step is a write whose resolved target is `p`. */
  predicate WritesTo(root: seq<Component>, step: Step, p: PathBuf) {
    IsWrite(step) && ParseWrite(root, step.arguments).Ok? && ParseWrite(root, step.arguments).value.target == p
  }

  /** The first `n` steps were all well formed exactly when a state after them exists. */
  lemma {:induction false} StateExists(ctx: Context, steps: seq<Step>, s0: RunState, n: nat)
    requires n <= |steps|
    ensures StateAfter(ctx, steps, s0, n).Some? <==> forall i :: 0 <= i < n ==> !Malformed(ctx.root, steps[i])
  {
    hide ParseWrite, Log, ApplyWrite, PreparedFor;
    if n > 0 {
      StateExists(ctx, steps, s0, n - 1);
      assert "run_command"[0] != "write_file"[0];
    }
  }

  lemma ExitErrors(ctx: Context, s: RunState, number: nat, step: Step)
    ensures var a := ProcessStep(ctx, s, number, step);
            a.Exit? ==> a.error == MissingArguments || a.error == EscapesWorkspace
  {
    hide ApplyWrite, PreparedFor, Log;
  }

  /** A command step fails exactly unless its command ended successfully and in time;
      either way the run goes on from the world it left. */
  lemma CommandFails(ctx: Context, steps: seq<Step>, s0: RunState, n: nat)
    requires 0 < n <= |steps| && IsCommand(steps[n - 1]) && StateAfter(ctx, steps, s0, n).Some?
    ensures AsStr(Member(steps[n - 1].arguments, "command")).Some? && StateAfter(ctx, steps, s0, n - 1).Some?
    ensures var command := AsStr(Member(steps[n - 1].arguments, "command")).value;
            var args := StringArray(Member(steps[n - 1].arguments, "args"));
            var r := ctx.runner(n, command, args, ctx.cwd, StateAfter(ctx, steps, s0, n - 1).value.world);
            && StateAfter(ctx, steps, s0, n).value.world == r.world
            && (FailedAt(ctx, steps, s0, n) <==> r.outcome != Finished(true, false))
  {
    hide Log;
  }

  /** `n` is where the loop ends: nobody left, only the last step may have failed when failures stop the run. */
  ghost predicate EndsAt(ctx: Context, steps: seq<Step>, s0: RunState, i: nat, n: nat) {
    && i <= n <= |steps|
    && StateAfter(ctx, steps, s0, n).Some?
    && (n < |steps| ==> ctx.stopOnFailure && i < n && FailedAt(ctx, steps, s0, n))
    && (ctx.stopOnFailure ==> forall k :: i < k < n ==> !FailedAt(ctx, steps, s0, k))
  }

  /** The loop ends in the state its history gives, after the first failure or the last step; or it leaves at the
      first malformed step it meets, in the state the earlier steps left. */
  lemma {:induction false} LoopFollowsHistory(ctx: Context, steps: seq<Step>, s0: RunState, i: nat, s: RunState)
    requires i <= |steps| && StateAfter(ctx, steps, s0, i) == Some(s)
    ensures match RunFrom(ctx, steps, i, s)
            case Reached(s', n) => EndsAt(ctx, steps, s0, i, n) && StateAfter(ctx, steps, s0, n) == Some(s')
            case Left(e, s') =>
              (e == MissingArguments || e == EscapesWorkspace) &&
              exists n :: i <= n < |steps| && StateAfter(ctx, steps, s0, n) == Some(s') && Malformed(ctx.root, steps[n])
                          && (forall k :: 0 <= k < n ==> !Malformed(ctx.root, steps[k]))
                          && (ctx.stopOnFailure ==> forall k :: i < k <= n ==> !FailedAt(ctx, steps, s0, k))
    decreases |steps| - i
  {
    hide ProcessStep, Malformed;
    if i < |steps| {
      var advance := ProcessStep(ctx, s, i + 1, steps[i]);
      StateExists(ctx, steps, s0, i);
      StateExists(ctx, steps, s0, i + 1);
      if advance.Next? {
        if !(advance.failed && ctx.stopOnFailure) {
          LoopFollowsHistory(ctx, steps, s0, i + 1, advance.state);
        }
      } else {
        assert advance.Exit?;
        ExitErrors(ctx, s, i + 1, steps[i]);
      }
    }
  }

  // ---------- snapshots ----------

  /** None of the first `n` steps writes to `p`. */
  ghost predicate Unwritten(root: seq<Component>, steps: seq<Step>, n: nat, p: PathBuf)
    requires n <= |steps|
  {
    forall k :: 0 <= k < n ==> !WritesTo(root, steps[k], p)
  }

  /** After `n` steps the path held `bytes`, None for no file. */
  predicate Holds(ctx: Context, steps: seq<Step>, s0: RunState, n: nat, p: PathBuf, bytes: Option<Bytes>)
    requires n <= |steps|
  {
    StateAfter(ctx, steps, s0, n).Some? && Lookup(StateAfter(ctx, steps, s0, n).value.world.files, p) == bytes
  }

  /** The snapshots a run has taken are still there, unchanged. */
  ghost predicate KeptFor(id: string, before: map<Artifact, Bytes>, after: map<Artifact, Bytes>) {
    forall a :: a in before && a.journal == id ==> a in after && after[a] == before[a]
  }

  /** Commands leave the snapshots of this run alone. They may change any workspace file. */
  ghost predicate SparesSnapshots(runner: Runner, id: string) {
    forall number: nat, command: string, args: seq<string>, cwd: PathBuf, w: World ::
      KeptFor(id, w.backups, runner(number, command, args, cwd, w).world.backups)
  }

  /** What a snapshot says its target held. */
  function Saved(p: Prepared, backups: map<Artifact, Bytes>): Option<Bytes> {
    if p.artifact.Some? && p.artifact.value in backups then Some(backups[p.artifact.value]) else None
  }

  predicate Readable(p: Prepared, backups: map<Artifact, Bytes>) {
    if p.artifact.Some? then p.artifact.value in backups else !p.existedBefore
  }

  /** A prepared rollback describes its own step: the target, and what the target held just before the step. */
  ghost predicate Faithful(ctx: Context, steps: seq<Step>, s0: RunState, p: Prepared, backups: map<Artifact, Bytes>) {
    && 1 <= p.stepNumber <= |steps|
    && WritesTo(ctx.root, steps[p.stepNumber - 1], p.target)
    && p.title == steps[p.stepNumber - 1].title && p.display == Relativize(p.target, Normalize(ctx.root))
    && Readable(p, backups)
    && (p.artifact.Some? ==> p.artifact.value == Artifact(ctx.journalId, p.stepNumber))
    && Holds(ctx, steps, s0, p.stepNumber - 1, p.target, Saved(p, backups))
  }

  ghost predicate AllFaithful(ctx: Context, steps: seq<Step>, s0: RunState, s: RunState) {
    forall i :: 0 <= i < |s.prepared| ==> Faithful(ctx, steps, s0, s.prepared[i], s.world.backups)
  }

  predicate Numbered(prepared: seq<Prepared>, number: nat) {
    exists i :: 0 <= i < |prepared| && prepared[i].stepNumber == number
  }

  /** The prepared rollbacks are those of the write steps among the first `n`, in order. */
  ghost predicate AreTheWrites(steps: seq<Step>, n: nat, prepared: seq<Prepared>)
    requires n <= |steps|
  {
    && (forall i :: 0 <= i < |prepared| ==>
          1 <= prepared[i].stepNumber <= n && IsWrite(steps[prepared[i].stepNumber - 1]))
    && (forall i, j :: 0 <= i < j < |prepared| ==> prepared[i].stepNumber < prepared[j].stepNumber)
    && (forall k :: 0 <= k < n && IsWrite(steps[k]) ==> Numbered(prepared, k + 1))
  }

  lemma StepPrepares(ctx: Context, w: World, number: nat, step: Step)
    ensures var r := RunStep(ctx, w, number, step);
            r.Ended? ==> && (r.prepared.Some? <==> IsWrite(step))
                         && (r.prepared.Some? ==> r.prepared.value.stepNumber == number)
  {
    hide ParseWrite, ApplyWrite;
    assert "run_command"[0] != "write_file"[0];
  }

  lemma {:induction false} PreparedInOrder(ctx: Context, steps: seq<Step>, s0: RunState, n: nat)
    requires n <= |steps| && s0.prepared == []
    ensures var s := StateAfter(ctx, steps, s0, n); s.Some? ==> AreTheWrites(steps, n, s.value.prepared)
  {
    hide RunStep, Log, IsWrite, AreTheWrites;
    var now := StateAfter(ctx, steps, s0, n);
    if n == 0 {
      assert AreTheWrites(steps, 0, []) by { NonePrepared(steps); }
    } else if now.Some? {
      PreparedInOrder(ctx, steps, s0, n - 1);
      var before := StateAfter(ctx, steps, s0, n - 1).value;
      StepPrepares(ctx, before.world, n, steps[n - 1]);
      OnePrepared(steps, n, before.prepared, now.value.prepared);
    }
  }

  lemma NonePrepared(steps: seq<Step>)
    ensures AreTheWrites(steps, 0, [])
  {
  }

  lemma OnePrepared(steps: seq<Step>, n: nat, prepared: seq<Prepared>, more: seq<Prepared>)
    requires 0 < n <= |steps| && AreTheWrites(steps, n - 1, prepared)
    requires if IsWrite(steps[n - 1])
             then |more| == |prepared| + 1 && more[..|prepared|] == prepared && more[|prepared|].stepNumber == n
             else more == prepared
    ensures AreTheWrites(steps, n, more)
  {
    hide IsWrite, Numbered;
    forall k | 0 <= k < n && IsWrite(steps[k])
      ensures Numbered(more, k + 1)
    {
      NumberedGrows(prepared, more, k + 1);
    }
  }

  lemma HasNumber(prepared: seq<Prepared>, number: nat)
    requires Numbered(prepared, number)
    ensures exists i :: 0 <= i < |prepared| && prepared[i].stepNumber == number
  {
  }

  lemma NumberedGrows(prepared: seq<Prepared>, more: seq<Prepared>, number: nat)
    requires prepared == more || (|more| == |prepared| + 1 && more[..|prepared|] == prepared)
    ensures Numbered(prepared, number) ==> Numbered(more, number)
    ensures more != [] && more[|more| - 1].stepNumber == number ==> Numbered(more, number)
  {
    if Numbered(prepared, number) {
      var i :| 0 <= i < |prepared| && prepared[i].stepNumber == number;
      assert more[i] == prepared[i];
    }
  }

  /** What one step does to the snapshots. */
  lemma StepSnapshots(ctx: Context, w: World, number: nat, step: Step)
    requires SparesSnapshots(ctx.runner, ctx.journalId)
    ensures var r := RunStep(ctx, w, number, step);
            r.Ended? ==>
              && (forall a :: a in w.backups && a.journal == ctx.journalId && a.step != number ==>
                    a in r.world.backups && r.world.backups[a] == w.backups[a])
              && (r.prepared.Some? <==> IsWrite(step))
              && (r.prepared.Some? ==>
                    && r.status == Completed
                    && WritesTo(ctx.root, step, r.prepared.value.target)
                    && r.prepared.value.stepNumber == number
                    && r.prepared.value.title == step.title
                    && r.prepared.value.display == Relativize(r.prepared.value.target, Normalize(ctx.root))
                    && Readable(r.prepared.value, r.world.backups)
                    && (r.prepared.value.artifact.Some? ==>
                          r.prepared.value.artifact.value == Artifact(ctx.journalId, number))
                    && Saved(r.prepared.value, r.world.backups) == Lookup(w.files, r.prepared.value.target))
  {
    hide ParseWrite;
    assert "run_command"[0] != "write_file"[0];
    if step.tool == Some("run_command") {
      var command := AsStr(Member(step.arguments, "command"));
      if command.Some? {
        var args := StringArray(Member(step.arguments, "args"));
        assert KeptFor(ctx.journalId, w.backups, ctx.runner(number, command.value, args, ctx.cwd, w).world.backups);
      }
    }
  }

  /** Later steps and commands never spoil an earlier snapshot. */
  lemma {:induction false} SnapshotsStayFaithful(ctx: Context, steps: seq<Step>, s0: RunState, n: nat)
    requires n <= |steps| && s0.prepared == []
    requires SparesSnapshots(ctx.runner, ctx.journalId)
    ensures var s := StateAfter(ctx, steps, s0, n); s.Some? ==> AllFaithful(ctx, steps, s0, s.value)
  {
    hide RunStep, Log, WritesTo, IsWrite, Lookup, Numbered;
    var now := StateAfter(ctx, steps, s0, n);
    if n > 0 && now.Some? {
      SnapshotsStayFaithful(ctx, steps, s0, n - 1);
      PreparedInOrder(ctx, steps, s0, n - 1);
      var before := StateAfter(ctx, steps, s0, n - 1).value;
      StepSnapshots(ctx, before.world, n, steps[n - 1]);
      var s := now.value;
      forall i | 0 <= i < |s.prepared|
        ensures Faithful(ctx, steps, s0, s.prepared[i], s.world.backups)
      {
        if i < |before.prepared| {
          assert s.prepared[i] == before.prepared[i];
          assert Faithful(ctx, steps, s0, before.prepared[i], before.world.backups);
        }
      }
    }
  }

  // ---------- undoing ----------

  /** The first of the first `n` prepared writes to `p`. */
  function FirstTo(prepared: seq<Prepared>, n: nat, p: PathBuf): (r: Option<nat>)
    requires n <= |prepared|
    ensures r.Some? ==> r.value < n && prepared[r.value].target == p
    ensures r.Some? ==> forall i :: 0 <= i < r.value ==> prepared[i].target != p
    ensures r.None? ==> forall i :: 0 <= i < n ==> prepared[i].target != p
  {
    if n == 0 then None
    else
      var r := FirstTo(prepared, n - 1, p);
      if r.Some? then r else if prepared[n - 1].target == p then Some(n - 1) else None
  }

  /** What undoing the first `n` prepared writes leaves at `p`: what the first write to it saved. */
  function Undone(prepared: seq<Prepared>, n: nat, w: World, p: PathBuf): Option<Bytes>
    requires n <= |prepared|
  {
    var first := FirstTo(prepared, n, p);
    if first.Some? then Saved(prepared[first.value], w.backups) else Lookup(w.files, p)
  }

  lemma RestoreOne(p: Prepared, w: World)
    requires Readable(p, w.backups)
    ensures Restore(p, w).Some? && Restore(p, w).value.backups == w.backups
    ensures forall q ::
              Lookup(Restore(p, w).value.files, q) == if q == p.target then Saved(p, w.backups) else Lookup(w.files, q)
  {
  }

  /** Undoing last to first leaves at every path what the first write to it had saved, and keeps the snapshots. */
  lemma {:induction false} UndoMeaning(prepared: seq<Prepared>, n: nat, w: World, j: Journal)
    requires n <= |prepared|
    requires forall i :: 0 <= i < n ==> Readable(prepared[i], w.backups)
    ensures var u := UndoFirst(prepared, n, w, j);
            u.2 && u.0.backups == w.backups && forall p :: Lookup(u.0.files, p) == Undone(prepared, n, w, p)
  {
    hide Restore, LogRollback, Readable, Saved, Lookup;
    if n > 0 {
      RestoreOne(prepared[n - 1], w);
      UndoMeaning(prepared, n - 1, Restore(prepared[n - 1], w).value, LogRollback(j, prepared[n - 1]));
    }
  }

  /** Undoing goes through exactly when every snapshot it needs can still be read. */
  lemma {:induction false} UndoSucceedsIff(prepared: seq<Prepared>, n: nat, w: World, j: Journal)
    requires n <= |prepared|
    ensures UndoFirst(prepared, n, w, j).2 <==>
            forall i :: 0 <= i < n && prepared[i].artifact.Some? ==> prepared[i].artifact.value in w.backups
  {
    hide LogRollback;
    if n > 0 {
      var r := Restore(prepared[n - 1], w);
      if r.Some? {
        UndoSucceedsIff(prepared, n - 1, r.value, LogRollback(j, prepared[n - 1]));
      }
    }
  }

  // ---------- the main theorem ----------

  /** The files a rolled-back run ends with, told from the history of its first `n` steps:
      a path some write step targets holds what it held just before the first such step,
      every other path what the steps left there. */
  ghost predicate RolledBackTo(ctx: Context, steps: seq<Step>, s0: RunState, n: nat, files: map<PathBuf, Bytes>)
    requires n <= |steps|
  {
    && (forall p, m :: 0 <= m < n && WritesTo(ctx.root, steps[m], p) && Unwritten(ctx.root, steps, m, p) ==>
          Holds(ctx, steps, s0, m, p, Lookup(files, p)))
    && (forall p :: Unwritten(ctx.root, steps, n, p) ==> Holds(ctx, steps, s0, n, p, Lookup(files, p)))
  }

  lemma WritesToOne(root: seq<Component>, step: Step, p: PathBuf, q: PathBuf)
    requires WritesTo(root, step, p)
    ensures IsWrite(step) && (WritesTo(root, step, q) ==> p == q)
  {
    hide ParseWrite;
  }

  lemma FirstPreparedIsFirstWrite(ctx: Context, steps: seq<Step>, s0: RunState, n: nat, s: RunState, p: PathBuf, m: nat)
    requires n <= |steps| && AreTheWrites(steps, n, s.prepared) && AllFaithful(ctx, steps, s0, s)
    requires m < n && WritesTo(ctx.root, steps[m], p) && Unwritten(ctx.root, steps, m, p)
    ensures var first := FirstTo(s.prepared, |s.prepared|, p);
            first.Some? && s.prepared[first.value].stepNumber == m + 1
  {
    hide WritesTo, IsWrite, Holds, Saved, Readable, FirstTo, Numbered, Relativize, Normalize;
    WritesToOne(ctx.root, steps[m], p, p);
    assert Numbered(s.prepared, m + 1);
    assert exists i :: 0 <= i < |s.prepared| && s.prepared[i].stepNumber == m + 1 by { HasNumber(s.prepared, m + 1); }
    var i :| 0 <= i < |s.prepared| && s.prepared[i].stepNumber == m + 1;
    assert Faithful(ctx, steps, s0, s.prepared[i], s.world.backups);
    WritesToOne(ctx.root, steps[m], p, s.prepared[i].target);
    var first := FirstTo(s.prepared, |s.prepared|, p);
    assert first.Some?;
    assert Faithful(ctx, steps, s0, s.prepared[first.value], s.world.backups);
    assert WritesTo(ctx.root, steps[s.prepared[first.value].stepNumber - 1], p);
    assert first.value <= i;
  }

  /** Undoing all prepared writes in reverse rewinds the files to their history. */
  lemma UndoRewinds(ctx: Context, steps: seq<Step>, s0: RunState, n: nat, s: RunState)
    requires n <= |steps| && StateAfter(ctx, steps, s0, n) == Some(s)
    requires AreTheWrites(steps, n, s.prepared) && AllFaithful(ctx, steps, s0, s)
    ensures var u := UndoFirst(s.prepared, |s.prepared|, s.world, s.journal);
            u.2 && u.0.backups == s.world.backups && RolledBackTo(ctx, steps, s0, n, u.0.files)
  {
    hide UndoFirst, WritesTo, StateAfter, Lookup, Saved, Readable, FirstTo, Numbered;
    assert forall i :: 0 <= i < |s.prepared| ==> Faithful(ctx, steps, s0, s.prepared[i], s.world.backups);
    UndoMeaning(s.prepared, |s.prepared|, s.world, s.journal);
    var files := UndoFirst(s.prepared, |s.prepared|, s.world, s.journal).0.files;
    forall p, m | 0 <= m < n && WritesTo(ctx.root, steps[m], p) && Unwritten(ctx.root, steps, m, p)
      ensures Holds(ctx, steps, s0, m, p, Lookup(files, p))
    {
      FirstPreparedIsFirstWrite(ctx, steps, s0, n, s, p, m);
      assert Lookup(files, p) == Undone(s.prepared, |s.prepared|, s.world, p);
      var first := FirstTo(s.prepared, |s.prepared|, p);
      assert Faithful(ctx, steps, s0, s.prepared[first.value], s.world.backups);
    }
    forall p | Unwritten(ctx.root, steps, n, p)
      ensures Holds(ctx, steps, s0, n, p, Lookup(files, p))
    {
      var first := FirstTo(s.prepared, |s.prepared|, p);
      assert Lookup(files, p) == Undone(s.prepared, |s.prepared|, s.world, p);
    }
  }

  /** The steps a request asks for. */
  function Requested(skill: Skill, q: Request): seq<Step> {
    if ThroughStep(skill, q) <= |skill.steps| then skill.steps[..ThroughStep(skill, q)] else skill.steps
  }

  function Initial(skill: Skill, journalId: string, q: Request, w: World): RunState {
    RunState(w, NewJournal(skill, |Requested(skill, q)|, journalId), [])
  }

  /** The whole loop of one execution. */
  function Loop(runner: Runner, root: seq<Component>, skill: Skill, q: Request, journalId: string, w: World): Progress {
    RunFrom(ContextFor(runner, root, q, journalId), Requested(skill, q), 0, Initial(skill, journalId, q, w))
  }

  // ---------- the journal ----------

  function Count(records: seq<Record>, status: Status): nat
    decreases |records|
  {
    if records == [] then 0
    else Count(records[..|records| - 1], status) + if records[|records| - 1].status == status then 1 else 0
  }

  lemma {:induction false} CountAppend(records: seq<Record>, more: seq<Record>, status: Status)
    ensures Count(records + more, status) == Count(records, status) + Count(more, status)
    decreases |more|
  {
    if more == [] {
      assert records + more == records;
    } else {
      var init := more[..|more| - 1];
      assert (records + more)[..|records + more| - 1] == records + init;
      CountAppend(records, init, status);
    }
  }

  /** The write steps among the first `n`. */
  function Writes(steps: seq<Step>, n: nat): nat
    requires n <= |steps|
  {
    if n == 0 then 0 else Writes(steps, n - 1) + if IsWrite(steps[n - 1]) then 1 else 0
  }

  /** The checkpoints planned by the first `n` steps. */
  function CheckpointsPlanned(steps: seq<Step>, n: nat): nat
    requires n <= |steps|
  {
    if n == 0 then 0 else CheckpointsPlanned(steps, n - 1) + |steps[n - 1].checkpoints|
  }

  /** The record of a step: its number and labels, and a status that fits its tool. */
  ghost predicate Records(step: Step, number: nat, r: Record) {
    && r.stepNumber == number && r.title == step.title && r.tool == step.tool
    && |r.checkpoints| == |step.checkpoints|
    && (forall i :: 0 <= i < |r.checkpoints| ==> r.checkpoints[i] == Checkpoint(step.checkpoints[i], "planned"))
    && (if IsWrite(step) then r.status == Completed
        else if IsCommand(step) then r.status == Completed || r.status == Failed
        else r.status == Manual)
  }

  ghost predicate AnyFailed(records: seq<Record>) {
    exists i :: 0 <= i < |records| && records[i].status == Failed
  }

  /** The journal after the first `n` steps. */
  ghost predicate JournalTells(steps: seq<Step>, n: nat, s: RunState)
    requires n <= |steps|
  {
    && |s.journal.steps| == n
    && (forall i :: 0 <= i < n ==> Records(steps[i], i + 1, s.journal.steps[i]))
    && s.journal.executed == Count(s.journal.steps, Completed)
    && s.journal.rollbackReady == |s.prepared| == Writes(steps, n)
    && s.journal.checkpointCount == CheckpointsPlanned(steps, n)
    && s.journal.status == (if AnyFailed(s.journal.steps) then Failed else Running)
  }

  lemma StepJournal(ctx: Context, s: RunState, number: nat, step: Step)
    ensures var a := ProcessStep(ctx, s, number, step);
            a.Next? ==>
              var r := a.state.journal.steps[|a.state.journal.steps| - 1];
              && a.state.journal.steps == s.journal.steps + [r]
              && Records(step, number, r)
              && (a.failed <==> r.status == Failed)
              && a.state.journal.executed == s.journal.executed + (if r.status == Completed then 1 else 0)
              && a.state.journal.rollbackReady == s.journal.rollbackReady + (if IsWrite(step) then 1 else 0)
              && |a.state.prepared| == |s.prepared| + (if IsWrite(step) then 1 else 0)
              && a.state.journal.checkpointCount == s.journal.checkpointCount + |step.checkpoints|
              && a.state.journal.status == (if r.status == Failed then Failed else s.journal.status)
              && a.state.journal.plan == s.journal.plan
              && a.state.journal.id == s.journal.id && a.state.journal.throughStep == s.journal.throughStep
  {
    hide ParseWrite, ApplyWrite, FindEntry, AnnotateRecord, PreparedFor;
    assert "run_command"[0] != "write_file"[0];
  }

  lemma OneMoreRecord(steps: seq<Step>, n: nat, before: RunState, after: RunState, r: Record)
    requires n < |steps| && JournalTells(steps, n, before) && Records(steps[n], n + 1, r)
    requires after.journal.steps == before.journal.steps + [r]
    requires after.journal.executed == before.journal.executed + (if r.status == Completed then 1 else 0)
    requires after.journal.rollbackReady == before.journal.rollbackReady + (if IsWrite(steps[n]) then 1 else 0)
    requires |after.prepared| == |before.prepared| + (if IsWrite(steps[n]) then 1 else 0)
    requires after.journal.checkpointCount == before.journal.checkpointCount + |steps[n].checkpoints|
    requires after.journal.status == (if r.status == Failed then Failed else before.journal.status)
    ensures JournalTells(steps, n + 1, after)
  {
    hide Records, IsWrite;
    var records := after.journal.steps;
    assert records[..n] == before.journal.steps;
    assert AnyFailed(records) <==> AnyFailed(before.journal.steps) || r.status == Failed by {
      hide Count, JournalTells;
      if AnyFailed(before.journal.steps) {
        var i :| 0 <= i < |before.journal.steps| && before.journal.steps[i].status == Failed;
        assert records[i].status == Failed;
      }
      if r.status == Failed {
        assert records[|before.journal.steps|].status == Failed;
      }
    }
  }

  /** Every step of the loop keeps the journal true to the steps done, and a record says Failed exactly when its step
      failed. */
  lemma {:induction false} JournalStaysTrue(ctx: Context, steps: seq<Step>, s0: RunState, n: nat)
    requires n <= |steps| && s0.prepared == []
    requires s0.journal.steps == []
    requires s0.journal.executed == s0.journal.checkpointCount == s0.journal.rollbackReady == 0
    requires s0.journal.status == Running
    ensures var s := StateAfter(ctx, steps, s0, n);
            s.Some? ==> && JournalTells(steps, n, s.value)
                        && s.value.journal.plan == s0.journal.plan
                        && s.value.journal.id == s0.journal.id && s.value.journal.throughStep == s0.journal.throughStep
                        && forall i :: 0 <= i < n ==>
                             (s.value.journal.steps[i].status == Failed <==> FailedAt(ctx, steps, s0, i + 1))
  {
    hide ProcessStep, Records, IsWrite, Count, AnyFailed;
    var now := StateAfter(ctx, steps, s0, n);
    if n > 0 && now.Some? {
      JournalStaysTrue(ctx, steps, s0, n - 1);
      var before := StateAfter(ctx, steps, s0, n - 1).value;
      StepJournal(ctx, before, n, steps[n - 1]);
      OneMoreRecord(steps, n - 1, before, now.value, now.value.journal.steps[n - 1]);
    } else if now.Some? {
      assert JournalTells(steps, 0, s0) by { EmptyJournal(steps, s0); }
    }
  }

  lemma EmptyJournal(steps: seq<Step>, s0: RunState)
    requires s0.prepared == [] && s0.journal.steps == []
    requires s0.journal.executed == s0.journal.checkpointCount == s0.journal.rollbackReady == 0
    requires s0.journal.status == Running
    ensures JournalTells(steps, 0, s0)
  {
  }

  /** The rollback records of the first `n` prepared writes, last first. */
  function RollbackRecords(prepared: seq<Prepared>, n: nat): seq<Record>
    requires n <= |prepared|
  {
    if n == 0 then [] else [RollbackRecord(prepared[n - 1])] + RollbackRecords(prepared, n - 1)
  }

  lemma {:induction false} RollbackRecordAt(prepared: seq<Prepared>, n: nat)
    requires n <= |prepared|
    ensures |RollbackRecords(prepared, n)| == n
    ensures forall i :: 0 <= i < n ==> RollbackRecords(prepared, n)[i] == RollbackRecord(prepared[n - 1 - i])
  {
    hide RollbackRecord;
    if n > 0 {
      RollbackRecordAt(prepared, n - 1);
    }
  }

  /** The plan once the first `n` writes are undone: the entry of each undone write carries its target and snapshot. */
  ghost predicate PlanUpdated(prepared: seq<Prepared>, n: nat, was: seq<PlanEntry>, now: seq<PlanEntry>)
    requires n <= |prepared|
  {
    && |now| == |was|
    && (forall i, k :: 0 <= i < |was| && 0 <= k < n && prepared[k].stepNumber == was[i].stepNumber ==>
          now[i] == Annotate(was[i], prepared[k]))
    && (forall i :: 0 <= i < |was| && (forall k :: 0 <= k < n ==> prepared[k].stepNumber != was[i].stepNumber) ==>
          now[i] == was[i])
  }

  lemma NothingUpdated(prepared: seq<Prepared>, plan: seq<PlanEntry>)
    ensures PlanUpdated(prepared, 0, plan, plan)
  {
  }

  lemma OneMoreUpdate(prepared: seq<Prepared>, n: nat, was: seq<PlanEntry>, now: seq<PlanEntry>)
    requires 0 < n <= |prepared|
    requires forall i, k :: 0 <= i < k < |prepared| ==> prepared[i].stepNumber < prepared[k].stepNumber
    requires PlanUpdated(prepared, n - 1, AnnotatePlan(was, prepared[n - 1]), now)
    ensures PlanUpdated(prepared, n, was, now)
  {
  }

  lemma RollbackRecordsNext(prepared: seq<Prepared>, n: nat)
    requires n <= |prepared|
    ensures RollbackRecords(prepared, n) ==
            if n == 0 then [] else [RollbackRecord(prepared[n - 1])] + RollbackRecords(prepared, n - 1)
  {
    hide RollbackRecord;
  }

  /** What a finished rollback adds to the journal. */
  lemma {:induction false} UndoJournal(prepared: seq<Prepared>, n: nat, w: World, j: Journal)
    requires n <= |prepared|
    requires forall i, k :: 0 <= i < k < |prepared| ==> prepared[i].stepNumber < prepared[k].stepNumber
    ensures var u := UndoFirst(prepared, n, w, j);
            u.2 ==> && u.1 == j.(steps := j.steps + RollbackRecords(prepared, n), plan := u.1.plan)
                    && PlanUpdated(prepared, n, j.plan, u.1.plan)
  {
    hide Restore, RollbackRecord, PlanUpdated, AnnotatePlan, RollbackRecords;
    if n == 0 {
      assert PlanUpdated(prepared, 0, j.plan, j.plan) by { NothingUpdated(prepared, j.plan); }
      assert j.steps + RollbackRecords(prepared, 0) == j.steps by { RollbackRecordsNext(prepared, 0); }
    } else {
      var r := Restore(prepared[n - 1], w);
      if r.Some? {
        var j' := LogRollback(j, prepared[n - 1]);
        UndoJournal(prepared, n - 1, r.value, j');
        if UndoFirst(prepared, n, w, j).2 {
          OneMoreUpdate(prepared, n, j.plan, UndoFirst(prepared, n, w, j).1.plan);
        }
        RollbackRecordsNext(prepared, n);
        assert j.steps + [RollbackRecord(prepared[n - 1])] + RollbackRecords(prepared, n - 1) ==
            j.steps + RollbackRecords(prepared, n);
      }
    }
  }

  // ---------- the main theorems ----------

  /** What is known when the loop has reached its end. */
  lemma LoopEnds(runner: Runner, root: seq<Component>, skill: Skill, q: Request, journalId: string, w: World)
    ensures var ctx := ContextFor(runner, root, q, journalId);
            var steps, s0 := Requested(skill, q), Initial(skill, journalId, q, w);
            var loop := Loop(runner, root, skill, q, journalId, w);
            if loop.Reached? then
              && EndsAt(ctx, steps, s0, 0, loop.processed)
              && StateAfter(ctx, steps, s0, loop.processed) == Some(loop.state)
              && AreTheWrites(steps, loop.processed, loop.state.prepared)
              && JournalTells(steps, loop.processed, loop.state)
              && loop.state.journal.plan == s0.journal.plan
              && loop.state.journal.id == journalId && loop.state.journal.throughStep == |steps|
              && (forall i :: 0 <= i < loop.processed ==>
                    (loop.state.journal.steps[i].status == Failed <==> FailedAt(ctx, steps, s0, i + 1)))
            else loop.error == MissingArguments || loop.error == EscapesWorkspace
  {
    hide RunFrom, ContextFor, StateAfter, RollbackPlan, JournalTells, AreTheWrites;
    assert Initial(skill, journalId, q, w).journal.id == journalId;
    var ctx := ContextFor(runner, root, q, journalId);
    var steps, s0 := Requested(skill, q), Initial(skill, journalId, q, w);
    var loop := Loop(runner, root, skill, q, journalId, w);
    assert StateAfter(ctx, steps, s0, 0) == Some(s0) by { InitialState(ctx, steps, s0); }
    LoopFollowsHistory(ctx, steps, s0, 0, s0);
    if loop.Reached? {
      PreparedInOrder(ctx, steps, s0, loop.processed);
      JournalStaysTrue(ctx, steps, s0, loop.processed);
    }
  }

  lemma InitialState(ctx: Context, steps: seq<Step>, s0: RunState)
    ensures StateAfter(ctx, steps, s0, 0) == Some(s0)
  {
  }

  /** How an execution follows from its loop. */
  lemma ExecuteFollowsLoop(runner: Runner, root: seq<Component>, skill: Skill, q: Request, journalId: string, w: World)
    ensures var e := Execute(runner, root, skill, q, journalId, w);
            var loop := Loop(runner, root, skill, q, journalId, w);
            if Gate(root, skill, q).Some? then
              e.0 == w && e.1 == Err(Gate(root, skill, q).value) && e.1.error != SnapshotUnreadable
            else if loop.Left? then e.0 == loop.state.world && e.1 == Err(loop.error)
            else e.0 == Finish(loop.state, q.autoRollback).0 && e.1 == Finish(loop.state, q.autoRollback).1
  {
    hide RunFrom, ContextFor, NewJournal, Finish, Unguarded, Unchecked, IsRisky;
  }

  /** The ways a loop that reached its end can finish. */
  lemma FinishCases(s: RunState, autoRollback: bool)
    requires s.journal.status == Failed || s.journal.status == Running
    ensures var f := Finish(s, autoRollback);
            var u := UndoFirst(s.prepared, |s.prepared|, s.world, s.journal);
            if s.journal.status == Running then f.0 == s.world && f.1 == Ok(s.journal.(status := Completed))
            else if !autoRollback || s.prepared == [] then f.0 == s.world && f.1 == Ok(s.journal)
            else f.0 == u.0 && f.1 == if u.2 then Ok(u.1.(status := RolledBack)) else Err(SnapshotUnreadable)
  {
    hide LogRollback, Restore;
  }

  /** Reverse-order restore of per-step snapshots undoes the writes of a run, whatever its commands did to the
      workspace files; and the rollback cannot fail. */
  lemma RollbackRestores(runner: Runner, root: seq<Component>, skill: Skill, q: Request, journalId: string, w: World)
    requires SparesSnapshots(runner, journalId)
    ensures var e := Execute(runner, root, skill, q, journalId, w);
            && e.1 != Err(SnapshotUnreadable)
            && (e.1.Ok? && e.1.value.status == RolledBack ==>
                  var ctx := ContextFor(runner, root, q, journalId);
                  var loop := Loop(runner, root, skill, q, journalId, w);
                  loop.Reached? && loop.processed <= |Requested(skill, q)|
                  && RolledBackTo(ctx, Requested(skill, q), Initial(skill, journalId, q, w), loop.processed, e.0.files))
  {
    hide RunFrom, ContextFor, Finish, Execute, Gate, StateAfter, AreTheWrites, NewJournal, UndoFirst, RolledBackTo;
    ExecuteFollowsLoop(runner, root, skill, q, journalId, w);
    LoopEnds(runner, root, skill, q, journalId, w);
    var ctx := ContextFor(runner, root, q, journalId);
    var steps, s0 := Requested(skill, q), Initial(skill, journalId, q, w);
    var loop := Loop(runner, root, skill, q, journalId, w);
    if loop.Reached? {
      FinishCases(loop.state, q.autoRollback);
      assert ctx.runner == runner && ctx.journalId == journalId by { ContextParts(runner, root, q, journalId); }
      SnapshotsStayFaithful(ctx, steps, s0, loop.processed);
      UndoRewinds(ctx, steps, s0, loop.processed, loop.state);
    }
  }

  lemma ContextParts(runner: Runner, root: seq<Component>, q: Request, journalId: string)
    ensures var ctx := ContextFor(runner, root, q, journalId);
            && ctx.runner == runner && ctx.root == root && ctx.journalId == journalId
            && ctx.stopOnFailure == q.stopOnFailure
  {
  }

  /** The records of the steps done, then those of the rollback. */
  ghost predicate JournalSplit(steps: seq<Step>, n: nat, records: seq<Record>)
    requires n <= |steps|
  {
    && n <= |records|
    && (forall i :: 0 <= i < n ==> Records(steps[i], i + 1, records[i]))
    && (forall i :: n <= i < |records| ==>
          && records[i].status == RolledBack
          && 1 <= records[i].stepNumber <= n && IsWrite(steps[records[i].stepNumber - 1])
          && (i + 1 < |records| ==> records[i].stepNumber > records[i + 1].stepNumber))
  }

  lemma SplitAlone(steps: seq<Step>, n: nat, s: RunState)
    requires n <= |steps| && JournalTells(steps, n, s)
    ensures JournalSplit(steps, n, s.journal.steps)
  {
  }

  lemma RollbackRecordNumbers(prepared: seq<Prepared>)
    ensures var undone := RollbackRecords(prepared, |prepared|);
            && |undone| == |prepared|
            && forall i :: 0 <= i < |undone| ==>
                 undone[i].status == RolledBack && undone[i].stepNumber == prepared[|prepared| - 1 - i].stepNumber
  {
    hide RollbackRecords;
    RollbackRecordAt(prepared, |prepared|);
  }

  lemma SplitWithRollback(steps: seq<Step>, n: nat, s: RunState)
    requires n <= |steps| && JournalTells(steps, n, s) && AreTheWrites(steps, n, s.prepared)
    ensures var records := s.journal.steps + RollbackRecords(s.prepared, |s.prepared|);
            && JournalSplit(steps, n, records)
            && |records| - n == |s.prepared|
            && (AnyFailed(records) <==> AnyFailed(s.journal.steps))
            && Count(records, Completed) == Count(s.journal.steps, Completed)
  {
    hide Records, IsWrite, Numbered, RollbackRecords, Count, Writes, CheckpointsPlanned;
    var undone := RollbackRecords(s.prepared, |s.prepared|);
    var records := s.journal.steps + undone;
    RollbackRecordNumbers(s.prepared);
    CountAppend(s.journal.steps, undone, Completed);
    CountNone(undone);
    FailedAppend(s.journal.steps, undone);
    forall i | n <= i < |records|
      ensures records[i].status == RolledBack
      ensures 1 <= records[i].stepNumber <= n && IsWrite(steps[records[i].stepNumber - 1])
      ensures i + 1 < |records| ==> records[i].stepNumber > records[i + 1].stepNumber
    {
      assert records[i] == undone[i - n];
      assert i + 1 < |records| ==> records[i + 1] == undone[i + 1 - n];
    }
  }

  lemma FailedAppend(records: seq<Record>, more: seq<Record>)
    requires forall i :: 0 <= i < |more| ==> more[i].status == RolledBack
    ensures AnyFailed(records + more) <==> AnyFailed(records)
  {
    if AnyFailed(records) {
      var i :| 0 <= i < |records| && records[i].status == Failed;
      assert (records + more)[i].status == Failed;
    }
  }

  lemma {:induction false} CountNone(records: seq<Record>)
    requires forall i :: 0 <= i < |records| ==> records[i].status == RolledBack
    ensures Count(records, Completed) == 0
    decreases |records|
  {
    if records != [] {
      CountNone(records[..|records| - 1]);
    }
  }

  /** The journal of every execution that is answered. */
  lemma JournalMeaning(runner: Runner, root: seq<Component>, skill: Skill, q: Request, journalId: string, w: World)
    ensures var e := Execute(runner, root, skill, q, journalId, w);
            var loop := Loop(runner, root, skill, q, journalId, w);
            e.1.Ok? ==>
              var j, steps := e.1.value, Requested(skill, q);
              && loop.Reached? && loop.processed <= |steps| && j.id == journalId && j.throughStep == |steps|
              && JournalSplit(steps, loop.processed, j.steps)
              && |j.steps| - loop.processed == (if j.status == RolledBack then Writes(steps, loop.processed) else 0)
              && j.executed == Count(j.steps, Completed)
              && j.rollbackReady == Writes(steps, loop.processed)
              && j.checkpointCount == CheckpointsPlanned(steps, loop.processed)
              && j.status == (if !AnyFailed(j.steps) then Completed
                              else if q.autoRollback && Writes(steps, loop.processed) > 0 then RolledBack
                              else Failed)
  {
    hide RunFrom, ContextFor, Finish, Execute, Gate, StateAfter, NewJournal, UndoFirst, Writes, CheckpointsPlanned,
        Records, FailedAt, Count, Numbered;
    ExecuteFollowsLoop(runner, root, skill, q, journalId, w);
    LoopEnds(runner, root, skill, q, journalId, w);
    var loop := Loop(runner, root, skill, q, journalId, w);
    if loop.Reached? {
      var s := loop.state;
      FinishCases(s, q.autoRollback);
      SplitAlone(Requested(skill, q), loop.processed, s);
      if s.journal.status == Failed && q.autoRollback && s.prepared != [] {
        UndoJournal(s.prepared, |s.prepared|, s.world, s.journal);
        SplitWithRollback(Requested(skill, q), loop.processed, s);
      }
    }
  }

  /** If step `n` is a command, it could be started and ended successfully and in time, in the world the earlier steps
      left. */
  predicate EndsWell(ctx: Context, steps: seq<Step>, s0: RunState, n: nat)
    requires 0 < n <= |steps|
  {
    IsCommand(steps[n - 1]) ==>
      var s, command := StateAfter(ctx, steps, s0, n - 1), AsStr(Member(steps[n - 1].arguments, "command"));
      && s.Some? && command.Some?
      && ctx.runner(n, command.value, StringArray(Member(steps[n - 1].arguments, "args")), ctx.cwd,
                    s.value.world).outcome
           == Finished(true, false)
  }

  lemma FailsUnlessEndsWell(ctx: Context, steps: seq<Step>, s0: RunState, n: nat)
    requires 0 < n <= |steps| && StateAfter(ctx, steps, s0, n).Some?
    ensures FailedAt(ctx, steps, s0, n) <==> !EndsWell(ctx, steps, s0, n)
  {
    hide ProcessStep;
    if IsCommand(steps[n - 1]) {
      CommandFails(ctx, steps, s0, n);
    } else {
      StepJournal(ctx, StateAfter(ctx, steps, s0, n - 1).value, n, steps[n - 1]);
    }
  }

  /** An admitted run is answered as completed exactly if no requested step is malformed and every requested command
      ends well in the world it meets, whether or not failures stop the run. */
  lemma CompletesIff(runner: Runner, root: seq<Component>, skill: Skill, q: Request, journalId: string, w: World)
    requires Gate(root, skill, q).None?
    ensures var e := Execute(runner, root, skill, q, journalId, w);
            var ctx := ContextFor(runner, root, q, journalId);
            var steps, s0 := Requested(skill, q), Initial(skill, journalId, q, w);
            e.1.Ok? && e.1.value.status == Completed <==>
              && (forall n :: 0 <= n < |steps| ==> !Malformed(root, steps[n]))
              && (forall n :: 0 < n <= |steps| ==> EndsWell(ctx, steps, s0, n))
  {
    hide RunFrom, ContextFor, Finish, Execute, Gate, StateAfter, NewJournal, UndoFirst, AreTheWrites, Records,
         Malformed, FailedAt, EndsWell;
    ExecuteFollowsLoop(runner, root, skill, q, journalId, w);
    LoopEnds(runner, root, skill, q, journalId, w);
    ContextParts(runner, root, q, journalId);
    var ctx, steps, s0 := ContextFor(runner, root, q, journalId), Requested(skill, q), Initial(skill, journalId, q, w);
    var loop := Loop(runner, root, skill, q, journalId, w);
    if loop.Reached? {
      FinishCases(loop.state, q.autoRollback);
      StateExists(ctx, steps, s0, loop.processed);
      forall n | 0 < n <= loop.processed
        ensures loop.state.journal.steps[n - 1].status == Failed <==> !EndsWell(ctx, steps, s0, n)
      {
        RecordStays(ctx, steps, s0, n, loop.processed);
        FailsUnlessEndsWell(ctx, steps, s0, n);
      }
      if AnyFailed(loop.state.journal.steps) {
        var i :| 0 <= i < loop.processed && loop.state.journal.steps[i].status == Failed;
        assert !EndsWell(ctx, steps, s0, i + 1);
      }
    } else {
      InitialState(ctx, steps, s0);
      LoopFollowsHistory(ctx, steps, s0, 0, s0);
    }
  }

  // ---------- what the journal says about undoing ----------

  lemma {:induction false} PlanEntryFound(steps: seq<Step>, n: nat, number: nat)
    requires n <= |steps| && 1 <= number <= n && IsExecutable(steps[number - 1])
    ensures FindEntry(RollbackPlan(steps, n), number) == Some(PlanFor(steps[number - 1], number))
  {
    hide PlanFor;
    var rest := RollbackPlan(steps, n - 1);
    if IsExecutable(steps[n - 1]) {
      PlanNumber(steps, n);
      assert ([PlanFor(steps[n - 1], n)] + rest)[1..] == rest;
    } else {
      assert [] + rest == rest;
    }
    if number < n {
      PlanEntryFound(steps, n - 1, number);
    }
  }

  lemma {:induction false} RecordStays(ctx: Context, steps: seq<Step>, s0: RunState, k: nat, n: nat)
    requires k <= n <= |steps| && StateAfter(ctx, steps, s0, n).Some?
    ensures StateAfter(ctx, steps, s0, k).Some?
    ensures StateAfter(ctx, steps, s0, k).value.journal.steps <= StateAfter(ctx, steps, s0, n).value.journal.steps
    ensures StateAfter(ctx, steps, s0, k).value.journal.plan == StateAfter(ctx, steps, s0, n).value.journal.plan
  {
    hide ProcessStep;
    if k < n {
      RecordStays(ctx, steps, s0, k, n - 1);
      StepJournal(ctx, StateAfter(ctx, steps, s0, n - 1).value, n, steps[n - 1]);
    }
  }

  /** What to undo: the target as seen from the workspace root, with the snapshot of this step if there was a file,
      and no snapshot if there was none. */
  predicate NamesSnapshot(ctx: Context, number: nat, target: PathBuf, before: Option<Bytes>, e: PlanEntry) {
    && e.available && e.target == Some(Relativize(target, Normalize(ctx.root)))
    && e.artifact == if before.Some? then Some(Artifact(ctx.journalId, number)) else None
  }

  lemma WriteStepRecord(ctx: Context, s: RunState, number: nat, step: Step, p: PathBuf)
    requires WritesTo(ctx.root, step, p)
    ensures var a := ProcessStep(ctx, s, number, step);
            && a.Next?
            && a.state.journal.steps[|s.journal.steps|..] == [a.state.journal.steps[|s.journal.steps|]]
            && (FindEntry(s.journal.plan, number).Some? ==>
                  var o := a.state.journal.steps[|s.journal.steps|].rollback;
                  o.Some? && o.value.stepNumber == FindEntry(s.journal.plan, number).value.stepNumber
                  && NamesSnapshot(ctx, number, p, Lookup(s.world.files, p), o.value))
  {
    hide ParseWrite, ApplyWrite, FindEntry, Relativize, PlannedCheckpoints;
    assert "run_command"[0] != "write_file"[0];
  }

  /** In every run, the record of a write step says how to undo it. */
  lemma WriteRecordsNameSnapshots(ctx: Context, steps: seq<Step>, s0: RunState, n: nat, k: nat, p: PathBuf)
    requires n <= |steps| && StateAfter(ctx, steps, s0, n).Some?
    requires s0.prepared == []
    requires s0.journal == Journal(ctx.journalId, Running, |steps|, 0, 0, 0, [], RollbackPlan(steps, |steps|))
    requires 1 <= k <= n && WritesTo(ctx.root, steps[k - 1], p)
    ensures StateAfter(ctx, steps, s0, k - 1).Some? && |StateAfter(ctx, steps, s0, n).value.journal.steps| == n
    ensures var o := StateAfter(ctx, steps, s0, n).value.journal.steps[k - 1].rollback;
            o.Some? && o.value.stepNumber == k
            && NamesSnapshot(ctx, k, p, Lookup(StateAfter(ctx, steps, s0, k - 1).value.world.files, p), o.value)
  {
    hide ProcessStep, RollbackPlan, PlanFor, NamesSnapshot, Records, AnyFailed, FindEntry, Lookup, ParseWrite;
    RecordStays(ctx, steps, s0, k - 1, n);
    RecordStays(ctx, steps, s0, k, n);
    RecordStays(ctx, steps, s0, 0, k - 1);
    JournalStaysTrue(ctx, steps, s0, k - 1);
    JournalStaysTrue(ctx, steps, s0, k);
    JournalStaysTrue(ctx, steps, s0, n);
    PlanEntryFound(steps, |steps|, k);
    PlanNumber(steps, k);
    var before := StateAfter(ctx, steps, s0, k - 1).value;
    WriteStepRecord(ctx, before, k, steps[k - 1], p);
    var after := ProcessStep(ctx, before, k, steps[k - 1]).state;
    assert StateAfter(ctx, steps, s0, k) == Some(after);
    assert FindEntry(before.journal.plan, k) == Some(PlanFor(steps[k - 1], k));
    assert StateAfter(ctx, steps, s0, n).value.journal.steps[k - 1] == after.journal.steps[k - 1];
  }

  /** The record of any other step carries the plan entry of the step as it was made, and none if it had none. */
  lemma OtherRecordsCarryPlan(ctx: Context, steps: seq<Step>, s0: RunState, n: nat, k: nat)
    requires n <= |steps| && StateAfter(ctx, steps, s0, n).Some?
    requires s0.prepared == []
    requires s0.journal == Journal(ctx.journalId, Running, |steps|, 0, 0, 0, [], RollbackPlan(steps, |steps|))
    requires 1 <= k <= n && !IsWrite(steps[k - 1])
    ensures |StateAfter(ctx, steps, s0, n).value.journal.steps| == n
    ensures StateAfter(ctx, steps, s0, n).value.journal.steps[k - 1].rollback ==
              if IsCommand(steps[k - 1]) then Some(PlanFor(steps[k - 1], k)) else None
  {
    hide ProcessStep, RollbackPlan, PlanFor, Records, AnyFailed, FindEntry, IsWrite;
    RecordStays(ctx, steps, s0, k - 1, n);
    RecordStays(ctx, steps, s0, k, n);
    RecordStays(ctx, steps, s0, 0, k - 1);
    JournalStaysTrue(ctx, steps, s0, k - 1);
    JournalStaysTrue(ctx, steps, s0, k);
    JournalStaysTrue(ctx, steps, s0, n);
    var before := StateAfter(ctx, steps, s0, k - 1).value;
    OtherStepRecord(ctx, before, k, steps[k - 1]);
    if IsCommand(steps[k - 1]) {
      PlanEntryFound(steps, |steps|, k);
    } else {
      assert !IsExecutable(steps[k - 1]) by { NotExecutable(steps[k - 1]); }
      NoPlanEntry(steps, |steps|, k);
    }
    assert StateAfter(ctx, steps, s0, k) == Some(ProcessStep(ctx, before, k, steps[k - 1]).state);
  }

  lemma NotExecutable(step: Step)
    requires !IsWrite(step) && !IsCommand(step)
    ensures !IsExecutable(step)
  {
  }

  lemma OtherStepRecord(ctx: Context, s: RunState, number: nat, step: Step)
    requires !IsWrite(step)
    ensures var a := ProcessStep(ctx, s, number, step);
            a.Next? ==>
              && |a.state.journal.steps| == |s.journal.steps| + 1
              && a.state.journal.steps[|s.journal.steps|].rollback == FindEntry(s.journal.plan, number)
  {
    hide ParseWrite, ApplyWrite, FindEntry, PlannedCheckpoints;
  }

  lemma {:induction false} NoPlanEntry(steps: seq<Step>, n: nat, number: nat)
    requires n <= |steps| && 1 <= number && (number <= n ==> !IsExecutable(steps[number - 1]))
    ensures FindEntry(RollbackPlan(steps, n), number) == None
  {
    hide PlanFor;
    if n > 0 {
      var rest := RollbackPlan(steps, n - 1);
      NoPlanEntry(steps, n - 1, number);
      if IsExecutable(steps[n - 1]) {
        PlanNumber(steps, n);
        assert ([PlanFor(steps[n - 1], n)] + rest)[1..] == rest;
      } else {
        assert [] + rest == rest;
      }
    }
  }

  /** The record of the undoing of a write: titled after its step, with one checkpoint of the rollback phase,
      and saying what was restored or removed. */
  ghost predicate RecordsUndoing(ctx: Context, steps: seq<Step>, s0: RunState, r: Record) {
    && 1 <= r.stepNumber <= |steps| && StateAfter(ctx, steps, s0, r.stepNumber - 1).Some?
    && r.title == "Rollback for " + steps[r.stepNumber - 1].title
    && r.tool == Some("write_file") && r.status == RolledBack
    && |r.checkpoints| == 1 && r.checkpoints[0].phase == "rollback"
    && r.rollback.Some? && r.rollback.value.stepNumber == r.stepNumber
    && NamesItsSnapshot(ctx, steps[r.stepNumber - 1], r.stepNumber,
                        StateAfter(ctx, steps, s0, r.stepNumber - 1).value.world.files, r.rollback.value)
  }

  lemma OneUndoing(ctx: Context, steps: seq<Step>, s0: RunState, p: Prepared, backups: map<Artifact, Bytes>)
    requires Faithful(ctx, steps, s0, p, backups)
    ensures RecordsUndoing(ctx, steps, s0, RollbackRecord(p))
  {
    hide WritesTo, StateAfter, Lookup, Relativize, Normalize;
    assert NamesSnapshot(ctx, p.stepNumber, p.target, Saved(p, backups), RollbackRecord(p).rollback.value);
  }

  lemma UndoneRecordsTell(ctx: Context, steps: seq<Step>, s0: RunState, s: RunState)
    requires AllFaithful(ctx, steps, s0, s)
    ensures forall r :: r in RollbackRecords(s.prepared, |s.prepared|) ==> RecordsUndoing(ctx, steps, s0, r)
  {
    hide Faithful, RecordsUndoing, RollbackRecord, RollbackRecords;
    var n := |s.prepared|;
    RollbackRecordAt(s.prepared, n);
    forall r | r in RollbackRecords(s.prepared, n)
      ensures RecordsUndoing(ctx, steps, s0, r)
    {
      var i :| 0 <= i < n && RollbackRecords(s.prepared, n)[i] == r;
      OneUndoing(ctx, steps, s0, s.prepared[n - 1 - i], s.world.backups);
    }
  }

  /** In the journal of a rolled-back run, every record after those of the steps done says which write it undid. */
  lemma RollbackRecordsTell(runner: Runner, root: seq<Component>, skill: Skill, q: Request, journalId: string, w: World)
    requires SparesSnapshots(runner, journalId)
    ensures var e := Execute(runner, root, skill, q, journalId, w);
            var ctx := ContextFor(runner, root, q, journalId);
            var steps, s0 := Requested(skill, q), Initial(skill, journalId, q, w);
            var loop := Loop(runner, root, skill, q, journalId, w);
            e.1.Ok? ==>
              && loop.Reached? && loop.processed <= |e.1.value.steps|
              && forall r :: r in e.1.value.steps[loop.processed..] ==> RecordsUndoing(ctx, steps, s0, r)
  {
    hide RunFrom, ContextFor, Finish, Execute, Gate, StateAfter, UndoFirst, Records, AllFaithful, NewJournal, EndsAt,
         RecordsUndoing, RollbackRecords, PlanUpdated, Count, Writes, CheckpointsPlanned, AreTheWrites, AnyFailed,
         FailedAt;
    ExecuteFollowsLoop(runner, root, skill, q, journalId, w);
    LoopEnds(runner, root, skill, q, journalId, w);
    var ctx := ContextFor(runner, root, q, journalId);
    var steps, s0 := Requested(skill, q), Initial(skill, journalId, q, w);
    var loop := Loop(runner, root, skill, q, journalId, w);
    if loop.Reached? {
      var s := loop.state;
      assert s.journal.status == Failed || s.journal.status == Running;
      FinishCases(s, q.autoRollback);
      assert s.journal.steps[loop.processed..] == [];
      if s.journal.status == Failed && q.autoRollback && s.prepared != [] {
        ContextParts(runner, root, q, journalId);
        ProcessedInRange(ctx, steps, s0, loop.processed);
        SnapshotsStayFaithful(ctx, steps, s0, loop.processed);
        OrderOf(steps, loop.processed, s.prepared);
        UndoJournal(s.prepared, |s.prepared|, s.world, s.journal);
        UndoneRecordsTell(ctx, steps, s0, s);
        assert (s.journal.steps + RollbackRecords(s.prepared, |s.prepared|))[loop.processed..] ==
            RollbackRecords(s.prepared, |s.prepared|);
      }
    }
  }

  lemma ProcessedInRange(ctx: Context, steps: seq<Step>, s0: RunState, n: nat)
    requires EndsAt(ctx, steps, s0, 0, n)
    ensures n <= |steps|
  {
  }

  /** A rollback adds to the plan, for every write step done, where its snapshot is; and changes no other entry. */
  lemma PlanAfterRun(runner: Runner, root: seq<Component>, skill: Skill, q: Request, journalId: string, w: World)
    requires SparesSnapshots(runner, journalId)
    ensures var e := Execute(runner, root, skill, q, journalId, w);
            var ctx := ContextFor(runner, root, q, journalId);
            var steps, s0 := Requested(skill, q), Initial(skill, journalId, q, w);
            var loop := Loop(runner, root, skill, q, journalId, w);
            e.1.Ok? ==>
              && loop.Reached? && loop.processed <= |steps| && |e.1.value.plan| == |s0.journal.plan|
              && (e.1.value.status != RolledBack ==> e.1.value.plan == s0.journal.plan)
              && (e.1.value.status == RolledBack ==>
                    forall i :: 0 <= i < |s0.journal.plan| ==>
                        PlanEntryAfter(ctx, steps, s0, loop.processed, s0.journal.plan[i], e.1.value.plan[i]))
  {
    hide RunFrom, ContextFor, Finish, Execute, Gate, StateAfter, UndoFirst, Records, Faithful, RollbackPlan, Numbered,
        Annotate, PlanEntryAfter;
    ExecuteFollowsLoop(runner, root, skill, q, journalId, w);
    LoopEnds(runner, root, skill, q, journalId, w);
    var ctx, steps, s0 := ContextFor(runner, root, q, journalId), Requested(skill, q), Initial(skill, journalId, q, w);
    var loop := Loop(runner, root, skill, q, journalId, w);
    if loop.Reached? {
      var s := loop.state;
      FinishCases(s, q.autoRollback);
      if s.journal.status == Failed && q.autoRollback && s.prepared != [] {
        ContextParts(runner, root, q, journalId);
        SnapshotsStayFaithful(ctx, steps, s0, loop.processed);
        UndoJournal(s.prepared, |s.prepared|, s.world, s.journal);
        var u := UndoFirst(s.prepared, |s.prepared|, s.world, s.journal);
        if u.2 {
          forall i | 0 <= i < |s0.journal.plan|
            ensures PlanEntryAfter(ctx, steps, s0, loop.processed, s0.journal.plan[i], u.1.plan[i])
          {
            EntryAfterUndo(ctx, steps, s0, loop.processed, s, s0.journal.plan, u.1.plan, i);
          }
        }
      }
    }
  }

  ghost predicate NamesItsSnapshot(ctx: Context, step: Step, number: nat, before: map<PathBuf, Bytes>, e: PlanEntry) {
    exists p :: WritesTo(ctx.root, step, p) && NamesSnapshot(ctx, number, p, Lookup(before, p), e)
  }

  /** The plan entry of a write step that was done names its snapshot; any other entry is unchanged. */
  ghost predicate PlanEntryAfter(ctx: Context, steps: seq<Step>, s0: RunState, n: nat, was: PlanEntry, now: PlanEntry)
    requires n <= |steps|
  {
    if 1 <= was.stepNumber <= n && IsWrite(steps[was.stepNumber - 1]) then
      && now == was.(available := true, target := now.target, artifact := now.artifact)
      && StateAfter(ctx, steps, s0, was.stepNumber - 1).Some?
      && NamesItsSnapshot(ctx, steps[was.stepNumber - 1], was.stepNumber,
                          StateAfter(ctx, steps, s0, was.stepNumber - 1).value.world.files, now)
    else now == was
  }

  lemma EntryAfterUndo(ctx: Context, steps: seq<Step>, s0: RunState, n: nat, s: RunState, was: seq<PlanEntry>,
                       now: seq<PlanEntry>, i: nat)
    requires n <= |steps| && AreTheWrites(steps, n, s.prepared) && AllFaithful(ctx, steps, s0, s)
    requires i < |was| && PlanUpdated(s.prepared, |s.prepared|, was, now)
    ensures PlanEntryAfter(ctx, steps, s0, n, was[i], now[i])
  {
    hide ParseWrite, StateAfter, Lookup, Numbered, IsWrite, WritesTo;
    var number := was[i].stepNumber;
    if 1 <= number <= n && IsWrite(steps[number - 1]) {
      assert Numbered(s.prepared, number) by { assert number == number - 1 + 1; }
      HasNumber(s.prepared, number);
      var k :| 0 <= k < |s.prepared| && s.prepared[k].stepNumber == number;
      var p := s.prepared[k];
      assert Faithful(ctx, steps, s0, p, s.world.backups);
      assert now[i] == Annotate(was[i], p);
      assert NamesSnapshot(ctx, number, p.target, Saved(p, s.world.backups), now[i]);
    }
  }

  /** Stopping at failures runs exactly the steps up to the first failure; otherwise every requested step is run. */
  lemma ProcessedSteps(runner: Runner, root: seq<Component>, skill: Skill, q: Request, journalId: string, w: World)
    ensures var e := Execute(runner, root, skill, q, journalId, w);
            var loop := Loop(runner, root, skill, q, journalId, w);
            e.1.Ok? ==>
              var records, n := e.1.value.steps, loop.processed;
              && loop.Reached? && n <= |records| && n <= |Requested(skill, q)|
              && (n < |Requested(skill, q)| ==> q.stopOnFailure && n > 0 && records[n - 1].status == Failed)
              && (q.stopOnFailure ==> forall i :: 0 <= i < n - 1 ==> records[i].status != Failed)
  {
    hide RunFrom, ContextFor, Finish, Execute, Gate, StateAfter, NewJournal, UndoFirst, RollbackRecords, AreTheWrites,
        Records, FailedAt;
    ExecuteFollowsLoop(runner, root, skill, q, journalId, w);
    LoopEnds(runner, root, skill, q, journalId, w);
    ContextParts(runner, root, q, journalId);
    var loop := Loop(runner, root, skill, q, journalId, w);
    if loop.Reached? {
      var s := loop.state;
      FinishCases(s, q.autoRollback);
      if s.journal.status == Failed && q.autoRollback && s.prepared != [] {
        assert forall i, k :: 0 <= i < k < |s.prepared| ==> s.prepared[i].stepNumber < s.prepared[k].stepNumber by {
          OrderOf(Requested(skill, q), loop.processed, s.prepared);
        }
        UndoJournal(s.prepared, |s.prepared|, s.world, s.journal);
      }
    }
  }

  lemma OrderOf(steps: seq<Step>, n: nat, prepared: seq<Prepared>)
    requires n <= |steps| && AreTheWrites(steps, n, prepared)
    ensures forall i, k :: 0 <= i < k < |prepared| ==> prepared[i].stepNumber < prepared[k].stepNumber
  {
    hide IsWrite, Numbered;
  }

  // ---------- paths that no command touches ----------

  /** Commands leave this path alone, whatever else they do. */
  ghost predicate SparesPath(runner: Runner, p: PathBuf) {
    forall number: nat, command: string, args: seq<string>, cwd: PathBuf, w: World ::
      Lookup(runner(number, command, args, cwd, w).world.files, p) == Lookup(w.files, p)
  }

  lemma StepSparesPath(ctx: Context, w: World, number: nat, step: Step, p: PathBuf)
    requires SparesPath(ctx.runner, p) && !WritesTo(ctx.root, step, p)
    ensures var r := RunStep(ctx, w, number, step); r.Ended? ==> Lookup(r.world.files, p) == Lookup(w.files, p)
  {
    hide ParseWrite;
  }

  lemma {:induction false} UnwrittenStays(ctx: Context, steps: seq<Step>, s0: RunState, n: nat, p: PathBuf)
    requires n <= |steps| && SparesPath(ctx.runner, p) && Unwritten(ctx.root, steps, n, p)
    requires StateAfter(ctx, steps, s0, n).Some?
    ensures Holds(ctx, steps, s0, n, p, Lookup(s0.world.files, p))
  {
    hide RunStep, Log, WritesTo, Lookup;
    if n > 0 {
      UnwrittenStays(ctx, steps, s0, n - 1, p);
      StepSparesPath(ctx, StateAfter(ctx, steps, s0, n - 1).value.world, n, steps[n - 1], p);
    }
  }

  /** Some step is the first to write to the path, or none of them writes to it. */
  lemma {:induction false} FirstWriter(root: seq<Component>, steps: seq<Step>, n: nat, p: PathBuf) returns (m: nat)
    requires n <= |steps|
    ensures m <= n && Unwritten(root, steps, m, p) && (m < n ==> WritesTo(root, steps[m], p))
  {
    hide WritesTo;
    if n == 0 {
      m := 0;
    } else {
      m := FirstWriter(root, steps, n - 1, p);
      if m == n - 1 && !WritesTo(root, steps[n - 1], p) {
        m := n;
      }
    }
  }

  /** A rolled-back run leaves every path that its commands spare as it was before the run. */
  lemma RollbackIsInverse(runner: Runner, root: seq<Component>, skill: Skill, q: Request, journalId: string, w: World,
                          p: PathBuf)
    requires SparesSnapshots(runner, journalId) && SparesPath(runner, p)
    ensures var e := Execute(runner, root, skill, q, journalId, w);
            e.1.Ok? && e.1.value.status == RolledBack ==> Lookup(e.0.files, p) == Lookup(w.files, p)
  {
    hide RunFrom, ContextFor, Execute, StateAfter, NewJournal, WritesTo, Lookup;
    var e := Execute(runner, root, skill, q, journalId, w);
    if e.1.Ok? && e.1.value.status == RolledBack {
      RollbackRestores(runner, root, skill, q, journalId, w);
      ContextParts(runner, root, q, journalId);
      var ctx := ContextFor(runner, root, q, journalId);
      var steps, s0 := Requested(skill, q), Initial(skill, journalId, q, w);
      var n := Loop(runner, root, skill, q, journalId, w).processed;
      var m := FirstWriter(ctx.root, steps, n, p);
      assert Holds(ctx, steps, s0, m, p, Lookup(e.0.files, p));
      UnwrittenStays(ctx, steps, s0, m, p);
    }
  }

  // ---------- runs that are not rolled back ----------

  /** Without a rollback the files are as the steps left them. */
  lemma OtherwiseStepsStand(runner: Runner, root: seq<Component>, skill: Skill, q: Request, journalId: string, w: World)
    ensures var e := Execute(runner, root, skill, q, journalId, w);
            var loop := Loop(runner, root, skill, q, journalId, w);
            e.1.Ok? && e.1.value.status != RolledBack ==>
              loop.Reached? && loop.processed <= |Requested(skill, q)|
              && StateAfter(ContextFor(runner, root, q, journalId), Requested(skill, q),
                            Initial(skill, journalId, q, w), loop.processed) == Some(loop.state)
              && e.0 == loop.state.world
  {
    hide RunFrom, ContextFor, Finish, Execute, Gate, StateAfter, NewJournal, UndoFirst, AreTheWrites;
    ExecuteFollowsLoop(runner, root, skill, q, journalId, w);
    LoopEnds(runner, root, skill, q, journalId, w);
    var loop := Loop(runner, root, skill, q, journalId, w);
    if loop.Reached? {
      FinishCases(loop.state, q.autoRollback);
    }
  }

  /** Step `n + 1` is malformed and nothing ended the run before it. */
  ghost predicate ReachesMalformed(ctx: Context, steps: seq<Step>, s0: RunState, n: nat)
    requires n < |steps|
  {
    && Malformed(ctx.root, steps[n])
    && (forall k :: 0 <= k < n ==> !Malformed(ctx.root, steps[k]))
    && (ctx.stopOnFailure ==> forall k :: 0 < k <= n ==> !FailedAt(ctx, steps, s0, k))
  }

  /** A run leaves early exactly when it reaches a malformed step; the files then stay as the steps before it left them,
      whether or not a rollback was asked for. */
  lemma EarlyExit(runner: Runner, root: seq<Component>, skill: Skill, q: Request, journalId: string, w: World)
    requires SparesSnapshots(runner, journalId) && Gate(root, skill, q).None?
    ensures var e := Execute(runner, root, skill, q, journalId, w);
            var ctx := ContextFor(runner, root, q, journalId);
            var steps, s0 := Requested(skill, q), Initial(skill, journalId, q, w);
            && (e.1.Err? <==> exists n :: 0 <= n < |steps| && ReachesMalformed(ctx, steps, s0, n))
            && forall n :: 0 <= n < |steps| && ReachesMalformed(ctx, steps, s0, n) ==>
                 StateAfter(ctx, steps, s0, n).Some? && e.0 == StateAfter(ctx, steps, s0, n).value.world
  {
    hide RunFrom, ContextFor, Finish, Execute, Gate, StateAfter, NewJournal, UndoFirst, AreTheWrites, Records,
        Malformed, FailedAt;
    ExecuteFollowsLoop(runner, root, skill, q, journalId, w);
    RollbackRestores(runner, root, skill, q, journalId, w);
    LoopEnds(runner, root, skill, q, journalId, w);
    var ctx, steps, s0 := ContextFor(runner, root, q, journalId), Requested(skill, q), Initial(skill, journalId, q, w);
    InitialState(ctx, steps, s0);
    LoopFollowsHistory(ctx, steps, s0, 0, s0);
    var loop := Loop(runner, root, skill, q, journalId, w);
    if loop.Reached? {
      StateExists(ctx, steps, s0, loop.processed);
      FinishCases(loop.state, q.autoRollback);
      assert forall n :: 0 <= n < |steps| ==> !ReachesMalformed(ctx, steps, s0, n);
    } else {
      var n :| 0 <= n < |steps| && StateAfter(ctx, steps, s0, n) == Some(loop.state)
          && ReachesMalformed(ctx, steps, s0, n);
      assert forall k :: 0 <= k < |steps| && ReachesMalformed(ctx, steps, s0, k) ==> k == n;
    }
  }

  /** So a rollback that was asked for does not undo the write before a malformed step. */
  lemma MalformedStepKeepsWrite(runner: Runner, root: seq<Component>, skill: Skill, q: Request, journalId: string,
                                w: World, p: PathBuf)
    requires SparesSnapshots(runner, journalId) && Gate(root, skill, q).None? && q.autoRollback
    requires |Requested(skill, q)| >= 2
    requires WritesTo(root, Requested(skill, q)[0], p) && Malformed(root, Requested(skill, q)[1])
    ensures var e := Execute(runner, root, skill, q, journalId, w);
            var r := ParseWrite(root, Requested(skill, q)[0].arguments).value;
            && e.1.Err?
            && Lookup(e.0.files, p) ==
                 Some((if r.append && p in w.files then w.files[p] else []) + Utf8.Encode(r.content))
  {
    hide RunFrom, ContextFor, Finish, Execute, Gate, NewJournal, ParseWrite, PreparedFor, Log;
    var ctx, steps, s0 := ContextFor(runner, root, q, journalId), Requested(skill, q), Initial(skill, journalId, q, w);
    ContextParts(runner, root, q, journalId);
    EarlyExit(runner, root, skill, q, journalId, w);
    assert "run_command"[0] != "write_file"[0];
    var a := ProcessStep(ctx, s0, 1, steps[0]);
    assert StateAfter(ctx, steps, s0, 0) == Some(s0);
    assert a.Next? && !a.failed;
    assert StateAfter(ctx, steps, s0, 1) == Some(a.state);
    assert ReachesMalformed(ctx, steps, s0, 1);
  }

  // ---------- the gate ----------

  /** The tools that a run executes by itself. */
  predicate RunsByItself(step: Step) { step.tool == Some("run_command") || step.tool == Some("write_file") }

  /** The tools that make a skill one to be reviewed. */
  predicate NeedsReview(step: Step) {
    RunsByItself(step) || step.tool == Some("fetch_url") || step.tool == Some("web_search")
  }

  /** What it takes to start: a step with a tool to be reviewed, confirmation in every case, a range within the skill,
      rollback guidance and checkpoints on every step in range that runs by itself, and a working directory inside. */
  lemma GateOpensIff(root: seq<Component>, skill: Skill, q: Request)
    ensures var n := if q.throughStep.Some? then q.throughStep.value else |skill.steps|;
            Gate(root, skill, q).None? <==>
              && (exists i :: 0 <= i < |skill.steps| && NeedsReview(skill.steps[i]))
              && q.confirm
              && 1 <= n <= |skill.steps|
              && (forall i :: 0 <= i < n && RunsByItself(skill.steps[i]) ==>
                    skill.steps[i].rollback.Some? && Trim(skill.steps[i].rollback.value) != ""
                    && skill.steps[i].checkpoints != [])
              && (q.cwd.Some? ==> Resolve(root, q.cwd.value).Some?)
  {
    hide Trim, Resolve;
    ToolsAgree(skill.steps);
    hide IsExecutable, IsRisky, RunsByItself, NeedsReview;
  }

  lemma ToolsAgree(steps: seq<Step>)
    ensures forall i :: 0 <= i < |steps| ==>
              (IsExecutable(steps[i]) <==> RunsByItself(steps[i])) && (IsRisky(steps[i]) <==> NeedsReview(steps[i]))
  {
  }

  /** A request that is refused is refused before anything happens, for the first reason that applies. */
  lemma RefusalReasons(root: seq<Component>, skill: Skill, q: Request)
    ensures var n := if q.throughStep.Some? then q.throughStep.value else |skill.steps|;
            var e := Gate(root, skill, q);
            var risky := exists i :: 0 <= i < |skill.steps| && NeedsReview(skill.steps[i]);
            && (!risky ==> e == Some(NothingExecutable))
            && (risky && !q.confirm ==> e == Some(NeedsConfirmation))
            && (risky && q.confirm && !(1 <= n <= |skill.steps|) ==> e == Some(BadThroughStep))
  {
    hide Trim, Resolve;
    ToolsAgree(skill.steps);
    hide IsExecutable, IsRisky, RunsByItself, NeedsReview;
  }

  // ---------- a run that leaves a write behind ----------

  const WRITE_NOTE := Step("Write the note", None, Some("write_file"),
                           Some(Obj(map["path" := Str("note"), "content" := Str("x")])),
                           None, Some("remove it"), ["written"], false)

  const RUN_NOTHING := Step("Run something", None, Some("run_command"), None, None, Some("none"), ["ran"], false)

  const LEAKY_SKILL := Skill("leaky", false, [WRITE_NOTE, RUN_NOTHING])

  const ROLL_BACK := Request(true, None, None, true, true)

  lemma NoteComponents()
    ensures Components("note") == [Normal("note")]
  {
    hide SplitAll;
    SplitName("note", "");
    assert "note"[0] == 'n' && "."[0] == '.' && ".."[0] == '.';
    assert PieceComponents(["note"]) == [Normal("note")];
  }

  lemma NormalizeOne(name: string)
    ensures Normalize([RootDir]) == PathBuf(true, [])
    ensures Normalize([RootDir, Normal(name)]) == PathBuf(true, [name])
  {
    var root, full: seq<Component> := [RootDir], [RootDir, Normal(name)];
    assert root[1..] == [] && full[1..] == [Normal(name)] && full[1..][1..] == [];
    assert Normalize(root) == Continue(PathBuf(true, []), root[1..]);
    assert Normalize(full) == Continue(PathBuf(true, []), full[1..]) == Continue(PathBuf(true, [name]), full[1..][1..]);
  }

  lemma NoteIsInside()
    ensures Resolve([RootDir], "note") == Some(PathBuf(true, ["note"]))
  {
    hide Components, Normalize;
    NoteComponents();
    NormalizeOne("note");
    assert ToComponents(PathBuf(true, [])) == [RootDir];
    assert [RootDir] + [Normal("note")] == [RootDir, Normal("note")];
  }

  lemma NoteResolves()
    ensures ParseWrite([RootDir], WRITE_NOTE.arguments) == Ok(WriteRequest(PathBuf(true, ["note"]), "x", false))
  {
    hide Resolve;
    NoteIsInside();
    assert "path"[0] != "content"[0] && "append"[0] != "path"[0] && "append"[0] != "content"[0];
  }

  lemma LeakySkillStarts()
    ensures Gate([RootDir], LEAKY_SKILL, ROLL_BACK).None?
    ensures Requested(LEAKY_SKILL, ROLL_BACK) == [WRITE_NOTE, RUN_NOTHING]
  {
    hide TrimmedText;
    TextGiven();
    assert NeedsReview(LEAKY_SKILL.steps[0]);
    GateOpensIff([RootDir], LEAKY_SKILL, ROLL_BACK);
  }

  lemma TextGiven()
    ensures TrimmedText(WRITE_NOTE.rollback) != "" && TrimmedText(RUN_NOTHING.rollback) != ""
  {
    assert Trimmed("remove it") && Trimmed("none");
  }

  /** A skill whose rollback was asked for and does not happen: it writes a new file, then names no command to run,
      and the file stays. */
  lemma LeakySkillKeepsNote(runner: Runner, journalId: string)
    requires SparesSnapshots(runner, journalId)
    ensures var e := Execute(runner, [RootDir], LEAKY_SKILL, ROLL_BACK, journalId, World(map[], map[]));
            e.1.Err? && Lookup(e.0.files, PathBuf(true, ["note"])) == Some([120])
  {
    hide ParseWrite, Execute, Gate, Requested, LEAKY_SKILL, ROLL_BACK;
    NoteResolves();
    LeakySkillStarts();
    assert Malformed([RootDir], RUN_NOTHING);
    assert ROLL_BACK.autoRollback by { RollsBack(); }
    MalformedStepKeepsWrite(runner, [RootDir], LEAKY_SKILL, ROLL_BACK, journalId, World(map[], map[]),
                            PathBuf(true, ["note"]));
    assert Utf8.Encode("x") == [120] by { OneByte(); }
    assert [] + Utf8.Encode("x") == Utf8.Encode("x");
  }

  lemma OneByte()
    ensures Utf8.Encode("x") == [120]
  {
    assert "x"[1..] == "" && Utf8.EncodeChar('x') == [120];
  }

  lemma RollsBack()
    ensures ROLL_BACK.autoRollback
  {
  }
}
