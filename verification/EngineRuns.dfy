/** Whole runs: the invariant of every reachable world, and what it means for callers. */
module EngineRuns {
  import opened Text
  import opened Engine
  import opened EngineTheorems

  predicate Sound(decisive: bool, run: Run) {
    && RunOk(decisive, run)
    && (run.definition.resultAware ==> Orderly(run.definition, run.steps))
  }

  // ----- one operation on one run

  /** The records after the last one's status is replaced. */
  function Restatus(steps: seq<Record>, status: StepStatus): seq<Record>
    requires steps != []
  {
    steps[|steps| - 1 := steps[|steps| - 1].(status := status)]
  }

  lemma RestatusLawful(definition: Definition, steps: seq<Record>, status: StepStatus)
    requires Lawful(definition, steps) && steps != []
    ensures Lawful(definition, Restatus(steps, status))
  {
    var changed := Restatus(steps, status);
    forall i | 0 < i < |changed| ensures Follows(definition, changed[i - 1], changed[i]) {
      assert Follows(definition, steps[i - 1], steps[i]);
    }
  }

  lemma RestatusOrderly(definition: Definition, steps: seq<Record>, status: StepStatus)
    requires Orderly(definition, steps) && steps != []
    ensures Orderly(definition, Restatus(steps, status))
  {
    var changed := Restatus(steps, status);
    forall i, j | 0 <= i < j < |changed| && changed[i].tool == changed[j].tool
      ensures changed[j - 1].tool == changed[j].tool && changed[j].attempt == changed[j - 1].attempt + 1
    {
      assert steps[i].tool == steps[j].tool;
    }
  }

  lemma ContinueKeeps(decisive: bool, env: Env, run: Run, steps: seq<Record>, start: nat)
    requires Sound(decisive, run) && Lawful(run.definition, steps) && Between(run.definition, steps, None)
    requires run.definition.resultAware ==> Orderly(run.definition, steps)
    ensures var after := Continue(env, run, steps, start).run;
      Sound(decisive, after) && Progress(decisive, run, steps, after)
  {
    if run.definition.resultAware {
      AwarePassKeeps(decisive, env, run, steps, Choosing(run, steps, None, 0));
      AwarePassTidy(env, Choosing(run, steps, None, 0));
    } else {
      PlanPassKeeps(decisive, env, run, steps, PlanFrom(run, steps, start));
    }
  }

  lemma NewRunSound(decisive: bool, definition: Definition, actor: string, retryCount: nat, retryOf: Option<nat>)
    ensures Sound(decisive, NewRun(definition, actor, retryCount, retryOf))
  {}

  predicate Decisive(env: Env) {
    env.approve != Some(Pending)
  }

  /** What a resume can do to a run's records. */
  predicate Resumed(env: Env, approver: string, run: Run, after: Run) {
    after == run ||
    (&& run.status == Paused && approver != run.actor && run.steps != [] && env.approve.Some?
     && Restatus(run.steps, Result(env.approve.value)) <= after.steps
     && (env.approve.value != Success ==> Terminal(after.status)))
  }

  /** What a pass needs to find. */
  predicate Ready(run: Run, steps: seq<Record>) {
    && Sound(false, run) && Lawful(run.definition, steps) && Between(run.definition, steps, None)
    && (run.definition.resultAware ==> Orderly(run.definition, steps))
  }

  lemma ApprovalReady(run: Run)
    requires Sound(false, run) && run.status == Paused
    ensures Ready(run, Restatus(run.steps, Result(Success)))
  {
    RestatusLawful(run.definition, run.steps, Result(Success));
    if run.definition.resultAware {
      RestatusOrderly(run.definition, run.steps, Result(Success));
    }
  }

  /** An approval that succeeds goes on after the paused position, with the last record a success. */
  lemma ApprovalContinues(env: Env, run: Run, approver: string)
    requires Sound(false, run) && run.status == Paused && approver != run.actor && env.approve == Some(Success)
    ensures Ready(run, Restatus(run.steps, Result(Success)))
    ensures ResumeRun(env, run, approver) == Continue(env, run, Restatus(run.steps, Result(Success)), run.currentStep + 1)
  {
    ApprovalReady(run);
  }

  lemma ApprovedKeeps(decisive: bool, env: Env, run: Run, approver: string)
    requires Sound(decisive, run) && run.status == Paused && approver != run.actor
    requires env.approve == Some(Success)
    ensures var after := ResumeRun(env, run, approver).run;
      Sound(decisive, after) && SameIdentity(run, after) && Resumed(env, approver, run, after)
  {
    ApprovalContinues(env, run, approver);
    ContinueKeeps(decisive, env, run, Restatus(run.steps, Result(Success)), run.currentStep + 1);
  }

  lemma DeclinedKeeps(decisive: bool, env: Env, run: Run, approver: string)
    requires Sound(decisive, run) && run.status == Paused && approver != run.actor
    requires env.approve.Some? && env.approve.value != Success && (decisive ==> Decisive(env))
    ensures var after := ResumeRun(env, run, approver).run;
      Sound(decisive, after) && SameIdentity(run, after) && Resumed(env, approver, run, after)
  {
    var status := if env.approve.value == Refused then Rejected else Failed;
    RestatusLawful(run.definition, run.steps, Result(env.approve.value));
    if run.definition.resultAware {
      RestatusOrderly(run.definition, run.steps, Result(env.approve.value));
    }
    FinishOk(decisive, run, status, run.currentStep, Restatus(run.steps, Result(env.approve.value)));
  }

  lemma ResumeKeeps(decisive: bool, env: Env, run: Run, approver: string)
    requires Sound(decisive, run) && (decisive ==> Decisive(env))
    ensures var after := ResumeRun(env, run, approver).run;
      Sound(decisive, after) && SameIdentity(run, after) && Resumed(env, approver, run, after)
  {
    if run.status == Paused && approver != run.actor && env.approve.Some? {
      if env.approve.value == Success {
        ApprovedKeeps(decisive, env, run, approver);
      } else {
        DeclinedKeeps(decisive, env, run, approver);
      }
    }
  }

  /** What a cancel can do to a run. */
  predicate CancelledFrom(run: Run, after: Run) {
    after == run ||
    (&& !Terminal(run.status) && after.status == Cancelled
     && (run.status == Paused ==> run.steps != [] && after.steps == Restatus(run.steps, Withdrawn))
     && (run.status == Queued ==> after.steps == run.steps))
  }

  lemma WithdrawnKeeps(decisive: bool, run: Run)
    requires Sound(decisive, run) && run.status == Paused
    ensures Sound(decisive, Finish(run, Cancelled, run.currentStep, Restatus(run.steps, Withdrawn), None))
  {
    RestatusLawful(run.definition, run.steps, Withdrawn);
    if run.definition.resultAware {
      RestatusOrderly(run.definition, run.steps, Withdrawn);
    }
    FinishOk(decisive, run, Cancelled, run.currentStep, Restatus(run.steps, Withdrawn));
  }

  lemma CancelKeeps(decisive: bool, env: Env, run: Run)
    requires Sound(decisive, run)
    ensures var after := CancelRun(env, run).run;
      Sound(decisive, after) && SameIdentity(run, after) && CancelledFrom(run, after)
  {
    if run.status == Paused {
      WithdrawnKeeps(decisive, run);
    } else if run.status == Queued {
      FinishOk(decisive, run, Cancelled, run.currentStep, run.steps);
    }
  }

  // ----- every reachable world

  predicate LineageOk(runs: map<nat, Run>, id: nat)
    requires id in runs
  {
    var run := runs[id];
    && run.retryCount <= MAX_AGENT_RETRIES
    && (run.retryOf.None? ==> run.retryCount == 0)
    && (run.retryOf.Some? ==>
          && run.retryOf.value in runs && run.retryOf.value < id
          && runs[run.retryOf.value].retryCount + 1 == run.retryCount
          && runs[run.retryOf.value].definition == run.definition
          && (runs[run.retryOf.value].status == Failed || runs[run.retryOf.value].status == Cancelled))
  }

  predicate WorldOk(w: World) {
    forall id :: id in w.runs ==> id < w.next && Sound(false, w.runs[id]) && LineageOk(w.runs, id)
  }

  lemma ReplaceKeeps(w: World, id: nat, run: Run)
    requires WorldOk(w) && id in w.runs && Sound(false, run) && SameIdentity(w.runs[id], run)
    requires Terminal(w.runs[id].status) ==> run == w.runs[id]
    ensures WorldOk(w.(runs := w.runs[id := run]))
  {
    var runs := w.runs[id := run];
    forall k | k in runs ensures LineageOk(runs, k) {
      assert LineageOk(w.runs, k);
    }
  }

  lemma LaunchKeeps(env: Env, w: World, run: Run)
    requires WorldOk(w) && run == NewRun(run.definition, run.actor, run.retryCount, run.retryOf)
    requires LineageOk(w.runs[w.next := run], w.next)
    ensures WorldOk(Launch(env, w, run))
  {
    NewRunSound(false, run.definition, run.actor, run.retryCount, run.retryOf);
    ContinueKeeps(false, env, run, [], 0);
    var runs := Launch(env, w, run).runs;
    forall k | k in runs ensures LineageOk(runs, k) {
      if k != w.next { assert LineageOk(w.runs, k); }
    }
  }

  lemma ApplyKeeps(w: World, c: Command)
    requires WorldOk(w)
    ensures WorldOk(Apply(w, c))
  {
    match c {
      case Start(env, definition, actor, admitted) =>
        if admitted { LaunchKeeps(env, w, NewRun(definition, actor, 0, None)); }
      case Resume(env, id, approver) =>
        if id in w.runs {
          ResumeKeeps(false, env, w.runs[id], approver);
          ReplaceKeeps(w, id, ResumeRun(env, w.runs[id], approver).run);
        }
      case Cancel(env, id) =>
        if id in w.runs {
          CancelKeeps(false, env, w.runs[id]);
          ReplaceKeeps(w, id, CancelRun(env, w.runs[id]).run);
        }
      case RetryRun(env, id, actor, sameRevision, admitted) =>
        if id in w.runs && sameRevision && admitted && MayRetry(w.runs[id]) {
          assert LineageOk(w.runs, id);
          LaunchKeeps(env, w, NewRun(w.runs[id].definition, actor, w.runs[id].retryCount + 1, Some(id)));
        }
    }
  }

  function Reached(commands: seq<Command>): World {
    Execute(EMPTY_WORLD, commands)
  }

  /** The commands before the last one, and the last one. */
  lemma LastCommand(commands: seq<Command>) returns (init: seq<Command>, c: Command)
    requires commands != []
    ensures commands == init + [c] && Reached(commands) == Apply(Reached(init), c)
  {
    init, c := commands[..|commands| - 1], commands[|commands| - 1];
  }

  /** Main invariant: whatever the environments and the commands, every run of every reachable world is sound. */
  lemma {:induction false} ReachableOk(commands: seq<Command>)
    ensures WorldOk(Reached(commands))
  {
    if commands != [] {
      var init, c := LastCommand(commands);
      ReachableOk(init);
      ApplyKeeps(Reached(init), c);
    }
  }

  // ----- invariants of single runs

  /** A property of runs that new runs have after their first pass and that resume and cancel keep. */
  ghost predicate Kept(inv: Run -> bool) {
    && (forall env, definition, actor, count, of ::
          inv(Continue(env, NewRun(definition, actor, count, of), [], 0).run))
    && (forall env, run, approver :: Sound(false, run) && inv(run) ==> inv(ResumeRun(env, run, approver).run))
    && (forall env, run :: Sound(false, run) && inv(run) ==> inv(CancelRun(env, run).run))
  }

  ghost predicate Everywhere(inv: Run -> bool, w: World) {
    forall id :: id in w.runs ==> inv(w.runs[id])
  }

  lemma ApplyKept(inv: Run -> bool, w: World, c: Command)
    requires Kept(inv) && WorldOk(w) && Everywhere(inv, w)
    ensures Everywhere(inv, Apply(w, c))
  {}

  /** Such a property holds of every reachable run. */
  lemma {:induction false} KeptEverywhere(inv: Run -> bool, commands: seq<Command>)
    requires Kept(inv)
    ensures Everywhere(inv, Reached(commands))
  {
    if commands != [] {
      var init, c := LastCommand(commands);
      KeptEverywhere(inv, init);
      ReachableOk(init);
      ApplyKept(inv, Reached(init), c);
    }
  }

  // ----- what callers may rely on

  /** A run is paused exactly when it points at its last record, and that record is the only pending one. */
  lemma PausedExactly(commands: seq<Command>, id: nat)
    requires id in Reached(commands).runs
    ensures var run := Reached(commands).runs[id];
      && (run.status == Paused <==> run.pendingStep.Some?)
      && (run.status == Paused ==>
            && run.steps != [] && run.pendingStep.value == |run.steps| - 1 && IsPending(run.steps[|run.steps| - 1])
            && forall i :: 0 <= i < |run.steps| - 1 ==> !IsPending(run.steps[i]))
  {
    ReachableOk(commands);
    OnlyLastPending(Reached(commands).runs[id].definition, Reached(commands).runs[id].steps);
  }

  /** Records `i` to `j`: failures, each lawfully followed, up to a success. */
  predicate Resolves(definition: Definition, steps: seq<Record>, i: nat, j: nat) {
    && i < j < |steps| && Succeeded(steps[j])
    && forall k :: i <= k < j ==> IsFailure(steps[k]) && Follows(definition, steps[k], steps[k + 1])
  }

  lemma {:induction false} FailureResolves(definition: Definition, steps: seq<Record>, i: nat) returns (j: nat)
    requires Lawful(definition, steps) && i < |steps| && IsFailure(steps[i])
    requires Succeeded(steps[|steps| - 1])
    ensures Resolves(definition, steps, i, j)
    decreases |steps| - i
  {
    assert Follows(definition, steps[i + 1 - 1], steps[i + 1]);
    if Succeeded(steps[i + 1]) {
      j := i + 1;
    } else {
      assert Follows(definition, steps[i + 2 - 1], steps[i + 2]);
      j := FailureResolves(definition, steps, i + 1);
    }
  }

  /** In a completed run every record that is not a success heads a retry or fallback chain that ends in one. */
  lemma CompletedRunsResolve(commands: seq<Command>, id: nat, i: nat) returns (j: nat)
    requires id in Reached(commands).runs && Reached(commands).runs[id].status == Completed
    requires i < |Reached(commands).runs[id].steps| && !Succeeded(Reached(commands).runs[id].steps[i])
    ensures Resolves(Reached(commands).runs[id].definition, Reached(commands).runs[id].steps, i, j)
  {
    ReachableOk(commands);
    var run := Reached(commands).runs[id];
    assert Follows(run.definition, run.steps[i + 1 - 1], run.steps[i + 1]);
    j := FailureResolves(run.definition, run.steps, i);
  }

  lemma TerminalStep(w: World, c: Command, id: nat)
    requires WorldOk(w) && id in w.runs && Terminal(w.runs[id].status)
    ensures id in Apply(w, c).runs && Apply(w, c).runs[id] == w.runs[id]
  {}

  /** A terminal run is never changed again, by any further commands. */
  lemma {:induction false} TerminalStays(w: World, commands: seq<Command>, id: nat)
    requires WorldOk(w) && id in w.runs && Terminal(w.runs[id].status)
    ensures var v := Execute(w, commands);
      WorldOk(v) && id in v.runs && v.runs[id] == w.runs[id]
  {
    if commands != [] {
      var n := |commands| - 1;
      TerminalStays(w, commands[..n], id);
      ApplyKeeps(Execute(w, commands[..n]), commands[n]);
      TerminalStep(Execute(w, commands[..n]), commands[n], id);
    }
  }

  /** A pending record turns into a success only by a resume from someone other than the run's actor. */
  lemma ApprovalNeedsAnother(commands: seq<Command>, c: Command, id: nat, i: nat)
    requires id in Reached(commands).runs && id in Apply(Reached(commands), c).runs
    requires i < |Reached(commands).runs[id].steps| && IsPending(Reached(commands).runs[id].steps[i])
    requires i < |Apply(Reached(commands), c).runs[id].steps| && Succeeded(Apply(Reached(commands), c).runs[id].steps[i])
    ensures c.Resume? && c.id == id && c.env.approve == Some(Success)
    ensures c.approver != Reached(commands).runs[id].actor
  {
    ReachableOk(commands);
    var run := Reached(commands).runs[id];
    var after := Apply(Reached(commands), c).runs[id];
    OnlyLastPending(run.definition, run.steps);
    if c.Resume? && c.id == id {
      ResumeKeeps(false, c.env, run, c.approver);
      assert Restatus(run.steps, Result(c.env.approve.value))[i] == after.steps[i];
    } else if c.Cancel? && c.id == id {
      CancelKeeps(false, c.env, run);
    }
  }

  /** The runs a retried run descends from, oldest first. */
  function Lineage(runs: map<nat, Run>, id: nat): seq<nat>
    requires id in runs && forall k :: k in runs ==> LineageOk(runs, k)
    decreases id
  {
    assert LineageOk(runs, id);
    if runs[id].retryOf.None? then [id] else Lineage(runs, runs[id].retryOf.value) + [id]
  }

  lemma {:induction false} LineageLength(runs: map<nat, Run>, id: nat)
    requires id in runs && forall k :: k in runs ==> LineageOk(runs, k)
    ensures |Lineage(runs, id)| == runs[id].retryCount + 1 <= 4
    decreases id
  {
    assert LineageOk(runs, id);
    if runs[id].retryOf.Some? {
      LineageLength(runs, runs[id].retryOf.value);
    }
  }

  /** Retries leave every earlier run alone, and no chain of retries is longer than four runs. */
  lemma RetriesAreBounded(commands: seq<Command>, c: Command, id: nat)
    requires id in Reached(commands).runs
    ensures forall k :: k in Reached(commands).runs ==> LineageOk(Reached(commands).runs, k)
    ensures |Lineage(Reached(commands).runs, id)| <= 4
    ensures c.RetryRun? || c.Start? ==> Apply(Reached(commands), c).runs[id] == Reached(commands).runs[id]
  {
    ReachableOk(commands);
    LineageLength(Reached(commands).runs, id);
  }

  // ----- history

  function CountSucceeded(steps: seq<Record>): nat {
    if steps == [] then 0
    else CountSucceeded(steps[..|steps| - 1]) + if Succeeded(steps[|steps| - 1]) then 1 else 0
  }

  function CountFailed(steps: seq<Record>): nat {
    if steps == [] then 0
    else CountFailed(steps[..|steps| - 1]) + if IsFailure(steps[|steps| - 1]) then 1 else 0
  }

  lemma {:induction false} NonPendingCounted(steps: seq<Record>)
    requires forall i :: 0 <= i < |steps| ==> !IsPending(steps[i])
    ensures CountSucceeded(steps) + CountFailed(steps) == |steps|
  {
    if steps != [] { NonPendingCounted(steps[..|steps| - 1]); }
  }

  lemma OnlyLastPending(definition: Definition, steps: seq<Record>)
    requires Lawful(definition, steps)
    ensures forall i :: 0 <= i < |steps| - 1 ==> !IsPending(steps[i])
  {
    forall i | 0 <= i < |steps| - 1 ensures !IsPending(steps[i]) {
      assert Follows(definition, steps[i + 1 - 1], steps[i + 1]);
    }
  }

  predicate EndsPending(steps: seq<Record>) {
    steps != [] && IsPending(steps[|steps| - 1])
  }

  /** Command `k` resumes the paused run by someone other than its actor, and the answer is "pending" again. */
  predicate UndecidedAt(commands: seq<Command>, id: nat, k: nat) {
    && k < |commands| && commands[k].Resume? && commands[k].id == id && commands[k].env.approve == Some(Pending)
    && id in Reached(commands[..k]).runs
    && var run := Reached(commands[..k]).runs[id];
       run.status == Paused && commands[k].approver != run.actor
  }

  ghost predicate Undecided(commands: seq<Command>, id: nat) {
    exists k :: UndecidedAt(commands, id, k)
  }

  /** The one answer that breaks the counters. */
  predicate Breaks(w: World, c: Command, id: nat) {
    && c.Resume? && c.id == id && id in w.runs && c.env.approve == Some(Pending)
    && w.runs[id].status == Paused && c.approver != w.runs[id].actor
  }

  lemma UndecidedStep(init: seq<Command>, c: Command, id: nat)
    ensures Undecided(init + [c], id) <==> Undecided(init, id) || Breaks(Reached(init), c, id)
  {
    var commands, n := init + [c], |init|;
    assert commands[..n] == init;
    assert Breaks(Reached(init), c, id) <==> UndecidedAt(commands, id, n);
    forall k: nat | k < n ensures UndecidedAt(commands, id, k) <==> UndecidedAt(init, id, k) {
      assert commands[..k] == init[..k];
    }
  }

  /** What the counters can miss in a run: nothing, unless an approval was left undecided. */
  predicate Accounted(undecided: bool, run: Run) {
    if undecided then run.status == Failed && EndsPending(run.steps)
    else Sound(true, run)
  }

  lemma BreakingStep(w: World, c: Command, id: nat)
    requires WorldOk(w) && Breaks(w, c, id)
    ensures Accounted(true, Apply(w, c).runs[id])
  {}

  lemma DecidedStep(w: World, c: Command, id: nat)
    requires WorldOk(w) && id in w.runs && Sound(true, w.runs[id]) && !Breaks(w, c, id)
    ensures Sound(true, Apply(w, c).runs[id])
  {
    var run := w.runs[id];
    if c.Resume? && c.id == id {
      if c.env.approve != Some(Pending) { ResumeKeeps(true, c.env, run, c.approver); }
    } else if c.Cancel? && c.id == id {
      CancelKeeps(true, c.env, run);
    }
  }

  lemma LaunchedSound(w: World, c: Command, id: nat)
    requires WorldOk(w) && id !in w.runs && id in Apply(w, c).runs
    ensures Sound(true, Apply(w, c).runs[id])
  {
    var run := if c.Start? then NewRun(c.definition, c.actor, 0, None)
               else NewRun(w.runs[c.id].definition, c.actor, w.runs[c.id].retryCount + 1, Some(c.id));
    NewRunSound(true, run.definition, run.actor, run.retryCount, run.retryOf);
    ContinueKeeps(true, c.env, run, [], 0);
  }

  lemma {:induction false} RunsAccounted(commands: seq<Command>, id: nat)
    ensures id in Reached(commands).runs ==> Accounted(Undecided(commands, id), Reached(commands).runs[id])
    ensures id !in Reached(commands).runs ==> !Undecided(commands, id)
  {
    if commands != [] {
      var init, c := LastCommand(commands);
      RunsAccounted(init, id);
      ReachableOk(init);
      UndecidedStep(init, c, id);
      if id !in Reached(init).runs {
        if id in Reached(commands).runs { LaunchedSound(Reached(init), c, id); }
      } else if Undecided(init, id) {
        TerminalStep(Reached(init), c, id);
      } else if Breaks(Reached(init), c, id) {
        BreakingStep(Reached(init), c, id);
      } else {
        DecidedStep(Reached(init), c, id);
      }
    }
  }

  /**
   The history counters add up but for a record that is still pending. That is the last record of a
   paused run, or of a run that failed because its own approval was answered "pending" once more.
   */
  lemma HistoryConserved(commands: seq<Command>, id: nat)
    requires id in Reached(commands).runs
    ensures var run := Reached(commands).runs[id];
      && |run.steps| == CountSucceeded(run.steps) + CountFailed(run.steps) + (if EndsPending(run.steps) then 1 else 0)
      && (EndsPending(run.steps) <==> run.status == Paused || Undecided(commands, id))
      && (Terminal(run.status) && EndsPending(run.steps) <==> Undecided(commands, id))
  {
    ReachableOk(commands);
    RunsAccounted(commands, id);
    var run := Reached(commands).runs[id];
    if run.steps != [] {
      OnlyLastPending(run.definition, run.steps);
      NonPendingCounted(run.steps[..|run.steps| - 1]);
    }
  }

  // ----- result-aware runs

  lemma {:induction false} Contiguous(steps: seq<Record>, i: nat, j: nat)
    requires SingleBlocks(steps) && i <= j < |steps| && steps[i].tool == steps[j].tool
    ensures forall k :: i <= k <= j ==> steps[k].tool == steps[i].tool
    ensures steps[j].attempt == steps[i].attempt + (j - i)
    decreases j - i
  {
    if i < j {
      Contiguous(steps, i, j - 1);
    }
  }

  lemma AttemptBound(definition: Definition, steps: seq<Record>, j: nat)
    requires Lawful(definition, steps) && j < |steps|
    ensures steps[j].attempt <= MaxRetries(definition, 0)
  {
    if j > 0 {
      assert Follows(definition, steps[j - 1], steps[j]);
    }
  }

  /** Whatever the model selects, over the whole run including resumes. */
  lemma ResultAwareBounds(commands: seq<Command>, id: nat, i: nat, j: nat)
    requires id in Reached(commands).runs && Reached(commands).runs[id].definition.resultAware
    requires i <= j < |Reached(commands).runs[id].steps|
    ensures var run := Reached(commands).runs[id];
      var retries := MaxRetries(run.definition, 0);
      && Configured(run.definition, run.steps[i])
      && run.steps[i].index == i
      && |run.steps| <= run.definition.maxSteps + retries
      && (run.steps[i].tool == run.steps[j].tool ==>
            && (forall k :: i <= k <= j ==> run.steps[k].tool == run.steps[i].tool)
            && run.steps[j].attempt == run.steps[i].attempt + (j - i) <= retries)
  {
    ReachableOk(commands);
    var run := Reached(commands).runs[id];
    if run.steps[i].tool == run.steps[j].tool {
      Contiguous(run.steps, i, j);
      AttemptBound(run.definition, run.steps, j);
    }
  }
}
