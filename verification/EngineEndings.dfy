/** Why passes end: what a completed result-aware run has used up, and what a failed pass must show. */
module EngineEndings {
  import opened Text
  import opened Engine
  import opened EngineTheorems
  import opened EngineRuns
  import opened EnginePlan

  // ----- completed result-aware runs are exhausted

  /** The step budget is used up, or every configured enabled tool has been tried. */
  ghost predicate Exhausted(run: Run) {
    |run.steps| >= run.definition.maxSteps || AllUsed(run.definition, Used(run.steps))
  }

  ghost predicate Spent(run: Run) {
    run.definition.resultAware && run.status == Completed ==> Exhausted(run)
  }

  ghost predicate AllUsed(definition: Definition, used: set<string>) {
    forall tool :: tool in Tools(definition) && tool in definition.enabledTools ==> tool in used
  }

  lemma NothingLeft(definition: Definition, used: set<string>, choice: Option<string>)
    requires Select(definition, used, choice).None?
    ensures AllUsed(definition, used)
  {
    forall tool | tool in Tools(definition) && tool in definition.enabledTools ensures tool in used {
      var i :| 0 <= i < |definition.steps| && definition.steps[i].tool == Some(tool);
      if tool !in used { SelectMeans(definition, used, choice, i, tool); }
    }
  }

  ghost predicate AwareSpent(a: Aware) {
    Spent(if a.Choosing? then a.run else a.outcome.run)
  }

  lemma StopSpent(env: Env, a: Aware)
    requires a.Choosing? && ValidAware(a) && AwareStops(env, a).Some?
    ensures AwareSpent(AwareStep(env, a))
  {
    if Choice(env, a).None? {
      NothingLeft(a.run.definition, Used(a.steps), env.choose(a.clock + 1));
    }
  }

  lemma SettleSpent(run: Run, steps: seq<Record>, k: nat, a: Attempt)
    requires Spent(run) && Block(run.definition, k, |steps|, 0, a)
    ensures AwareSpent(AwareSettle(run, steps, a))
  {}

  lemma {:induction false} AwarePassSpent(env: Env, a: Aware)
    requires ValidAware(a) && AwareSpent(a)
    ensures Spent(AwarePass(env, a).run)
    decreases Remaining(a)
  {
    if a.Choosing? {
      if AwareStops(env, a).Some? {
        StopSpent(env, a);
      } else {
        var k, r := TurnSettles(env, a);
        SettleSpent(a.run, a.steps, k, r);
      }
      AwarePassSpent(env, AwareStep(env, a));
    }
  }

  lemma ContinueSpent(env: Env, run: Run, steps: seq<Record>, start: nat)
    requires Ready(run, steps) && Spent(run)
    ensures Spent(Continue(env, run, steps, start).run)
  {
    if run.definition.resultAware {
      AwarePassSpent(env, Choosing(run, steps, None, 0));
    } else {
      ContinueKeeps(false, env, run, steps, start);
    }
  }

  lemma ResumeSpent(env: Env, run: Run, approver: string)
    requires Sound(false, run) && Spent(run)
    ensures Spent(ResumeRun(env, run, approver).run)
  {
    if run.status == Paused && approver != run.actor && env.approve == Some(Success) {
      ApprovalContinues(env, run, approver);
      ContinueSpent(env, run, Restatus(run.steps, Result(Success)), run.currentStep + 1);
    }
  }

  lemma SpentIsKept()
    ensures Kept(Spent)
  {
    forall env, definition, actor, count, of ensures Spent(Continue(env, NewRun(definition, actor, count, of), [], 0).run) {
      NewRunSound(false, definition, actor, count, of);
      ContinueSpent(env, NewRun(definition, actor, count, of), [], 0);
    }
    forall env, run, approver | Sound(false, run) && Spent(run) ensures Spent(ResumeRun(env, run, approver).run) {
      ResumeSpent(env, run, approver);
    }
  }

  /** Whatever the model selects, a completed result-aware run has used its budget or tried every usable tool. */
  lemma CompletedIsExhausted(commands: seq<Command>, id: nat)
    requires id in Reached(commands).runs && Reached(commands).runs[id].definition.resultAware
    requires Reached(commands).runs[id].status == Completed
    ensures Exhausted(Reached(commands).runs[id])
  {
    SpentIsKept();
    KeptEverywhere(Spent, commands);
  }

  // ----- failed passes show a failure

  /** Nothing but the actions themselves can go wrong: no timeout, no malformed or disabled step. */
  ghost predicate Smooth(env: Env, definition: Definition) {
    && (forall t: nat :: !env.expired(t))
    && forall k :: 0 <= k < |definition.steps| ==>
         !Malformed(definition.steps[k]) && definition.steps[k].tool.value in definition.enabledTools
  }

  /** Tools that no fallback may reach any more: those of the whole run, or in plan order those of the pass. */
  function TriedTools(definition: Definition, steps0: seq<Record>, steps: seq<Record>): set<string>
    requires steps0 <= steps
  {
    if definition.resultAware then Used(steps) else Used(Added(steps0, steps))
  }

  /** Step `k`, which just failed, offers no way on: no fallback, or one that is unknown, used, or over budget. */
  predicate DeadEnd(definition: Definition, steps0: seq<Record>, steps: seq<Record>, k: nat)
    requires steps0 <= steps && k < |definition.steps|
  {
    var policy := definition.steps[k].policy;
    || policy.mode != Fallback || FirstStep(definition, Target(policy), 0).None?
    || Target(policy) in TriedTools(definition, steps0, steps)
    || (definition.resultAware && |steps| >= definition.maxSteps)
  }

  /** A failed run ends in a failed record whose own step is a dead end. */
  predicate FailsForCause(steps0: seq<Record>, run: Run) {
    run.status == Failed ==>
      && run.steps != [] && IsFailure(run.steps[|run.steps| - 1]) && steps0 <= run.steps
      && var last := run.steps[|run.steps| - 1];
         var k := Origin(run.definition, last);
         && k.Some? && DeadEnd(run.definition, steps0, run.steps, k.value)
         && run.currentStep == (if run.definition.resultAware then |run.steps| - 1 - last.attempt else k.value)
  }

  predicate PlanCause(definition: Definition, steps0: seq<Record>, q: Plan) {
    match q
    case Working(run, steps, _, attempted, _) =>
      && FailsForCause(steps0, run) && run.definition == definition && !definition.resultAware
      && steps0 <= steps && attempted == Used(Added(steps0, steps))
    case Left(o) => FailsForCause(steps0, o.run)
  }

  lemma AddedUses(definition: Definition, steps0: seq<Record>, steps: seq<Record>, k: nat, index: int, a: Attempt)
    requires a.Finished? && Block(definition, k, index, 0, a) && steps0 <= steps
    ensures steps0 <= steps + a.records
    ensures Used(Added(steps0, steps + a.records)) == Used(Added(steps0, steps)) + {definition.steps[k].tool.value}
  {
    assert Added(steps0, steps + a.records) == Added(steps0, steps) + a.records;
    BlockUses(definition, Added(steps0, steps), k, index, a);
  }

  lemma PlanSettleCause(steps0: seq<Record>, p: Plan, a: Attempt)
    requires p.Working? && ValidPlan(p) && p.queue != [] && PlanCause(p.run.definition, steps0, p)
    requires Block(p.run.definition, p.queue[0], p.queue[0], 0, a)
    ensures var k := p.queue[0];
      var tool := p.run.definition.steps[k].tool.value;
      PlanCause(p.run.definition, steps0, PlanSettle(p.run, p.steps, p.queue[1..], p.attempted + {tool}, k, a))
  {
    if a.Finished? {
      AddedUses(p.run.definition, steps0, p.steps, p.queue[0], p.queue[0], a);
      BlockEnds(p.run.definition, p.steps, p.queue[0], p.queue[0], a);
    }
  }

  lemma PlanStepCause(env: Env, steps0: seq<Record>, p: Plan)
    requires p.Working? && ValidPlan(p) && Smooth(env, p.run.definition) && PlanCause(p.run.definition, steps0, p)
    ensures PlanCause(p.run.definition, steps0, PlanStep(env, p))
  {
    if p.queue != [] {
      assert PlanStops(env, p).None?;
      if p.run.definition.steps[p.queue[0]].tool.value !in p.attempted {
        var a := StepSettles(env, p);
        PlanSettleCause(steps0, p, a);
      }
    }
  }

  lemma {:induction false} PlanPassCause(env: Env, definition: Definition, steps0: seq<Record>, p: Plan)
    requires ValidPlan(p) && Smooth(env, definition) && PlanCause(definition, steps0, p)
    ensures FailsForCause(steps0, PlanPass(env, p).run)
    decreases Unattempted(p), if p.Working? then |p.queue| + 1 else 0
  {
    if p.Working? {
      PlanStepCause(env, steps0, p);
      PlanStepDecreases(env, p);
      PlanPassCause(env, definition, steps0, PlanStep(env, p));
    }
  }

  predicate AwareCause(definition: Definition, steps0: seq<Record>, a: Aware) {
    match a
    case Choosing(run, steps, fallback, _) =>
      && FailsForCause(steps0, run) && run.definition == definition && steps0 <= steps
      && (fallback.Some? ==> FirstOfTool(definition, fallback.value))
    case Closed(o) => FailsForCause(steps0, o.run)
  }

  lemma AwareSettleCause(steps0: seq<Record>, run: Run, steps: seq<Record>, k: nat, a: Attempt)
    requires run.definition.resultAware && FailsForCause(steps0, run) && steps0 <= steps
    requires Block(run.definition, k, |steps|, 0, a) && FirstOfTool(run.definition, k)
    ensures AwareCause(run.definition, steps0, AwareSettle(run, steps, a))
  {
    if a.Finished? {
      assert steps0 <= steps + a.records;
      BlockEnds(run.definition, steps, k, |steps|, a);
      LastOfConcat(steps, a.records);
      assert Numbered(run.definition.steps[k], |steps|, 0 + (|a.records| - 1), a.records[|a.records| - 1]);
    }
  }

  lemma AwareStepCause(env: Env, steps0: seq<Record>, a: Aware)
    requires a.Choosing? && ValidAware(a) && Smooth(env, a.run.definition) && AwareCause(a.run.definition, steps0, a)
    requires a.run.definition.resultAware
    ensures AwareCause(a.run.definition, steps0, AwareStep(env, a))
  {
    if AwareStops(env, a).None? {
      var k, r := TurnSettles(env, a);
      if a.fallback.None? { SelectedIsFirst(a.run.definition, Used(a.steps), env.choose(a.clock + 1)); }
      AwareSettleCause(steps0, a.run, a.steps, k, r);
    }
  }

  lemma {:induction false} AwarePassCause(env: Env, definition: Definition, steps0: seq<Record>, a: Aware)
    requires ValidAware(a) && Smooth(env, definition) && definition.resultAware && AwareCause(definition, steps0, a)
    ensures FailsForCause(steps0, AwarePass(env, a).run)
    decreases Remaining(a)
  {
    if a.Choosing? {
      AwareStepCause(env, steps0, a);
      AwarePassCause(env, definition, steps0, AwareStep(env, a));
    }
  }

  /**
   In either mode, a pass that nothing outside disturbs fails only on a failed record whose step has
   no fallback left: none, an unknown one, one tried before (in plan order: in this pass), or no budget.
   */
  lemma FailureHasCause(env: Env, run: Run, steps: seq<Record>, start: nat)
    requires Smooth(env, run.definition) && run.status != Failed
    ensures FailsForCause(steps, Continue(env, run, steps, start).run)
  {
    if run.definition.resultAware {
      AwarePassCause(env, run.definition, steps, Choosing(run, steps, None, 0));
    } else {
      assert Added(steps, steps) == [];
      PlanPassCause(env, run.definition, steps, PlanFrom(run, steps, start));
    }
  }
}
