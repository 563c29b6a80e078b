/** Plan-order runs of definitions without fallbacks visit plan positions in strictly increasing order. */
module EngineOrder {
  import opened Text
  import opened Engine
  import opened EngineTheorems
  import opened EngineRuns

  predicate NoFallbacks(definition: Definition) {
    forall k :: 0 <= k < |definition.steps| ==> definition.steps[k].policy.mode != Fallback
  }

  /** The record was made at a plan position that configures its tool. */
  predicate AtPosition(definition: Definition, r: Record) {
    r.index >= r.attempt && HasTool(definition, r.index - r.attempt, r.tool)
  }

  function Position(r: Record): int {
    r.index - r.attempt
  }

  /** Later blocks sit at later positions, all below `c`; attempts of one block share their position. */
  predicate Rising(definition: Definition, steps: seq<Record>, c: int) {
    && (forall i :: 0 <= i < |steps| ==> AtPosition(definition, steps[i]) && Position(steps[i]) < c)
    && (forall i, j :: 0 <= i < j < |steps| ==>
          Position(steps[i]) < Position(steps[j]) || (Position(steps[i]) == Position(steps[j]) && steps[i].attempt < steps[j].attempt))
  }

  predicate RisingRun(run: Run) {
    Rising(run.definition, run.steps, if run.status == Paused then run.currentStep + 1 else |run.definition.steps|)
  }

  lemma RisingMore(definition: Definition, steps: seq<Record>, c: int, d: int)
    requires Rising(definition, steps, c) && c <= d
    ensures Rising(definition, steps, d)
  {}

  lemma RisingBelowEnd(definition: Definition, steps: seq<Record>, c: int)
    requires Rising(definition, steps, c)
    ensures Rising(definition, steps, |definition.steps|)
  {}

  lemma RisingBlock(definition: Definition, steps: seq<Record>, c: nat, a: Attempt)
    requires Rising(definition, steps, c) && a.Finished? && Block(definition, c, c, 0, a)
    ensures Rising(definition, steps + a.records, c + 1)
  {
    var all := steps + a.records;
    forall i | 0 <= i < |a.records|
      ensures Position(a.records[i]) == c && a.records[i].attempt == i && AtPosition(definition, a.records[i])
    {
      assert Numbered(definition.steps[c], c, 0 + i, a.records[i]);
    }
    assert forall i :: |steps| <= i < |all| ==> all[i] == a.records[i - |steps|];
  }

  predicate RisingPlan(p: Plan, c: nat) {
    match p
    case Working(run, steps, queue, _, _) =>
      && RisingRun(run) && Rising(run.definition, steps, c) && queue == Range(c, Limit(run.definition))
    case Left(o) => RisingRun(o.run)
  }

  lemma SettleRises(run: Run, steps: seq<Record>, rest: seq<nat>, attempted: set<string>, c: nat, a: Attempt)
    requires RisingRun(run) && Rising(run.definition, steps, c) && NoFallbacks(run.definition)
    requires InPlan(run.definition, rest) && rest == Range(c + 1, Limit(run.definition))
    requires Block(run.definition, c, c, 0, a)
    ensures RisesTo(run.definition, PlanSettle(run, steps, rest, attempted, c, a), c + 1)
  {
    if a.Finished? {
      RisingBlock(run.definition, steps, c, a);
      RisingBelowEnd(run.definition, steps + a.records, c + 1);
    }
  }

  lemma StopRises(env: Env, p: Plan, c: nat)
    requires p.Working? && ValidPlan(p) && RisingPlan(p, c) && PlanStops(env, p).Some?
    ensures RisesTo(p.run.definition, PlanStep(env, p), c + 1)
  {
    RisingBelowEnd(p.run.definition, p.steps, c);
  }

  predicate RisesTo(definition: Definition, q: Plan, c: nat) {
    RisingPlan(q, c) && (q.Working? ==> q.run.definition == definition)
  }

  lemma StepRises(env: Env, p: Plan, c: nat)
    requires p.Working? && ValidPlan(p) && RisingPlan(p, c) && NoFallbacks(p.run.definition)
    ensures RisesTo(p.run.definition, PlanStep(env, p), c + 1)
  {
    if PlanStops(env, p).Some? {
      StopRises(env, p, c);
    } else {
      RangeStep(c, Limit(p.run.definition));
      if p.run.definition.steps[c].tool.value in p.attempted {
        RisingMore(p.run.definition, p.steps, c, c + 1);
      } else {
        var a := StepSettles(env, p);
        assert p.queue[1..] == Range(c + 1, Limit(p.run.definition));
        SettleRises(p.run, p.steps, p.queue[1..], p.attempted + {p.run.definition.steps[c].tool.value}, c, a);
      }
    }
  }

  lemma {:induction false} PassRises(env: Env, p: Plan, c: nat)
    requires ValidPlan(p) && RisingPlan(p, c) && (p.Working? ==> NoFallbacks(p.run.definition))
    ensures RisingRun(PlanPass(env, p).run)
    decreases Unattempted(p), if p.Working? then |p.queue| + 1 else 0
  {
    if p.Working? {
      StepRises(env, p, c);
      PlanStepDecreases(env, p);
      PassRises(env, PlanStep(env, p), c + 1);
    }
  }

  // ----- every reachable run

  predicate Ordered(run: Run) {
    !run.definition.resultAware && NoFallbacks(run.definition) ==> RisingRun(run)
  }

  lemma ContinueOrdered(env: Env, run: Run, steps: seq<Record>, start: nat)
    requires Ready(run, steps)
    requires !run.definition.resultAware && NoFallbacks(run.definition) ==>
      RisingRun(run) && Rising(run.definition, steps, start)
    ensures Ordered(Continue(env, run, steps, start).run)
  {
    ContinueKeeps(false, env, run, steps, start);
    if !run.definition.resultAware && NoFallbacks(run.definition) {
      PassRises(env, PlanFrom(run, steps, start), start);
    }
  }

  lemma RestatusRising(definition: Definition, steps: seq<Record>, status: StepStatus, c: int)
    requires steps != [] && Rising(definition, steps, c)
    ensures Rising(definition, Restatus(steps, status), c)
  {}

  lemma RestatusPaused(run: Run, status: StepStatus)
    requires Sound(false, run) && run.status == Paused && RisingRun(run)
    ensures Rising(run.definition, Restatus(run.steps, status), run.currentStep + 1)
    ensures Rising(run.definition, Restatus(run.steps, status), |run.definition.steps|)
  {
    RestatusRising(run.definition, run.steps, status, run.currentStep + 1);
    RisingBelowEnd(run.definition, Restatus(run.steps, status), run.currentStep + 1);
  }

  lemma ApprovedOrdered(env: Env, run: Run, approver: string)
    requires Sound(false, run) && Ordered(run) && run.status == Paused && approver != run.actor
    requires env.approve == Some(Success)
    ensures Ordered(ResumeRun(env, run, approver).run)
  {
    ApprovalContinues(env, run, approver);
    if RisingRun(run) { RestatusPaused(run, Result(Success)); }
    ContinueOrdered(env, run, Restatus(run.steps, Result(Success)), run.currentStep + 1);
  }

  lemma ResumeOrdered(env: Env, run: Run, approver: string)
    requires Sound(false, run) && Ordered(run)
    ensures Ordered(ResumeRun(env, run, approver).run)
  {
    if run.status == Paused && approver != run.actor && env.approve.Some? {
      if env.approve == Some(Success) {
        ApprovedOrdered(env, run, approver);
      } else if RisingRun(run) {
        RestatusPaused(run, Result(env.approve.value));
      }
    }
  }

  lemma CancelOrdered(env: Env, run: Run)
    requires Sound(false, run) && Ordered(run)
    ensures Ordered(CancelRun(env, run).run)
  {
    if run.status == Paused && !run.definition.resultAware && NoFallbacks(run.definition) {
      RestatusRising(run.definition, run.steps, Withdrawn, run.currentStep + 1);
      RisingBelowEnd(run.definition, Restatus(run.steps, Withdrawn), run.currentStep + 1);
    }
  }

  lemma OrderedIsKept()
    ensures Kept(Ordered)
  {
    forall env, definition, actor, count, of ensures Ordered(Continue(env, NewRun(definition, actor, count, of), [], 0).run) {
      NewRunSound(false, definition, actor, count, of);
      ContinueOrdered(env, NewRun(definition, actor, count, of), [], 0);
    }
    forall env, run, approver | Sound(false, run) && Ordered(run) ensures Ordered(ResumeRun(env, run, approver).run) {
      ResumeOrdered(env, run, approver);
    }
    forall env, run | Sound(false, run) && Ordered(run) ensures Ordered(CancelRun(env, run).run) {
      CancelOrdered(env, run);
    }
  }

  /** Without fallbacks no plan position is ever visited twice or out of order, across any number of resumes. */
  lemma PositionsRise(commands: seq<Command>, id: nat)
    requires id in Reached(commands).runs && !Reached(commands).runs[id].definition.resultAware
    requires NoFallbacks(Reached(commands).runs[id].definition)
    ensures RisingRun(Reached(commands).runs[id])
  {
    OrderedIsKept();
    KeptEverywhere(Ordered, commands);
  }
}
