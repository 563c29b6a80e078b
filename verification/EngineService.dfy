/** The service that executes runs in place, one stored update at a time, proved against the run functions. */
module EngineService {
  import opened Text
  import opened Engine

  class AgentService {
    var runs: map<nat, Run>
    var next: nat

    ghost function State(): World
      reads this
    {
      World(runs, next)
    }

    constructor ()
      ensures State() == EMPTY_WORLD
    {
      runs, next := map[], 0;
    }

    method UpdateRun(id: nat, run: Run)
      modifies this
      ensures runs == old(runs)[id := run] && next == old(next)
    {
      runs := runs[id := run];
    }

    /** After the attempts: pause, fail, queue the fallback, or go on. Everything but an exception is stored. */
    method SettlePlan(
        id: nat, run: Run, steps: seq<Record>, rest: seq<nat>, attempted: set<string>, index: nat, a: Attempt)
      returns (q: Plan)
      requires id in runs && runs[id] == run && InPlan(run.definition, rest)
      modifies this
      ensures q == PlanSettle(run, steps, rest, attempted, index, a)
      ensures runs == old(runs)[id := if q.Working? then q.run else q.outcome.run] && next == old(next)
    {
      if a.Aborted? {
        return Left(Outcome(run, true));
      }
      var steps := steps + a.records;
      var after, queue := run, rest;
      if a.status == Pending {
        after := Finish(run, Paused, index, steps, LastIndex(steps));
        UpdateRun(id, after);
        return Left(Outcome(after, false));
      } else if a.status != Success {
        var fallback := if a.directive.FallBack? then FirstStep(run.definition, a.directive.tool, 0) else None;
        if fallback.None? || a.directive.tool in attempted {
          after := Finish(run, Failed, index, steps, None);
          UpdateRun(id, after);
          return Left(Outcome(after, false));
        }
        queue := [fallback.value] + rest;
        after := Finish(run, Queued, index, steps, None);
      } else {
        after := Finish(run, Queued, index + 1, steps, None);
      }
      UpdateRun(id, after);
      return Working(after, steps, queue, attempted, a.clock);
    }

    /** One turn of the plan-order loop. */
    method PlanTurn(
        env: Env, id: nat, run: Run, steps: seq<Record>, queue: seq<nat>, attempted: set<string>, clock: nat)
      returns (q: Plan)
      requires id in runs && runs[id] == run && InPlan(run.definition, queue) && queue != []
      modifies this
      ensures ValidPlan(q) && PlanPass(env, q) == PlanPass(env, Working(run, steps, queue, attempted, clock))
      ensures runs == old(runs)[id := if q.Working? then q.run else q.outcome.run] && next == old(next)
      ensures var p := Working(run, steps, queue, attempted, clock);
        q.Working? ==>
          && q.run.definition == run.definition
          && (Unattempted(q) < Unattempted(p) || (Unattempted(q) == Unattempted(p) && |q.queue| < |queue|))
    {
      ghost var p := Working(run, steps, queue, attempted, clock);
      PlanStepDecreases(env, p);
      var index := queue[0];
      var step := run.definition.steps[index];
      if env.expired(clock) || Malformed(step) || step.tool.value !in run.definition.enabledTools {
        var after := Finish(run, Failed, index, steps, None);
        UpdateRun(id, after);
        q := Left(Outcome(after, false));
      } else if step.tool.value in attempted {
        q := Working(run, steps, queue[1..], attempted, clock + 1);
      } else {
        var a := ExecuteStepAttempts(env, clock + 1, step.tool.value, step.policy, index);
        q := SettlePlan(id, run, steps, queue[1..], attempted + {step.tool.value}, index, a);
      }
      assert q == PlanStep(env, p);
    }

    /** Plan order: a queue of positions, with fallbacks pushed to the front. */
    method ContinuePlan(env: Env, id: nat, run0: Run, steps0: seq<Record>, start: nat) returns (raised: bool)
      requires id in runs && runs[id] == run0
      modifies this
      ensures var o := PlanPass(env, PlanFrom(run0, steps0, start));
        runs == old(runs)[id := o.run] && raised == o.raised && next == old(next)
    {
      var definition := run0.definition;
      var run, steps, clock := run0, steps0, 0;
      var queue, attempted: set<string> := Range(start, Limit(definition)), {};
      while queue != []
        invariant run.definition == definition && InPlan(definition, queue)
        invariant runs == old(runs)[id := run] && next == old(next)
        invariant PlanPass(env, Working(run, steps, queue, attempted, clock)) == PlanPass(env, PlanFrom(run0, steps0, start))
        decreases |Tools(definition) - attempted|, |queue|
      {
        var q := PlanTurn(env, id, run, steps, queue, attempted, clock);
        if q.Left? {
          return q.outcome.raised;
        }
        run, steps, queue, attempted, clock := q.run, q.steps, q.queue, q.attempted, q.clock;
      }
      UpdateRun(id, Finish(run, Completed, |definition.steps|, steps, None));
      return false;
    }

    method SettleAware(id: nat, run: Run, steps: seq<Record>, a: Attempt) returns (b: Aware)
      requires id in runs && runs[id] == run && (a.Finished? ==> a.records != [])
      modifies this
      ensures b == AwareSettle(run, steps, a)
      ensures runs == old(runs)[id := if b.Choosing? then b.run else b.outcome.run] && next == old(next)
    {
      if a.Aborted? {
        return Closed(Outcome(run, true));
      }
      var ordinal, steps := |steps|, steps + a.records;
      var after, fallback: Option<nat> := run, None;
      if a.status == Pending {
        after := Finish(run, Paused, ordinal, steps, LastIndex(steps));
        UpdateRun(id, after);
        return Closed(Outcome(after, false));
      } else if a.status != Success {
        if a.directive.FallBack? && |steps| < run.definition.maxSteps {
          fallback := FirstStep(run.definition, a.directive.tool, 0);
        }
        if fallback.None? || a.directive.tool in Used(steps) {
          after := Finish(run, Failed, ordinal, steps, None);
          UpdateRun(id, after);
          return Closed(Outcome(after, false));
        }
      }
      after := Finish(run, Queued, |steps|, steps, None);
      UpdateRun(id, after);
      return Choosing(after, steps, fallback, a.clock);
    }

    /** One turn of the result-aware loop. */
    method AwareTurn(env: Env, id: nat, run: Run, steps: seq<Record>, fallback: Option<nat>, clock: nat) returns (b: Aware)
      requires id in runs && runs[id] == run && |steps| < run.definition.maxSteps
      requires fallback.Some? ==> fallback.value < |run.definition.steps|
      modifies this
      ensures ValidAware(b) && AwarePass(env, b) == AwarePass(env, Choosing(run, steps, fallback, clock))
      ensures runs == old(runs)[id := if b.Choosing? then b.run else b.outcome.run] && next == old(next)
      ensures b.Choosing? ==> b.run.definition == run.definition && |b.steps| > |steps|
    {
      ghost var a := Choosing(run, steps, fallback, clock);
      var choice := if fallback.Some? then fallback else Select(run.definition, Used(steps), env.choose(clock + 1));
      assert choice == Choice(env, a);
      var after := run;
      if env.expired(clock) {
        after := Finish(run, Failed, |steps|, steps, None);
      } else if choice.None? {
        after := Finish(run, Completed, |steps|, steps, None);
      } else {
        var step := run.definition.steps[choice.value];
        if Malformed(step) || step.tool.value !in run.definition.enabledTools {
          after := Finish(run, Failed, |steps|, steps, None);
        } else {
          var r := ExecuteStepAttempts(env, clock + 2, step.tool.value, step.policy, |steps|);
          AttemptsAdd(env, clock + 2, step.tool.value, step.policy, |steps|, 0);
          b := SettleAware(id, run, steps, r);
          assert b == AwareStep(env, a);
          return;
        }
      }
      UpdateRun(id, after);
      b := Closed(Outcome(after, false));
      assert b == AwareStep(env, a);
    }

    /** Result-aware order: one bounded step at a time, chosen among the unused candidates. */
    method ContinueResultAware(env: Env, id: nat, run0: Run, steps0: seq<Record>) returns (raised: bool)
      requires id in runs && runs[id] == run0
      modifies this
      ensures var o := AwarePass(env, Choosing(run0, steps0, None, 0));
        runs == old(runs)[id := o.run] && raised == o.raised && next == old(next)
    {
      var definition := run0.definition;
      var run, steps, clock := run0, steps0, 0;
      var fallback: Option<nat> := None;
      while |steps| < definition.maxSteps
        invariant run.definition == definition && (fallback.Some? ==> fallback.value < |definition.steps|)
        invariant runs == old(runs)[id := run] && next == old(next)
        invariant AwarePass(env, Choosing(run, steps, fallback, clock)) == AwarePass(env, Choosing(run0, steps0, None, 0))
        decreases definition.maxSteps - |steps|
      {
        var b := AwareTurn(env, id, run, steps, fallback, clock);
        if b.Closed? {
          return b.outcome.raised;
        }
        run, steps, fallback, clock := b.run, b.steps, b.fallback, b.clock;
      }
      UpdateRun(id, Finish(run, Completed, |steps|, steps, None));
      return false;
    }

    method ContinueRun(env: Env, id: nat, run: Run, steps: seq<Record>, start: nat) returns (raised: bool)
      requires id in runs && runs[id] == run
      modifies this
      ensures var o := Continue(env, run, steps, start);
        runs == old(runs)[id := o.run] && raised == o.raised && next == old(next)
    {
      if run.definition.resultAware {
        raised := ContinueResultAware(env, id, run, steps);
      } else {
        raised := ContinuePlan(env, id, run, steps, start);
      }
    }

    method LaunchRun(env: Env, run: Run) returns (id: nat)
      modifies this
      ensures State() == Launch(env, old(State()), run) && id == old(next)
    {
      id := next;
      runs, next := runs[id := run], next + 1;
      var _ := ContinueRun(env, id, run, [], 0);
    }

    method RunAgent(env: Env, definition: Definition, actor: string, admitted: bool) returns (id: Option<nat>)
      modifies this
      ensures State() == Apply(old(State()), Start(env, definition, actor, admitted))
      ensures id.Some? <==> admitted
    {
      if !admitted {
        return None;
      }
      var fresh_ := LaunchRun(env, NewRun(definition, actor, 0, None));
      return Some(fresh_);
    }

    method ResumeAgent(env: Env, id: nat, approver: string) returns (raised: bool)
      modifies this
      ensures State() == Apply(old(State()), Resume(env, id, approver))
      ensures raised == (id in old(runs) ==> ResumeRun(env, old(runs)[id], approver).raised)
    {
      if id !in runs {
        return true;
      }
      var run := runs[id];
      if run.status != Paused {
        assert runs == runs[id := run];
        return false;
      }
      if approver == run.actor || run.pendingStep.None? || run.pendingStep.value >= |run.steps| || env.approve.None? {
        assert runs == runs[id := run];
        return true;
      }
      var p := run.pendingStep.value;
      var steps := run.steps[p := run.steps[p].(status := Result(env.approve.value))];
      if env.approve.value == Success {
        raised := ContinueRun(env, id, run, steps, run.currentStep + 1);
      } else {
        var status := if env.approve.value == Refused then Rejected else Failed;
        UpdateRun(id, Finish(run, status, run.currentStep, steps, None));
        raised := false;
      }
    }

    method CancelAgent(env: Env, id: nat) returns (raised: bool)
      modifies this
      ensures State() == Apply(old(State()), Cancel(env, id))
      ensures raised == (id in old(runs) ==> CancelRun(env, old(runs)[id]).raised)
    {
      if id !in runs {
        return true;
      }
      var run := runs[id];
      if run.status == Cancelled {
        assert runs == runs[id := run];
        return false;
      }
      if (run.status != Queued && run.status != Paused) || !env.withdraw {
        assert runs == runs[id := run];
        return true;
      }
      var steps := run.steps;
      if run.pendingStep.Some? && run.pendingStep.value < |steps| {
        steps := steps[run.pendingStep.value := steps[run.pendingStep.value].(status := Withdrawn)];
      }
      UpdateRun(id, Finish(run, Cancelled, run.currentStep, steps, None));
      return false;
    }

    method RetryAgent(env: Env, id: nat, actor: string, sameRevision: bool, admitted: bool) returns (retried: Option<nat>)
      modifies this
      ensures State() == Apply(old(State()), RetryRun(env, id, actor, sameRevision, admitted))
      ensures retried.Some? <==> id in old(runs) && MayRetry(old(runs)[id]) && sameRevision && admitted
      ensures retried.Some? ==> retried.value == old(next)
    {
      if id !in runs || !sameRevision || !admitted || !MayRetry(runs[id]) {
        return None;
      }
      var fresh_ := LaunchRun(env, NewRun(runs[id].definition, actor, runs[id].retryCount + 1, Some(id)));
      return Some(fresh_);
    }
  }
}
