/** One plan-order pass in more detail: which tools it tries, and how often. */
module EnginePlan {
  import opened Engine
  import opened EngineTheorems
  import opened EngineRuns

  // ----- one pass

  predicate Planned(definition: Definition, start: nat, pos: nat) {
    start <= pos < |definition.steps| && pos < definition.maxSteps
  }

  predicate AttemptedAt(definition: Definition, pos: nat, tools: set<string>)
    requires pos < |definition.steps|
  {
    definition.steps[pos].tool.Some? && definition.steps[pos].tool.value in tools
  }

  ghost predicate Covers(definition: Definition, start: nat, tools: set<string>) {
    forall pos: nat :: Planned(definition, start, pos) ==> AttemptedAt(definition, pos, tools)
  }

  /** The records a pass added to `steps0`. */
  function Added(steps0: seq<Record>, steps: seq<Record>): seq<Record>
    requires steps0 <= steps
  {
    steps[|steps0|..]
  }

  ghost predicate TrackedRun(run0: Run, steps0: seq<Record>, start: nat, run: Run) {
    run == run0 ||
    (&& run.definition == run0.definition && steps0 <= run.steps
     && SingleBlocks(Added(steps0, run.steps))
     && (run.status == Completed ==> Covers(run.definition, start, Used(Added(steps0, run.steps)))))
  }

  ghost predicate Tracked(run0: Run, steps0: seq<Record>, start: nat, p: Plan) {
    match p
    case Working(run, steps, queue, attempted, _) =>
      && ValidPlan(p) && TrackedRun(run0, steps0, start, run) && run.definition == run0.definition
      && run.status != Completed
      && steps0 <= steps && SingleBlocks(Added(steps0, steps)) && attempted == Used(Added(steps0, steps))
      && forall pos: nat :: Planned(run.definition, start, pos) ==> pos in queue || AttemptedAt(run.definition, pos, attempted)
    case Left(o) => TrackedRun(run0, steps0, start, o.run)
  }

  lemma UsedConcat(xs: seq<Record>, ys: seq<Record>)
    ensures Used(xs + ys) == Used(xs) + Used(ys)
  {
    forall t | t in Used(xs) + Used(ys) ensures t in Used(xs + ys) {
      if t in Used(xs) {
        var i :| 0 <= i < |xs| && xs[i].tool == t;
        assert (xs + ys)[i].tool == t;
      } else {
        var i :| 0 <= i < |ys| && ys[i].tool == t;
        assert (xs + ys)[|xs| + i].tool == t;
      }
    }
  }

  lemma BlockTool(definition: Definition, k: nat, index: int, a: Attempt)
    requires a.Finished? && Block(definition, k, index, 0, a)
    ensures Used(a.records) == {definition.steps[k].tool.value}
  {
    var tool := definition.steps[k].tool.value;
    forall i | 0 <= i < |a.records| ensures a.records[i].tool == tool {
      assert Numbered(definition.steps[k], index, 0 + i, a.records[i]);
    }
    assert a.records[0].tool == tool;
  }

  lemma BlockUses(definition: Definition, steps: seq<Record>, k: nat, index: int, a: Attempt)
    requires a.Finished? && Block(definition, k, index, 0, a)
    ensures Used(steps + a.records) == Used(steps) + {definition.steps[k].tool.value}
  {
    UsedConcat(steps, a.records);
    BlockTool(definition, k, index, a);
  }

  lemma AddedBlock(definition: Definition, steps0: seq<Record>, steps: seq<Record>, k: nat, index: int, a: Attempt)
    requires a.Finished? && Block(definition, k, index, 0, a)
    requires steps0 <= steps && SingleBlocks(Added(steps0, steps))
    requires definition.steps[k].tool.value !in Used(Added(steps0, steps))
    ensures steps0 <= steps + a.records
    ensures SingleBlocks(Added(steps0, steps + a.records))
    ensures Used(Added(steps0, steps + a.records)) == Used(Added(steps0, steps)) + {definition.steps[k].tool.value}
  {
    assert Added(steps0, steps + a.records) == Added(steps0, steps) + a.records;
    BlockKeepsSingle(definition, Added(steps0, steps), k, index, a);
    BlockUses(definition, Added(steps0, steps), k, index, a);
  }

  lemma TrySettles(run0: Run, steps0: seq<Record>, start: nat, p: Plan, a: Attempt)
    requires p.Working? && Tracked(run0, steps0, start, p) && p.queue != []
    requires Block(p.run.definition, p.queue[0], p.queue[0], 0, a)
    requires p.run.definition.steps[p.queue[0]].tool.value !in p.attempted
    ensures var tool := p.run.definition.steps[p.queue[0]].tool.value;
      Tracked(run0, steps0, start,
        PlanSettle(p.run, p.steps, p.queue[1..], p.attempted + {tool}, p.queue[0], a))
  {
    if a.Finished? {
      var index := p.queue[0];
      var tool := p.run.definition.steps[index].tool.value;
      AddedBlock(p.run.definition, steps0, p.steps, index, index, a);
      forall pos: nat | Planned(p.run.definition, start, pos)
        ensures pos in p.queue[1..] || AttemptedAt(p.run.definition, pos, p.attempted + {tool})
      {
        assert pos in p.queue ==> pos == index || pos in p.queue[1..];
      }
    }
  }

  lemma TrackStep(env: Env, run0: Run, steps0: seq<Record>, start: nat, p: Plan)
    requires p.Working? && Tracked(run0, steps0, start, p)
    ensures Tracked(run0, steps0, start, PlanStep(env, p))
  {
    if PlanStops(env, p).None? {
      var index, step := p.queue[0], p.run.definition.steps[p.queue[0]];
      assert forall pos: nat :: pos in p.queue ==> pos == index || pos in p.queue[1..];
      if step.tool.value !in p.attempted {
        var a := StepSettles(env, p);
        TrySettles(run0, steps0, start, p, a);
      }
    }
  }

  lemma {:induction false} TrackPass(env: Env, run0: Run, steps0: seq<Record>, start: nat, p: Plan)
    requires ValidPlan(p) && Tracked(run0, steps0, start, p)
    ensures TrackedRun(run0, steps0, start, PlanPass(env, p).run)
    decreases Unattempted(p), if p.Working? then |p.queue| + 1 else 0
  {
    if p.Working? {
      TrackStep(env, run0, steps0, start, p);
      PlanStepDecreases(env, p);
      TrackPass(env, run0, steps0, start, PlanStep(env, p));
    }
  }

  function CountTool(steps: seq<Record>, tool: string): nat {
    if steps == [] then 0
    else CountTool(steps[..|steps| - 1], tool) + if steps[|steps| - 1].tool == tool then 1 else 0
  }

  lemma {:induction false} BlockCount(steps: seq<Record>, tool: string, bound: nat)
    requires SingleBlocks(steps) && forall i :: 0 <= i < |steps| ==> steps[i].attempt <= bound
    ensures CountTool(steps, tool) <= bound + 1
    ensures steps != [] && steps[|steps| - 1].tool == tool ==> CountTool(steps, tool) <= steps[|steps| - 1].attempt + 1
    ensures tool !in Used(steps) ==> CountTool(steps, tool) == 0
  {
    if steps != [] {
      var n := |steps| - 1;
      var init := steps[..n];
      BlockCount(init, tool, bound);
      assert forall i :: 0 <= i < n ==> init[i] == steps[i];
      if steps[n].tool == tool && tool in Used(init) {
        var i :| 0 <= i < n && init[i].tool == tool;
        assert steps[i].tool == steps[n].tool;
      }
    }
  }

  /**
   One plan-order pass, from the records it starts with: no tool gets more than one block or more
   records than retries allow, and if the pass completes the run, every queued position's tool was
   tried in it.
   */
  lemma PassCovers(env: Env, run: Run, steps: seq<Record>, start: nat, tool: string)
    requires Ready(run, steps) && run.status != Completed && !run.definition.resultAware
    ensures var after := PlanPass(env, PlanFrom(run, steps, start)).run;
      after != run ==>
        && steps <= after.steps && SingleBlocks(Added(steps, after.steps))
        && CountTool(Added(steps, after.steps), tool) <= 1 + MaxRetries(run.definition, 0)
        && (after.status == Completed ==> Covers(after.definition, start, Used(Added(steps, after.steps))))
  {
    var p := PlanFrom(run, steps, start);
    PlanTracked(run, steps, start);
    TrackPass(env, run, steps, start, p);
    PlanPassKeeps(false, env, run, steps, p);
    if PlanPass(env, p).run != run {
      AddedCount(run.definition, steps, PlanPass(env, p).run.steps, tool);
    }
  }

  lemma PlanTracked(run: Run, steps: seq<Record>, start: nat)
    requires run.status != Completed
    ensures Tracked(run, steps, start, PlanFrom(run, steps, start))
  {
    var queue := Range(start, Limit(run.definition));
    assert Added(steps, steps) == [];
    forall pos: nat | Planned(run.definition, start, pos) ensures pos in queue {
      assert queue[pos - start] == pos;
    }
  }

  lemma AddedCount(definition: Definition, steps0: seq<Record>, steps: seq<Record>, tool: string)
    requires Lawful(definition, steps) && steps0 <= steps && SingleBlocks(Added(steps0, steps))
    ensures CountTool(Added(steps0, steps), tool) <= 1 + MaxRetries(definition, 0)
  {
    var added, bound := Added(steps0, steps), MaxRetries(definition, 0);
    forall i | 0 <= i < |added| ensures added[i].attempt <= bound {
      AttemptBound(definition, steps, |steps0| + i);
    }
    BlockCount(added, tool, bound);
  }
}
