/** What every pass of either executor, and so every reachable run, keeps. */
module EngineTheorems {
  import opened Text
  import opened Engine

  // ----- records and the steps that produced them

  /**
   The step that made a record. In plan order records are numbered from their step's position; in
   result-aware order they are numbered by ordinal and come from the first step with their tool.
   */
  function Origin(definition: Definition, r: Record): (k: Option<nat>)
    ensures k.Some? ==> k.value < |definition.steps|
  {
    if definition.resultAware then FirstStep(definition, r.tool, 0)
    else if 0 <= r.index - r.attempt < |definition.steps| then Some(r.index - r.attempt)
    else None
  }

  predicate Configured(definition: Definition, r: Record) {
    var k := Origin(definition, r);
    k.Some? && HasTool(definition, k.value, r.tool) && r.tool in definition.enabledTools
  }

  predicate Retries(definition: Definition, r: Record) {
    var k := Origin(definition, r);
    k.Some? && definition.steps[k.value].policy.mode == Retry && r.attempt <= definition.steps[k.value].policy.maxRetries
  }

  /** The record's own step falls back, and `next` is the first step with the tool it falls back to. */
  predicate FallsTo(definition: Definition, r: Record, next: Option<nat>) {
    var k := Origin(definition, r);
    && k.Some? && next.Some? && definition.steps[k.value].policy.mode == Fallback
    && FirstStep(definition, Target(definition.steps[k.value].policy), 0) == next
  }

  /**
   What may follow a record: another attempt of the same failed step within its retry limit, or the
   first attempt of a new block, which after a failure must be made by the failed step's fallback.
   */
  predicate Follows(definition: Definition, a: Record, b: Record) {
    if b.attempt > 0 then
      && IsFailure(a) && a.status.Result? && b.tool == a.tool && b.attempt == a.attempt + 1 && b.index == a.index + 1
      && Retries(definition, b)
    else Succeeded(a) || (IsFailure(a) && a.status.Result? && FallsTo(definition, a, Origin(definition, b)))
  }

  /** The whole record list: configured enabled steps, blocks from attempt 0, each record lawfully following. */
  predicate Lawful(definition: Definition, steps: seq<Record>) {
    && (forall i :: 0 <= i < |steps| ==> Configured(definition, steps[i]))
    && (steps != [] ==> steps[0].attempt == 0)
    && (forall i :: 0 < i < |steps| ==> Follows(definition, steps[i - 1], steps[i]))
  }

  /** The state of the list between two blocks: empty, succeeded, or failed with `next` as its fallback. */
  predicate Between(definition: Definition, steps: seq<Record>, next: Option<nat>) {
    steps == [] ||
    var last := steps[|steps| - 1];
    || Succeeded(last)
    || (IsFailure(last) && last.status.Result? && FallsTo(definition, last, next))
  }

  /** One block of step `k`: consecutive attempts, all but the last failed and retried, and the policy's directive. */
  predicate Block(definition: Definition, k: nat, index: int, attempt: nat, a: Attempt) {
    && k < |definition.steps| && definition.steps[k].tool.Some?
    && (a.Finished? ==>
          && a.records != []
          && (forall i :: 0 <= i < |a.records| ==> Numbered(definition.steps[k], index, attempt + i, a.records[i]))
          && (forall i :: 0 <= i < |a.records| - 1 ==> IsFailure(a.records[i]) && a.records[i].status.Result?)
          && (|a.records| > 1 ==>
                definition.steps[k].policy.mode == Retry
                && attempt + |a.records| - 1 <= definition.steps[k].policy.maxRetries)
          && a.records[|a.records| - 1].status == Result(a.status)
          && a.directive == DirectiveFor(a.status, definition.steps[k].policy))
  }

  predicate Numbered(step: ConfiguredStep, index: int, attempt: nat, r: Record) {
    step.tool == Some(r.tool) && r.attempt == attempt && r.index == index + attempt
  }

  function DirectiveFor(status: ActionStatus, policy: Policy): Directive {
    if status == Success || status == Pending then NoDirective else AfterFailure(policy)
  }

  lemma {:induction false} AttemptsMakeBlock(
      env: Env, clock: nat, definition: Definition, k: nat, index: int, attempt: nat)
    requires k < |definition.steps| && definition.steps[k].tool.Some?
    ensures var step := definition.steps[k];
      Block(definition, k, index, attempt, Attempts(env, clock, step.tool.value, step.policy, index, attempt))
    decreases definition.steps[k].policy.maxRetries - attempt
  {
    var step := definition.steps[k];
    if step.policy.mode == Retry && attempt < step.policy.maxRetries {
      AttemptsMakeBlock(env, clock + 1, definition, k, index, attempt + 1);
      BlockStep(env, clock, definition, k, index, attempt);
    }
  }

  lemma BlockStep(env: Env, clock: nat, definition: Definition, k: nat, index: int, attempt: nat)
    requires k < |definition.steps| && definition.steps[k].tool.Some?
    requires var step := definition.steps[k];
      && step.policy.mode == Retry && attempt < step.policy.maxRetries
      && Block(definition, k, index, attempt + 1,
           Attempts(env, clock + 1, step.tool.value, step.policy, index, attempt + 1))
    ensures var step := definition.steps[k];
      Block(definition, k, index, attempt, Attempts(env, clock, step.tool.value, step.policy, index, attempt))
  {
    var step := definition.steps[k];
    var a := Attempts(env, clock, step.tool.value, step.policy, index, attempt);
    var rest := Attempts(env, clock + 1, step.tool.value, step.policy, index, attempt + 1);
    if a.Finished? && |a.records| > 1 {
      assert a.records[1..] == rest.records;
      assert forall i :: 0 < i < |a.records| ==> a.records[i] == rest.records[i - 1];
    }
  }

  /** The records that step `k` numbers from `index` on can be traced back to it. */
  predicate Traceable(definition: Definition, k: nat, index: int) {
    && k < |definition.steps| && definition.steps[k].tool.Some?
    && (if definition.resultAware then FirstStep(definition, definition.steps[k].tool.value, 0) == Some(k) else index == k)
  }

  lemma TracedBack(definition: Definition, k: nat, index: int, attempt: nat, r: Record)
    requires Traceable(definition, k, index) && Numbered(definition.steps[k], index, attempt, r)
    ensures Origin(definition, r) == Some(k) && HasTool(definition, k, r.tool)
  {}

  /** Appending a block between blocks keeps the list lawful. */
  lemma BlockExtends(definition: Definition, steps: seq<Record>, k: nat, index: int, a: Attempt)
    requires a.Finished? && Block(definition, k, index, 0, a) && Traceable(definition, k, index)
    requires Lawful(definition, steps) && Between(definition, steps, Some(k))
    requires definition.steps[k].tool.value in definition.enabledTools
    ensures Lawful(definition, steps + a.records)
  {
    var all := steps + a.records;
    forall j | 0 <= j < |a.records| ensures Origin(definition, a.records[j]) == Some(k) && Configured(definition, a.records[j]) {
      TracedBack(definition, k, index, j, a.records[j]);
    }
    forall i | 0 < i < |all| ensures Follows(definition, all[i - 1], all[i]) {
      if i > |steps| {
        BlockFollows(definition, k, index, a, i - |steps|);
        assert all[i] == a.records[i - |steps|] && all[i - 1] == a.records[i - |steps| - 1];
      } else if i == |steps| {
        assert Numbered(definition.steps[k], index, 0, a.records[0]);
        assert all[i] == a.records[0] && all[i - 1] == steps[|steps| - 1];
      } else {
        assert Follows(definition, steps[i - 1], steps[i]);
      }
    }
  }

  lemma BlockFollows(definition: Definition, k: nat, index: int, a: Attempt, j: nat)
    requires a.Finished? && Block(definition, k, index, 0, a) && 0 < j < |a.records|
    requires Origin(definition, a.records[j]) == Some(k)
    ensures Follows(definition, a.records[j - 1], a.records[j])
  {
    assert Numbered(definition.steps[k], index, 0 + j, a.records[j]);
    assert Numbered(definition.steps[k], index, 0 + (j - 1), a.records[j - 1]);
  }

  lemma LastOfConcat(steps: seq<Record>, records: seq<Record>)
    requires records != []
    ensures (steps + records)[|steps + records| - 1] == records[|records| - 1]
  {}

  /** After a block the last record carries its status; a failure leads to its step's fallback. */
  lemma BlockEnds(definition: Definition, steps: seq<Record>, k: nat, index: int, a: Attempt)
    requires a.Finished? && Block(definition, k, index, 0, a) && Traceable(definition, k, index)
    ensures var all := steps + a.records;
      && all != [] && all[|all| - 1].status == Result(a.status)
      && Origin(definition, all[|all| - 1]) == Some(k)
      && definition.steps[k].tool == Some(all[|all| - 1].tool)
      && (a.status == Success ==> Between(definition, all, None))
      && (a.directive.FallBack? && FirstStep(definition, a.directive.tool, 0).Some? ==>
            Between(definition, all, FirstStep(definition, a.directive.tool, 0)))
  {
    var n := |a.records| - 1;
    LastOfConcat(steps, a.records);
    TracedBack(definition, k, index, 0 + n, a.records[n]);
  }

  // ----- what a stored run looks like

  /** How the last record fits the run's status; `decisive` when no approval was ever answered "pending" again. */
  predicate LastFits(decisive: bool, status: RunStatus, steps: seq<Record>) {
    if steps == [] then status == Queued || status == Completed || status == Failed || status == Cancelled
    else
      var last := steps[|steps| - 1];
      match status
      case Queued => last.status.Result? && !IsPending(last)
      case Paused => IsPending(last)
      case Completed => Succeeded(last)
      case Failed => last.status.Result? && (decisive ==> !IsPending(last))
      case Rejected => last.status == Result(Refused)
      case Cancelled => !IsPending(last)
  }

  predicate RunOk(decisive: bool, run: Run) {
    && Lawful(run.definition, run.steps)
    && (run.status == Paused <==> run.pendingStep.Some?)
    && (run.pendingStep.Some? ==> run.pendingStep == LastIndex(run.steps))
    && LastFits(decisive, run.status, run.steps)
  }

  predicate SameIdentity(r: Run, s: Run) {
    r.definition == s.definition && r.actor == s.actor && r.retryCount == s.retryCount && r.retryOf == s.retryOf
  }

  /** What a pass that began with stored run `run0` and records `steps0` may leave behind. */
  predicate Progress(decisive: bool, run0: Run, steps0: seq<Record>, run: Run) {
    RunOk(decisive, run) && SameIdentity(run0, run) && (run == run0 || steps0 <= run.steps)
  }

  // ----- plan order

  /** The position that is tried next, unless a guard stops it. */
  function NextPosition(p: Plan): Option<nat>
    requires p.Working? && ValidPlan(p)
  {
    if p.queue == [] then None
    else
      var tool := p.run.definition.steps[p.queue[0]].tool;
      if tool.Some? && tool.value !in p.attempted then Some(p.queue[0]) else None
  }

  predicate PlanOk(decisive: bool, run0: Run, steps0: seq<Record>, p: Plan) {
    match p
    case Working(run, steps, _, _, _) =>
      && ValidPlan(p) && !run.definition.resultAware && Progress(decisive, run0, steps0, run)
      && steps0 <= steps && Lawful(run.definition, steps) && Between(run.definition, steps, NextPosition(p))
    case Left(o) => Progress(decisive, run0, steps0, o.run)
  }

  lemma FinishOk(decisive: bool, run: Run, status: RunStatus, current: nat, steps: seq<Record>)
    requires status != Paused && Lawful(run.definition, steps) && LastFits(decisive, status, steps)
    ensures RunOk(decisive, Finish(run, status, current, steps, None))
  {}

  lemma PauseOk(decisive: bool, run: Run, current: nat, steps: seq<Record>)
    requires Lawful(run.definition, steps) && LastFits(decisive, Paused, steps)
    ensures RunOk(decisive, Finish(run, Paused, current, steps, LastIndex(steps)))
  {}

  lemma PlanSettleKeeps(decisive: bool, run0: Run, steps0: seq<Record>, p: Plan, k: nat, a: Attempt)
    requires p.Working? && ValidPlan(p) && p.queue != [] && PlanOk(decisive, run0, steps0, p)
    requires NextPosition(p) == Some(k) && Block(p.run.definition, k, k, 0, a)
    requires p.run.definition.steps[k].tool.value in p.run.definition.enabledTools
    ensures var tool := p.run.definition.steps[k].tool.value;
      PlanOk(decisive, run0, steps0, PlanSettle(p.run, p.steps, p.queue[1..], p.attempted + {tool}, k, a))
  {
    if a.Finished? {
      var definition, steps := p.run.definition, p.steps + a.records;
      BlockExtends(definition, p.steps, k, k, a);
      BlockEnds(definition, p.steps, k, k, a);
      assert steps0 <= steps;
      if a.status == Pending {
        PauseOk(decisive, p.run, k, steps);
      } else if a.status == Success {
        FinishOk(decisive, p.run, Queued, k + 1, steps);
      } else {
        FinishOk(decisive, p.run, Queued, k, steps);
        FinishOk(decisive, p.run, Failed, k, steps);
      }
    }
  }

  lemma PlanStopKeeps(decisive: bool, env: Env, run0: Run, steps0: seq<Record>, p: Plan)
    requires p.Working? && PlanOk(decisive, run0, steps0, p) && PlanStops(env, p).Some?
    ensures PlanOk(decisive, run0, steps0, PlanStep(env, p))
  {
    var current := if p.queue == [] then |p.run.definition.steps| else p.queue[0];
    FinishOk(decisive, p.run, PlanStops(env, p).value, current, p.steps);
  }

  /** A step that is not stopped or skipped settles the block of the position at the head. */
  lemma StepSettles(env: Env, p: Plan) returns (a: Attempt)
    requires p.Working? && ValidPlan(p) && PlanStops(env, p).None?
    requires p.run.definition.steps[p.queue[0]].tool.value !in p.attempted
    ensures Block(p.run.definition, p.queue[0], p.queue[0], 0, a)
    ensures var tool := p.run.definition.steps[p.queue[0]].tool.value;
      PlanStep(env, p) == PlanSettle(p.run, p.steps, p.queue[1..], p.attempted + {tool}, p.queue[0], a)
  {
    var k, step := p.queue[0], p.run.definition.steps[p.queue[0]];
    a := Attempts(env, p.clock + 1, step.tool.value, step.policy, k, 0);
    AttemptsMakeBlock(env, p.clock + 1, p.run.definition, k, k, 0);
  }

  lemma PlanStepKeeps(decisive: bool, env: Env, run0: Run, steps0: seq<Record>, p: Plan)
    requires p.Working? && PlanOk(decisive, run0, steps0, p)
    ensures PlanOk(decisive, run0, steps0, PlanStep(env, p))
  {
    if PlanStops(env, p).Some? {
      PlanStopKeeps(decisive, env, run0, steps0, p);
    } else if p.run.definition.steps[p.queue[0]].tool.value !in p.attempted {
      var a := StepSettles(env, p);
      PlanSettleKeeps(decisive, run0, steps0, p, p.queue[0], a);
    }
  }

  lemma {:induction false} PlanPassKeeps(decisive: bool, env: Env, run0: Run, steps0: seq<Record>, p: Plan)
    requires PlanOk(decisive, run0, steps0, p) && ValidPlan(p)
    ensures Progress(decisive, run0, steps0, PlanPass(env, p).run)
    decreases Unattempted(p), if p.Working? then |p.queue| + 1 else 0
  {
    if p.Working? {
      PlanStepKeeps(decisive, env, run0, steps0, p);
      PlanStepDecreases(env, p);
      PlanPassKeeps(decisive, env, run0, steps0, PlanStep(env, p));
    }
  }

  // ----- result-aware order

  /** Each tool's records form one contiguous block of consecutive attempts. */
  predicate SingleBlocks(steps: seq<Record>) {
    forall i, j :: 0 <= i < j < |steps| && steps[i].tool == steps[j].tool ==>
      steps[j - 1].tool == steps[j].tool && steps[j].attempt == steps[j - 1].attempt + 1
  }

  predicate Indexed(steps: seq<Record>) {
    forall i :: 0 <= i < |steps| ==> steps[i].index == i
  }

  lemma BlockKeepsSingle(definition: Definition, steps: seq<Record>, k: nat, index: int, a: Attempt)
    requires a.Finished? && Block(definition, k, index, 0, a)
    requires SingleBlocks(steps) && definition.steps[k].tool.value !in Used(steps)
    ensures SingleBlocks(steps + a.records)
  {
    var all := steps + a.records;
    forall i, j | 0 <= i < j < |all| && all[i].tool == all[j].tool
      ensures all[j - 1].tool == all[j].tool && all[j].attempt == all[j - 1].attempt + 1
    {
      if j >= |steps| {
        SingleBlocksPair(definition, steps, k, index, a, i, j);
      } else {
        assert steps[i].tool == steps[j].tool;
      }
    }
  }

  lemma SingleBlocksPair(definition: Definition, steps: seq<Record>, k: nat, index: int, a: Attempt, i: nat, j: nat)
    requires a.Finished? && Block(definition, k, index, 0, a) && definition.steps[k].tool.value !in Used(steps)
    requires i < j < |steps + a.records| && |steps| <= j && (steps + a.records)[i].tool == (steps + a.records)[j].tool
    ensures var all := steps + a.records;
      all[j - 1].tool == all[j].tool && all[j].attempt == all[j - 1].attempt + 1
  {
    var all, m := steps + a.records, j - |steps|;
    assert all[j] == a.records[m] && Numbered(definition.steps[k], index, 0 + m, a.records[m]);
    assert forall l :: 0 <= l < |steps| ==> steps[l].tool in Used(steps) && all[l] == steps[l];
    assert all[j - 1] == a.records[m - 1] && Numbered(definition.steps[k], index, 0 + (m - 1), a.records[m - 1]);
  }

  /** A pending fallback is the first step with its tool. */
  predicate FirstOfTool(definition: Definition, k: nat) {
    && k < |definition.steps| && definition.steps[k].tool.Some?
    && FirstStep(definition, definition.steps[k].tool.value, 0) == Some(k)
  }

  predicate AwareOk(decisive: bool, run0: Run, steps0: seq<Record>, a: Aware) {
    match a
    case Choosing(run, steps, fallback, _) =>
      && ValidAware(a) && run.definition.resultAware && Progress(decisive, run0, steps0, run)
      && steps0 <= steps && Lawful(run.definition, steps)
      && Between(run.definition, steps, fallback)
      && (fallback.Some? ==> |steps| < run.definition.maxSteps && FirstOfTool(run.definition, fallback.value))
    case Closed(o) => Progress(decisive, run0, steps0, o.run)
  }

  predicate Matches(definition: Definition, used: set<string>, want: Option<string>, i: nat) {
    Candidate(definition, used, i) && (want.None? || HasTool(definition, i, want.value))
  }

  /** The search finds the first match, and finds one whenever there is one. */
  lemma {:induction false} FirstCandidateMeans(definition: Definition, used: set<string>, want: Option<string>, from: nat, i: nat)
    requires from <= i < |definition.steps| && Matches(definition, used, want, i)
    ensures var found := FirstCandidate(definition, used, want, from);
      found.Some? && found.value <= i && Matches(definition, used, want, found.value)
    decreases i - from
  {
    if !Matches(definition, used, want, from) {
      FirstCandidateMeans(definition, used, want, from + 1, i);
    }
  }

  /** The model's choice is taken exactly when it names an unused enabled tool; otherwise the first such step is. */
  lemma SelectMeans(definition: Definition, used: set<string>, choice: Option<string>, i: nat, tool: string)
    requires HasTool(definition, i, tool) && tool in definition.enabledTools && tool !in used
    ensures var found := Select(definition, used, choice);
      && found.Some? && found.value < |definition.steps| && definition.steps[found.value].tool.Some?
      && definition.steps[found.value].tool.value in definition.enabledTools - used
      && (choice.Some? && choice.value != "" && HasTool(definition, i, choice.value) ==>
            HasTool(definition, found.value, choice.value) && found.value <= i)
      && (choice.None? || choice.value == "" ==> found.value <= i)
      && (choice.Some? && !HasTool(definition, found.value, choice.value) ==> found.value <= i)
  {
    FirstCandidateMeans(definition, used, None, 0, i);
    if choice.Some? && HasTool(definition, i, choice.value) {
      FirstCandidateMeans(definition, used, choice, 0, i);
    }
  }

  /** A selected step is the first one with its tool. */
  lemma SelectedIsFirst(definition: Definition, used: set<string>, choice: Option<string>)
    requires Select(definition, used, choice).Some?
    ensures FirstOfTool(definition, Select(definition, used, choice).value)
  {
    var k := Select(definition, used, choice).value;
    var tool := definition.steps[k].tool.value;
    assert HasTool(definition, k, tool);
    SelectMeans(definition, used, choice, FirstStep(definition, tool, 0).value, tool);
  }

  lemma AwareSettleKeeps(decisive: bool, run0: Run, steps0: seq<Record>, a: Aware, k: nat, r: Attempt)
    requires a.Choosing? && AwareOk(decisive, run0, steps0, a) && Between(a.run.definition, a.steps, Some(k))
    requires FirstOfTool(a.run.definition, k) && Block(a.run.definition, k, |a.steps|, 0, r)
    requires a.run.definition.steps[k].tool.value in a.run.definition.enabledTools
    ensures AwareOk(decisive, run0, steps0, AwareSettle(a.run, a.steps, r))
  {
    if r.Finished? {
      var definition, steps := a.run.definition, a.steps + r.records;
      BlockExtends(definition, a.steps, k, |a.steps|, r);
      BlockEnds(definition, a.steps, k, |a.steps|, r);
      assert steps0 <= steps;
      if r.status == Pending {
        PauseOk(decisive, a.run, |a.steps|, steps);
      } else {
        FinishOk(decisive, a.run, Queued, |steps|, steps);
        FinishOk(decisive, a.run, Failed, |a.steps|, steps);
      }
    }
  }

  /** A result-aware turn that is not stopped settles the block of the chosen step. */
  lemma TurnSettles(env: Env, a: Aware) returns (k: nat, r: Attempt)
    requires a.Choosing? && ValidAware(a) && AwareStops(env, a).None?
    ensures Choice(env, a) == Some(k) && Block(a.run.definition, k, |a.steps|, 0, r)
    ensures a.run.definition.steps[k].tool.value in a.run.definition.enabledTools
    ensures |a.steps| < a.run.definition.maxSteps && AwareStep(env, a) == AwareSettle(a.run, a.steps, r)
  {
    k := Choice(env, a).value;
    var step := a.run.definition.steps[k];
    r := Attempts(env, a.clock + 2, step.tool.value, step.policy, |a.steps|, 0);
    AttemptsMakeBlock(env, a.clock + 2, a.run.definition, k, |a.steps|, 0);
  }

  lemma AwareStepKeeps(decisive: bool, env: Env, run0: Run, steps0: seq<Record>, a: Aware)
    requires a.Choosing? && AwareOk(decisive, run0, steps0, a)
    ensures AwareOk(decisive, run0, steps0, AwareStep(env, a))
  {
    var stops := AwareStops(env, a);
    if stops.Some? {
      FinishOk(decisive, a.run, stops.value, |a.steps|, a.steps);
    } else {
      var k, r := TurnSettles(env, a);
      if a.fallback.None? { SelectedIsFirst(a.run.definition, Used(a.steps), env.choose(a.clock + 1)); }
      AwareSettleKeeps(decisive, run0, steps0, a, k, r);
    }
  }

  lemma {:induction false} AwarePassKeeps(decisive: bool, env: Env, run0: Run, steps0: seq<Record>, a: Aware)
    requires ValidAware(a) && AwareOk(decisive, run0, steps0, a)
    ensures Progress(decisive, run0, steps0, AwarePass(env, a).run)
    decreases Remaining(a)
  {
    if a.Choosing? {
      AwareStepKeeps(decisive, env, run0, steps0, a);
      AwarePassKeeps(decisive, env, run0, steps0, AwareStep(env, a));
    }
  }

  /** The largest retry limit configured from position `from` on. */
  function MaxRetries(definition: Definition, from: nat): (n: nat)
    requires from <= |definition.steps|
    ensures forall i :: from <= i < |definition.steps| && definition.steps[i].policy.mode == Retry ==>
      definition.steps[i].policy.maxRetries <= n
    decreases |definition.steps| - from
  {
    if from == |definition.steps| then 0
    else
      var rest, policy := MaxRetries(definition, from + 1), definition.steps[from].policy;
      if policy.mode == Retry && policy.maxRetries > rest then policy.maxRetries else rest
  }

  /** What result-aware runs keep on top: one block per tool, records numbered by position, bounded length. */
  predicate Orderly(definition: Definition, steps: seq<Record>) {
    && SingleBlocks(steps) && Indexed(steps)
    && (steps == [] || |steps| <= definition.maxSteps + MaxRetries(definition, 0))
  }

  predicate AwareTidy(a: Aware) {
    match a
    case Choosing(run, steps, fallback, _) =>
      && ValidAware(a) && Orderly(run.definition, run.steps) && Orderly(run.definition, steps)
      && (fallback.Some? && run.definition.steps[fallback.value].tool.Some? ==>
            run.definition.steps[fallback.value].tool.value !in Used(steps))
    case Closed(o) => Orderly(o.run.definition, o.run.steps)
  }

  lemma BlockLength(definition: Definition, k: nat, index: int, a: Attempt)
    requires a.Finished? && Block(definition, k, index, 0, a)
    ensures |a.records| <= 1 + MaxRetries(definition, 0)
  {}

  lemma BlockKeepsOrder(definition: Definition, steps: seq<Record>, k: nat, a: Attempt)
    requires a.Finished? && Block(definition, k, |steps|, 0, a)
    requires Orderly(definition, steps) && definition.steps[k].tool.value !in Used(steps) && |steps| < definition.maxSteps
    ensures Orderly(definition, steps + a.records)
  {
    BlockKeepsSingle(definition, steps, k, |steps|, a);
    BlockLength(definition, k, |steps|, a);
    forall i | 0 <= i < |a.records| ensures a.records[i].index == |steps| + i {
      assert Numbered(definition.steps[k], |steps|, 0 + i, a.records[i]);
    }
    assert Indexed(steps + a.records);
  }

  lemma AwareSettleTidy(a: Aware, k: nat, r: Attempt)
    requires a.Choosing? && AwareTidy(a) && |a.steps| < a.run.definition.maxSteps
    requires Block(a.run.definition, k, |a.steps|, 0, r) && a.run.definition.steps[k].tool.value !in Used(a.steps)
    ensures AwareTidy(AwareSettle(a.run, a.steps, r))
  {
    if r.Finished? {
      BlockKeepsOrder(a.run.definition, a.steps, k, r);
    }
  }

  lemma AwareStepTidy(env: Env, a: Aware)
    requires a.Choosing? && AwareTidy(a)
    ensures AwareTidy(AwareStep(env, a))
  {
    if AwareStops(env, a).None? {
      var k, r := TurnSettles(env, a);
      AwareSettleTidy(a, k, r);
    }
  }

  lemma {:induction false} AwarePassTidy(env: Env, a: Aware)
    requires AwareTidy(a) && ValidAware(a)
    ensures var run := AwarePass(env, a).run; Orderly(run.definition, run.steps)
    decreases Remaining(a)
  {
    if a.Choosing? {
      AwareStepTidy(env, a);
      AwarePassTidy(env, AwareStep(env, a));
    }
  }
}
