/**
 The bounded agent run engine. A run is a persisted record driven by start, resume, cancel and
 retry. Tool results, approval decisions, timeouts, exceptions and model choices come from an
 arbitrary environment, a fresh one for every operation, indexed by a clock that advances with
 every consultation.
 */
module Engine {
  import opened Text

  const MAX_AGENT_RETRIES := 3
  const MAX_STEP_RETRIES := 3

  datatype ActionStatus = Success | Pending | Failure | Refused | NotAuthorized | ProviderMissing

  /** A step record's status: what its action answered, or withdrawn because the run was cancelled. */
  datatype StepStatus = Result(action: ActionStatus) | Withdrawn

  /** `Other` is a stored mode that validation does not know; it ends the run like the terminal modes. */
  datatype Mode = Stop | Retry | Fallback | HumanInput | TechnicianEscalation | Blocked | Other(name: string)

  datatype Policy = Policy(mode: Mode, maxRetries: int, fallback: Option<string>)

  /** `tool` is None when the stored tool_id is not a string. */
  datatype ConfiguredStep = ConfiguredStep(tool: Option<string>, payloadIsObject: bool, policy: Policy)

  datatype Definition = Definition(
    steps: seq<ConfiguredStep>, enabledTools: set<string>, maxSteps: int, resultAware: bool)

  datatype Record = Record(index: int, tool: string, attempt: nat, status: StepStatus)

  datatype RunStatus = Queued | Paused | Completed | Failed | Rejected | Cancelled

  datatype Run = Run(
    definition: Definition, actor: string, status: RunStatus, currentStep: nat,
    steps: seq<Record>, pendingStep: Option<nat>, retryCount: nat, retryOf: Option<nat>)

  /** An action call raises, names an unregistered tool (KeyError), or answers. */
  datatype Reply = Raises | Unregistered | Answers(status: ActionStatus)

  /**
   What the outside does during one operation. `approve` is None when completing the approval
   raises or is refused before anything changes; `withdraw` is false when rejecting it raises.
   */
  datatype Env = Env(
    invoke: (nat, string) -> Reply, expired: nat -> bool, choose: nat -> Option<string>,
    approve: Option<ActionStatus>, withdraw: bool)

  predicate Succeeded(r: Record) { r.status == Result(Success) }

  predicate IsPending(r: Record) { r.status == Result(Pending) }

  predicate IsFailure(r: Record) { !Succeeded(r) && !IsPending(r) }

  predicate Terminal(status: RunStatus) { status != Queued && status != Paused }

  // ----- one step: a bounded retry loop

  datatype Directive = NoDirective | FallBack(tool: string) | Ends(mode: Mode)

  datatype Attempt =
    | Aborted(clock: nat)
    | Finished(records: seq<Record>, status: ActionStatus, directive: Directive, clock: nat)

  /** The source formats a missing fallback as the text "None". */
  function Target(policy: Policy): string {
    if policy.fallback.Some? then policy.fallback.value else "None"
  }

  function AfterFailure(policy: Policy): Directive {
    match policy.mode
    case Fallback => FallBack(Target(policy))
    case Stop => NoDirective
    case mode => Ends(mode)
  }

  function Attempts(env: Env, clock: nat, tool: string, policy: Policy, index: int, attempt: nat): Attempt
    decreases policy.maxRetries - attempt
  {
    var reply := env.invoke(clock, tool);
    if reply.Raises? then Aborted(clock + 1) else
      var status := if reply.Unregistered? then Failure else reply.status;
      var record := Record(index + attempt, tool, attempt, Result(status));
      if status == Success || status == Pending then Finished([record], status, NoDirective, clock + 1)
      else if policy.mode == Retry && attempt < policy.maxRetries then
        Prepend([record], Attempts(env, clock + 1, tool, policy, index, attempt + 1))
      else Finished([record], status, AfterFailure(policy), clock + 1)
  }

  function Prepend(records: seq<Record>, a: Attempt): Attempt {
    if a.Aborted? then a else a.(records := records + a.records)
  }

  lemma PrependTwice(rs: seq<Record>, ss: seq<Record>, a: Attempt)
    ensures Prepend(rs, Prepend(ss, a)) == Prepend(rs + ss, a)
  {
    if a.Finished? {
      assert rs + (ss + a.records) == (rs + ss) + a.records;
    }
  }

  method ExecuteStepAttempts(env: Env, clock: nat, tool: string, policy: Policy, index: int) returns (a: Attempt)
    ensures a == Attempts(env, clock, tool, policy, index, 0)
  {
    var records: seq<Record> := [];
    var now, attempt := clock, 0;
    while true
      invariant Attempts(env, clock, tool, policy, index, 0)
             == Prepend(records, Attempts(env, now, tool, policy, index, attempt))
      decreases policy.maxRetries - attempt
    {
      var reply := env.invoke(now, tool);
      now := now + 1;
      if reply.Raises? {
        return Aborted(now);
      }
      var status := if reply.Unregistered? then Failure else reply.status;
      var record := Record(index + attempt, tool, attempt, Result(status));
      PrependTwice(records, [record], Attempts(env, now, tool, policy, index, attempt + 1));
      records := records + [record];
      if status == Success || status == Pending {
        return Finished(records, status, NoDirective, now);
      }
      if policy.mode == Retry && attempt < policy.maxRetries {
        attempt := attempt + 1;
        continue;
      }
      return Finished(records, status, AfterFailure(policy), now);
    }
  }

  // ----- finishing a pass

  /** How a pass ends: what the store then holds, and whether an exception cut it short. */
  datatype Outcome = Outcome(run: Run, raised: bool)

  function Finish(run: Run, status: RunStatus, currentStep: nat, steps: seq<Record>, pendingStep: Option<nat>): Run {
    run.(status := status, currentStep := currentStep, steps := steps, pendingStep := pendingStep)
  }

  /** `len(steps) - 1`, for the list that just received a record. */
  function LastIndex(steps: seq<Record>): Option<nat> {
    if steps == [] then None else Some(|steps| - 1)
  }

  predicate HasTool(definition: Definition, index: nat, tool: string) {
    index < |definition.steps| && definition.steps[index].tool == Some(tool)
  }

  /** The first configured step with the tool, searching from `from`. */
  function FirstStep(definition: Definition, tool: string, from: nat): (found: Option<nat>)
    requires from <= |definition.steps|
    ensures found.Some? ==> from <= found.value && HasTool(definition, found.value, tool)
    ensures found.Some? ==> forall i :: from <= i < found.value ==> !HasTool(definition, i, tool)
    ensures found.None? ==> forall i :: from <= i < |definition.steps| ==> !HasTool(definition, i, tool)
    decreases |definition.steps| - from
  {
    if from == |definition.steps| then None
    else if definition.steps[from].tool == Some(tool) then Some(from)
    else FirstStep(definition, tool, from + 1)
  }

  function Tools(definition: Definition): set<string> {
    set i | 0 <= i < |definition.steps| && definition.steps[i].tool.Some? :: definition.steps[i].tool.value
  }

  predicate Malformed(step: ConfiguredStep) {
    step.tool.None? || !step.payloadIsObject
  }

  // ----- plan order

  /** `queue` holds plan positions; `run` is what the store holds. */
  datatype Plan =
    | Working(run: Run, steps: seq<Record>, queue: seq<nat>, attempted: set<string>, clock: nat)
    | Left(outcome: Outcome)

  predicate InPlan(definition: Definition, queue: seq<nat>) {
    forall k :: 0 <= k < |queue| ==> queue[k] < |definition.steps|
  }

  predicate ValidPlan(p: Plan) {
    p.Working? ==> InPlan(p.run.definition, p.queue)
  }

  /** Why a pass ends before trying the next position: nothing queued, or a guard that fails the run. */
  function PlanStops(env: Env, p: Plan): Option<RunStatus>
    requires p.Working? && ValidPlan(p)
  {
    if p.queue == [] then Some(Completed)
    else
      var step := p.run.definition.steps[p.queue[0]];
      if env.expired(p.clock) || Malformed(step) || step.tool.value !in p.run.definition.enabledTools
      then Some(Failed) else None
  }

  function PlanStep(env: Env, p: Plan): (q: Plan)
    requires p.Working? && ValidPlan(p)
    ensures ValidPlan(q)
  {
    var definition := p.run.definition;
    var stops := PlanStops(env, p);
    if stops.Some? then
      var current := if p.queue == [] then |definition.steps| else p.queue[0];
      Left(Outcome(Finish(p.run, stops.value, current, p.steps, None), false))
    else
      var index := p.queue[0];
      var step := definition.steps[index];
      if step.tool.value in p.attempted then p.(queue := p.queue[1..], clock := p.clock + 1)
      else
        PlanSettle(
          p.run, p.steps, p.queue[1..], p.attempted + {step.tool.value}, index,
          Attempts(env, p.clock + 1, step.tool.value, step.policy, index, 0))
  }

  function PlanSettle(
      run: Run, steps: seq<Record>, rest: seq<nat>, attempted: set<string>, index: nat, a: Attempt)
    : (q: Plan)
    requires InPlan(run.definition, rest)
    ensures ValidPlan(q)
  {
    if a.Aborted? then Left(Outcome(run, true)) else
      var steps := steps + a.records;
      if a.status == Pending then
        Left(Outcome(Finish(run, Paused, index, steps, LastIndex(steps)), false))
      else if a.status == Success then
        Working(Finish(run, Queued, index + 1, steps, None), steps, rest, attempted, a.clock)
      else
        var fallback := if a.directive.FallBack? then FirstStep(run.definition, a.directive.tool, 0) else None;
        if fallback.Some? && a.directive.tool !in attempted then
          Working(Finish(run, Queued, index, steps, None), steps, [fallback.value] + rest, attempted, a.clock)
        else Left(Outcome(Finish(run, Failed, index, steps, None), false))
  }

  function Unattempted(p: Plan): nat {
    if p.Working? then |Tools(p.run.definition) - p.attempted| else 0
  }

  lemma AttemptedShrinks(definition: Definition, attempted: set<string>, tool: string)
    requires tool in Tools(definition) && tool !in attempted
    ensures |Tools(definition) - (attempted + {tool})| < |Tools(definition) - attempted|
  {
    assert tool in Tools(definition) - attempted;
    assert Tools(definition) - (attempted + {tool}) == (Tools(definition) - attempted) - {tool};
  }

  lemma PlanStepDecreases(env: Env, p: Plan)
    requires p.Working? && ValidPlan(p)
    ensures var q := PlanStep(env, p);
      q.Working? ==>
        || Unattempted(q) < Unattempted(p)
        || (Unattempted(q) == Unattempted(p) && |q.queue| < |p.queue|)
  {
    if PlanStops(env, p).None? {
      var tool := p.run.definition.steps[p.queue[0]].tool.value;
      if tool !in p.attempted {
        assert tool in Tools(p.run.definition);
        AttemptedShrinks(p.run.definition, p.attempted, tool);
      }
    }
  }

  /** Every plan-order pass ends: each step attempts a new tool or shortens the queue. */
  function PlanPass(env: Env, p: Plan): Outcome
    requires ValidPlan(p)
    decreases Unattempted(p), if p.Working? then |p.queue| + 1 else 0
  {
    if p.Left? then p.outcome else
      PlanStepDecreases(env, p);
      PlanPass(env, PlanStep(env, p))
  }

  function Range(lo: nat, hi: int): (r: seq<nat>)
    ensures |r| == if lo < hi then hi - lo else 0
    ensures forall k :: 0 <= k < |r| ==> r[k] == lo + k
  {
    if lo < hi then seq(hi - lo, k requires 0 <= k => lo + k) else []
  }

  lemma RangeStep(c: nat, limit: int)
    requires c < limit
    ensures Range(c, limit) == [c] + Range(c + 1, limit)
  {}

  /** Positions beyond the definition or beyond max_steps are never planned. */
  function Limit(definition: Definition): int {
    if |definition.steps| < definition.maxSteps then |definition.steps| else definition.maxSteps
  }

  function PlanFrom(run: Run, steps: seq<Record>, start: nat): (p: Plan)
    ensures ValidPlan(p)
  {
    Working(run, steps, Range(start, Limit(run.definition)), {}, 0)
  }

  // ----- result-aware order

  datatype Aware =
    | Choosing(run: Run, steps: seq<Record>, fallback: Option<nat>, clock: nat)
    | Closed(outcome: Outcome)

  predicate ValidAware(a: Aware) {
    a.Choosing? && a.fallback.Some? ==> a.fallback.value < |a.run.definition.steps|
  }

  function Used(steps: seq<Record>): set<string> {
    set i | 0 <= i < |steps| :: steps[i].tool
  }

  predicate Candidate(definition: Definition, used: set<string>, index: nat) {
    && index < |definition.steps|
    && definition.steps[index].tool.Some?
    && definition.steps[index].tool.value in definition.enabledTools
    && definition.steps[index].tool.value !in used
  }

  /** The first candidate from `from` on; with `want`, the first one with that tool. */
  function FirstCandidate(definition: Definition, used: set<string>, want: Option<string>, from: nat): (found: Option<nat>)
    requires from <= |definition.steps|
    ensures found.Some? ==> from <= found.value && Candidate(definition, used, found.value)
    ensures found.Some? && want.Some? ==> HasTool(definition, found.value, want.value)
    decreases |definition.steps| - from
  {
    if from == |definition.steps| then None
    else if Candidate(definition, used, from) && (want.None? || HasTool(definition, from, want.value)) then Some(from)
    else FirstCandidate(definition, used, want, from + 1)
  }

  /** The model's choice if it names a candidate, otherwise the first candidate. */
  function Select(definition: Definition, used: set<string>, choice: Option<string>): (found: Option<nat>)
    ensures found.Some? ==> Candidate(definition, used, found.value)
  {
    var chosen := if choice.Some? && choice.value != "" then FirstCandidate(definition, used, choice, 0) else None;
    if chosen.Some? then chosen else FirstCandidate(definition, used, None, 0)
  }

  /** The position tried next: the pending fallback, or a selection among the unused candidates. */
  function Choice(env: Env, a: Aware): (choice: Option<nat>)
    requires a.Choosing? && ValidAware(a)
    ensures choice.Some? ==> choice.value < |a.run.definition.steps|
  {
    if a.fallback.Some? then a.fallback
    else Select(a.run.definition, Used(a.steps), env.choose(a.clock + 1))
  }

  function AwareStops(env: Env, a: Aware): Option<RunStatus>
    requires a.Choosing? && ValidAware(a)
  {
    var definition, choice := a.run.definition, Choice(env, a);
    if |a.steps| >= definition.maxSteps then Some(Completed)
    else if env.expired(a.clock) then Some(Failed)
    else if choice.None? then Some(Completed)
    else
      var step := definition.steps[choice.value];
      if Malformed(step) || step.tool.value !in definition.enabledTools then Some(Failed) else None
  }

  function AwareStep(env: Env, a: Aware): (b: Aware)
    requires a.Choosing? && ValidAware(a)
    ensures ValidAware(b)
    ensures b.Choosing? ==> |b.steps| > |a.steps| && |a.steps| < a.run.definition.maxSteps
    ensures b.Choosing? ==> b.run.definition == a.run.definition
  {
    var ordinal, stops := |a.steps|, AwareStops(env, a);
    if stops.Some? then Closed(Outcome(Finish(a.run, stops.value, ordinal, a.steps, None), false))
    else
      var step := a.run.definition.steps[Choice(env, a).value];
      AttemptsAdd(env, a.clock + 2, step.tool.value, step.policy, ordinal, 0);
      AwareSettle(a.run, a.steps, Attempts(env, a.clock + 2, step.tool.value, step.policy, ordinal, 0))
  }

  lemma AttemptsAdd(env: Env, clock: nat, tool: string, policy: Policy, index: int, attempt: nat)
    ensures var a := Attempts(env, clock, tool, policy, index, attempt); a.Finished? ==> a.records != []
  {}

  function AwareSettle(run: Run, steps: seq<Record>, a: Attempt): (b: Aware)
    requires a.Finished? ==> a.records != []
    ensures ValidAware(b)
    ensures b.Choosing? ==> |b.steps| > |steps| && b.run.definition == run.definition
  {
    var ordinal := |steps|;
    if a.Aborted? then Closed(Outcome(run, true)) else
      var steps := steps + a.records;
      if a.status == Pending then
        Closed(Outcome(Finish(run, Paused, ordinal, steps, LastIndex(steps)), false))
      else if a.status == Success then
        Choosing(Finish(run, Queued, |steps|, steps, None), steps, None, a.clock)
      else
        var fallback := if a.directive.FallBack? then FirstStep(run.definition, a.directive.tool, 0) else None;
        if fallback.Some? && |steps| < run.definition.maxSteps && a.directive.tool !in Used(steps) then
          Choosing(Finish(run, Queued, |steps|, steps, None), steps, fallback, a.clock)
        else Closed(Outcome(Finish(run, Failed, ordinal, steps, None), false))
  }

  function Remaining(a: Aware): nat {
    if a.Closed? then 0
    else if |a.steps| < a.run.definition.maxSteps then a.run.definition.maxSteps - |a.steps| + 1
    else 1
  }

  function AwarePass(env: Env, a: Aware): Outcome
    requires ValidAware(a)
    decreases Remaining(a)
  {
    if a.Closed? then a.outcome else AwarePass(env, AwareStep(env, a))
  }

  // ----- the life of a run

  function Continue(env: Env, run: Run, steps: seq<Record>, start: nat): Outcome {
    if run.definition.resultAware then AwarePass(env, Choosing(run, steps, None, 0))
    else PlanPass(env, PlanFrom(run, steps, start))
  }

  /** A paused run goes on only when someone other than its actor approves and the approved action succeeds. */
  function ResumeRun(env: Env, run: Run, approver: string): Outcome {
    if run.status != Paused then Outcome(run, false)
    else if approver == run.actor || run.pendingStep.None? || run.pendingStep.value >= |run.steps| then Outcome(run, true)
    else if env.approve.None? then Outcome(run, true)
    else
      var p := run.pendingStep.value;
      var steps := run.steps[p := run.steps[p].(status := Result(env.approve.value))];
      if env.approve.value == Success then Continue(env, run, steps, run.currentStep + 1)
      else
        var status := if env.approve.value == Refused then Rejected else Failed;
        Outcome(Finish(run, status, run.currentStep, steps, None), false)
  }

  function CancelRun(env: Env, run: Run): Outcome {
    if run.status == Cancelled then Outcome(run, false)
    else if (run.status != Queued && run.status != Paused) || !env.withdraw then Outcome(run, true)
    else
      var steps :=
        if run.pendingStep.Some? && run.pendingStep.value < |run.steps|
        then run.steps[run.pendingStep.value := run.steps[run.pendingStep.value].(status := Withdrawn)]
        else run.steps;
      Outcome(Finish(run, Cancelled, run.currentStep, steps, None), false)
  }

  function NewRun(definition: Definition, actor: string, retryCount: nat, retryOf: Option<nat>): Run {
    Run(definition, actor, Queued, 0, [], None, retryCount, retryOf)
  }

  // ----- the service

  datatype World = World(runs: map<nat, Run>, next: nat)

  /** `admitted` stands for the enabled, window, scope and ticket checks that precede a run. */
  datatype Command =
    | Start(env: Env, definition: Definition, actor: string, admitted: bool)
    | Resume(env: Env, id: nat, approver: string)
    | Cancel(env: Env, id: nat)
    | RetryRun(env: Env, id: nat, actor: string, sameRevision: bool, admitted: bool)

  function Launch(env: Env, w: World, run: Run): World {
    World(w.runs[w.next := Continue(env, run, [], 0).run], w.next + 1)
  }

  predicate MayRetry(run: Run) {
    (run.status == Failed || run.status == Cancelled) && run.retryCount < MAX_AGENT_RETRIES
  }

  function Apply(w: World, c: Command): World {
    match c
    case Start(env, definition, actor, admitted) =>
      if admitted then Launch(env, w, NewRun(definition, actor, 0, None)) else w
    case Resume(env, id, approver) =>
      if id in w.runs then w.(runs := w.runs[id := ResumeRun(env, w.runs[id], approver).run]) else w
    case Cancel(env, id) =>
      if id in w.runs then w.(runs := w.runs[id := CancelRun(env, w.runs[id]).run]) else w
    case RetryRun(env, id, actor, sameRevision, admitted) =>
      if id in w.runs && sameRevision && admitted && MayRetry(w.runs[id]) then
        Launch(env, w, NewRun(w.runs[id].definition, actor, w.runs[id].retryCount + 1, Some(id)))
      else w
  }

  function Execute(w: World, commands: seq<Command>): World
    decreases |commands|
  {
    if commands == [] then w
    else Apply(Execute(w, commands[..|commands| - 1]), commands[|commands| - 1])
  }

  const EMPTY_WORLD := World(map[], 0)
}
