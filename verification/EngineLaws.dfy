/**
 Laws that fix what each part of the engine does, in terms of what the environment answered: the
 attempts of a step, how a pass ends, what an undisturbed run records, and what each command changes.
 */
module EngineLaws {
  import opened Text
  import opened Engine
  import opened EngineTheorems
  import opened EngineRuns
  import opened EngineWalks
  import opened EngineEndings

  // ----- one step

  /** What an action call counts as; nothing when it raises. */
  function Reading(reply: Reply): Option<ActionStatus> {
    match reply
    case Raises => None
    case Unregistered => Some(Failure)
    case Answers(status) => Some(status)
  }

  function ReadAt(env: Env, clock: nat, tool: string, i: nat): Option<ActionStatus> {
    Reading(env.invoke(clock + i, tool))
  }

  /** Attempt number `attempt` failed in a step that retries, with retries left. */
  predicate TriesAgain(policy: Policy, attempt: nat, status: Option<ActionStatus>) {
    && status.Some? && status.value != Success && status.value != Pending
    && policy.mode == Retry && attempt < policy.maxRetries
  }

  /** The directive of a finished step: a fallback, the name of a terminal mode, or none. */
  predicate Directs(policy: Policy, status: ActionStatus, directive: Directive) {
    if status == Success || status == Pending || policy.mode == Stop then directive == NoDirective
    else if policy.mode == Fallback then
      directive == FallBack(match policy.fallback case Some(tool) => tool case None => "None")
    else directive == Ends(policy.mode)
  }

  function RecordOf(status: Option<ActionStatus>, index: int, attempt: nat, tool: string): Option<Record> {
    if status.Some? then Some(Record(index + attempt, tool, attempt, Result(status.value))) else None
  }

  /** The attempts from number `attempt` on, told from the answers alone: `n` of them were answered. */
  ghost predicate Tells(
      env: Env, clock: nat, tool: string, policy: Policy, index: int, attempt: nat, n: nat, a: Attempt)
  {
    match a
    case Aborted(later) =>
      && later == clock + n + 1 && ReadAt(env, clock, tool, n).None?
      && forall i: nat :: i < n ==> TriesAgain(policy, attempt + i, ReadAt(env, clock, tool, i))
    case Finished(records, status, directive, later) =>
      && n > 0 && later == clock + n && |records| == n
      && (forall i: nat :: i < n - 1 ==> TriesAgain(policy, attempt + i, ReadAt(env, clock, tool, i)))
      && (forall i: nat :: i < n ==>
            RecordOf(ReadAt(env, clock, tool, i), index, attempt + i, tool) == Some(records[i]))
      && ReadAt(env, clock, tool, n - 1) == Some(status)
      && !TriesAgain(policy, attempt + (n - 1), Some(status)) && Directs(policy, status, directive)
  }

  lemma {:induction false} AttemptsTell(env: Env, clock: nat, tool: string, policy: Policy, index: int, attempt: nat) returns (n: nat)
    ensures Tells(env, clock, tool, policy, index, attempt, n, Attempts(env, clock, tool, policy, index, attempt))
    decreases policy.maxRetries - attempt
  {
    var first := ReadAt(env, clock, tool, 0);
    if TriesAgain(policy, attempt, first) {
      var m := AttemptsTell(env, clock + 1, tool, policy, index, attempt + 1);
      n := m + 1;
      TellsMore(env, clock, tool, policy, index, attempt, m, Attempts(env, clock + 1, tool, policy, index, attempt + 1));
    } else {
      n := if first.None? then 0 else 1;
    }
  }

  lemma TellsMore(env: Env, clock: nat, tool: string, policy: Policy, index: int, attempt: nat, m: nat, a: Attempt)
    requires TriesAgain(policy, attempt, ReadAt(env, clock, tool, 0))
    requires Tells(env, clock + 1, tool, policy, index, attempt + 1, m, a)
    ensures var r := Record(index + attempt, tool, attempt, Result(ReadAt(env, clock, tool, 0).value));
      Tells(env, clock, tool, policy, index, attempt, m + 1, Prepend([r], a))
  {
    forall i: nat | 0 < i <= m ensures ReadAt(env, clock, tool, i) == ReadAt(env, clock + 1, tool, i - 1) {}
  }

  lemma TellsOnce(
      env: Env, clock: nat, tool: string, policy: Policy, index: int, attempt: nat, n: nat, a: Attempt, m: nat, b: Attempt)
    requires Tells(env, clock, tool, policy, index, attempt, n, a) && Tells(env, clock, tool, policy, index, attempt, m, b)
    ensures n == m && a == b
  {
    StopsOnce(env, clock, tool, policy, attempt, LastTried(n, a), LastTried(m, b));
  }

  /** The number of the last call, counted from zero. */
  function LastTried(n: nat, a: Attempt): int {
    if a.Finished? then n - 1 else n
  }

  predicate StopsAt(env: Env, clock: nat, tool: string, policy: Policy, attempt: nat, j: int) {
    j >= 0 && !TriesAgain(policy, attempt + j, ReadAt(env, clock, tool, j))
    && forall i: nat :: i < j ==> TriesAgain(policy, attempt + i, ReadAt(env, clock, tool, i))
  }

  lemma StopsOnce(env: Env, clock: nat, tool: string, policy: Policy, attempt: nat, j: int, k: int)
    requires StopsAt(env, clock, tool, policy, attempt, j) && StopsAt(env, clock, tool, policy, attempt, k)
    ensures j == k
  {}

  /** The retry loop is exactly what the answers tell. */
  lemma AttemptsExactly(env: Env, clock: nat, tool: string, policy: Policy, index: int, a: Attempt)
    ensures a == Attempts(env, clock, tool, policy, index, 0) <==> exists n :: Tells(env, clock, tool, policy, index, 0, n, a)
  {
    var m := AttemptsTell(env, clock, tool, policy, index, 0);
    if n: nat :| Tells(env, clock, tool, policy, index, 0, n, a) {
      TellsOnce(env, clock, tool, policy, index, 0, n, a, m, Attempts(env, clock, tool, policy, index, 0));
    }
  }

  /** A retried step fails only when its retries are used up, and otherwise stops at the first answer that counts. */
  lemma RetriesUsedUp(env: Env, clock: nat, tool: string, policy: Policy, index: int)
    requires policy.mode == Retry && policy.maxRetries >= 0
    ensures var a := Attempts(env, clock, tool, policy, index, 0);
      a.Finished? ==>
        && (forall i :: 0 <= i < |a.records| ==> Some(a.records[i].status) == ResultOf(Reading(env.invoke(clock + i, tool))))
        && (a.status != Success && a.status != Pending ==> |a.records| == policy.maxRetries + 1)
        && (a.status == Success || a.status == Pending ==> |a.records| <= policy.maxRetries + 1)
  {
    var n := AttemptsTell(env, clock, tool, policy, index, 0);
    var a := Attempts(env, clock, tool, policy, index, 0);
    if a.Finished? {
      forall i: nat | i < n ensures ReadAt(env, clock, tool, i) == Reading(env.invoke(clock + i, tool)) {}
      if n > 1 { assert TriesAgain(policy, 0 + (n - 2), ReadAt(env, clock, tool, n - 2)); }
    }
  }

  function ResultOf(status: Option<ActionStatus>): Option<StepStatus> {
    if status.Some? then Some(Result(status.value)) else None
  }

  // ----- how a pass ends

  ghost predicate SomeCallRaises(env: Env) {
    exists t: nat, tool :: env.invoke(t, tool).Raises?
  }

  predicate Decided(status: RunStatus) {
    status == Completed || status == Failed || status == Paused
  }

  /** A pass that began with stored run `run0` and records `steps0` decides the run, unless a call raised. */
  ghost predicate WellEnded(env: Env, run0: Run, steps0: seq<Record>, o: Outcome) {
    if o.raised then SomeCallRaises(env) && (o.run == run0 || (o.run.status == Queued && steps0 <= o.run.steps))
    else Decided(o.run.status) && steps0 <= o.run.steps
  }

  ghost predicate PlanEnding(env: Env, run0: Run, steps0: seq<Record>, p: Plan) {
    match p
    case Working(run, steps, _, _, _) =>
      steps0 <= steps && (run == run0 || (run.status == Queued && steps0 <= run.steps))
    case Left(o) => WellEnded(env, run0, steps0, o)
  }

  lemma AbortedRaises(env: Env, clock: nat, tool: string, policy: Policy, index: int)
    requires Attempts(env, clock, tool, policy, index, 0).Aborted?
    ensures SomeCallRaises(env)
  {
    var n := AttemptsTell(env, clock, tool, policy, index, 0);
    assert Reading(env.invoke(clock + n, tool)).None?;
  }

  lemma PlanStepEnding(env: Env, run0: Run, steps0: seq<Record>, p: Plan)
    requires p.Working? && ValidPlan(p) && PlanEnding(env, run0, steps0, p)
    ensures PlanEnding(env, run0, steps0, PlanStep(env, p))
  {
    if PlanStops(env, p).None? {
      var k, step := p.queue[0], p.run.definition.steps[p.queue[0]];
      if Attempts(env, p.clock + 1, step.tool.value, step.policy, k, 0).Aborted? {
        AbortedRaises(env, p.clock + 1, step.tool.value, step.policy, k);
      }
    }
  }

  lemma {:induction false} PlanPassEnds(env: Env, run0: Run, steps0: seq<Record>, p: Plan)
    requires ValidPlan(p) && PlanEnding(env, run0, steps0, p)
    ensures WellEnded(env, run0, steps0, PlanPass(env, p))
    decreases Unattempted(p), if p.Working? then |p.queue| + 1 else 0
  {
    if p.Working? {
      PlanStepEnding(env, run0, steps0, p);
      PlanStepDecreases(env, p);
      PlanPassEnds(env, run0, steps0, PlanStep(env, p));
    }
  }

  ghost predicate AwareEnding(env: Env, run0: Run, steps0: seq<Record>, a: Aware) {
    match a
    case Choosing(run, steps, _, _) =>
      steps0 <= steps && (run == run0 || (run.status == Queued && steps0 <= run.steps))
    case Closed(o) => WellEnded(env, run0, steps0, o)
  }

  lemma AwareStepEnding(env: Env, run0: Run, steps0: seq<Record>, a: Aware)
    requires a.Choosing? && ValidAware(a) && AwareEnding(env, run0, steps0, a)
    ensures AwareEnding(env, run0, steps0, AwareStep(env, a))
  {
    if AwareStops(env, a).None? {
      var step := a.run.definition.steps[Choice(env, a).value];
      AttemptsAdd(env, a.clock + 2, step.tool.value, step.policy, |a.steps|, 0);
      if Attempts(env, a.clock + 2, step.tool.value, step.policy, |a.steps|, 0).Aborted? {
        AbortedRaises(env, a.clock + 2, step.tool.value, step.policy, |a.steps|);
      }
    }
  }

  lemma {:induction false} AwarePassEnds(env: Env, run0: Run, steps0: seq<Record>, a: Aware)
    requires ValidAware(a) && AwareEnding(env, run0, steps0, a)
    ensures WellEnded(env, run0, steps0, AwarePass(env, a))
    decreases Remaining(a)
  {
    if a.Choosing? {
      AwareStepEnding(env, run0, steps0, a);
      AwarePassEnds(env, run0, steps0, AwareStep(env, a));
    }
  }

  /** In either mode a pass completes, fails or pauses the run, unless a call raised; then the run is left as it was or queued. */
  lemma PassDecides(env: Env, run: Run, steps: seq<Record>, start: nat)
    ensures WellEnded(env, run, steps, Continue(env, run, steps, start))
  {
    if run.definition.resultAware {
      AwarePassEnds(env, run, steps, Choosing(run, steps, None, 0));
    } else {
      PlanPassEnds(env, run, steps, PlanFrom(run, steps, start));
    }
  }

  // ----- undisturbed runs

  /** No timeout, and every call succeeds. */
  ghost predicate Helpful(env: Env) {
    (forall t: nat :: !env.expired(t)) && forall t: nat, tool :: env.invoke(t, tool) == Answers(Success)
  }

  predicate AllSucceeded(steps: seq<Record>) {
    forall i :: 0 <= i < |steps| ==> Succeeded(steps[i])
  }

  lemma HelpfulAttempt(env: Env, clock: nat, tool: string, policy: Policy, index: int)
    requires Helpful(env)
    ensures Attempts(env, clock, tool, policy, index, 0)
         == Finished([Record(index, tool, 0, Result(Success))], Success, NoDirective, clock + 1)
  {
    assert env.invoke(clock, tool) == Answers(Success);
  }

  /** A planned position up to `c` that runs `tool`. */
  predicate PlannedBefore(definition: Definition, c: nat, tool: string) {
    exists k :: 0 <= k < c && HasTool(definition, k, tool)
  }

  /** One record per tool of the first `c` positions, where the tool first occurs. */
  function FirstUses(definition: Definition, c: nat): seq<Record>
    requires c <= |definition.steps|
  {
    if c == 0 then []
    else
      var tool := definition.steps[c - 1].tool;
      FirstUses(definition, c - 1)
      + if tool.Some? && !PlannedBefore(definition, c - 1, tool.value)
        then [Record(c - 1, tool.value, 0, Result(Success))] else []
  }

  /** The pass has taken the first `c` positions, and every call succeeded. */
  ghost predicate Undisturbed(definition: Definition, p: Plan, c: nat) {
    && p.Working? && p.run.definition == definition && c <= |definition.steps|
    && p.queue == Range(c, Limit(definition)) && p.steps == FirstUses(definition, c)
    && forall tool :: tool in p.attempted <==> PlannedBefore(definition, c, tool)
  }

  lemma OneMorePlanned(definition: Definition, c: nat, tool: string)
    requires c < |definition.steps|
    ensures PlannedBefore(definition, c + 1, tool) <==>
      PlannedBefore(definition, c, tool) || definition.steps[c].tool == Some(tool)
  {
    assert HasTool(definition, c, tool) <==> definition.steps[c].tool == Some(tool);
  }

  lemma UndisturbedTurn(env: Env, definition: Definition, p: Plan, c: nat) returns (q: Plan)
    requires Undisturbed(definition, p, c) && ValidPlan(p) && Helpful(env)
    requires c < PlanLength(definition) && Usable(definition, c)
    ensures Undisturbed(definition, q, c + 1) && ValidPlan(q) && PlanPass(env, p) == PlanPass(env, q)
  {
    q := PlanStep(env, p);
    UndisturbedStep(env, definition, p, c);
    PlanStepDecreases(env, p);
  }

  lemma UndisturbedStep(env: Env, definition: Definition, p: Plan, c: nat)
    requires Undisturbed(definition, p, c) && ValidPlan(p) && Helpful(env)
    requires c < Limit(definition) && Usable(definition, c)
    ensures Undisturbed(definition, PlanStep(env, p), c + 1)
  {
    RangeStep(c, Limit(definition));
    var step := definition.steps[c];
    assert p.queue[0] == c && p.queue[1..] == Range(c + 1, Limit(definition));
    assert !env.expired(p.clock);
    HelpfulAttempt(env, p.clock + 1, step.tool.value, step.policy, c);
    forall tool { OneMorePlanned(definition, c, tool); }
  }

  /** How many positions a plan has: those of the definition, up to max_steps. */
  function PlanLength(definition: Definition): nat {
    if definition.maxSteps < 0 then 0
    else if definition.maxSteps < |definition.steps| then definition.maxSteps
    else |definition.steps|
  }

  ghost predicate RanThrough(definition: Definition, o: Outcome) {
    && !o.raised && o.run.status == Completed && o.run.currentStep == |definition.steps|
    && o.run.steps == FirstUses(definition, PlanLength(definition))
  }

  lemma UndisturbedEnd(env: Env, definition: Definition, p: Plan)
    requires Undisturbed(definition, p, PlanLength(definition)) && ValidPlan(p)
    ensures RanThrough(definition, PlanPass(env, p))
  {
    assert p.queue == [];
    assert PlanPass(env, p) == PlanPass(env, PlanStep(env, p));
  }

  lemma {:induction false} UndisturbedPass(env: Env, definition: Definition, p: Plan, c: nat)
    requires Undisturbed(definition, p, c) && ValidPlan(p) && Helpful(env) && c <= PlanLength(definition)
    requires forall k: nat :: k < PlanLength(definition) ==> Usable(definition, k)
    ensures RanThrough(definition, PlanPass(env, p))
    decreases PlanLength(definition) - c
  {
    if c < PlanLength(definition) {
      var q := UndisturbedTurn(env, definition, p, c);
      UndisturbedPass(env, definition, q, c + 1);
    } else {
      UndisturbedEnd(env, definition, p);
    }
  }

  /** Without timeouts and failures, a plan-order run completes with one record per planned tool, in plan order. */
  lemma UndisturbedRun(env: Env, definition: Definition, actor: string, count: nat, of: Option<nat>)
    requires Helpful(env) && !definition.resultAware
    requires forall k: nat :: k < PlanLength(definition) ==> Usable(definition, k)
    ensures var o := Continue(env, NewRun(definition, actor, count, of), [], 0);
      && !o.raised && o.run.status == Completed && o.run.currentStep == |definition.steps|
      && o.run.steps == FirstUses(definition, PlanLength(definition))
  {
    var p := PlanFrom(NewRun(definition, actor, count, of), [], 0);
    assert Undisturbed(definition, p, 0);
    UndisturbedPass(env, definition, p, 0);
  }

  predicate FirstTries(steps: seq<Record>) {
    AllSucceeded(steps) && forall i :: 0 <= i < |steps| ==> steps[i].attempt == 0
  }

  ghost predicate AwareHelped(definition: Definition, a: Aware) {
    match a
    case Choosing(run, steps, fallback, _) =>
      run.definition == definition && fallback.None? && FirstTries(steps)
    case Closed(o) => o.run.definition == definition && !o.raised && o.run.status == Completed && FirstTries(o.run.steps)
  }

  lemma AwareStepHelped(env: Env, definition: Definition, a: Aware)
    requires a.Choosing? && ValidAware(a) && AwareHelped(definition, a) && Smooth(env, definition) && Helpful(env)
    ensures AwareHelped(definition, AwareStep(env, a))
  {
    if AwareStops(env, a).None? {
      var step := definition.steps[Choice(env, a).value];
      HelpfulAttempt(env, a.clock + 2, step.tool.value, step.policy, |a.steps|);
    }
  }

  lemma {:induction false} AwarePassHelped(env: Env, definition: Definition, a: Aware)
    requires ValidAware(a) && AwareHelped(definition, a) && Smooth(env, definition) && Helpful(env)
    ensures AwareHelped(definition, Closed(AwarePass(env, a)))
    decreases Remaining(a)
  {
    if a.Choosing? {
      AwareStepHelped(env, definition, a);
      AwarePassHelped(env, definition, AwareStep(env, a));
    }
  }

  /** Likewise a result-aware run: it completes with successes only, having used its budget or tried every usable tool. */
  lemma UndisturbedAwareRun(env: Env, definition: Definition, actor: string, count: nat, of: Option<nat>)
    requires Helpful(env) && Smooth(env, definition) && definition.resultAware
    ensures var o := Continue(env, NewRun(definition, actor, count, of), [], 0);
      !o.raised && o.run.status == Completed && FirstTries(o.run.steps) && Exhausted(o.run)
  {
    var run := NewRun(definition, actor, count, of);
    AwarePassHelped(env, definition, Choosing(run, [], None, 0));
    NewRunSound(false, definition, actor, count, of);
    ContinueSpent(env, run, [], 0);
  }

  // ----- guards

  /** A pass that must not try its next position fails there, with the records it has. */
  lemma PlanGuard(env: Env, p: Plan)
    requires p.Working? && ValidPlan(p) && p.queue != []
    requires var step := p.run.definition.steps[p.queue[0]];
      || env.expired(p.clock) || step.tool.None? || !step.payloadIsObject
      || step.tool.value !in p.run.definition.enabledTools
    ensures var o := PlanPass(env, p);
      && !o.raised && o.run.status == Failed && o.run.steps == p.steps
      && o.run.currentStep == p.queue[0] && o.run.pendingStep.None?
  {
    PlanStepDecreases(env, p);
    assert PlanPass(env, p) == PlanPass(env, PlanStep(env, p));
  }

  /** The same for a result-aware pass with budget left, at the step a failure falls back to. */
  lemma AwareGuard(env: Env, a: Aware)
    requires a.Choosing? && ValidAware(a) && |a.steps| < a.run.definition.maxSteps
    requires env.expired(a.clock) || (a.fallback.Some? &&
      var step := a.run.definition.steps[a.fallback.value];
      step.tool.None? || !step.payloadIsObject || step.tool.value !in a.run.definition.enabledTools)
    ensures var o := AwarePass(env, a);
      && !o.raised && o.run.status == Failed && o.run.steps == a.steps
      && o.run.currentStep == |a.steps| && o.run.pendingStep.None?
  {
    assert AwarePass(env, a) == AwarePass(env, AwareStep(env, a));
  }

  /** A run whose time is up before it begins fails without a record. */
  lemma ExpiredRunFails(env: Env, run: Run, steps: seq<Record>, start: nat)
    requires env.expired(0)
    requires if run.definition.resultAware then |steps| < run.definition.maxSteps else start < PlanLength(run.definition)
    ensures var o := Continue(env, run, steps, start);
      !o.raised && o.run.status == Failed && o.run.steps == steps
  {
    if run.definition.resultAware {
      AwareGuard(env, Choosing(run, steps, None, 0));
    } else {
      PlanGuard(env, PlanFrom(run, steps, start));
    }
  }

  /** With budget left and no fallback waiting, the turn tries the step the model chose, if it may, or the first that may be tried. */
  lemma TurnTries(env: Env, a: Aware, i: nat, tool: string) returns (k: nat)
    requires a.Choosing? && ValidAware(a) && |a.steps| < a.run.definition.maxSteps && !env.expired(a.clock)
    requires a.fallback.None? && HasTool(a.run.definition, i, tool) && tool in a.run.definition.enabledTools
    requires tool !in Used(a.steps)
    ensures k < |a.run.definition.steps| && a.run.definition.steps[k].tool.Some?
    ensures a.run.definition.steps[k].tool.value in a.run.definition.enabledTools - Used(a.steps)
    ensures env.choose(a.clock + 1) == Some(tool) && tool != "" ==> HasTool(a.run.definition, k, tool)
    ensures env.choose(a.clock + 1).None? ==> k <= i
    ensures var step := a.run.definition.steps[k];
      var r := Attempts(env, a.clock + 2, step.tool.value, step.policy, |a.steps|, 0);
      && (r.Finished? ==> r.records != [])
      && AwareStep(env, a) ==
         if step.payloadIsObject then AwareSettle(a.run, a.steps, r)
         else Closed(Outcome(Finish(a.run, Failed, |a.steps|, a.steps, None), false))
  {
    SelectMeans(a.run.definition, Used(a.steps), env.choose(a.clock + 1), i, tool);
    k := Select(a.run.definition, Used(a.steps), env.choose(a.clock + 1)).value;
    AttemptsAdd(env, a.clock + 2, a.run.definition.steps[k].tool.value, a.run.definition.steps[k].policy, |a.steps|, 0);
  }

  /** Every consultation has its own time: a turn takes one tick, or two, and one more per record it adds. */
  lemma TimeAdvances(env: Env, p: Plan, a: Aware)
    requires p.Working? && ValidPlan(p) && a.Choosing? && ValidAware(a)
    ensures var q := PlanStep(env, p); q.Working? ==> q.clock == p.clock + 1 + (|q.steps| - |p.steps|)
    ensures var b := AwareStep(env, a); b.Choosing? ==> b.clock == a.clock + 2 + (|b.steps| - |a.steps|)
  {
    if PlanStops(env, p).None? {
      var step := p.run.definition.steps[p.queue[0]];
      var n := AttemptsTell(env, p.clock + 1, step.tool.value, step.policy, p.queue[0], 0);
    }
    if AwareStops(env, a).None? {
      var step := a.run.definition.steps[Choice(env, a).value];
      var n := AttemptsTell(env, a.clock + 2, step.tool.value, step.policy, |a.steps|, 0);
      AttemptsAdd(env, a.clock + 2, step.tool.value, step.policy, |a.steps|, 0);
    }
  }

  // ----- where a run stands

  /** The number of the first record of the last block. */
  function LastBlock(run: Run): int
    requires run.steps != []
  {
    var last := run.steps[|run.steps| - 1];
    if run.definition.resultAware then |run.steps| - 1 - last.attempt else last.index - last.attempt
  }

  /**
   A run that waits for approval, or was refused it, stands at the block in question; a completed one
   at the end; a queued one behind its last block, or at it when a fallback comes next.
   */
  predicate InPlace(run: Run) {
    && (run.status == Queued && run.steps != [] ==>
          run.currentStep ==
            if run.definition.resultAware then |run.steps|
            else if Succeeded(run.steps[|run.steps| - 1]) then LastBlock(run) + 1 else LastBlock(run))
    && ((run.status == Paused || run.status == Rejected) && run.steps != [] ==> run.currentStep == LastBlock(run))
    && (run.status == Completed ==>
          run.currentStep == if run.definition.resultAware then |run.steps| else |run.definition.steps|)
  }

  predicate PlanInPlace(p: Plan) {
    match p
    case Working(run, _, _, _, _) => InPlace(run) && !run.definition.resultAware
    case Left(o) => InPlace(o.run)
  }

  lemma SettleInPlace(p: Plan, k: nat, rest: seq<nat>, attempted: set<string>, a: Attempt)
    requires p.Working? && PlanInPlace(p) && InPlan(p.run.definition, rest) && Block(p.run.definition, k, k, 0, a)
    ensures PlanInPlace(PlanSettle(p.run, p.steps, rest, attempted, k, a))
  {
    if a.Finished? {
      LastOfConcat(p.steps, a.records);
      assert Numbered(p.run.definition.steps[k], k, 0 + (|a.records| - 1), a.records[|a.records| - 1]);
    }
  }

  lemma {:induction false} PlanPassInPlace(env: Env, p: Plan)
    requires ValidPlan(p) && PlanInPlace(p)
    ensures InPlace(PlanPass(env, p).run)
    decreases Unattempted(p), if p.Working? then |p.queue| + 1 else 0
  {
    if p.Working? {
      if PlanStops(env, p).None? && p.run.definition.steps[p.queue[0]].tool.value !in p.attempted {
        var a := StepSettles(env, p);
        SettleInPlace(p, p.queue[0], p.queue[1..], p.attempted + {p.run.definition.steps[p.queue[0]].tool.value}, a);
      }
      PlanStepDecreases(env, p);
      PlanPassInPlace(env, PlanStep(env, p));
    }
  }

  predicate AwareInPlace(a: Aware) {
    match a
    case Choosing(run, _, _, _) => InPlace(run) && run.definition.resultAware
    case Closed(o) => InPlace(o.run)
  }

  lemma AwareSettleInPlace(run: Run, steps: seq<Record>, k: nat, a: Attempt)
    requires InPlace(run) && run.definition.resultAware && Block(run.definition, k, |steps|, 0, a)
    ensures AwareInPlace(AwareSettle(run, steps, a))
  {
    if a.Finished? {
      LastOfConcat(steps, a.records);
      assert Numbered(run.definition.steps[k], |steps|, 0 + (|a.records| - 1), a.records[|a.records| - 1]);
    }
  }

  lemma {:induction false} AwarePassInPlace(env: Env, a: Aware)
    requires ValidAware(a) && AwareInPlace(a)
    ensures InPlace(AwarePass(env, a).run)
    decreases Remaining(a)
  {
    if a.Choosing? {
      if AwareStops(env, a).None? {
        var k, r := TurnSettles(env, a);
        AwareSettleInPlace(a.run, a.steps, k, r);
      }
      AwarePassInPlace(env, AwareStep(env, a));
    }
  }

  lemma ContinueInPlace(env: Env, run: Run, steps: seq<Record>, start: nat)
    requires InPlace(run)
    ensures InPlace(Continue(env, run, steps, start).run)
  {
    if run.definition.resultAware {
      AwarePassInPlace(env, Choosing(run, steps, None, 0));
    } else {
      PlanPassInPlace(env, PlanFrom(run, steps, start));
    }
  }

  lemma ResumeInPlace(env: Env, run: Run, approver: string)
    requires Sound(false, run) && InPlace(run)
    ensures InPlace(ResumeRun(env, run, approver).run)
  {
    if run.status == Paused && approver != run.actor && env.approve == Some(Success) {
      ContinueInPlace(env, run, Restatus(run.steps, Result(Success)), run.currentStep + 1);
    }
  }

  lemma InPlaceIsKept()
    ensures Kept(InPlace)
  {
    forall env, definition, actor, count, of ensures InPlace(Continue(env, NewRun(definition, actor, count, of), [], 0).run) {
      ContinueInPlace(env, NewRun(definition, actor, count, of), [], 0);
    }
    forall env, run, approver | Sound(false, run) && InPlace(run) ensures InPlace(ResumeRun(env, run, approver).run) {
      ResumeInPlace(env, run, approver);
    }
  }

  /** Every reachable run stands where its records say. */
  lemma RunsStandInPlace(commands: seq<Command>, id: nat)
    requires id in Reached(commands).runs
    ensures InPlace(Reached(commands).runs[id])
  {
    InPlaceIsKept();
    KeptEverywhere(InPlace, commands);
  }

  // ----- commands

  /** All records but the last are kept, and the last only changes its status. */
  predicate LastBecomes(before: seq<Record>, after: seq<Record>, status: StepStatus) {
    && before != [] && |after| == |before|
    && (forall i :: 0 <= i < |before| - 1 ==> after[i] == before[i])
    && var last := before[|before| - 1];
       after[|after| - 1] == Record(last.index, last.tool, last.attempt, status)
  }

  predicate MayCancel(run: Run) {
    run.status == Queued || run.status == Paused
  }

  lemma CancelsRun(env: Env, run: Run)
    requires Sound(false, run)
    ensures var o := CancelRun(env, run);
      && (o.raised <==> run.status in {Completed, Failed, Rejected} || (MayCancel(run) && !env.withdraw))
      && (o.raised || run.status == Cancelled ==> o.run == run)
      && (MayCancel(run) && env.withdraw ==>
            && o.run.status == Cancelled && o.run.pendingStep.None? && o.run.currentStep == run.currentStep
            && SameIdentity(run, o.run)
            && (if run.status == Paused then LastBecomes(run.steps, o.run.steps, Withdrawn) else o.run.steps == run.steps))
  {}

  /** A cancel ends a queued or paused run and withdraws what is pending; it raises exactly where it may not. */
  lemma CancelLaw(commands: seq<Command>, env: Env, id: nat)
    requires id in Reached(commands).runs
    ensures var w := Reached(commands);
      var run, o := w.runs[id], CancelRun(env, w.runs[id]);
      && Apply(w, Cancel(env, id)) == World(w.runs[id := o.run], w.next)
      && (o.raised <==> run.status in {Completed, Failed, Rejected} || (MayCancel(run) && !env.withdraw))
      && (o.raised || run.status == Cancelled ==> o.run == run)
      && (MayCancel(run) && env.withdraw ==>
            && o.run.status == Cancelled && o.run.pendingStep.None? && o.run.currentStep == run.currentStep
            && SameIdentity(run, o.run)
            && (if run.status == Paused then LastBecomes(run.steps, o.run.steps, Withdrawn) else o.run.steps == run.steps))
  {
    ReachableOk(commands);
    CancelsRun(env, Reached(commands).runs[id]);
  }

  /** What a resume does, answer by answer, short of a success. */
  predicate Declines(env: Env, run: Run, approver: string, o: Outcome) {
    && (run.status != Paused ==> o == Outcome(run, false))
    && (run.status == Paused && (approver == run.actor || env.approve.None?) ==> o == Outcome(run, true))
    && (run.status == Paused && approver != run.actor && env.approve.Some? && env.approve.value != Success ==>
          && !o.raised && o.run.status == (if env.approve.value == Refused then Rejected else Failed)
          && LastBecomes(run.steps, o.run.steps, Result(env.approve.value))
          && o.run.pendingStep.None? && o.run.currentStep == run.currentStep && SameIdentity(run, o.run))
  }

  lemma ResumesRun(env: Env, run: Run, approver: string)
    requires Sound(false, run)
    ensures Declines(env, run, approver, ResumeRun(env, run, approver))
  {}

  /** What an approval that succeeds does: the last record succeeds and the pass goes on behind it, unless a call raises. */
  ghost predicate Approves(env: Env, run: Run, o: Outcome) {
    && SameIdentity(run, o.run) && (o.raised ==> SomeCallRaises(env))
    && (!o.raised ==> Decided(o.run.status) && o.run != run)
    && (o.run != run ==> |o.run.steps| >= |run.steps| && LastBecomes(run.steps, o.run.steps[..|run.steps|], Result(Success)))
  }

  lemma ApprovesRun(env: Env, run: Run, approver: string)
    requires Sound(false, run) && run.status == Paused && approver != run.actor && env.approve == Some(Success)
    ensures Approves(env, run, ResumeRun(env, run, approver))
  {
    var steps := Restatus(run.steps, Result(Success));
    ApprovalContinues(env, run, approver);
    ApprovedKeeps(false, env, run, approver);
    PassDecides(env, run, steps, run.currentStep + 1);
    GoneOn(env, run, steps, ResumeRun(env, run, approver));
  }

  lemma GoneOn(env: Env, run: Run, steps: seq<Record>, o: Outcome)
    requires run.steps != [] && IsPending(run.steps[|run.steps| - 1]) && steps == Restatus(run.steps, Result(Success))
    requires SameIdentity(run, o.run) && WellEnded(env, run, steps, o)
    ensures Approves(env, run, o)
  {
    var n := |run.steps|;
    if steps <= o.run.steps {
      assert o.run.steps[..n] == steps && o.run.steps[n - 1] == steps[n - 1];
    }
  }

  /** A resume, case by case: who may approve, what each answer does, and what stays. */
  lemma ResumeLaw(commands: seq<Command>, env: Env, id: nat, approver: string)
    requires id in Reached(commands).runs
    ensures var w := Reached(commands);
      var run, o := w.runs[id], ResumeRun(env, w.runs[id], approver);
      && Apply(w, Resume(env, id, approver)) == World(w.runs[id := o.run], w.next)
      && Declines(env, run, approver, o)
      && (run.status == Paused && approver != run.actor && env.approve == Some(Success) ==> Approves(env, run, o))
  {
    ReachableOk(commands);
    var run := Reached(commands).runs[id];
    ResumesRun(env, run, approver);
    if run.status == Paused && approver != run.actor && env.approve == Some(Success) {
      ApprovesRun(env, run, approver);
    }
  }

  /** World `v` is `w` with one run more, as its first pass left it. */
  ghost predicate Adds(env: Env, w: World, v: World, actor: string, definition: Definition, count: nat, of: Option<nat>) {
    && w.next !in w.runs && v.next == w.next + 1 && v.runs.Keys == w.runs.Keys + {w.next}
    && (forall id :: id in w.runs ==> v.runs[id] == w.runs[id])
    && var run := v.runs[w.next];
       && run.actor == actor && run.definition == definition && run.retryCount == count && run.retryOf == of
       && (Decided(run.status) || (run.status == Queued && SomeCallRaises(env)))
  }

  lemma LaunchAdds(env: Env, w: World, definition: Definition, actor: string, count: nat, of: Option<nat>)
    requires WorldOk(w)
    ensures Adds(env, w, Launch(env, w, NewRun(definition, actor, count, of)), actor, definition, count, of)
  {
    var run := NewRun(definition, actor, count, of);
    NewRunSound(false, definition, actor, count, of);
    ContinueKeeps(false, env, run, [], 0);
    PassDecides(env, run, [], 0);
  }

  /** A start adds one run of the given definition and actor, exactly when it is admitted. */
  lemma StartLaw(commands: seq<Command>, env: Env, definition: Definition, actor: string, admitted: bool)
    ensures var w, v := Reached(commands), Apply(Reached(commands), Start(env, definition, actor, admitted));
      if admitted then Adds(env, w, v, actor, definition, 0, None) else v == w
  {
    ReachableOk(commands);
    LaunchAdds(env, Reached(commands), definition, actor, 0, None);
  }

  /** A retry adds one run of the old definition under the retrying actor, exactly when the old run may be retried. */
  lemma RetryLaw(commands: seq<Command>, env: Env, id: nat, actor: string, sameRevision: bool, admitted: bool)
    ensures var w, v := Reached(commands), Apply(Reached(commands), RetryRun(env, id, actor, sameRevision, admitted));
      if id in w.runs && sameRevision && admitted && w.runs[id].status in {Failed, Cancelled} && w.runs[id].retryCount < 3
      then Adds(env, w, v, actor, w.runs[id].definition, w.runs[id].retryCount + 1, Some(id))
      else v == w
  {
    ReachableOk(commands);
    var w := Reached(commands);
    if id in w.runs {
      LaunchAdds(env, w, w.runs[id].definition, actor, w.runs[id].retryCount + 1, Some(id));
    }
  }
}
