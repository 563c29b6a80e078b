/**
 Where plan-order passes start. A pass that starts at a position can pause there, or at the end of a
 chain of fallbacks from there, and the resume starts after the position that paused. These moves
 form a graph on plan positions that depends on the definition alone. Every reachable run is shown
 to follow a walk of that graph that uses only tools the run has tried.
 */
module EngineWalks {
  import opened Text
  import opened Engine
  import opened EngineTheorems
  import opened EngineRuns
  import opened EnginePlan

  // ----- the graph

  /** Where a failure of position `k` falls back to. */
  function Next(definition: Definition, k: nat): (next: Option<nat>)
    requires k < |definition.steps|
    ensures next.Some? ==> next.value < |definition.steps|
  {
    if definition.steps[k].policy.mode == Fallback then FirstStep(definition, Target(definition.steps[k].policy), 0)
    else None
  }

  /** The position reached from `s` after `n` fallbacks in a row. */
  function Hop(definition: Definition, s: nat, n: nat): (reached: Option<nat>)
    requires s < |definition.steps|
    ensures reached.Some? ==> reached.value < |definition.steps|
    decreases n
  {
    if n == 0 then Some(s)
    else
      var previous := Hop(definition, s, n - 1);
      if previous.Some? then Next(definition, previous.value) else None
  }

  /** The engine can run the step at `k`: it is well formed and its tool is enabled. */
  predicate Usable(definition: Definition, k: nat) {
    && k < |definition.steps| && !Malformed(definition.steps[k])
    && definition.steps[k].tool.value in definition.enabledTools
  }

  predicate Link(definition: Definition, tools: set<string>, k: Option<nat>) {
    k.Some? && Usable(definition, k.value) && definition.steps[k.value].tool.value in tools
  }

  predicate OtherTool(definition: Definition, j: Option<nat>, k: Option<nat>) {
    && j.Some? && j.value < |definition.steps| && k.Some? && k.value < |definition.steps|
    && definition.steps[j.value].tool != definition.steps[k.value].tool
  }

  /** The first `n` positions of the fallback chain from `s` run different tools, all among `tools`. */
  ghost predicate Chain(definition: Definition, tools: set<string>, s: nat, n: nat)
    requires s < |definition.steps|
  {
    && (forall m: nat :: m < n ==> Link(definition, tools, Hop(definition, s, m)))
    && (forall l: nat, m: nat :: l < m < n ==> OtherTool(definition, Hop(definition, s, l), Hop(definition, s, m)))
  }

  ghost predicate Lands(definition: Definition, tools: set<string>, s: nat, n: nat, t: nat)
    requires s < |definition.steps|
  {
    Chain(definition, tools, s, n + 1) && Hop(definition, s, n).value + 1 == t
  }

  /** From a pass that starts at `s` to one that starts at `t`. */
  ghost predicate Move(definition: Definition, tools: set<string>, s: nat, t: nat) {
    s < Limit(definition) && exists n: nat :: Lands(definition, tools, s, n, t)
  }

  ghost predicate Walk(definition: Definition, tools: set<string>, w: seq<nat>) {
    w != [] && w[0] == 0 && forall i :: 0 <= i < |w| - 1 ==> Move(definition, tools, w[i], w[i + 1])
  }

  function End(w: seq<nat>): nat
    requires w != []
  {
    w[|w| - 1]
  }

  lemma ChainMore(definition: Definition, tools: set<string>, more: set<string>, s: nat, n: nat)
    requires s < |definition.steps| && Chain(definition, tools, s, n) && tools <= more
    ensures Chain(definition, more, s, n)
  {
    forall m: nat | m < n ensures Link(definition, more, Hop(definition, s, m)) {
      assert Link(definition, tools, Hop(definition, s, m));
    }
  }

  lemma MoveMore(definition: Definition, tools: set<string>, more: set<string>, s: nat, t: nat)
    requires Move(definition, tools, s, t) && tools <= more
    ensures Move(definition, more, s, t)
  {
    var n: nat :| Lands(definition, tools, s, n, t);
    ChainMore(definition, tools, more, s, n + 1);
    assert Lands(definition, more, s, n, t);
  }

  lemma WalkMore(definition: Definition, tools: set<string>, more: set<string>, w: seq<nat>)
    requires Walk(definition, tools, w) && tools <= more
    ensures Walk(definition, more, w)
  {
    forall i | 0 <= i < |w| - 1 ensures Move(definition, more, w[i], w[i + 1]) {
      MoveMore(definition, tools, more, w[i], w[i + 1]);
    }
  }

  lemma WalkOn(definition: Definition, tools: set<string>, w: seq<nat>, t: nat)
    requires Walk(definition, tools, w) && Move(definition, tools, End(w), t)
    ensures Walk(definition, tools, w + [t])
  {
    var longer := w + [t];
    forall i | 0 <= i < |longer| - 1 ensures Move(definition, tools, longer[i], longer[i + 1]) {
      if i < |w| - 1 { assert Move(definition, tools, w[i], w[i + 1]); }
    }
  }

  /** A pass may pause at its very first position. */
  lemma OneStep(definition: Definition, tools: set<string>, s: nat)
    requires s < Limit(definition) && Link(definition, tools, Some(s))
    ensures Move(definition, tools, s, s + 1)
  {
    assert Hop(definition, s, 0) == Some(s);
    assert Lands(definition, tools, s, 0, s + 1);
  }

  /** A position whose tool is new extends the chain. */
  lemma ChainGrows(definition: Definition, tools: set<string>, s: nat, n: nat, tool: string)
    requires s < |definition.steps| && Chain(definition, tools, s, n) && tool !in tools
    requires Link(definition, {tool}, Hop(definition, s, n))
    ensures Chain(definition, tools + {tool}, s, n + 1)
  {
    forall m: nat | m < n + 1 ensures Link(definition, tools + {tool}, Hop(definition, s, m)) {
      if m < n { assert Link(definition, tools, Hop(definition, s, m)); }
    }
    forall l: nat, m: nat | l < m < n + 1 ensures OtherTool(definition, Hop(definition, s, l), Hop(definition, s, m)) {
      if m == n { assert Link(definition, tools, Hop(definition, s, l)); }
    }
  }

  // ----- how much a walk can record

  function Times(n: nat, r: nat): nat {
    if n == 0 then 0 else Times(n - 1, r) + r
  }

  lemma {:induction false} TimesMore(m: nat, n: nat, r: nat)
    requires m <= n
    ensures Times(m, r) <= Times(n, r)
  {
    if m < n { TimesMore(m, n - 1, r); }
  }

  /** The records of one block at most. */
  function PerBlock(definition: Definition): nat {
    1 + MaxRetries(definition, 0)
  }

  /** The records of one pass at most. */
  function PerPass(definition: Definition): nat {
    Times(|Tools(definition)|, PerBlock(definition))
  }

  function Budget(definition: Definition, passes: nat): nat {
    Times(passes, PerPass(definition))
  }

  // ----- runs that follow walks

  /** The walk behind a stored run. */
  ghost predicate WalkOf(run: Run, w: seq<nat>) {
    && Walk(run.definition, Used(run.steps), w) && |run.steps| <= Budget(run.definition, |w|)
    && (run.status == Paused ==> End(w) == run.currentStep + 1 && |run.steps| <= Budget(run.definition, |w| - 1))
    && (run.status == Completed ==> End(w) >= Limit(run.definition))
  }

  ghost predicate Walked(run: Run) {
    !run.definition.resultAware ==> exists w :: WalkOf(run, w)
  }

  /** The head of the queue is the `n`-th fallback from `c`, and the plan after `c` comes behind it. */
  ghost predicate Heading(definition: Definition, attempted: set<string>, queue: seq<nat>, c: nat, n: nat) {
    if c >= Limit(definition) then n == 0 && queue == []
    else
      && Hop(definition, c, n).Some? && queue == [Hop(definition, c, n).value] + Range(c + 1, Limit(definition))
      && Chain(definition, attempted, c, n)
  }

  /** The pass has recorded at most `spent` records before and one block per attempted tool since. */
  predicate WithinPass(definition: Definition, spent: nat, steps: seq<Record>, attempted: set<string>) {
    && attempted <= Used(steps) && attempted <= Tools(definition)
    && |steps| <= spent + Times(|attempted|, PerBlock(definition))
  }

  /** In the middle of a pass: the walk so far ends at `c`, the plan position last taken from the queue. */
  ghost predicate Underway(definition: Definition, spent: nat, p: Plan, w: seq<nat>, n: nat) {
    && p.Working? && ValidPlan(p) && p.run.definition == definition && !definition.resultAware && Walked(p.run)
    && WithinPass(definition, spent, p.steps, p.attempted)
    && Walk(definition, Used(p.steps), w) && spent <= Budget(definition, |w| - 1)
    && Heading(definition, p.attempted, p.queue, End(w), n)
  }

  ghost predicate Walking(definition: Definition, spent: nat, q: Plan) {
    match q
    case Left(o) => Walked(o.run)
    case Working(_, _, _, _, _) => exists w, n: nat :: Underway(definition, spent, q, w, n)
  }

  lemma SmallerSet<T>(a: set<T>, b: set<T>)
    requires a <= b
    ensures |a| <= |b|
  {
    assert b == a + (b - a);
  }

  lemma PassFits(definition: Definition, spent: nat, steps: seq<Record>, attempted: set<string>, w: seq<nat>)
    requires WithinPass(definition, spent, steps, attempted) && w != [] && spent <= Budget(definition, |w| - 1)
    ensures |steps| <= Budget(definition, |w|)
  {
    SmallerSet(attempted, Tools(definition));
    TimesMore(|attempted|, |Tools(definition)|, PerBlock(definition));
  }

  /** Any status but paused and completed may be stored with the walk so far. */
  lemma StoreWalked(run: Run, w: seq<nat>, status: RunStatus, current: nat, steps: seq<Record>)
    requires Walk(run.definition, Used(steps), w) && |steps| <= Budget(run.definition, |w|)
    requires status != Paused && (status == Completed ==> End(w) >= Limit(run.definition))
    ensures Walked(Finish(run, status, current, steps, None))
  {
    assert WalkOf(Finish(run, status, current, steps, None), w);
  }

  lemma HeadingAt(definition: Definition, attempted: set<string>, c: nat)
    ensures Heading(definition, attempted, Range(c, Limit(definition)), c, 0)
  {
    if c < Limit(definition) {
      RangeStep(c, Limit(definition));
      assert Hop(definition, c, 0) == Some(c);
    }
  }

  /** The rest of the queue heads for the next plan position, once the tool at `c` has been tried. */
  lemma AdvanceUnderway(definition: Definition, spent: nat, p: Plan, w: seq<nat>, n: nat, q: Plan)
    requires Underway(definition, spent, p, w, n) && p.queue != []
    requires q.Working? && ValidPlan(q) && q.run.definition == definition && Walked(q.run)
    requires q.queue == p.queue[1..] && Used(p.steps) <= Used(q.steps)
    requires WithinPass(definition, spent, q.steps, q.attempted) && Link(definition, Used(q.steps), Some(End(w)))
    ensures Underway(definition, spent, q, w + [End(w) + 1], 0)
  {
    var c := End(w);
    WalkMore(definition, Used(p.steps), Used(q.steps), w);
    OneStep(definition, Used(q.steps), c);
    WalkOn(definition, Used(q.steps), w, c + 1);
    assert q.queue == Range(c + 1, Limit(definition));
    HeadingAt(definition, q.attempted, c + 1);
    TimesMore(|w| - 1, |w|, PerPass(definition));
  }

  /** The position at `c` has been tried if the head of the queue has, or if a fallback is at the head. */
  lemma StartTried(definition: Definition, p: Plan, c: nat, n: nat, tools: set<string>)
    requires p.Working? && Heading(definition, p.attempted, p.queue, c, n) && p.queue != []
    requires p.attempted <= tools && Link(definition, tools, Some(p.queue[0]))
    ensures Link(definition, tools, Some(c))
  {
    assert Hop(definition, c, 0) == Some(c);
    if n > 0 { assert Link(definition, p.attempted, Hop(definition, c, 0)); }
  }

  // ----- one step of a pass

  predicate HeadReady(env: Env, p: Plan) {
    p.Working? && ValidPlan(p) && PlanStops(env, p).None?
  }

  lemma SkipWalks(env: Env, definition: Definition, spent: nat, p: Plan, w: seq<nat>, n: nat)
    requires Underway(definition, spent, p, w, n) && HeadReady(env, p)
    requires definition.steps[p.queue[0]].tool.value in p.attempted
    ensures Walking(definition, spent, PlanStep(env, p))
  {
    StartTried(definition, p, End(w), n, Used(p.steps));
    AdvanceUnderway(definition, spent, p, w, n, PlanStep(env, p));
  }

  lemma StopWalks(env: Env, definition: Definition, spent: nat, p: Plan, w: seq<nat>, n: nat)
    requires Underway(definition, spent, p, w, n) && PlanStops(env, p).Some?
    ensures Walking(definition, spent, PlanStep(env, p))
  {
    PassFits(definition, spent, p.steps, p.attempted, w);
    var current := if p.queue == [] then |definition.steps| else p.queue[0];
    StoreWalked(p.run, w, PlanStops(env, p).value, current, p.steps);
  }

  /** What a finished block of the head adds: its tool, and no more records than one block has. */
  lemma BlockWithin(definition: Definition, spent: nat, p: Plan, k: nat, a: Attempt)
    requires p.Working? && WithinPass(definition, spent, p.steps, p.attempted)
    requires a.Finished? && Block(definition, k, k, 0, a) && definition.steps[k].tool.value !in p.attempted
    ensures var tool := definition.steps[k].tool.value;
      && WithinPass(definition, spent, p.steps + a.records, p.attempted + {tool})
      && Used(p.steps + a.records) == Used(p.steps) + {tool}
  {
    var tool := definition.steps[k].tool.value;
    BlockUses(definition, p.steps, k, k, a);
    BlockLength(definition, k, k, a);
    assert tool in Tools(definition);
    assert |p.attempted + {tool}| == |p.attempted| + 1;
  }

  ghost predicate Settling(definition: Definition, spent: nat, p: Plan, w: seq<nat>, n: nat, a: Attempt) {
    && Underway(definition, spent, p, w, n) && p.queue != [] && Usable(definition, p.queue[0])
    && definition.steps[p.queue[0]].tool.value !in p.attempted && Block(definition, p.queue[0], p.queue[0], 0, a)
  }

  function Settled(p: Plan, a: Attempt): Plan
    requires p.Working? && ValidPlan(p) && p.queue != [] && p.run.definition.steps[p.queue[0]].tool.Some?
  {
    PlanSettle(
      p.run, p.steps, p.queue[1..], p.attempted + {p.run.definition.steps[p.queue[0]].tool.value}, p.queue[0], a)
  }

  /** The records, tools and walk after the head's block. */
  lemma AfterBlock(definition: Definition, spent: nat, p: Plan, w: seq<nat>, n: nat, a: Attempt)
    requires Settling(definition, spent, p, w, n, a) && a.Finished?
    ensures var tool := definition.steps[p.queue[0]].tool.value;
      && WithinPass(definition, spent, p.steps + a.records, p.attempted + {tool})
      && Used(p.steps + a.records) == Used(p.steps) + {tool}
      && Walk(definition, Used(p.steps + a.records), w) && |p.steps + a.records| <= Budget(definition, |w|)
      && Link(definition, {tool}, Some(p.queue[0]))
  {
    BlockWithin(definition, spent, p, p.queue[0], a);
    WalkMore(definition, Used(p.steps), Used(p.steps + a.records), w);
    PassFits(
      definition, spent, p.steps + a.records, p.attempted + {definition.steps[p.queue[0]].tool.value}, w);
  }

  lemma SuccessWalks(definition: Definition, spent: nat, p: Plan, w: seq<nat>, n: nat, a: Attempt)
    requires Settling(definition, spent, p, w, n, a) && a.Finished? && a.status == Success
    ensures Walking(definition, spent, Settled(p, a))
  {
    var steps, k := p.steps + a.records, p.queue[0];
    AfterBlock(definition, spent, p, w, n, a);
    StoreWalked(p.run, w, Queued, k + 1, steps);
    StartTried(definition, p, End(w), n, Used(steps));
    AdvanceUnderway(definition, spent, p, w, n, Settled(p, a));
  }

  /** A fallback that goes on keeps the walk and lengthens the chain. */
  lemma DetourUnderway(definition: Definition, spent: nat, p: Plan, w: seq<nat>, n: nat, q: Plan)
    requires Underway(definition, spent, p, w, n) && p.queue != [] && Usable(definition, p.queue[0])
    requires definition.steps[p.queue[0]].tool.value !in p.attempted && Next(definition, p.queue[0]).Some?
    requires q.Working? && ValidPlan(q) && q.run.definition == definition && Walked(q.run)
    requires q.queue == [Next(definition, p.queue[0]).value] + p.queue[1..]
    requires q.attempted == p.attempted + {definition.steps[p.queue[0]].tool.value}
    requires WithinPass(definition, spent, q.steps, q.attempted) && Walk(definition, Used(q.steps), w)
    ensures Underway(definition, spent, q, w, n + 1)
  {
    var k, c := p.queue[0], End(w);
    ChainGrows(definition, p.attempted, c, n, definition.steps[k].tool.value);
    assert p.queue[1..] == Range(c + 1, Limit(definition));
    assert Hop(definition, c, n + 1) == Next(definition, k);
  }

  lemma FailureWalks(definition: Definition, spent: nat, p: Plan, w: seq<nat>, n: nat, a: Attempt)
    requires Settling(definition, spent, p, w, n, a) && a.Finished? && a.status != Success && a.status != Pending
    ensures Walking(definition, spent, Settled(p, a))
  {
    var steps, k := p.steps + a.records, p.queue[0];
    AfterBlock(definition, spent, p, w, n, a);
    StoreWalked(p.run, w, Queued, k, steps);
    StoreWalked(p.run, w, Failed, k, steps);
    if Settled(p, a).Working? {
      DetourUnderway(definition, spent, p, w, n, Settled(p, a));
    }
  }

  lemma PauseMoves(definition: Definition, attempted: set<string>, used: set<string>, c: nat, n: nat, k: nat)
    requires c < Limit(definition) && Chain(definition, attempted, c, n) && Hop(definition, c, n) == Some(k)
    requires Usable(definition, k) && definition.steps[k].tool.value !in attempted
    requires attempted <= used && definition.steps[k].tool.value in used
    ensures Move(definition, used, c, k + 1)
  {
    var tool := definition.steps[k].tool.value;
    ChainGrows(definition, attempted, c, n, tool);
    ChainMore(definition, attempted + {tool}, used, c, n + 1);
    assert Lands(definition, used, c, n, k + 1);
  }

  lemma PauseWalked(run: Run, w: seq<nat>, k: nat, steps: seq<Record>)
    requires Walk(run.definition, Used(steps), w) && |steps| <= Budget(run.definition, |w|)
    requires Move(run.definition, Used(steps), End(w), k + 1)
    ensures Walked(Finish(run, Paused, k, steps, LastIndex(steps)))
  {
    WalkOn(run.definition, Used(steps), w, k + 1);
    TimesMore(|w|, |w| + 1, PerPass(run.definition));
    assert WalkOf(Finish(run, Paused, k, steps, LastIndex(steps)), w + [k + 1]);
  }

  lemma PauseWalks(definition: Definition, spent: nat, p: Plan, w: seq<nat>, n: nat, a: Attempt)
    requires Settling(definition, spent, p, w, n, a) && a.Finished? && a.status == Pending
    ensures Walking(definition, spent, Settled(p, a))
  {
    var steps, k := p.steps + a.records, p.queue[0];
    AfterBlock(definition, spent, p, w, n, a);
    PauseMoves(definition, p.attempted, Used(steps), End(w), n, k);
    PauseWalked(p.run, w, k, steps);
  }

  lemma StepWalks(env: Env, definition: Definition, spent: nat, p: Plan, w: seq<nat>, n: nat)
    requires Underway(definition, spent, p, w, n)
    ensures Walking(definition, spent, PlanStep(env, p))
  {
    if PlanStops(env, p).Some? {
      StopWalks(env, definition, spent, p, w, n);
    } else if definition.steps[p.queue[0]].tool.value in p.attempted {
      SkipWalks(env, definition, spent, p, w, n);
    } else {
      var a := StepSettles(env, p);
      if a.Aborted? {
      } else if a.status == Success {
        SuccessWalks(definition, spent, p, w, n, a);
      } else if a.status == Pending {
        PauseWalks(definition, spent, p, w, n, a);
      } else {
        FailureWalks(definition, spent, p, w, n, a);
      }
    }
  }

  lemma {:induction false} PassWalks(env: Env, definition: Definition, spent: nat, p: Plan)
    requires ValidPlan(p) && Walking(definition, spent, p)
    ensures Walked(PlanPass(env, p).run)
    decreases Unattempted(p), if p.Working? then |p.queue| + 1 else 0
  {
    if p.Working? {
      var w, n: nat :| Underway(definition, spent, p, w, n);
      StepWalks(env, definition, spent, p, w, n);
      PlanStepDecreases(env, p);
      PassWalks(env, definition, spent, PlanStep(env, p));
    }
  }

  // ----- every reachable run

  lemma ContinueWalks(env: Env, run: Run, steps: seq<Record>, w: seq<nat>)
    requires Walked(run) && Walk(run.definition, Used(steps), w) && |steps| <= Budget(run.definition, |w| - 1)
    ensures Walked(Continue(env, run, steps, End(w)).run)
  {
    if !run.definition.resultAware {
      var p := PlanFrom(run, steps, End(w));
      HeadingAt(run.definition, {}, End(w));
      assert Underway(run.definition, |steps|, p, w, 0);
      PassWalks(env, run.definition, |steps|, p);
    } else {
      AwarePassDefinition(env, Choosing(run, steps, None, 0));
    }
  }

  lemma {:induction false} AwarePassDefinition(env: Env, a: Aware)
    requires ValidAware(a) && (if a.Choosing? then a.run else a.outcome.run).definition.resultAware
    ensures AwarePass(env, a).run.definition.resultAware
    decreases Remaining(a)
  {
    if a.Choosing? { AwarePassDefinition(env, AwareStep(env, a)); }
  }

  lemma RestatusUsed(steps: seq<Record>, status: StepStatus)
    requires steps != []
    ensures Used(Restatus(steps, status)) == Used(steps)
  {
    var changed := Restatus(steps, status);
    forall t ensures t in Used(steps) <==> t in Used(changed) {
      if t in Used(steps) {
        var i :| 0 <= i < |steps| && steps[i].tool == t;
        assert changed[i].tool == t;
      }
    }
  }

  lemma ApprovedWalks(env: Env, run: Run, approver: string)
    requires Sound(false, run) && Walked(run) && run.status == Paused && approver != run.actor
    requires env.approve == Some(Success) && !run.definition.resultAware
    ensures Walked(ResumeRun(env, run, approver).run)
  {
    var w :| WalkOf(run, w);
    RestatusUsed(run.steps, Result(Success));
    ApprovalContinues(env, run, approver);
    ContinueWalks(env, run, Restatus(run.steps, Result(Success)), w);
  }

  /** Ending a run keeps its walk. */
  lemma EndWalks(run: Run, status: RunStatus, steps: seq<Record>)
    requires Walked(run) && Used(steps) == Used(run.steps) && |steps| == |run.steps|
    requires status != Paused && status != Completed
    ensures Walked(Finish(run, status, run.currentStep, steps, None))
  {
    if !run.definition.resultAware {
      var w :| WalkOf(run, w);
      StoreWalked(run, w, status, run.currentStep, steps);
    }
  }

  lemma ResumeWalks(env: Env, run: Run, approver: string)
    requires Sound(false, run) && Walked(run)
    ensures Walked(ResumeRun(env, run, approver).run)
  {
    if run.status == Paused && approver != run.actor && env.approve.Some? {
      if env.approve.value != Success {
        var steps := Restatus(run.steps, Result(env.approve.value));
        RestatusUsed(run.steps, Result(env.approve.value));
        EndWalks(run, if env.approve.value == Refused then Rejected else Failed, steps);
      } else if run.definition.resultAware {
        ApprovedKeeps(false, env, run, approver);
      } else {
        ApprovedWalks(env, run, approver);
      }
    }
  }

  lemma CancelWalks(env: Env, run: Run)
    requires Sound(false, run) && Walked(run)
    ensures Walked(CancelRun(env, run).run)
  {
    if run.status == Paused {
      RestatusUsed(run.steps, Withdrawn);
      EndWalks(run, Cancelled, Restatus(run.steps, Withdrawn));
    } else {
      EndWalks(run, Cancelled, run.steps);
    }
  }

  lemma NewWalks(env: Env, run: Run)
    requires run.status == Queued && run.steps == []
    ensures Walked(Continue(env, run, [], 0).run)
  {
    assert Used([]) == {};
    assert WalkOf(run, [0]);
    ContinueWalks(env, run, [], [0]);
  }

  lemma WalkedIsKept()
    ensures Kept(Walked)
  {
    forall env, definition, actor, count, of ensures Walked(Continue(env, NewRun(definition, actor, count, of), [], 0).run) {
      NewWalks(env, NewRun(definition, actor, count, of));
    }
    forall env, run, approver | Sound(false, run) && Walked(run) ensures Walked(ResumeRun(env, run, approver).run) {
      ResumeWalks(env, run, approver);
    }
    forall env, run | Sound(false, run) && Walked(run) ensures Walked(CancelRun(env, run).run) {
      CancelWalks(env, run);
    }
  }

  /** Main result: every reachable plan-order run follows a walk that uses only tools the run has tried. */
  lemma RunsFollowWalks(commands: seq<Command>, id: nat) returns (w: seq<nat>)
    requires id in Reached(commands).runs && !Reached(commands).runs[id].definition.resultAware
    ensures WalkOf(Reached(commands).runs[id], w)
  {
    WalkedIsKept();
    KeptEverywhere(Walked, commands);
    w :| WalkOf(Reached(commands).runs[id], w);
  }
}
