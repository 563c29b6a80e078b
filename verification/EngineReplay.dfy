/**
 Every walk is followed by some run: an environment that fails the tools of each fallback chain but
 the last, leaves that one pending, and approves it makes a run pause and resume along the walk.
 */
module EngineReplay {
  import opened Text
  import opened Engine
  import opened EngineTheorems
  import opened EngineRuns
  import opened EnginePlan
  import opened EngineWalks

  /** An environment that answers by tool alone, never expires and approves everything. */
  function Scripted(failing: set<string>, pausing: set<string>): Env {
    Env(
      (t: nat, tool: string) =>
        if tool in failing then Answers(Failure) else if tool in pausing then Answers(Pending) else Answers(Success),
      (t: nat) => false, (t: nat) => None, Some(Success), true)
  }

  /** The position at the head can run now. */
  predicate AtHead(p: Plan, k: nat, tool: string) {
    && p.Working? && ValidPlan(p) && p.queue != [] && p.queue[0] == k
    && Usable(p.run.definition, k) && HasTool(p.run.definition, k, tool) && tool !in p.attempted
  }

  lemma UsedOne(steps: seq<Record>, r: Record)
    ensures Used(steps + [r]) == Used(steps) + {r.tool}
  {
    UsedConcat(steps, [r]);
    assert [r][0].tool in Used([r]);
  }

  /** A failing tool with a fallback that is new hands over to it. */
  lemma FailOne(failing: set<string>, pausing: set<string>, p: Plan, k: nat, tool: string, j: nat, next: string) returns (q: Plan)
    requires AtHead(p, k, tool) && tool in failing && Next(p.run.definition, k) == Some(j)
    requires HasTool(p.run.definition, j, next) && next !in p.attempted + {tool}
    ensures q.Working? && ValidPlan(q) && q.run.definition == p.run.definition
    ensures q.queue == [j] + p.queue[1..] && q.attempted == p.attempted + {tool}
    ensures Used(q.steps) == Used(p.steps) + {tool} && |q.steps| > |p.steps|
    ensures PlanPass(Scripted(failing, pausing), p) == PlanPass(Scripted(failing, pausing), q)
  {
    var env, step := Scripted(failing, pausing), p.run.definition.steps[k];
    var r := Record(k + 0, tool, 0, Result(Failure));
    assert env.invoke(p.clock + 1, tool) == Answers(Failure);
    assert Attempts(env, p.clock + 1, tool, step.policy, k, 0)
        == Finished([r], Failure, FallBack(Target(step.policy)), p.clock + 2);
    UsedOne(p.steps, r);
    q := PlanStep(env, p);
  }

  /** The run waits at position `k`, having added records of `tools` only to `steps`. */
  predicate Waits(run: Run, k: nat, steps: seq<Record>, tools: set<string>) {
    run.status == Paused && run.currentStep == k && Used(run.steps) <= Used(steps) + tools && |run.steps| > |steps|
  }

  lemma PauseOne(failing: set<string>, pausing: set<string>, p: Plan, k: nat, tool: string)
    requires AtHead(p, k, tool) && tool !in failing && tool in pausing
    ensures Waits(PlanPass(Scripted(failing, pausing), p).run, k, p.steps, {tool})
  {
    var env, step := Scripted(failing, pausing), p.run.definition.steps[k];
    var r := Record(k + 0, tool, 0, Result(Pending));
    assert env.invoke(p.clock + 1, tool) == Answers(Pending);
    assert Attempts(env, p.clock + 1, tool, step.policy, k, 0) == Finished([r], Pending, NoDirective, p.clock + 2);
    UsedOne(p.steps, r);
    assert PlanPass(env, p) == PlanPass(env, PlanStep(env, p));
  }

  // ----- one move

  function HopTool(definition: Definition, s: nat, m: nat): Option<string>
    requires s < |definition.steps|
  {
    var k := Hop(definition, s, m);
    if k.Some? then definition.steps[k.value].tool else None
  }

  /** The tools of the first `n` positions of the chain from `s`. */
  function ChainTools(definition: Definition, s: nat, n: nat): set<string>
    requires s < |definition.steps|
  {
    if n == 0 then {}
    else
      var tool := HopTool(definition, s, n - 1);
      ChainTools(definition, s, n - 1) + if tool.Some? then {tool.value} else {}
  }

  lemma {:induction false} InChain(definition: Definition, tools: set<string>, s: nat, n: nat, m: nat, l: nat)
    requires s < |definition.steps| && Chain(definition, tools, s, n) && m <= n && l < n
    ensures HopTool(definition, s, l).Some? && HopTool(definition, s, l).value in tools
    ensures HopTool(definition, s, l).value in ChainTools(definition, s, m) <==> l < m
  {
    assert Link(definition, tools, Hop(definition, s, l));
    if m > 0 {
      InChain(definition, tools, s, n, m - 1, l);
      assert Link(definition, tools, Hop(definition, s, m - 1));
      assert l < m - 1 ==> OtherTool(definition, Hop(definition, s, l), Hop(definition, s, m - 1));
      assert m - 1 < l ==> OtherTool(definition, Hop(definition, s, m - 1), Hop(definition, s, l));
    }
  }

  /** The pass is at the `m`-th position of the chain from `s`. */
  ghost predicate OnChain(definition: Definition, p: Plan, s: nat, m: nat)
    requires s < |definition.steps|
  {
    && p.Working? && ValidPlan(p) && p.run.definition == definition && p.queue != []
    && Hop(definition, s, m) == Some(p.queue[0]) && p.attempted == ChainTools(definition, s, m)
  }

  lemma ChainHead(definition: Definition, p: Plan, tools: set<string>, s: nat, m: nat, n: nat) returns (tool: string)
    requires s < |definition.steps| && OnChain(definition, p, s, m) && Chain(definition, tools, s, n) && m < n
    ensures AtHead(p, p.queue[0], tool) && HopTool(definition, s, m) == Some(tool) && tool in tools
  {
    InChain(definition, tools, s, n, m, m);
    assert Link(definition, tools, Hop(definition, s, m));
    tool := HopTool(definition, s, m).value;
  }

  /** The fallback after the `m`-th position of a longer chain. */
  lemma ChainNext(definition: Definition, tools: set<string>, s: nat, m: nat, n: nat) returns (j: nat, next: string)
    requires s < |definition.steps| && Chain(definition, tools, s, n + 1) && m < n
    ensures Hop(definition, s, m + 1) == Some(j) && HasTool(definition, j, next)
    ensures next !in ChainTools(definition, s, m + 1)
    ensures Hop(definition, s, m).Some? && Next(definition, Hop(definition, s, m).value) == Some(j)
  {
    InChain(definition, tools, s, n + 1, m + 1, m + 1);
    assert Link(definition, tools, Hop(definition, s, m + 1));
    j, next := Hop(definition, s, m + 1).value, HopTool(definition, s, m + 1).value;
  }

  /** All but the last tool of the chain fail, and the last one pauses the run. */
  ghost predicate Script(definition: Definition, failing: set<string>, pausing: set<string>, s: nat, n: nat)
    requires s < |definition.steps|
  {
    failing == ChainTools(definition, s, n) && HopTool(definition, s, n).Some? && pausing == {HopTool(definition, s, n).value}
  }

  lemma ChainOne(
      definition: Definition, failing: set<string>, pausing: set<string>, p: Plan, tools: set<string>, s: nat, m: nat, n: nat)
    returns (q: Plan)
    requires s < |definition.steps| && OnChain(definition, p, s, m) && Chain(definition, tools, s, n + 1) && m < n
    requires failing == ChainTools(definition, s, n)
    ensures OnChain(definition, q, s, m + 1)
    ensures Used(q.steps) <= Used(p.steps) + tools && |q.steps| > |p.steps|
    ensures PlanPass(Scripted(failing, pausing), p) == PlanPass(Scripted(failing, pausing), q)
  {
    var tool := ChainHead(definition, p, tools, s, m, n + 1);
    var j, next := ChainNext(definition, tools, s, m, n);
    InChain(definition, tools, s, n + 1, n, m);
    assert ChainTools(definition, s, m + 1) == p.attempted + {tool};
    q := FailOne(failing, pausing, p, p.queue[0], tool, j, next);
  }

  lemma ChainRide(
      definition: Definition, failing: set<string>, pausing: set<string>, p: Plan, tools: set<string>, s: nat, n: nat)
    returns (q: Plan)
    requires s < |definition.steps| && OnChain(definition, p, s, 0) && Chain(definition, tools, s, n + 1)
    requires failing == ChainTools(definition, s, n)
    ensures OnChain(definition, q, s, n) && Used(q.steps) <= Used(p.steps) + tools && |q.steps| >= |p.steps|
    ensures PlanPass(Scripted(failing, pausing), p) == PlanPass(Scripted(failing, pausing), q)
  {
    q := p;
    for m := 0 to n
      invariant OnChain(definition, q, s, m) && Used(q.steps) <= Used(p.steps) + tools && |q.steps| >= |p.steps|
      invariant PlanPass(Scripted(failing, pausing), p) == PlanPass(Scripted(failing, pausing), q)
    {
      q := ChainOne(definition, failing, pausing, q, tools, s, m, n);
    }
  }

  lemma ChainEnds(
      definition: Definition, failing: set<string>, pausing: set<string>, q: Plan, tools: set<string>, s: nat, n: nat)
    requires s < |definition.steps| && OnChain(definition, q, s, n) && Chain(definition, tools, s, n + 1)
    requires Script(definition, failing, pausing, s, n)
    ensures Waits(PlanPass(Scripted(failing, pausing), q).run, q.queue[0], q.steps, tools)
  {
    var tool := ChainHead(definition, q, tools, s, n, n + 1);
    InChain(definition, tools, s, n + 1, n, n);
    PauseOne(failing, pausing, q, q.queue[0], tool);
  }

  lemma StartOnChain(run: Run, steps: seq<Record>, s: nat)
    requires s < Limit(run.definition)
    ensures OnChain(run.definition, PlanFrom(run, steps, s), s, 0)
  {
    RangeStep(s, Limit(run.definition));
    assert Hop(run.definition, s, 0) == Some(s);
  }

  /** A pass can be made to pause wherever the graph has a move to. */
  lemma ReplayMove(run: Run, steps: seq<Record>, tools: set<string>, s: nat, t: nat) returns (env: Env)
    requires Move(run.definition, tools, s, t) && !run.definition.resultAware
    ensures env.approve == Some(Success)
    ensures t > 0 && Waits(Continue(env, run, steps, s).run, t - 1, steps, tools)
  {
    var definition := run.definition;
    var n: nat :| Lands(definition, tools, s, n, t);
    InChain(definition, tools, s, n + 1, 0, n);
    var failing, pausing := ChainTools(definition, s, n), {HopTool(definition, s, n).value};
    env := Scripted(failing, pausing);
    StartOnChain(run, steps, s);
    var q := ChainRide(definition, failing, pausing, PlanFrom(run, steps, s), tools, s, n);
    ChainEnds(definition, failing, pausing, q, tools, s, n);
  }

  // ----- whole walks

  lemma AppliedLast(commands: seq<Command>, c: Command)
    ensures Reached(commands + [c]) == Apply(Reached(commands), c)
  {
    assert (commands + [c])[..|commands|] == commands;
  }

  /** Run 0 has followed the walk and waits at its end. */
  ghost predicate Replayed(commands: seq<Command>, definition: Definition, tools: set<string>, w: seq<nat>)
    requires w != []
  {
    && 0 in Reached(commands).runs
    && var run := Reached(commands).runs[0];
       && run.definition == definition && run.actor == "requester"
       && run.status == Paused && run.currentStep + 1 == End(w)
       && Used(run.steps) <= tools && run.steps != [] && |run.steps| >= |w| - 1
  }

  lemma ReplayStart(definition: Definition, tools: set<string>, w: seq<nat>) returns (commands: seq<Command>)
    requires Walk(definition, tools, w) && |w| == 2 && !definition.resultAware
    ensures Replayed(commands, definition, tools, w)
  {
    var run := NewRun(definition, "requester", 0, None);
    assert Used([]) == {};
    assert Move(definition, tools, w[0], w[0 + 1]);
    var env := ReplayMove(run, [], tools, w[0], w[1]);
    NewRunSound(false, definition, "requester", 0, None);
    ContinueKeeps(false, env, run, [], 0);
    var c := Start(env, definition, "requester", true);
    AppliedLast([], c);
    commands := [] + [c];
  }

  /** A resume of the waiting run goes on where the walk ends. */
  lemma ResumedReplay(
      commands: seq<Command>, definition: Definition, tools: set<string>, w: seq<nat>, env: Env) returns (steps: seq<Record>)
    requires w != [] && Replayed(commands, definition, tools, w) && env.approve == Some(Success)
    ensures var run, c := Reached(commands).runs[0], Resume(env, 0, "approver");
      && steps == Restatus(run.steps, Result(Success))
      && 0 in Reached(commands + [c]).runs
      && Reached(commands + [c]).runs[0] == Continue(env, run, steps, End(w)).run
      && SameIdentity(run, Reached(commands + [c]).runs[0])
      && Used(steps) <= tools && |steps| == |run.steps|
  {
    var run, c := Reached(commands).runs[0], Resume(env, 0, "approver");
    ReachableOk(commands);
    assert "requester"[0] != "approver"[0];
    ApprovalContinues(env, run, "approver");
    ApprovedKeeps(false, env, run, "approver");
    RestatusUsed(run.steps, Result(Success));
    AppliedLast(commands, c);
    steps := Restatus(run.steps, Result(Success));
  }

  lemma ReplayOn(commands: seq<Command>, definition: Definition, tools: set<string>, w: seq<nat>, t: nat) returns (longer: seq<Command>)
    requires w != [] && Replayed(commands, definition, tools, w) && !definition.resultAware
    requires Move(definition, tools, End(w), t)
    ensures Replayed(longer, definition, tools, w + [t])
  {
    var run := Reached(commands).runs[0];
    var env := ReplayMove(run, Restatus(run.steps, Result(Success)), tools, End(w), t);
    var steps := ResumedReplay(commands, definition, tools, w, env);
    longer := commands + [Resume(env, 0, "approver")];
  }

  /** Main result: every walk with a move is the walk of some reachable run that waits at its end. */
  lemma {:induction false} WalksAreFollowed(definition: Definition, tools: set<string>, w: seq<nat>) returns (commands: seq<Command>)
    requires Walk(definition, tools, w) && |w| > 1 && !definition.resultAware
    ensures Replayed(commands, definition, tools, w)
    decreases |w|
  {
    if |w| == 2 {
      commands := ReplayStart(definition, tools, w);
    } else {
      var n := |w| - 1;
      var init := w[..n];
      assert Move(definition, tools, w[n - 1], w[n - 1 + 1]);
      forall i | 0 <= i < |init| - 1 ensures Move(definition, tools, init[i], init[i + 1]) {
        assert Move(definition, tools, w[i], w[i + 1]);
      }
      var before := WalksAreFollowed(definition, tools, init);
      commands := ReplayOn(before, definition, tools, init, w[n]);
      assert init + [w[n]] == w;
    }
  }

  /** A walk past the plan is the walk of a completed run. */
  lemma PastWalksComplete(definition: Definition, tools: set<string>, w: seq<nat>) returns (commands: seq<Command>)
    requires Walk(definition, tools, w) && |w| > 1 && !definition.resultAware && End(w) >= Limit(definition)
    ensures 0 in Reached(commands).runs
    ensures var run := Reached(commands).runs[0];
      run.definition == definition && run.status == Completed && Used(run.steps) <= tools
  {
    var before := WalksAreFollowed(definition, tools, w);
    var run, env := Reached(before).runs[0], Scripted({}, {});
    var steps := ResumedReplay(before, definition, tools, w, env);
    var p := PlanFrom(run, steps, End(w));
    assert p.queue == [] && PlanPass(env, p) == PlanPass(env, PlanStep(env, p));
    commands := before + [Resume(env, 0, "approver")];
  }
}
