/** Validation of failure policies: field checks, the last-wins fallback map, and its cycle check. */
module Policies {
  import opened Text
  import opened Engine
  import opened EngineTheorems
  import opened EngineWalks

  /**
   A field of the policy object: missing, of the expected type, or of another type. An explicit null
   counts as another type for mode and max_retries and as missing for fallback_tool_id.
   */
  datatype Field<T> = Missing | Given(value: T) | Mistyped

  datatype RawPolicy =
    | Absent
    | NotAnObject
    | Object(extraKeys: bool, mode: Field<string>, maxRetries: Field<int>, fallback: Field<string>)

  datatype RawStep = RawStep(tool: Option<string>, payloadIsObject: bool, policy: RawPolicy)

  function ParseMode(mode: string): Option<Mode> {
    if mode == "stop" then Some(Stop)
    else if mode == "retry" then Some(Retry)
    else if mode == "fallback" then Some(Fallback)
    else if mode == "human_input" then Some(HumanInput)
    else if mode == "technician_escalation" then Some(TechnicianEscalation)
    else if mode == "blocked" then Some(Blocked)
    else None
  }

  /** `raw.get("mode", "stop")`, when it names a supported mode. */
  function ModeOf(raw: RawPolicy): Option<Mode>
    requires raw.Object?
  {
    match raw.mode
    case Missing => Some(Stop)
    case Given(m) => ParseMode(m)
    case Mistyped => None
  }

  function RetriesOf(raw: RawPolicy): int
    requires raw.Object?
  {
    if raw.maxRetries.Given? then raw.maxRetries.value else 0
  }

  /** All the checks that look at one step. */
  predicate StepAccepted(step: RawStep, configured: set<string>, enabled: set<string>) {
    match step.policy
    case Absent => true
    case NotAnObject => false
    case Object(extraKeys, mode, maxRetries, fallback) =>
      && !extraKeys && step.tool.Some? && ModeOf(step.policy).Some?
      && !maxRetries.Mistyped? && 0 <= RetriesOf(step.policy) <= MAX_STEP_RETRIES
      && !fallback.Mistyped? && (fallback.Given? ==> !IsBlank(fallback.value))
      && (ModeOf(step.policy) == Some(Retry) <==> RetriesOf(step.policy) >= 1)
      && (ModeOf(step.policy) == Some(Fallback) <==> fallback.Given?)
      && (fallback.Given? ==>
            Some(fallback.value) != step.tool && fallback.value in enabled && fallback.value in configured)
  }

  function ConfiguredTools(steps: seq<RawStep>): set<string> {
    set i | 0 <= i < |steps| && steps[i].tool.Some? :: steps[i].tool.value
  }

  predicate DeclaresFallback(step: RawStep) {
    step.tool.Some? && step.policy.Object? && ModeOf(step.policy) == Some(Fallback) && step.policy.fallback.Given?
  }

  /** Later steps overwrite earlier ones for the same tool. */
  function FallbackGraph(steps: seq<RawStep>): map<string, string> {
    if steps == [] then map[] else
      var rest, last := FallbackGraph(steps[..|steps| - 1]), steps[|steps| - 1];
      if DeclaresFallback(last) then rest[last.tool.value := last.policy.fallback.value] else rest
  }

  /** The tool `n` fallbacks after `tool`. */
  function Follow(graph: map<string, string>, tool: string, n: nat): Option<string> {
    if n == 0 then Some(tool)
    else
      var previous := Follow(graph, tool, n - 1);
      if previous.Some? && previous.value in graph then Some(graph[previous.value]) else None
  }

  ghost predicate Acyclic(graph: map<string, string>) {
    forall tool, n: nat :: n > 0 ==> Follow(graph, tool, n) != Some(tool)
  }

  /** The chain from `tool` reaches a tool without a fallback within `bound` hops. */
  ghost predicate EndsWithin(graph: map<string, string>, tool: string, bound: nat) {
    exists n: nat :: n <= bound && Follow(graph, tool, n).Some? && Follow(graph, tool, n).value !in graph
  }

  ghost predicate Leads(graph: map<string, string>, from: string, to: string) {
    exists n: nat :: n > 0 && Follow(graph, from, n) == Some(to)
  }

  lemma {:induction false} FollowFirst(graph: map<string, string>, tool: string, n: nat)
    requires tool in graph
    ensures Follow(graph, tool, n + 1) == Follow(graph, graph[tool], n)
  {
    if n > 0 { FollowFirst(graph, tool, n - 1); }
  }

  lemma LeadsOn(graph: map<string, string>, from: string, to: string)
    requires Leads(graph, from, to) && to in graph
    ensures Leads(graph, from, graph[to])
  {
    var n: nat :| n > 0 && Follow(graph, from, n) == Some(to);
    assert Follow(graph, from, n + 1) == Some(graph[to]);
  }

  /** `visit`: walks the map with the set of tools on the current path. */
  method Visit(graph: map<string, string>, tool: string, visiting: set<string>) returns (ok: bool)
    requires visiting <= graph.Keys && forall v :: v in visiting ==> Leads(graph, v, tool)
    ensures ok ==> EndsWithin(graph, tool, |graph.Keys - visiting|)
    ensures !ok ==> !Acyclic(graph)
    decreases |graph.Keys - visiting|
  {
    if tool !in graph {
      assert Follow(graph, tool, 0) == Some(tool);
      return true;
    }
    if tool in visiting {
      return false;
    }
    var wider := visiting + {tool};
    assert graph.Keys - wider == (graph.Keys - visiting) - {tool};
    assert Follow(graph, tool, 0) == Some(tool);
    assert Follow(graph, tool, 1) == Some(graph[tool]);
    forall v | v in visiting ensures Leads(graph, v, graph[tool]) {
      LeadsOn(graph, v, tool);
    }
    ok := Visit(graph, graph[tool], wider);
    if ok {
      var n: nat :| n <= |graph.Keys - wider| && Follow(graph, graph[tool], n).Some? && Follow(graph, graph[tool], n).value !in graph;
      FollowFirst(graph, tool, n);
    }
  }

  lemma {:induction false} FollowSum(graph: map<string, string>, tool: string, a: nat, b: nat)
    requires Follow(graph, tool, a).Some?
    ensures Follow(graph, tool, a + b) == Follow(graph, Follow(graph, tool, a).value, b)
  {
    if b > 0 { FollowSum(graph, tool, a, b - 1); }
  }

  lemma {:induction false} FollowBefore(graph: map<string, string>, tool: string, m: nat, n: nat)
    requires m < n && Follow(graph, tool, n).Some?
    ensures Follow(graph, tool, m).Some? && Follow(graph, tool, m).value in graph
    decreases n
  {
    if m + 1 < n { FollowBefore(graph, tool, m, n - 1); }
  }

  lemma {:induction false} CycleNeverEnds(graph: map<string, string>, tool: string, n: nat, m: nat)
    requires n > 0 && Follow(graph, tool, n) == Some(tool)
    ensures Follow(graph, tool, m).Some? && Follow(graph, tool, m).value in graph
    decreases m
  {
    if m < n {
      FollowBefore(graph, tool, m, n);
    } else {
      FollowSum(graph, tool, n, m - n);
      CycleNeverEnds(graph, tool, n, m - n);
    }
  }

  lemma EndingIsAcyclic(graph: map<string, string>)
    requires forall tool :: tool in graph ==> EndsWithin(graph, tool, |graph|)
    ensures Acyclic(graph)
  {
    forall tool, n: nat | n > 0 ensures Follow(graph, tool, n) != Some(tool) {
      if Follow(graph, tool, n) == Some(tool) {
        FollowBefore(graph, tool, 0, n);
        var m: nat :| m <= |graph| && Follow(graph, tool, m).Some? && Follow(graph, tool, m).value !in graph;
        CycleNeverEnds(graph, tool, n, m);
        assert false;
      }
    }
  }

  ghost predicate FirstEnd(graph: map<string, string>, tools: seq<string>, n: nat) {
    forall j :: 0 <= j < n <= |tools| ==> EndsWithin(graph, tools[j], |graph|)
  }

  lemma AllListedEnd(graph: map<string, string>, tools: seq<string>)
    requires (forall tool :: tool in graph ==> tool in tools) && FirstEnd(graph, tools, |tools|)
    ensures Acyclic(graph)
  {
    EndingIsAcyclic(graph);
  }

  lemma OneMoreEnds(graph: map<string, string>, tools: seq<string>, n: nat)
    requires n < |tools| && FirstEnd(graph, tools, n) && EndsWithin(graph, tools[n], |graph.Keys - {}|)
    ensures FirstEnd(graph, tools, n + 1)
  {
    assert graph.Keys - {} == graph.Keys;
  }

  /** The cycle check accepts exactly the acyclic maps. */
  method CheckFallbacks(graph: map<string, string>) returns (ok: bool)
    ensures ok <==> Acyclic(graph)
  {
    var tools := Sorted(graph.Keys);
    for i := 0 to |tools|
      invariant FirstEnd(graph, tools, i)
    {
      ok := Visit(graph, tools[i], {});
      if !ok {
        return;
      }
      OneMoreEnds(graph, tools, i);
    }
    AllListedEnd(graph, tools);
    ok := true;
  }

  /** `_validate_failure_policies`: true where the source returns, false where it raises. */
  method ValidateFailurePolicies(steps: seq<RawStep>, enabled: set<string>) returns (ok: bool)
    ensures ok <==> Accepted(steps, enabled)
  {
    var graph: map<string, string> := map[];
    for i := 0 to |steps|
      invariant forall j :: 0 <= j < i ==> StepAccepted(steps[j], ConfiguredTools(steps), enabled)
      invariant graph == FallbackGraph(steps[..i])
    {
      if !StepAccepted(steps[i], ConfiguredTools(steps), enabled) {
        return false;
      }
      if DeclaresFallback(steps[i]) {
        graph := graph[steps[i].tool.value := steps[i].policy.fallback.value];
      }
      assert steps[..i + 1][..i] == steps[..i];
    }
    assert steps[..|steps|] == steps;
    ok := CheckFallbacks(graph);
  }

  ghost predicate Accepted(steps: seq<RawStep>, enabled: set<string>) {
    && (forall i :: 0 <= i < |steps| ==> StepAccepted(steps[i], ConfiguredTools(steps), enabled))
    && Acyclic(FallbackGraph(steps))
  }

  // ----- chains are short

  lemma {:induction false} GraphKeys(steps: seq<RawStep>, tool: string)
    requires tool in FallbackGraph(steps)
    ensures exists i :: 0 <= i < |steps| && DeclaresFallback(steps[i]) && steps[i].tool == Some(tool)
              && FallbackGraph(steps)[tool] == steps[i].policy.fallback.value
  {
    var n := |steps| - 1;
    if DeclaresFallback(steps[n]) && steps[n].tool == Some(tool) {
    } else {
      GraphKeys(steps[..n], tool);
      var i :| 0 <= i < n && DeclaresFallback(steps[..n][i]) && steps[..n][i].tool == Some(tool)
               && FallbackGraph(steps[..n])[tool] == steps[..n][i].policy.fallback.value;
      assert steps[i] == steps[..n][i];
    }
  }

  lemma {:induction false} ConfiguredCount(steps: seq<RawStep>)
    ensures |ConfiguredTools(steps)| <= |steps|
  {
    if steps != [] {
      var n := |steps| - 1;
      ConfiguredCount(steps[..n]);
      var last := if steps[n].tool.Some? then {steps[n].tool.value} else {};
      assert ConfiguredTools(steps) == ConfiguredTools(steps[..n]) + last by {
        forall t ensures t in ConfiguredTools(steps) <==> t in ConfiguredTools(steps[..n]) + last {
          if t in ConfiguredTools(steps[..n]) {
            var i :| 0 <= i < n && steps[..n][i].tool == Some(t);
            assert steps[i].tool == Some(t);
          }
          if t in ConfiguredTools(steps) && t !in last {
            var i :| 0 <= i < |steps| && steps[i].tool == Some(t);
            assert steps[..n][i].tool == Some(t);
          }
        }
      }
    }
  }

  lemma GraphTargets(steps: seq<RawStep>, enabled: set<string>, tool: string)
    requires Accepted(steps, enabled) && tool in FallbackGraph(steps)
    ensures tool in ConfiguredTools(steps)
    ensures FallbackGraph(steps)[tool] in ConfiguredTools(steps) && FallbackGraph(steps)[tool] in enabled
  {
    GraphKeys(steps, tool);
  }

  lemma {:induction false} AcyclicEnds(graph: map<string, string>, tool: string, visited: set<string>)
    requires Acyclic(graph) && visited <= graph.Keys && forall v :: v in visited ==> Leads(graph, v, tool)
    ensures EndsWithin(graph, tool, |graph.Keys - visited|)
    decreases |graph.Keys - visited|
  {
    assert Follow(graph, tool, 0) == Some(tool);
    if tool in graph {
      assert tool !in visited;
      var wider := visited + {tool};
      assert graph.Keys - wider == (graph.Keys - visited) - {tool};
      assert Follow(graph, tool, 1) == Some(graph[tool]);
      forall v | v in visited ensures Leads(graph, v, graph[tool]) {
        LeadsOn(graph, v, tool);
      }
      AcyclicEnds(graph, graph[tool], wider);
      var n: nat :| n <= |graph.Keys - wider| && Follow(graph, graph[tool], n).Some? && Follow(graph, graph[tool], n).value !in graph;
      FollowFirst(graph, tool, n);
    }
  }

  /** An accepted chain of fallbacks reaches a configured, enabled tool without a fallback in fewer hops than there are steps. */
  lemma AcceptedChainsEnd(steps: seq<RawStep>, enabled: set<string>, tool: string) returns (n: nat)
    requires Accepted(steps, enabled) && tool in FallbackGraph(steps)
    ensures var graph := FallbackGraph(steps);
      && n < |steps| && Follow(graph, tool, n).Some? && Follow(graph, tool, n).value !in graph
      && Follow(graph, tool, n).value in ConfiguredTools(steps) && Follow(graph, tool, n).value in enabled
  {
    var graph := FallbackGraph(steps);
    AcyclicEnds(graph, tool, {});
    assert graph.Keys - {} == graph.Keys;
    n :| n <= |graph| && Follow(graph, tool, n).Some? && Follow(graph, tool, n).value !in graph;
    assert n > 0;
    FollowBefore(graph, tool, n - 1, n);
    var end := Follow(graph, tool, n).value;
    GraphTargets(steps, enabled, Follow(graph, tool, n - 1).value);
    ConfiguredCount(steps);
    forall t | t in graph ensures t in ConfiguredTools(steps) - {end} {
      GraphTargets(steps, enabled, t);
    }
    SmallerSet(graph.Keys, ConfiguredTools(steps) - {end});
  }

  // ----- what the engine may rely on

  /** The mode an engine step runs with: what is stored, known or not, or stop. */
  function DecodeMode(mode: Field<string>): Mode {
    match mode
    case Given(m) => if ParseMode(m).Some? then ParseMode(m).value else Other(m)
    case _ => Stop
  }

  /** `_step_failure_policy` */
  function Decode(step: RawStep): ConfiguredStep {
    var policy :=
      match step.policy
      case Object(_, mode, maxRetries, fallback) =>
        Policy(
          DecodeMode(mode), if maxRetries.Given? then maxRetries.value else 0,
          if fallback.Given? then Some(fallback.value) else None)
      case _ => Policy(Stop, 0, None);
    ConfiguredStep(step.tool, step.payloadIsObject, policy)
  }

  function ModeText(mode: Mode): string {
    match mode
    case Stop => "stop"
    case Retry => "retry"
    case Fallback => "fallback"
    case HumanInput => "human_input"
    case TechnicianEscalation => "technician_escalation"
    case Blocked => "blocked"
    case Other(name) => name
  }

  /** Decoding loses no stored mode, and the engine acts on a mode exactly when its text is the one the source compares with. */
  lemma DecodeKeepsMode(step: RawStep)
    ensures var mode := Decode(step).policy.mode;
      && ModeText(mode) == (if step.policy.Object? && step.policy.mode.Given? then step.policy.mode.value else "stop")
      && (mode == Stop <==> ModeText(mode) == "stop") && (mode == Retry <==> ModeText(mode) == "retry")
      && (mode == Fallback <==> ModeText(mode) == "fallback")
  {}

  function Decoded(steps: seq<RawStep>, enabled: set<string>, maxSteps: int, resultAware: bool): Definition {
    Definition(seq(|steps|, i requires 0 <= i < |steps| => Decode(steps[i])), enabled, maxSteps, resultAware)
  }

  lemma {:induction false} RetriesBounded(definition: Definition, from: nat, bound: nat)
    requires from <= |definition.steps|
    requires forall i :: 0 <= i < |definition.steps| ==> definition.steps[i].policy.maxRetries <= bound
    ensures MaxRetries(definition, from) <= bound
    decreases |definition.steps| - from
  {
    if from < |definition.steps| { RetriesBounded(definition, from + 1, bound); }
  }

  /** Accepted definitions retry a step at most three times, and every fallback names a configured enabled step. */
  lemma AcceptedDefinition(steps: seq<RawStep>, enabled: set<string>, maxSteps: int, resultAware: bool)
    requires Accepted(steps, enabled)
    ensures var definition := Decoded(steps, enabled, maxSteps, resultAware);
      && MaxRetries(definition, 0) <= MAX_STEP_RETRIES
      && forall k :: 0 <= k < |steps| && definition.steps[k].policy.mode == Fallback ==>
           Next(definition, k).Some? && Target(definition.steps[k].policy) in enabled
  {
    var definition := Decoded(steps, enabled, maxSteps, resultAware);
    forall i | 0 <= i < |steps| ensures definition.steps[i].policy.maxRetries <= MAX_STEP_RETRIES {
      assert StepAccepted(steps[i], ConfiguredTools(steps), enabled);
    }
    RetriesBounded(definition, 0, MAX_STEP_RETRIES);
    forall k | 0 <= k < |steps| && definition.steps[k].policy.mode == Fallback
      ensures Next(definition, k).Some? && Target(definition.steps[k].policy) in enabled
    {
      assert StepAccepted(steps[k], ConfiguredTools(steps), enabled);
      var i :| 0 <= i < |steps| && steps[i].tool == Some(steps[k].policy.fallback.value);
      assert HasTool(definition, i, Target(definition.steps[k].policy));
    }
  }

  // ----- the validator and the decoder agree

  /** A decoded policy that makes sense: its mode is known, and it has what its mode needs and nothing else. */
  predicate Coherent(step: ConfiguredStep, configured: set<string>, enabled: set<string>) {
    var Policy(mode, maxRetries, fallback) := step.policy;
    match mode
    case Other(_) => false
    case Retry => 1 <= maxRetries <= 3 && fallback.None?
    case Fallback =>
      && maxRetries == 0 && fallback.Some? && !IsBlank(fallback.value) && fallback != step.tool
      && fallback.value in enabled && fallback.value in configured
    case _ => maxRetries == 0 && fallback.None?
  }

  /** A step is accepted exactly when it has no policy, or a well-typed one that decodes to something coherent. */
  lemma AcceptedIffCoherent(step: RawStep, configured: set<string>, enabled: set<string>)
    ensures StepAccepted(step, configured, enabled) <==>
      || step.policy.Absent?
      || (&& step.policy.Object? && !step.policy.extraKeys && step.tool.Some?
          && !step.policy.mode.Mistyped? && !step.policy.maxRetries.Mistyped? && !step.policy.fallback.Mistyped?
          && Coherent(Decode(step), configured, enabled))
  {}

  predicate Declares(step: RawStep, tool: string, fallback: string) {
    step.tool == Some(tool) && Decode(step).policy == Policy(Fallback, RetriesOfDecoded(step), Some(fallback))
  }

  function RetriesOfDecoded(step: RawStep): int {
    Decode(step).policy.maxRetries
  }

  /** Step `i` is the last one to declare a fallback for the tool. */
  ghost predicate DeclaredLast(steps: seq<RawStep>, tool: string, fallback: string, i: nat) {
    && i < |steps| && Declares(steps[i], tool, fallback)
    && forall j, other :: i < j < |steps| ==> !Declares(steps[j], tool, other)
  }

  /** The last declaration wins, and there are no others. */
  lemma {:induction false} GraphExactly(steps: seq<RawStep>, tool: string, fallback: string)
    ensures tool in FallbackGraph(steps) && FallbackGraph(steps)[tool] == fallback <==>
      exists i :: DeclaredLast(steps, tool, fallback, i)
  {
    if steps != [] {
      var n := |steps| - 1;
      var init, last := steps[..n], steps[n];
      GraphExactly(init, tool, fallback);
      if i: nat :| DeclaredLast(init, tool, fallback, i) && forall other :: !Declares(last, tool, other) {
        assert DeclaredLast(steps, tool, fallback, i);
      }
      if i: nat :| DeclaredLast(steps, tool, fallback, i) {
        if i < n { assert DeclaredLast(init, tool, fallback, i); }
      }
      if Declares(last, tool, fallback) { assert DeclaredLast(steps, tool, fallback, n); }
      DeclaresExactly(last, tool);
    }
  }

  lemma DeclaresExactly(step: RawStep, tool: string)
    ensures DeclaresFallback(step) && step.tool == Some(tool) <==> exists fallback :: Declares(step, tool, fallback)
    ensures DeclaresFallback(step) && step.tool == Some(tool) ==> Declares(step, tool, step.policy.fallback.value)
  {
    if DeclaresFallback(step) && step.tool == Some(tool) {
      assert Declares(step, tool, step.policy.fallback.value);
    }
  }
}
