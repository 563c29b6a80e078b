/**
 What plan-order runs can and cannot do, read off the graph of restart positions: which definitions
 make every completed run try every planned tool, and for which the record list is bounded.
 */
module EngineCoverage {
  import opened Text
  import opened Engine
  import opened EngineRuns
  import opened EnginePlan
  import opened EngineWalks
  import opened EngineReplay

  // ----- coverage

  ghost predicate AlwaysCovers(definition: Definition) {
    forall commands: seq<Command>, id ::
      id in Reached(commands).runs && Reached(commands).runs[id].definition == definition
      && Reached(commands).runs[id].status == Completed ==>
        Covers(definition, 0, Used(Reached(commands).runs[id].steps))
  }

  /** Some walk from the first position past the last planned one uses only `tools`. */
  ghost predicate Escapes(definition: Definition, tools: set<string>) {
    exists w :: Walk(definition, tools, w) && End(w) >= Limit(definition)
  }

  lemma CompletedEscapes(definition: Definition, commands: seq<Command>, id: nat)
    requires !definition.resultAware && id in Reached(commands).runs
    requires Reached(commands).runs[id].definition == definition && Reached(commands).runs[id].status == Completed
    ensures Escapes(definition, Used(Reached(commands).runs[id].steps))
  {
    var w := RunsFollowWalks(commands, id);
  }

  lemma CoversLess(definition: Definition, tools: set<string>, more: set<string>)
    requires Covers(definition, 0, tools) && tools <= more
    ensures Covers(definition, 0, more)
  {
    forall pos: nat | Planned(definition, 0, pos) ensures AttemptedAt(definition, pos, more) {
      assert AttemptedAt(definition, pos, tools);
    }
  }

  lemma EscapeCovers(definition: Definition, tools: set<string>)
    requires !definition.resultAware && AlwaysCovers(definition) && Escapes(definition, tools)
    ensures Covers(definition, 0, tools)
  {
    var w :| Walk(definition, tools, w) && End(w) >= Limit(definition);
    if |w| > 1 {
      var commands := PastWalksComplete(definition, tools, w);
      CoversLess(definition, Used(Reached(commands).runs[0].steps), tools);
    }
  }

  /** Main result: completed runs try every planned tool if and only if no walk past the plan can do without one. */
  lemma CoverageExactly(definition: Definition)
    requires !definition.resultAware
    ensures AlwaysCovers(definition) <==> forall tools :: Escapes(definition, tools) ==> Covers(definition, 0, tools)
  {
    if AlwaysCovers(definition) {
      forall tools | Escapes(definition, tools) ensures Covers(definition, 0, tools) {
        EscapeCovers(definition, tools);
      }
    }
    if forall tools :: Escapes(definition, tools) ==> Covers(definition, 0, tools) {
      forall commands: seq<Command>, id |
        id in Reached(commands).runs && Reached(commands).runs[id].definition == definition
        && Reached(commands).runs[id].status == Completed
        ensures Covers(definition, 0, Used(Reached(commands).runs[id].steps))
      {
        CompletedEscapes(definition, commands, id);
      }
    }
  }

  // ----- a condition on single chains

  /** The tool sits at a position up to `i`, or among the first `n` of the chain from `i`. */
  ghost predicate Tried(definition: Definition, i: nat, n: nat, tool: string)
    requires i < |definition.steps|
  {
    || (exists q :: 0 <= q <= i && HasTool(definition, q, tool))
    || (exists m: nat :: m < n && HopTool(definition, i, m) == Some(tool))
  }

  /** The chain of `n` positions from `i` ends beyond the planned position `pos`, having tried its tool nowhere. */
  ghost predicate Overtakes(definition: Definition, i: nat, n: nat, pos: nat) {
    && Planned(definition, 0, i) && Planned(definition, 0, pos) && n > 0 && Chain(definition, Tools(definition), i, n)
    && i < pos < Hop(definition, i, n - 1).value
    && (definition.steps[pos].tool.Some? ==> !Tried(definition, i, n, definition.steps[pos].tool.value))
  }

  ghost predicate InOrder(definition: Definition) {
    forall i: nat, n: nat, pos: nat :: !Overtakes(definition, i, n, pos)
  }

  /** A chain uses configured tools only. */
  lemma ChainConfigured(definition: Definition, tools: set<string>, s: nat, n: nat)
    requires s < |definition.steps| && Chain(definition, tools, s, n)
    ensures Chain(definition, Tools(definition), s, n)
  {
    forall m: nat | m < n ensures Link(definition, Tools(definition), Hop(definition, s, m)) {
      assert Link(definition, tools, Hop(definition, s, m));
    }
  }

  lemma {:induction false} WalkCrosses(definition: Definition, tools: set<string>, w: seq<nat>, pos: nat) returns (i: nat)
    requires Walk(definition, tools, w) && End(w) > pos
    ensures i < |w| - 1 && w[i] <= pos < w[i + 1] && Move(definition, tools, w[i], w[i + 1])
  {
    i := |w| - 1;
    while w[i] > pos
      invariant 0 <= i < |w|
      invariant i == |w| - 1 || w[i + 1] > pos
      decreases i
    {
      i := i - 1;
    }
    assert Move(definition, tools, w[i], w[i + 1]);
  }

  /** The first position with the same tool, or the position itself when it has none. */
  lemma FirstLike(definition: Definition, pos: nat) returns (first: nat)
    requires pos < |definition.steps|
    ensures first <= pos && definition.steps[first].tool == definition.steps[pos].tool
    ensures definition.steps[first].tool.Some? ==>
      forall q :: 0 <= q < first ==> !HasTool(definition, q, definition.steps[first].tool.value)
  {
    first := pos;
    if definition.steps[pos].tool.Some? {
      assert HasTool(definition, pos, definition.steps[pos].tool.value);
      first := FirstStep(definition, definition.steps[pos].tool.value, 0).value;
    }
  }

  /** A move over a position without using its tool overtakes it, if no earlier position has the tool. */
  lemma MoveOvertakes(definition: Definition, tools: set<string>, s: nat, t: nat, pos: nat)
    requires Move(definition, tools, s, t) && s <= pos < t && Planned(definition, 0, pos)
    requires !AttemptedAt(definition, pos, tools)
    requires definition.steps[pos].tool.Some? ==>
      forall q :: 0 <= q < pos ==> !HasTool(definition, q, definition.steps[pos].tool.value)
    ensures !InOrder(definition)
  {
    var n: nat :| Lands(definition, tools, s, n, t);
    assert Hop(definition, s, 0) == Some(s);
    assert Link(definition, tools, Hop(definition, s, 0)) && Link(definition, tools, Hop(definition, s, n));
    ChainConfigured(definition, tools, s, n + 1);
    if definition.steps[pos].tool.Some? {
      forall m: nat | m < n + 1 ensures HopTool(definition, s, m) != definition.steps[pos].tool {
        assert Link(definition, tools, Hop(definition, s, m));
      }
    }
    assert Overtakes(definition, s, n + 1, pos);
  }

  /** If no fallback chain overtakes, every completed plan-order run has tried every planned tool. */
  lemma InOrderCovers(definition: Definition)
    requires !definition.resultAware && InOrder(definition)
    ensures AlwaysCovers(definition)
  {
    forall tools | Escapes(definition, tools) ensures Covers(definition, 0, tools) {
      forall pos: nat | Planned(definition, 0, pos) ensures AttemptedAt(definition, pos, tools) {
        if !AttemptedAt(definition, pos, tools) {
          var w :| Walk(definition, tools, w) && End(w) >= Limit(definition);
          var first := FirstLike(definition, pos);
          var i := WalkCrosses(definition, tools, w, first);
          MoveOvertakes(definition, tools, w[i], w[i + 1], first);
        }
      }
    }
    CoverageExactly(definition);
  }

  /** Every planned position can be run, as validation ensures. */
  ghost predicate Runnable(definition: Definition) {
    !definition.resultAware && forall k: nat :: Planned(definition, 0, k) ==> Usable(definition, k)
  }

  ghost predicate OneStepPerTool(definition: Definition) {
    forall k: nat, l: nat :: Planned(definition, 0, k) && Planned(definition, 0, l) && k != l ==>
      definition.steps[k].tool != definition.steps[l].tool
  }

  /** Positions can be taken one by one as long as their tools are allowed. */
  lemma {:induction false} WalkTo(definition: Definition, tools: set<string>, w: seq<nat>, t: nat) returns (v: seq<nat>)
    requires Walk(definition, tools, w) && End(w) <= t <= Limit(definition)
    requires forall k: nat :: End(w) <= k < t ==> Link(definition, tools, Some(k))
    ensures Walk(definition, tools, v) && End(v) == t && |v| == |w| + (t - End(w)) && w <= v
    ensures forall k :: |w| <= k < |v| ==> v[k] == End(w) + 1 + (k - |w|)
    decreases t - End(w)
  {
    v := w;
    while End(v) < t
      invariant Walk(definition, tools, v) && End(w) <= End(v) <= t && |v| == |w| + (End(v) - End(w)) && w <= v
      invariant forall k :: |w| <= k < |v| ==> v[k] == End(w) + 1 + (k - |w|)
      decreases t - End(v)
    {
      OneStep(definition, tools, End(v));
      WalkOn(definition, tools, v, End(v) + 1);
      v := v + [End(v) + 1];
    }
  }

  /** The walk from the first position through `i` and along an overtaking chain. */
  lemma OvertakingEscapes(definition: Definition, i: nat, n: nat, pos: nat)
    requires Runnable(definition) && OneStepPerTool(definition) && Overtakes(definition, i, n, pos)
    ensures Escapes(definition, Tools(definition) - {definition.steps[pos].tool.value})
  {
    var tool := definition.steps[pos].tool.value;
    var tools, landed := Tools(definition) - {tool}, Hop(definition, i, n - 1).value;
    forall k: nat | Planned(definition, 0, k) && k != pos ensures Link(definition, tools, Some(k)) {
      assert definition.steps[k].tool.value in Tools(definition);
    }
    var w := WalkTo(definition, tools, [0], i);
    forall m: nat | m < n ensures Link(definition, tools, Hop(definition, i, m)) {
      assert Link(definition, Tools(definition), Hop(definition, i, m));
      assert HopTool(definition, i, m) != Some(tool);
    }
    assert Lands(definition, tools, i, n - 1, landed + 1);
    WalkOn(definition, tools, w, landed + 1);
    if landed + 1 < Limit(definition) {
      w := WalkTo(definition, tools, w + [landed + 1], Limit(definition));
    } else {
      assert End(w + [landed + 1]) == landed + 1;
    }
  }

  /** With one runnable step per tool, completed runs try every planned tool if and only if no chain overtakes. */
  lemma InOrderExactly(definition: Definition)
    requires Runnable(definition) && OneStepPerTool(definition)
    ensures AlwaysCovers(definition) <==> InOrder(definition)
  {
    if InOrder(definition) {
      InOrderCovers(definition);
    } else {
      var i: nat, n: nat, pos: nat :| Overtakes(definition, i, n, pos);
      OvertakingEscapes(definition, i, n, pos);
      CoverageExactly(definition);
      assert !AttemptedAt(definition, pos, Tools(definition) - {definition.steps[pos].tool.value});
    }
  }

  // ----- how long a run can get

  ghost predicate BoundedBy(definition: Definition, bound: nat) {
    forall commands: seq<Command>, id ::
      id in Reached(commands).runs && Reached(commands).runs[id].definition == definition ==>
        |Reached(commands).runs[id].steps| <= bound
  }

  ghost predicate Repeats(w: seq<nat>, i: nat, j: nat) {
    i < j < |w| && w[i] == w[j]
  }

  /** Some walk comes back to a position it has started from before. */
  ghost predicate Revisits(definition: Definition) {
    exists tools, w, i, j :: Walk(definition, tools, w) && Repeats(w, i, j)
  }

  lemma MoveInPlan(definition: Definition, tools: set<string>, s: nat, t: nat)
    requires Move(definition, tools, s, t)
    ensures s <= |definition.steps| && t <= |definition.steps|
  {
    var n: nat :| Lands(definition, tools, s, n, t);
    assert Link(definition, tools, Hop(definition, s, n));
  }

  lemma WalkInPlan(definition: Definition, tools: set<string>, w: seq<nat>, i: nat)
    requires Walk(definition, tools, w) && i < |w|
    ensures w[i] <= |definition.steps|
  {
    if i > 0 {
      assert Move(definition, tools, w[i - 1], w[i - 1 + 1]);
      MoveInPlan(definition, tools, w[i - 1], w[i]);
    }
  }

  function Elements(w: seq<nat>): set<nat> {
    set x | x in w
  }

  function UpTo(n: nat): set<nat> {
    if n == 0 then {0} else UpTo(n - 1) + {n}
  }

  /** Different numbers up to `n` are at most `n + 1`. */
  lemma Pigeonhole(w: seq<nat>, n: nat)
    requires (forall i :: 0 <= i < |w| ==> w[i] <= n) && forall i, j :: 0 <= i < j < |w| ==> w[i] != w[j]
    ensures |w| <= n + 1
  {
    ElementCount(w);
    UpToCount(n);
    SmallerSet(Elements(w), UpTo(n));
  }

  lemma {:induction false} UpToCount(n: nat)
    ensures |UpTo(n)| == n + 1 && forall x :: x in UpTo(n) <==> 0 <= x <= n
  {
    if n > 0 { UpToCount(n - 1); }
  }

  lemma {:induction false} ElementCount(w: seq<nat>)
    requires forall i, j :: 0 <= i < j < |w| ==> w[i] != w[j]
    ensures |Elements(w)| == |w|
  {
    if w != [] {
      var n := |w| - 1;
      ElementCount(w[..n]);
      assert Elements(w) == Elements(w[..n]) + {w[n]};
    }
  }

  lemma WalkIsShort(definition: Definition, tools: set<string>, w: seq<nat>)
    requires Walk(definition, tools, w) && !Revisits(definition)
    ensures |w| <= |definition.steps| + 1
  {
    forall i | 0 <= i < |w| ensures w[i] <= |definition.steps| {
      WalkInPlan(definition, tools, w, i);
    }
    forall i, j | 0 <= i < j < |w| ensures w[i] != w[j] {
      assert !Repeats(w, i, j);
    }
    Pigeonhole(w, |definition.steps|);
  }

  lemma RunIsShort(definition: Definition, commands: seq<Command>, id: nat)
    requires !definition.resultAware && !Revisits(definition)
    requires id in Reached(commands).runs && Reached(commands).runs[id].definition == definition
    ensures |Reached(commands).runs[id].steps| <= Budget(definition, |definition.steps| + 1)
  {
    var w := RunsFollowWalks(commands, id);
    WalkIsShort(definition, Used(Reached(commands).runs[id].steps), w);
    TimesMore(|w|, |definition.steps| + 1, PerPass(definition));
  }

  /** Taking a loop once more. */
  lemma WalkLoops(definition: Definition, tools: set<string>, w: seq<nat>, i: nat, j: nat, v: seq<nat>)
    requires Walk(definition, tools, w) && Repeats(w, i, j) && Walk(definition, tools, v) && End(v) == w[i]
    ensures Walk(definition, tools, v + w[i + 1..j + 1]) && End(v + w[i + 1..j + 1]) == w[i]
  {
    var longer, m := v + w[i + 1..j + 1], |v|;
    forall k | 0 <= k < |longer| - 1 ensures Move(definition, tools, longer[k], longer[k + 1]) {
      if k < m - 1 {
        assert Move(definition, tools, v[k], v[k + 1]);
      } else {
        var l := i + 1 + (k - m);
        assert longer[k + 1] == w[l + 1] && longer[k] == w[l];
        assert Move(definition, tools, w[l], w[l + 1]);
      }
    }
  }

  lemma WalkPrefix(definition: Definition, tools: set<string>, w: seq<nat>, i: nat)
    requires Walk(definition, tools, w) && i < |w|
    ensures Walk(definition, tools, w[..i + 1]) && End(w[..i + 1]) == w[i]
  {
    var v := w[..i + 1];
    forall k | 0 <= k < |v| - 1 ensures Move(definition, tools, v[k], v[k + 1]) {
      assert Move(definition, tools, w[k], w[k + 1]);
    }
  }

  lemma LongWalk(definition: Definition, tools: set<string>, w: seq<nat>, i: nat, j: nat, n: nat) returns (v: seq<nat>)
    requires Walk(definition, tools, w) && Repeats(w, i, j)
    ensures Walk(definition, tools, v) && |v| > n
  {
    v := w[..i + 1];
    WalkPrefix(definition, tools, w, i);
    while |v| <= n
      invariant Walk(definition, tools, v) && End(v) == w[i]
      decreases n - |v|
    {
      WalkLoops(definition, tools, w, i, j, v);
      v := v + w[i + 1..j + 1];
    }
  }

  lemma RevisitsAreLong(definition: Definition, bound: nat)
    requires !definition.resultAware && Revisits(definition)
    ensures !BoundedBy(definition, bound)
  {
    var tools, w, i, j :| Walk(definition, tools, w) && Repeats(w, i, j);
    var v := LongWalk(definition, tools, w, i, j, bound + 1);
    var commands := WalksAreFollowed(definition, tools, v);
    assert |Reached(commands).runs[0].steps| > bound;
  }

  /** Main result: the record lists of a definition's runs are bounded if and only if no walk starts twice from one position. */
  lemma BoundedExactly(definition: Definition)
    requires !definition.resultAware
    ensures (exists bound :: BoundedBy(definition, bound)) <==> !Revisits(definition)
  {
    if Revisits(definition) {
      forall bound: nat ensures !BoundedBy(definition, bound) {
        RevisitsAreLong(definition, bound);
      }
    } else {
      forall commands: seq<Command>, id |
        id in Reached(commands).runs && Reached(commands).runs[id].definition == definition
        ensures |Reached(commands).runs[id].steps| <= Budget(definition, |definition.steps| + 1)
      {
        RunIsShort(definition, commands, id);
      }
      assert BoundedBy(definition, Budget(definition, |definition.steps| + 1));
    }
  }

  /** The chain of `n` positions from `i` ends before `i`. */
  ghost predicate FallsBehind(definition: Definition, i: nat, n: nat) {
    && Planned(definition, 0, i) && n > 0 && Chain(definition, Tools(definition), i, n)
    && Hop(definition, i, n - 1).value < i
  }

  lemma MoveRises(definition: Definition, tools: set<string>, s: nat, t: nat)
    requires Move(definition, tools, s, t) && forall i: nat, n: nat :: !FallsBehind(definition, i, n)
    ensures s < t
  {
    var n: nat :| Lands(definition, tools, s, n, t);
    assert Link(definition, tools, Hop(definition, s, n));
    ChainConfigured(definition, tools, s, n + 1);
    assert !FallsBehind(definition, s, n + 1);
  }

  lemma {:induction false} WalkRises(definition: Definition, tools: set<string>, w: seq<nat>, i: nat, j: nat)
    requires Walk(definition, tools, w) && i < j < |w| && forall i: nat, n: nat :: !FallsBehind(definition, i, n)
    ensures w[i] < w[j]
    decreases j
  {
    assert Move(definition, tools, w[j - 1], w[j - 1 + 1]);
    MoveRises(definition, tools, w[j - 1], w[j]);
    if i < j - 1 { WalkRises(definition, tools, w, i, j - 1); }
  }

  /** Walking to `i` and falling behind it comes back to a position. */
  lemma BehindRevisits(definition: Definition, i: nat, n: nat)
    requires Runnable(definition) && FallsBehind(definition, i, n)
    ensures Revisits(definition)
  {
    var tools, t := Tools(definition), Hop(definition, i, n - 1).value + 1;
    forall k: nat | k < i ensures Link(definition, tools, Some(k)) {
      assert Planned(definition, 0, k) && Usable(definition, k);
    }
    var w := WalkTo(definition, tools, [0], i);
    assert Lands(definition, tools, i, n - 1, t);
    WalkOn(definition, tools, w, t);
    var v := w + [t];
    assert v[t] == t && v[i + 1] == t;
    assert Repeats(v, t, i + 1);
  }

  /** With runnable steps, record lists are bounded if and only if no fallback chain ends before the position it started from. */
  lemma RunnableBoundedExactly(definition: Definition)
    requires Runnable(definition)
    ensures (exists bound :: BoundedBy(definition, bound)) <==> forall i: nat, n: nat :: !FallsBehind(definition, i, n)
  {
    BoundedExactly(definition);
    if i: nat, n: nat :| FallsBehind(definition, i, n) {
      BehindRevisits(definition, i, n);
    } else {
      forall tools, w, i, j | Walk(definition, tools, w) && Repeats(w, i, j) ensures false {
        WalkRises(definition, tools, w, i, j);
      }
    }
  }

  // ----- inputs

  function Plain(tool: string): ConfiguredStep {
    ConfiguredStep(Some(tool), true, Policy(Stop, 0, None))
  }

  function FallingBack(tool: string, to: string): ConfiguredStep {
    ConfiguredStep(Some(tool), true, Policy(Fallback, 0, Some(to)))
  }

  lemma TwoLinks(definition: Definition, s: nat, t: nat)
    requires s < |definition.steps| && Next(definition, s) == Some(t) && t < |definition.steps|
    requires Usable(definition, s) && Usable(definition, t) && definition.steps[s].tool != definition.steps[t].tool
    ensures Chain(definition, Tools(definition), s, 2) && Hop(definition, s, 1) == Some(t)
  {
    assert Hop(definition, s, 0) == Some(s) && Hop(definition, s, 1) == Some(t);
    assert definition.steps[s].tool.value in Tools(definition) && definition.steps[t].tool.value in Tools(definition);
  }

  /** "a" falls back to "c" over "b": a run can complete without "b". */
  lemma OvertakingExample() returns (definition: Definition)
    ensures Runnable(definition) && OneStepPerTool(definition) && !AlwaysCovers(definition)
  {
    definition := Definition([FallingBack("a", "c"), Plain("b"), Plain("c")], {"a", "b", "c"}, 3, false);
    assert HasTool(definition, 2, "c");
    TwoLinks(definition, 0, 2);
    assert Hop(definition, 0, 0) == Some(0);
    assert Overtakes(definition, 0, 2, 1);
    InOrderExactly(definition);
  }

  /** A move over a position ends at or beyond it, and runs the position it ends at. */
  lemma CrossingMove(definition: Definition, tools: set<string>, pos: nat) returns (s: nat, n: nat, k: nat)
    requires Escapes(definition, tools) && pos < Limit(definition)
    ensures s <= pos <= k && s < |definition.steps| && Hop(definition, s, n) == Some(k)
    ensures Link(definition, tools, Some(s)) && Link(definition, tools, Some(k))
  {
    var w :| Walk(definition, tools, w) && End(w) >= Limit(definition);
    var i := WalkCrosses(definition, tools, w, pos);
    s := w[i];
    n :| Lands(definition, tools, s, n, w[i + 1]);
    k := Hop(definition, s, n).value;
    assert Hop(definition, s, 0) == Some(s);
    assert Link(definition, tools, Hop(definition, s, 0)) && Link(definition, tools, Hop(definition, s, n));
  }

  /** "a" falls back to "c" over a "b", but "b" is planned again: nothing is skipped, although a chain overtakes. */
  lemma RepeatedToolExample() returns (definition: Definition)
    ensures Runnable(definition) && !InOrder(definition) && AlwaysCovers(definition)
  {
    definition := Definition([FallingBack("a", "c"), Plain("b"), Plain("c"), Plain("b")], {"a", "b", "c"}, 4, false);
    assert HasTool(definition, 2, "c");
    TwoLinks(definition, 0, 2);
    assert Hop(definition, 0, 0) == Some(0);
    assert Overtakes(definition, 0, 2, 1);
    forall tools | Escapes(definition, tools) ensures Covers(definition, 0, tools) {
      RepeatedToolCovers(definition, tools);
    }
    CoverageExactly(definition);
  }

  lemma RepeatedToolCovers(definition: Definition, tools: set<string>)
    requires Escapes(definition, tools) && Limit(definition) == 4 == |definition.steps|
    requires forall k :: 0 <= k < 4 ==> Next(definition, k) == if k == 0 then Some(2) else None
    requires definition.steps[1].tool == definition.steps[3].tool
    ensures Covers(definition, 0, tools)
  {
    var s0, n0, _ := CrossingMove(definition, tools, 0);
    var s2, n2, k2 := CrossingMove(definition, tools, 2);
    var s3, n3, k3 := CrossingMove(definition, tools, 3);
    assert n2 > 0 ==> k2 == 2;
    assert n3 > 0 ==> k3 == 2;
    assert Link(definition, tools, Some(0)) && Link(definition, tools, Some(2)) && Link(definition, tools, Some(3));
  }

  /** "a" falls back to "c" before it: a run can be paused and resumed for ever. */
  lemma EndlessExample() returns (definition: Definition)
    ensures Runnable(definition) && forall bound :: !BoundedBy(definition, bound)
  {
    definition := Definition([Plain("c"), FallingBack("a", "c")], {"a", "c"}, 2, false);
    assert HasTool(definition, 0, "c");
    TwoLinks(definition, 1, 0);
    assert FallsBehind(definition, 1, 2);
    RunnableBoundedExactly(definition);
  }

  /** An approval answered "pending" again fails the run and leaves a record that no counter counts. */
  lemma UndecidedApproval(definition: Definition) returns (commands: seq<Command>)
    requires !definition.resultAware && Limit(definition) > 0 && Usable(definition, 0)
    ensures 0 in Reached(commands).runs
    ensures Reached(commands).runs[0].status == Failed && EndsPending(Reached(commands).runs[0].steps)
  {
    assert Link(definition, Tools(definition), Some(0));
    OneStep(definition, Tools(definition), 0);
    var before := WalksAreFollowed(definition, Tools(definition), [0, 1]);
    var c := Resume(Scripted({}, {}).(approve := Some(Pending)), 0, "approver");
    ReachableOk(before);
    AppliedLast(before, c);
    assert "requester"[0] != "approver"[0];
    BreakingStep(Reached(before), c, 0);
    commands := before + [c];
  }
}
