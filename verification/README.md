# Verified model of the WAIT local agent

This project models the decision-making cores of the WAIT local agent in Dafny and proves what they
guarantee. `dafny verify dfyconfig.toml` checks everything.

**The agent run engine.** A run is a stored record that is queued, paused for approval, completed,
failed, rejected or cancelled, and that start, resume, cancel and retry drive. `Engine` gives the
meaning of every operation as functions over an arbitrary environment (action results, exceptions,
timeouts, approval answers, model choices), a fresh one per operation. `EngineService` is the class
that does the work in place, loop by loop, proved equal to those functions. The theorems quantify
over every sequence of commands and every environment:

- `EngineTheorems` and `EngineRuns` hold the invariant of reachable runs and what follows from it:
  failures head retry and fallback chains of the very steps that failed, pausing, terminal runs,
  approvals, retry lineages, history counters, and the bounds of result-aware runs.
- `EngineEndings` says why passes end: what a completed result-aware run has used up, and what a
  failed pass must show.
- `EngineLaws` fixes each part by what the environment answered: the attempts of a step, how a pass
  ends, what an undisturbed run records, the guards, and what every command changes and leaves alone.
- `EnginePlan` and `EngineOrder` describe plan-order passes. `EngineWalks` turns a definition into a
  graph of restart positions and shows that every reachable run follows a walk of it; `EngineReplay`
  shows that every walk is followed by some run; `EngineCoverage` reads off that graph, exactly, when
  completed runs try every planned tool and when record lists are bounded.
- `Policies` and `Dependencies` are the two cycle checks that guard definitions.

**Baseline drift.** `Json` writes JSON text and proves that the text determines the value;
`Canonical` sorts lists at every depth; `Numbers` compares integers, floats and
booleans by value; `Drift` is the recursive comparison that appends to a shared
findings list; `DriftTheorems` proves where findings point, when the comparison is silent and what
exchanging the sides does; `DriftLaws` says how it goes down two maps; `Coverage` and `Snapshots` add source statuses, the composed Microsoft
section, the coverage gate and the hash shortcut.

**Evidence framing** (`Evidence`), **capability grants** (`Grants`), **configuration scanners**
(`Scanners`) and **backup retention** (`Pruning`) are smaller cores of the same kind. `Text` holds
Python's string primitives.

## What the proofs found

- A completed plan-order run need not have tried every planned tool. A fallback that pauses for
  approval resumes after its own plan position, so it can overtake positions that were never tried.
  `EngineCoverage.CoverageExactly` gives the exact condition for every plan-order definition, as a
  reachability question on its restart graph; `EngineCoverage.InOrderExactly` is the shorter condition
  for definitions with one step per tool, and `EngineCoverage.OvertakingExample` violates it.
- A plan-order run need not be bounded either: a fallback to an earlier position that pauses for
  approval sends the run back, for ever. `EngineCoverage.BoundedExactly` is the exact condition, and
  `EngineCoverage.RunnableBoundedExactly` the simple one for runnable steps (no chain of fallbacks ends
  before the position it started from); `EngineCoverage.EndlessExample` has two steps.
- The history counters miss one record of a finished run exactly when one of its own resumes, by
  someone other than its actor, was answered "pending" again: the run then fails with a record that is
  still pending (`EngineRuns.HistoryConserved`, `EngineCoverage.UndecidedApproval`). The input rests on
  the action service, which is an assumption here: a resume first approves a request that is pending
  (src/wait_local_agent/agents.py:633-639), and the service answers "pending" only for a request in
  none of its final states (src/wait_local_agent/smart_actions.py:9404) or when an action's own run
  returns it. No such action is known.
- Drift comparison ignores keys that one side lacks and the other binds to an empty map, and, because
  Python compares by value, booleans and whole floats against equal integers (`True`, `1.0`, `1`),
  although each of these changes the hash. `DriftTheorems.CompareSilent` is the exact condition;
  `EmptyMapIsIgnored`, `BooleanIsIgnored`, `WholeFloatIsIgnored` and `SilenceIsNotTransitive` are the
  examples.
- Exchanging the snapshots does not mirror every verdict: a number against a boolean, or a negative
  counter against zero, breaks the mirror. The condition is exact for every finding of a whole diff
  (`DriftTheorems.CompareMirrored`, `Snapshots.ExchangedSnapshots`); `DriftTheorems.ExchangeExample`
  are the inputs.

## Model

| member | source | states |
|---|---|---|
| `Engine.ExecuteStepAttempts` | src/wait_local_agent/agents.py:1060-1140 | the retry loop ends and returns the records, status, directive and time of the recursive specification; an exception discards them |
| `Engine.PlanStepDecreases` | src/wait_local_agent/agents.py:815-919 | every turn of the plan-order loop attempts a new configured tool or shortens the queue, so the loop ends |
| `Engine.FirstStep` | src/wait_local_agent/agents.py:882-889 | finds a configured step with the tool exactly when there is one |
| `EngineTheorems.AttemptsMakeBlock` | src/wait_local_agent/agents.py:1083-1140 | the attempts of one step form one block: its tool, consecutive attempts and indices, all but the last failed and within its retry limit, and exactly the directive of its policy |
| `EngineLaws.AttemptsExactly` | src/wait_local_agent/agents.py:1083-1140 | the result of the retry loop is the one that the answers tell: every record carries what its call answered, every attempt but the last failed with retries left, the last did not, an exception discards everything, and the directive is that of the policy |
| `EngineLaws.RetriesUsedUp` | src/wait_local_agent/agents.py:1131-1135 | a retried step fails only after exactly max_retries plus one attempts, each recorded with what its call answered |
| `EngineTheorems.BlockExtends` | src/wait_local_agent/agents.py:870-919 | appending a block keeps the record list lawful: every failure is directly followed by its own step's retry or by the first step with its own step's fallback tool |
| `EngineTheorems.PlanPassKeeps` | src/wait_local_agent/agents.py:797-919 | from any lawful start, whatever the environment, a plan-order pass stores only sound runs that extend the given records and keep the run's identity |
| `EngineTheorems.AwarePassKeeps` | src/wait_local_agent/agents.py:921-1058 | the same for a result-aware pass, whatever the model selects |
| `EngineTheorems.AwarePassTidy` | src/wait_local_agent/agents.py:921-1058 | one contiguous block per tool, record i has index i, and the length bound survive every result-aware pass |
| `EngineRuns.ReachableOk` | src/wait_local_agent/agents.py:475-713 | every run of every world reachable by any commands is sound: lawful records, pending step exactly when paused, a last record that fits the status, and a bounded retry lineage |
| `EngineRuns.KeptEverywhere` | src/wait_local_agent/agents.py:475-713 | whatever new runs satisfy after their first pass and resume and cancel keep holds of every reachable run |
| `EngineRuns.RunsAccounted` | src/wait_local_agent/agents.py:602-667 | a run has a record that no counter counts after failing exactly when one of its own resumes was answered pending again |
| `EngineRuns.PausedExactly` | src/wait_local_agent/agents.py:1280-1292 | a run is paused exactly when its pending step is set; it then points at the last record, the only pending one |
| `EngineRuns.CompletedRunsResolve` | src/wait_local_agent/agents.py:797-1140 | in a completed run of either mode, across resumes, every record that is not a success heads a chain of failures, each followed by the retry or the fallback of the step that made it, that ends in a success |
| `EngineRuns.TerminalStays` | src/wait_local_agent/agents.py:602-713 | no further commands change a terminal run |
| `EngineRuns.ApprovalNeedsAnother` | src/wait_local_agent/agents.py:602-667 | a pending record turns into a success only by a resume of that run whose approver is not its actor and whose approved action succeeded |
| `EngineRuns.RetriesAreBounded` | src/wait_local_agent/agents.py:568-600 | retrying leaves every existing run alone, and no retry lineage has more than four runs |
| `EngineRuns.HistoryConserved` | src/wait_local_agent/agents.py:1961-1978 | attempted is completed plus failed, plus one exactly when the last record is pending; that is so exactly in paused runs and in runs of which some own resume, by someone other than the actor, was answered pending again; in terminal runs exactly in the latter |
| `EngineRuns.ResultAwareBounds` | src/wait_local_agent/agents.py:921-1058 | over a whole result-aware run: configured enabled tools only, record i has index i, at most max_steps plus the retry limit records, one contiguous block of consecutive attempts per tool |
| `EngineTheorems.SelectMeans` | src/wait_local_agent/agents.py:1142-1183 | the model's choice is taken when it names a candidate, otherwise the first candidate is; a candidate is found whenever there is one |
| `EngineEndings.CompletedIsExhausted` | src/wait_local_agent/agents.py:921-1058 | every reachable completed result-aware run has used its step budget or tried every configured enabled tool |
| `EngineEndings.FailureHasCause` | src/wait_local_agent/agents.py:815-1058 | without timeouts and malformed or disabled steps, a pass of either executor fails only on a failed record whose own step has no fallback left: none, an unknown one, one used before (in plan order: in this pass), or no budget |
| `EngineLaws.PassDecides` | src/wait_local_agent/agents.py:815-1058 | a pass of either executor completes, fails or pauses the run and keeps the records it was given, unless a call raised; then the run is as it was or queued |
| `EngineLaws.UndisturbedRun` | src/wait_local_agent/agents.py:815-919 | without timeouts and failures a plan-order run completes with one successful record per planned tool, in plan order, at the position where the tool first occurs |
| `EngineLaws.UndisturbedAwareRun` | src/wait_local_agent/agents.py:921-1058 | likewise a result-aware run completes with successes only and has used its budget or tried every usable tool |
| `EngineLaws.PlanGuard` | src/wait_local_agent/agents.py:825-853 | an expired time, a malformed step or a disabled tool at the head of the plan fails the run there, with the records it has |
| `EngineLaws.AwareGuard` | src/wait_local_agent/agents.py:940-985 | the same for a result-aware pass with budget left, by time or at a fallback |
| `EngineLaws.ExpiredRunFails` | src/wait_local_agent/agents.py:825-836 | a run whose time is up before it begins fails without a record, in either mode |
| `EngineLaws.TurnTries` | src/wait_local_agent/agents.py:1142-1183 | a result-aware turn tries the step the model chose if that names an unused enabled tool, otherwise the first such step |
| `EngineLaws.TimeAdvances` | src/wait_local_agent/agents.py:823-836 | the time is consulted anew in every turn, and every call has its own |
| `EngineLaws.RunsStandInPlace` | src/wait_local_agent/agents.py:1280-1292 | every reachable run stands at the block it waits for or was refused, at the end when completed, and behind or at its last block while queued |
| `EngineLaws.StartLaw` | src/wait_local_agent/agents.py:475-542 | a start adds one run of the given definition and actor, decided unless a call raised, exactly when admitted; no other run changes |
| `EngineLaws.ResumeLaw` | src/wait_local_agent/agents.py:602-667 | for every reachable run: who may approve, which answer leaves Rejected and which Failed, how the last record changes and that nothing else does, and that a success goes on unless a call raises |
| `EngineLaws.CancelLaw` | src/wait_local_agent/agents.py:669-713 | for every reachable run: a cancel ends a queued or paused run, withdraws its pending record and keeps the others; it raises exactly on completed, failed and rejected runs or a refused withdrawal |
| `EngineLaws.RetryLaw` | src/wait_local_agent/agents.py:568-600 | a retry adds one run of the old definition under the retrying actor, with the count raised by one, exactly when the old run failed or was cancelled with fewer than three retries |
| `EnginePlan.BlockCount` | src/wait_local_agent/agents.py:1083-1140 | one block per tool with attempts up to a bound means at most bound plus one records per tool |
| `EnginePlan.PassCovers` | src/wait_local_agent/agents.py:815-919 | in one plan-order pass no tool gets a second block or more records than one plus the retry limit, and a completing pass has tried the tool of every position it queued |
| `EngineWalks.PassWalks` | src/wait_local_agent/agents.py:815-919 | every pass keeps the walk behind its run: it pauses only where the restart graph has a move, completes only past the plan, and records at most one block per tool |
| `EngineWalks.RunsFollowWalks` | src/wait_local_agent/agents.py:602-667 | every reachable plan-order run follows a walk of restart positions that uses only tools the run has tried, with its records bounded by the length of the walk |
| `EngineReplay.ReplayMove` | src/wait_local_agent/agents.py:882-907 | wherever the restart graph has a move, some environment makes a pass pause there, with the tools of the fallback chain and no others |
| `EngineReplay.WalksAreFollowed` | src/wait_local_agent/agents.py:602-667 | every walk of the restart graph is the walk of some reachable run that waits at its end, with at least one record per move and no other tools |
| `EngineReplay.PastWalksComplete` | src/wait_local_agent/agents.py:912-919 | a walk past the last planned position is the walk of a completed run that tried no other tools |
| `EngineCoverage.CoverageExactly` | src/wait_local_agent/agents.py:648-667 | for every plan-order definition, all completed runs try every planned tool if and only if every walk past the plan uses all of them |
| `EngineCoverage.InOrderCovers` | src/wait_local_agent/agents.py:648-667 | if no fallback chain jumps over a planned position whose tool neither it nor an earlier position tries, all completed runs try every planned tool |
| `EngineCoverage.InOrderExactly` | src/wait_local_agent/agents.py:648-667 | with one runnable step per tool that condition is also necessary |
| `EngineCoverage.BoundedExactly` | src/wait_local_agent/agents.py:648-667 | for every plan-order definition, the record lists of all its runs have a common bound if and only if no walk starts twice from one position |
| `EngineCoverage.RunnableBoundedExactly` | src/wait_local_agent/agents.py:648-667 | with runnable steps, that is if and only if no fallback chain ends before the position it started from |
| `EngineCoverage.OvertakingExample` | src/wait_local_agent/agents.py:648-667 | a three-step runnable definition with a completed run that skips a tool |
| `EngineCoverage.RepeatedToolExample` | src/wait_local_agent/agents.py:648-667 | a definition that plans one tool twice: a chain overtakes its first position, yet every completed run tries it |
| `EngineCoverage.EndlessExample` | src/wait_local_agent/agents.py:648-667 | a two-step runnable definition without any bound |
| `EngineCoverage.UndecidedApproval` | src/wait_local_agent/agents.py:640-660 | every definition whose first step can run has a run that fails with a record still pending |
| `EngineOrder.PositionsRise` | src/wait_local_agent/agents.py:815-919 | without fallbacks, plan positions strictly increase from block to block across all resumes |
| `EngineService.AgentService.SettlePlan` | src/wait_local_agent/agents.py:868-911 | after a block: pauses, fails, queues the fallback or goes on, and stores exactly that |
| `EngineService.AgentService.PlanTurn` | src/wait_local_agent/agents.py:825-919 | one turn preserves the outcome of the pass, decreases the measure and changes only this run |
| `EngineService.AgentService.ContinuePlan` | src/wait_local_agent/agents.py:797-919 | the plan-order loop stores what the specified pass yields, and nothing else changes |
| `EngineService.AgentService.SettleAware` | src/wait_local_agent/agents.py:1000-1058 | after a block of a result-aware run: pauses, fails, sets the fallback or goes on |
| `EngineService.AgentService.AwareTurn` | src/wait_local_agent/agents.py:940-1058 | one result-aware turn preserves the outcome of the pass and adds at least one record |
| `EngineService.AgentService.ContinueResultAware` | src/wait_local_agent/agents.py:921-1058 | the result-aware loop stores what the specified pass yields, and nothing else changes |
| `EngineService.AgentService.RunAgent` | src/wait_local_agent/agents.py:475-542 | a start adds exactly one run, with the outcome of its first pass, and only when admitted |
| `EngineService.AgentService.ResumeAgent` | src/wait_local_agent/agents.py:602-667 | a resume changes the world as the transition function says and raises exactly where it does |
| `EngineService.AgentService.CancelAgent` | src/wait_local_agent/agents.py:669-713 | a cancel withdraws the pending record of a queued or paused run, leaves a cancelled run alone and raises otherwise |
| `EngineService.AgentService.RetryAgent` | src/wait_local_agent/agents.py:568-600 | a retry starts a new run exactly when the old one failed or was cancelled, has retries left and pins the same revision |
| `Policies.Visit` | src/wait_local_agent/agents.py:1950-1958 | the walk ends; it returns when the chain ends within the unvisited keys, and raises only on a cyclic map |
| `Policies.CheckFallbacks` | src/wait_local_agent/agents.py:1950-1958 | the cycle check accepts exactly the acyclic fallback maps |
| `Policies.ValidateFailurePolicies` | src/wait_local_agent/agents.py:1893-1958 | accepts exactly the step lists whose policies pass every field check and whose last-wins fallback map is acyclic |
| `Policies.AcyclicEnds` | src/wait_local_agent/agents.py:1950-1958 | in an acyclic map every chain ends, within as many hops as there are keys |
| `Policies.AcceptedChainsEnd` | src/wait_local_agent/agents.py:1893-1958 | every accepted fallback chain reaches a configured enabled tool without a fallback in fewer hops than there are steps |
| `Policies.AcceptedDefinition` | src/wait_local_agent/agents.py:1845-1857 | an accepted definition retries a step at most three times, so that no tool gets more than four records in a pass, and every fallback it decodes to names a configured enabled step |
| `Policies.DecodeKeepsMode` | src/wait_local_agent/agents.py:1845-1857 | decoding keeps every stored mode, known or not, and stop for a missing or mistyped one |
| `Policies.AcceptedIffCoherent` | src/wait_local_agent/agents.py:1893-1946 | a step is accepted exactly when it has no policy, or a well-typed one that decodes to a known mode with what that mode needs and nothing else |
| `Policies.GraphExactly` | src/wait_local_agent/agents.py:1893-1946 | the fallback map holds exactly the last declaration of each tool |
| `Dependencies.Search.Visit` | src/wait_local_agent/agents.py:1484-1501 | the depth-first search ends; it returns with the node finished after all it depends on, and raises only when the root reaches a cycle |
| `Dependencies.FindsNoCycle` | src/wait_local_agent/agents.py:1484-1501 | the search accepts exactly when no cycle is reachable from the edited agent |
| `Dependencies.ValidateDependencies` | src/wait_local_agent/agents.py:1458-1501 | accepts exactly lists of at most eight distinct, non-blank, visible other agents that reach no cycle |
| `Dependencies.RedirectKeepsAcyclic` | src/wait_local_agent/agents.py:1458-1501 | changing one agent's dependencies keeps the graph acyclic if that agent reaches no cycle afterwards |
| `Dependencies.StoreStaysAcyclic` | src/wait_local_agent/agents.py:339-473 | no sequence of creates and updates ever stores a dependency cycle |
| `Dependencies.MayDependExactly` | src/wait_local_agent/agents.py:1458-1501 | a dependency list may be stored exactly when it has at most eight distinct, non-blank, stored other agents of no other client and reaches no cycle |
| `Dependencies.StoreStaysVisible` | src/wait_local_agent/agents.py:339-473 | no sequence of edits ever stores a dependency that is missing or belongs to another client |
| `Dependencies.Registry.CreateAgent` | src/wait_local_agent/agents.py:313-393 | stores the new agent exactly when every check passes, and changes nothing otherwise |
| `Dependencies.Registry.UpdateAgent` | src/wait_local_agent/agents.py:395-473 | replaces the dependencies exactly when every check passes, keeping the client scope |
| `Json.EscapePrefix` | src/wait_local_agent/baseline.py:65-66 | the ASCII escapes of characters form a prefix code |
| `Json.DumpsPrefix` | src/wait_local_agent/baseline.py:65-66 | a value's text, followed by anything that cannot extend a number, splits off uniquely |
| `Json.DumpsInjective` | src/wait_local_agent/baseline.py:65-66 | different values have different texts, so the sort key and the hashed text identify them |
| `Json.DumpsPrintable` | src/wait_local_agent/baseline.py:65-66 | the text is printable ASCII |
| `Json.LongReads` | src/wait_local_agent/baseline.py:65-66 | a long escape holds the code point, or the two surrogates that stand for it |
| `Json.DigitsRead` | src/wait_local_agent/baseline.py:65-66 | the digits of an integer read back as its value |
| `Json.PointReads` | src/wait_local_agent/baseline.py:65-66 | a float text without its point reads back as its units |
| `Json.ItemText` | src/wait_local_agent/baseline.py:65-66 | items are separated by single commas |
| `Json.MemberText` | src/wait_local_agent/baseline.py:65-66 | members are separated by single commas, keys from values by colons |
| `Json.FixedTexts` | src/wait_local_agent/baseline.py:65-66 | the texts of null, booleans, empty collections and the short escapes |
| `Canonical.AscendingUnique` | src/wait_local_agent/baseline.py:69-74 | there is only one ascending arrangement of a list's contents |
| `Canonical.ReorderedIsCanonical` | src/wait_local_agent/baseline.py:69-74 | reordering lists at any depth keeps the canonical form |
| `Canonical.CanonicalIsReordered` | src/wait_local_agent/baseline.py:69-74 | values with the same canonical form are reorderings of each other, with explicit permutations |
| `Canonical.CanonicalizeIdempotent` | src/wait_local_agent/baseline.py:69-74 | canonicalising twice is canonicalising once |
| `Canonical.SameHashIffReordered` | src/wait_local_agent/baseline.py:77-81 | two values have the same hashed text if and only if one is the other with lists reordered |
| `Numbers.ReducedExactly` | src/wait_local_agent/baseline.py:434-446 | two numbers, whole, decimal or boolean, have the same lowest form if and only if neither is above the other |
| `Drift.CompareMappingEntries` | src/wait_local_agent/baseline.py:480-494 | appends one finding per key of a one-sided map, in key order |
| `Drift.CompareEntityMap` | src/wait_local_agent/baseline.py:459-477 | appends the entity-by-entity findings of two maps, in key order |
| `Drift.CompareValues` | src/wait_local_agent/baseline.py:404-448 | appends to the shared list exactly the findings of the recursive comparison |
| `DriftTheorems.VerdictFollowsPolarity` | src/wait_local_agent/baseline.py:404-448 | only polar counters get a verdict; worsened means more harm, improved less, resolved a bad counter at zero |
| `DriftTheorems.ComparePlaced` | src/wait_local_agent/baseline.py:404-494 | every finding carries the values at its path on both sides, is new or removed exactly when a side lacks it, otherwise marks a real canonical difference, and its verdict is justified |
| `DriftTheorems.CompareApart` | src/wait_local_agent/baseline.py:404-494 | all paths are distinct and none is a prefix of another |
| `DriftLaws.EntityLaw` | src/wait_local_agent/baseline.py:451-477 | under an assets key, or between two collections of at least two maps of one shape each, the findings are exactly one whole entry per key that is one-sided or differs |
| `DriftLaws.DescendLaw` | src/wait_local_agent/baseline.py:404-432 | any other two maps are compared key by key: below each key lie exactly the findings of its two children, or of the one there is, entry by entry when that is a map |
| `DriftLaws.FoundBelowKeys` | src/wait_local_agent/baseline.py:404-432 | nothing is found outside the keys of the two maps |
| `DriftLaws.FoundInKeyOrder` | src/wait_local_agent/baseline.py:404-432 | findings come in the order of the keys they lie under |
| `DriftLaws.LastSegmentMeans` | src/wait_local_agent/baseline.py:439 | the name that decides polarity is what follows the last dot |
| `DriftLaws.PolarityTable` | src/wait_local_agent/baseline.py:20-35 | thirteen counters are bad when they rise, one is good, nothing else is judged |
| `DriftTheorems.CompareSilent` | src/wait_local_agent/baseline.py:404-494 | no finding if and only if the sides agree, numbers by value, once keys bound to an empty map on one side only are filled in |
| `DriftTheorems.ReorderingIsSilent` | src/wait_local_agent/baseline.py:404-494 | reorderings are never reported |
| `DriftTheorems.CompareComplete` | src/wait_local_agent/baseline.py:404-494 | without empty maps, booleans and whole floats, no finding if and only if the sides are reorderings |
| `DriftTheorems.BooleanIsIgnored` | src/wait_local_agent/baseline.py:434-448 | True against 1 is not reported although the canonical forms differ |
| `DriftTheorems.WholeFloatIsIgnored` | src/wait_local_agent/baseline.py:434-448 | 1.0 against 1 is not reported although the canonical forms differ |
| `DriftTheorems.EmptyMapIsIgnored` | src/wait_local_agent/baseline.py:404-432 | a key bound to an empty map on one side only is not reported |
| `DriftTheorems.SilenceIsNotTransitive` | src/wait_local_agent/baseline.py:404-432 | two unreported steps can add up to a reported difference |
| `DriftTheorems.ClassifyMirrors` | src/wait_local_agent/baseline.py:434-448 | exchanging the values of a differing leaf mirrors its verdict if and only if the leaf is symmetric |
| `DriftTheorems.ExchangeExample` | src/wait_local_agent/baseline.py:434-448 | a bad counter going from below zero to zero is resolved, and improved, not worsened, the other way |
| `DriftTheorems.CompareMirrored` | src/wait_local_agent/baseline.py:404-494 | exchanging the sides gives the same paths in the same order with values swapped, and each class is mirrored if and only if the leaf is symmetric or both classes are plain changes |
| `Coverage.NormalizeName` | src/wait_local_agent/baseline.py:84-92 | a recorded status reads back as itself |
| `Coverage.AggregateIsWorst` | src/wait_local_agent/baseline.py:381-391 | the aggregate of a non-empty list is its maximum on ready, not_configured, partial, blocked, failed |
| `Coverage.ComposeMicrosoft` | src/wait_local_agent/baseline.py:143-175 | fills the coverage map source by source and keeps exactly the counters of ready sources |
| `Coverage.ComposedSource` | src/wait_local_agent/baseline.py:162-173 | every reported source is recorded under its prefixed key with its normalised status |
| `Coverage.StatusTable` | src/wait_local_agent/baseline.py:84-92 | how every reported status is read; only ready itself reads ready, and unknown ones read failed |
| `Text.StripMeans` | src/wait_local_agent/baseline.py:85 | stripping removes whitespace at both ends and nothing else |
| `Text.SpaceTable` | src/wait_local_agent/baseline.py:85 | the whitespace characters |
| `Text.LowerMeans` | src/wait_local_agent/baseline.py:85 | lower-casing as far as it can produce ASCII |
| `Coverage.KeptExactly` | src/wait_local_agent/baseline.py:162-170 | a counter is kept, unchanged, if and only if its source was reported and reads ready |
| `Coverage.PostureIsWorst` | src/wait_local_agent/baseline.py:162-175 | the posture status is the worst one reported, not_configured when none was, and nothing else is recorded |
| `Coverage.SourceTable` | src/wait_local_agent/baseline.py:36-56 | fourteen counters come from a source of another name; any other counter is its own source |
| `Snapshots.CompareNormalizedSections` | src/wait_local_agent/baseline.py:344-378 | the loop over sections returns the specified findings of all four sections |
| `Snapshots.ShortcutIsHarmless` | src/wait_local_agent/baseline.py:344-378 | skipping the comparison on equal hashes never changes the findings |
| `Snapshots.OutageIsNotDrift` | src/wait_local_agent/baseline.py:358-378 | a non-ready status for a section in either snapshot yields exactly one verification_unavailable finding for it |
| `Snapshots.SectionKeys` | src/wait_local_agent/baseline.py:57-62 | which coverage keys belong to each of the four sections |
| `Snapshots.ComparedExactly` | src/wait_local_agent/baseline.py:344-378 | with coverage given or missing, a section yields exactly the findings of its two values if some status is known for it and all are ready, and otherwise exactly one verification_unavailable finding |
| `Snapshots.UnreachableProvider` | src/wait_local_agent/baseline.py:147-175 | a provider that is not wired or raises makes the posture section unavailable and gives no counters |
| `Snapshots.SectionsInOrder` | src/wait_local_agent/baseline.py:358-378 | a diff lists its four sections one after the other |
| `Snapshots.FilteredCounterIsNotDrift` | src/wait_local_agent/baseline.py:162-173 | a counter that both providers returned, from sources both reported on, is never called new or removed, whatever the statuses |
| `Snapshots.ExchangedSnapshots` | src/wait_local_agent/baseline.py:344-378 | with both coverage maps given, exchanging whole snapshots exchanges every finding in place, and each class is mirrored if and only if the leaf is symmetric or both classes are plain changes |
| `Snapshots.FindingsApart` | src/wait_local_agent/baseline.py:344-378 | no two findings of a diff share a path or lie below one another |
| `Snapshots.UnchangedExactly` | src/wait_local_agent/baseline.py:344-378 | a diff is empty if and only if every section is covered and silent |
| `Evidence.MatchIsUnique` | src/wait_local_agent/agents.py:1582-1588 | a delimiter match has only one possible end, so greedy repetition has nothing to choose |
| `Evidence.LeftmostIsReplaced` | src/wait_local_agent/agents.py:1767-1769 | text before the leftmost match is kept, the match is replaced, the rest is treated alike |
| `Evidence.CleanIsKept` | src/wait_local_agent/agents.py:1767-1769 | text without a match passes unchanged |
| `Evidence.SanitisedIsClean` | src/wait_local_agent/agents.py:1763-1769 | for every pattern of delimiter shape, replacement and truncation leave no match and create none |
| `Evidence.SpelledIsShaped` | src/wait_local_agent/agents.py:1582-1588 | every text the expression matches, in any case and with any whitespace, has delimiter shape |
| `Evidence.SafeTextIsClean` | src/wait_local_agent/agents.py:1767-1769 | for any text and limit, the excerpt contains no delimiter match and fits the limit |
| `Evidence.SafeTextKeeps` | src/wait_local_agent/agents.py:1763-1769 | an excerpt is the sanitised text cut at the limit; clean text within the limit is kept whole |
| `Evidence.AnyCaseSpells` | src/wait_local_agent/agents.py:1582-1588 | changing the case of letters does not hide a delimiter |
| `Evidence.AnyGapSpells` | src/wait_local_agent/agents.py:1582-1588 | nor does any whitespace between its words |
| `Evidence.FoldTable` | src/wait_local_agent/agents.py:1582-1588 | the letters outside ASCII that match i, s and k without regard to case |
| `Evidence.FrameMatches` | src/wait_local_agent/agents.py:1599-1607 | a framed block matches exactly twice, at its very start and at its very end |
| `Evidence.BlockIsFramed` | src/wait_local_agent/agents.py:1580-1607 | the evidence block of any source has exactly one start delimiter, at its start, and one end delimiter, at its end |
| `Evidence.BlockText` | src/wait_local_agent/agents.py:1592-1607 | the block of a short clean excerpt, word for word; an unknown authority reads UNTRUSTED |
| `Grants.ScopesAreClients` | src/wait_local_agent/capabilities.py:318-319 | scopes and client ids are in bijection, the empty scope standing for all clients |
| `Grants.GrantTable.GrantCapability` | src/wait_local_agent/capabilities.py:94-143 | inserts or reactivates one row, touches no other, returns it, and changes nothing on an error |
| `Grants.GrantTable.RevokeCapability` | src/wait_local_agent/capabilities.py:146-182 | deactivates exactly the existing row, or raises and changes nothing |
| `Grants.RowsAreTold` | src/wait_local_agent/capabilities.py:94-182 | after any calls, a key has a row if and only if it was once granted; first granter and creation come from the first grant, state and update from the last effective call |
| `Grants.ActiveGrantsExactly` | src/wait_local_agent/capabilities.py:48-61 | the active grants are exactly those whose most recent successful call was a grant |
| `Grants.NormalizedExactly` | src/wait_local_agent/capabilities.py:286-315 | a request is well formed exactly when its ids have 1 to 128 characters, it names the one capability and no quarantined client; it is then stripped |
| `Grants.TargetExactly` | src/wait_local_agent/capabilities.py:231-270 | a grant is allowed exactly for active principals: for all clients to admins, for one known client to admins and its role holders |
| `Grants.RefusalReasons` | src/wait_local_agent/capabilities.py:231-270 | which refusal is raised |
| `Grants.GrantedWithTitle` | src/wait_local_agent/capabilities.py:48-61 | every active grant was made by a call whose principal was entitled to it at the time |
| `Scanners.ExtractBraceBody` | src/wait_local_agent/collectors.py:3675-3688 | returns the body up to the first brace that closes the count, and nothing exactly when no brace does |
| `Scanners.BodyIsBalanced` | src/wait_local_agent/collectors.py:3675-3688 | behind an opening brace, the extracted body is the one balanced text followed by its closing brace |
| `Scanners.DepthCounts` | src/wait_local_agent/collectors.py:3675-3688 | depth is the number of opening braces less that of closing ones |
| `Scanners.StripConfigComment` | src/wait_local_agent/collectors.py:3769-3780 | returns the longest prefix without an unquoted hash sign |
| `Scanners.StrippedOnce` | src/wait_local_agent/collectors.py:3769-3780 | that prefix is unique, has no unquoted hash sign of its own, and stripping it again changes nothing |
| `Scanners.CommentsAndQuotes` | src/wait_local_agent/collectors.py:3769-3780 | a hash sign starts a comment when no quote precedes it, and not between a quote and the next quote of its kind |
| `Pruning.RankedIsRanking` | src/wait_local_agent/backup.py:55-63 | a file's position in the sorted listing is the number of files newer by time and name |
| `Pruning.LeadingCount` | src/wait_local_agent/backup.py:65-66 | the newest n files are n, or all files when there are fewer |
| `Pruning.Folder.PruneBackupFiles` | src/wait_local_agent/backup.py:47-72 | survivors are everything but the generated files past the newest retention_count that are neither protected nor undeletable; the result counts the undeletable ones |
| `Pruning.PrunedExactly` | src/wait_local_agent/backup.py:55-72 | a file goes exactly if it is a generated regular file with retention_count later ones, not protected and removable; those that cannot be removed are counted |
| `Pruning.SurvivorsAreNewer` | src/wait_local_agent/backup.py:55-72 | what is retained is newer than what goes |

## Left out

- The store, the action service, redaction, retrieval and model calls: results, failures and choices are inputs; redaction is taken to keep control fields.
- Concurrent operations on one run: commands are serial, so a cancel during an executing pass is not modelled.
- Decoding a run's pinned revision: each run carries its definition, and retry's revision check is an input.
- Step results, outputs, context building, audit entries, exception lineage and final result contents other than the history counters.
- Admission checks before a run (enabled, execution window, ticket scope, approver role) and the remaining definition checks (names, tools, approval rules): one boolean each.
- Floats are decimals as Python writes them without an exponent; negative zero, infinities, NaN and exponent notation are not modelled, nor are non-JSON leaves, non-string keys and lone surrogates.
- SHA-256 is represented by the text it digests, that is, as free of collisions.
- Finding paths are sequences of keys; when keys contain dots, the dotted text the source builds can coincide for different paths.
- Coverage of connectors, approvals attached to findings, and persistence of snapshots.
- The order in which a directory, a dictionary or a query lists its entries, except where the source sorts.
- Plan suggestion, event filters, approval rules, execution windows and time zones: branching without state, which would add easy members only.
- Command line, configuration, connectors, network clients, collectors other than the two scanners, the user interface.
- EngineCoverage.InOrderExactly: for definitions with several steps on one tool the short condition is only sufficient (EngineCoverage.InOrderCovers); EngineCoverage.CoverageExactly is exact for them too.
- Scanners.ExtractBraceBody: finding the block's name by regular expression and collecting several blocks are not modelled.
- Pruning.Folder.PruneBackupFiles: one flag stands for a listing that fails, and removal failures are an input.
