/** Comparing two snapshots section by section, behind the coverage gate and the hash shortcut. */
module Snapshots {
  import opened Text
  import opened Json
  import opened Canonical
  import opened Drift
  import opened DriftTheorems
  import opened Coverage

  const SECTIONS: seq<string> := [POSTURE, "environment_graph", "canonical_assets", "connector_readiness"]

  type CoverageMap = map<string, string>

  predicate Belongs(section: string, key: string) {
    || section <= key
    || (section == POSTURE && SOURCE_PREFIX <= key)
    || (section == "connector_readiness" && "connector:" <= key)
  }

  predicate AllReady(section: string, coverage: CoverageMap) {
    forall k :: k in coverage && Belongs(section, k) ==> Normalize(coverage[k]) == Ready
  }

  predicate Mentioned(section: string, coverage: CoverageMap) {
    exists k :: k in coverage && Belongs(section, k)
  }

  /** Some status is known for the section, and every one in either snapshot is ready. */
  predicate Covered(section: string, old_: CoverageMap, new_: CoverageMap) {
    && (Mentioned(section, old_) || Mentioned(section, new_))
    && AllReady(section, old_) && AllReady(section, new_)
  }

  function Section(sections: map<string, Json>, name: string): Json {
    if name in sections then sections[name] else EMPTY
  }

  function StatusOf(coverage: CoverageMap, section: string): Json {
    if section in coverage then Str(coverage[section]) else Null
  }

  function Unavailable(section: string, old_: CoverageMap, new_: CoverageMap): Finding {
    Finding(section, [section], VerificationUnavailable, StatusOf(old_, section), StatusOf(new_, section))
  }

  function SectionFindings(
      section: string, before: map<string, Json>, after: map<string, Json>,
      old_: CoverageMap, new_: CoverageMap, changed: bool)
    : seq<Finding>
  {
    if !Covered(section, old_, new_) then [Unavailable(section, old_, new_)]
    else if changed then Compare(Section(before, section), Section(after, section), section, [section])
    else []
  }

  function AllFindings(
      sections: seq<string>, before: map<string, Json>, after: map<string, Json>,
      old_: CoverageMap, new_: CoverageMap, changed: bool)
    : seq<Finding>
  {
    if sections == [] then [] else
      SectionFindings(sections[0], before, after, old_, new_, changed)
      + AllFindings(sections[1..], before, after, old_, new_, changed)
  }

  predicate HashesDiffer(before: map<string, Json>, after: map<string, Json>) {
    HashText(Obj(before)) != HashText(Obj(after))
  }

  const READY_EVERYWHERE: CoverageMap :=
    map[POSTURE := "ready", "environment_graph" := "ready", "canonical_assets" := "ready", "connector_readiness" := "ready"]

  /** A missing or empty coverage map falls back: the old one to ready everywhere, the new one to the old. */
  function OrElse(coverage: Option<CoverageMap>, fallback: CoverageMap): CoverageMap {
    if coverage.Some? && coverage.value != map[] then coverage.value else fallback
  }

  function Findings(
      before: map<string, Json>, after: map<string, Json>,
      beforeCoverage: Option<CoverageMap>, afterCoverage: Option<CoverageMap>)
    : seq<Finding>
  {
    var old_ := OrElse(beforeCoverage, READY_EVERYWHERE);
    AllFindings(SECTIONS, before, after, old_, OrElse(afterCoverage, old_), HashesDiffer(before, after))
  }

  method CompareNormalizedSections(
      before: map<string, Json>, after: map<string, Json>,
      beforeCoverage: Option<CoverageMap>, afterCoverage: Option<CoverageMap>)
    returns (findings: seq<Finding>)
    ensures findings == Findings(before, after, beforeCoverage, afterCoverage)
  {
    var old_ := OrElse(beforeCoverage, READY_EVERYWHERE);
    var new_ := OrElse(afterCoverage, old_);
    var log := new FindingLog();
    var changed := HashesDiffer(before, after);
    for i := 0 to |SECTIONS|
      invariant log.findings + AllFindings(SECTIONS[i..], before, after, old_, new_, changed)
             == AllFindings(SECTIONS, before, after, old_, new_, changed)
    {
      StepSections(log.findings, SECTIONS, i, before, after, old_, new_, changed);
      CompareSection(SECTIONS[i], before, after, old_, new_, changed, log);
    }
    assert SECTIONS[|SECTIONS|..] == [];
    findings := log.findings;
  }

  method CompareSection(
      section: string, before: map<string, Json>, after: map<string, Json>,
      old_: CoverageMap, new_: CoverageMap, changed: bool, log: FindingLog)
    modifies log
    ensures log.findings == old(log.findings) + SectionFindings(section, before, after, old_, new_, changed)
  {
    if !Covered(section, old_, new_) {
      log.Append(Unavailable(section, old_, new_));
    } else if changed {
      CompareValues(Section(before, section), Section(after, section), section, [section], log);
    }
  }

  lemma StepSections(
      done: seq<Finding>, sections: seq<string>, i: nat, before: map<string, Json>, after: map<string, Json>,
      old_: CoverageMap, new_: CoverageMap, changed: bool)
    requires i < |sections|
    ensures done + AllFindings(sections[i..], before, after, old_, new_, changed)
         == done + SectionFindings(sections[i], before, after, old_, new_, changed)
            + AllFindings(sections[i + 1..], before, after, old_, new_, changed)
  {
    assert sections[i..][1..] == sections[i + 1..];
  }

  // ----- the hash shortcut

  lemma SectionShortcut(
      section: string, before: map<string, Json>, after: map<string, Json>, old_: CoverageMap, new_: CoverageMap)
    requires !HashesDiffer(before, after)
    ensures SectionFindings(section, before, after, old_, new_, true)
         == SectionFindings(section, before, after, old_, new_, false)
  {
    SameHashIffReordered(Obj(before), Obj(after));
    SectionReordered(section, before, after);
    ReorderingIsSilent(Section(before, section), Section(after, section), section, [section]);
  }

  lemma SectionReordered(section: string, before: map<string, Json>, after: map<string, Json>)
    requires Reordered(Obj(before), Obj(after))
    ensures Reordered(Section(before, section), Section(after, section))
  {
    assert before.Keys == after.Keys;
    assert section in before <==> section in after;
  }

  lemma {:induction false} AllFindingsShortcut(
      sections: seq<string>, before: map<string, Json>, after: map<string, Json>, old_: CoverageMap, new_: CoverageMap)
    requires !HashesDiffer(before, after)
    ensures AllFindings(sections, before, after, old_, new_, true)
         == AllFindings(sections, before, after, old_, new_, false)
  {
    if sections != [] {
      SectionShortcut(sections[0], before, after, old_, new_);
      AllFindingsShortcut(sections[1..], before, after, old_, new_);
    }
  }

  /** Skipping the comparison on equal hashes never changes the findings. */
  lemma ShortcutIsHarmless(
      before: map<string, Json>, after: map<string, Json>,
      beforeCoverage: Option<CoverageMap>, afterCoverage: Option<CoverageMap>)
    ensures var old_ := OrElse(beforeCoverage, READY_EVERYWHERE);
      Findings(before, after, beforeCoverage, afterCoverage)
      == AllFindings(SECTIONS, before, after, old_, OrElse(afterCoverage, old_), true)
  {
    var old_ := OrElse(beforeCoverage, READY_EVERYWHERE);
    if !HashesDiffer(before, after) {
      AllFindingsShortcut(SECTIONS, before, after, old_, OrElse(afterCoverage, old_));
    }
  }

  // ----- each section's findings, and only they, carry its name

  function InDomain(fs: seq<Finding>, domain: string): seq<Finding> {
    if fs == [] then []
    else (if fs[0].domain == domain then [fs[0]] else []) + InDomain(fs[1..], domain)
  }

  lemma {:induction false} InDomainConcat(fs: seq<Finding>, gs: seq<Finding>, domain: string)
    ensures InDomain(fs + gs, domain) == InDomain(fs, domain) + InDomain(gs, domain)
  {
    if fs == [] {
      assert fs + gs == gs;
    } else {
      InDomainConcat(fs[1..], gs, domain);
      assert (fs + gs)[1..] == fs[1..] + gs;
    }
  }

  lemma {:induction false} InDomainUniform(fs: seq<Finding>, own: string, domain: string)
    requires forall f :: f in fs ==> f.domain == own
    ensures InDomain(fs, domain) == if domain == own then fs else []
  {
    if fs != [] {
      InDomainUniform(fs[1..], own, domain);
      assert fs == [fs[0]] + fs[1..];
    }
  }

  lemma SectionDomain(
      section: string, before: map<string, Json>, after: map<string, Json>,
      old_: CoverageMap, new_: CoverageMap, changed: bool)
    ensures forall f :: f in SectionFindings(section, before, after, old_, new_, changed) ==>
      f.domain == section && Extends(f, [section])
  {
    ComparePlaced(Section(before, section), Section(after, section), section, [section]);
  }

  lemma {:induction false} AllFindingsByDomain(
      sections: seq<string>, before: map<string, Json>, after: map<string, Json>,
      old_: CoverageMap, new_: CoverageMap, changed: bool, section: string)
    requires forall i, j :: 0 <= i < j < |sections| ==> sections[i] != sections[j]
    ensures InDomain(AllFindings(sections, before, after, old_, new_, changed), section)
         == if section in sections then SectionFindings(section, before, after, old_, new_, changed) else []
  {
    if sections != [] {
      var fs := SectionFindings(sections[0], before, after, old_, new_, changed);
      var gs := AllFindings(sections[1..], before, after, old_, new_, changed);
      InDomainConcat(fs, gs, section);
      SectionDomain(sections[0], before, after, old_, new_, changed);
      InDomainUniform(fs, sections[0], section);
      AllFindingsByDomain(sections[1..], before, after, old_, new_, changed, section);
      assert section in sections <==> section == sections[0] || section in sections[1..];
    }
  }

  lemma DistinctSections()
    ensures forall i, j :: 0 <= i < j < |SECTIONS| ==> SECTIONS[i] != SECTIONS[j]
  {
    assert SECTIONS[0][0] == 'm' && SECTIONS[1][0] == 'e' && SECTIONS[2][1] == 'a' && SECTIONS[3][1] == 'o';
    assert SECTIONS[2][0] == 'c' && SECTIONS[3][0] == 'c';
  }

  /** A section with a known non-ready status on either side yields exactly one finding: that it could not be verified. */
  lemma OutageIsNotDrift(
      before: map<string, Json>, after: map<string, Json>, old_: CoverageMap, new_: CoverageMap,
      section: string, key: string)
    requires section in SECTIONS && Belongs(section, key) && old_ != map[] && new_ != map[]
    requires (key in old_ && Normalize(old_[key]) != Ready) || (key in new_ && Normalize(new_[key]) != Ready)
    ensures InDomain(Findings(before, after, Some(old_), Some(new_)), section) == [Unavailable(section, old_, new_)]
  {
    DistinctSections();
    AllFindingsByDomain(SECTIONS, before, after, old_, new_, HashesDiffer(before, after), section);
  }

  /** Coverage of a whole snapshot contains what composition recorded for Microsoft. */
  predicate Includes(coverage: CoverageMap, c: Composed) {
    forall k :: k in c.coverage ==> k in coverage && coverage[k] == c.coverage[k]
  }

  function PostureSection(c: Composed): Json {
    Obj(map["summary" := Obj(c.summary)])
  }

  lemma ReadySource(p: Posture, coverage: CoverageMap, source: string)
    requires p.Summary? && source in p.statuses
    requires Includes(coverage, Compose(p)) && AllReady(POSTURE, coverage)
    ensures var recorded := Recorded(Normalized(p.statuses), Sorted(p.statuses.Keys));
      SOURCE_PREFIX + source in recorded && recorded[SOURCE_PREFIX + source] == "ready"
  {
    var key, status := SOURCE_PREFIX + source, Normalize(p.statuses[source]);
    ComposedSource(p, source);
    assert SOURCE_PREFIX <= key && Belongs(POSTURE, key);
    assert Normalize(Name(status)) == Ready;
    NormalizeName(status);
  }

  lemma KeptCounter(p: Posture, coverage: CoverageMap, counter: string)
    requires p.Summary? && counter in p.counters && CounterSource(counter) in p.statuses
    requires Includes(coverage, Compose(p)) && AllReady(POSTURE, coverage)
    ensures counter in Compose(p).summary
  {
    ReadySource(p, coverage, CounterSource(counter));
  }

  lemma CounterAt(c: Composed, counter: string)
    requires counter in c.summary
    ensures At(PostureSection(c), ["summary", counter]) == Some(c.summary[counter])
  {
    var keys := ["summary", counter];
    assert keys[1..] == [counter] && [counter][1..] == [];
    assert At(PostureSection(c), keys) == At(Obj(c.summary), [counter]);
    assert At(Obj(c.summary), [counter]) == At(c.summary[counter], []);
  }

  lemma CountersCompared(c: Composed, d: Composed, counter: string, f: Finding)
    requires counter in c.summary && counter in d.summary
    requires f in Compare(PostureSection(c), PostureSection(d), POSTURE, [POSTURE])
    requires f.path == [POSTURE, "summary", counter]
    ensures f.cls != New && f.cls != Removed
  {
    ComparePlaced(PostureSection(c), PostureSection(d), POSTURE, [POSTURE]);
    assert f.path[1..] == ["summary", counter];
    CounterAt(c, counter);
    CounterAt(d, counter);
  }

  /**
   Composition and comparison together: a counter that both providers returned, from a source that
   both reported on, is never called new or removed, whatever the sources' statuses were.
   */
  lemma FilteredCounterIsNotDrift(
      p: Posture, q: Posture, before: map<string, Json>, after: map<string, Json>,
      old_: CoverageMap, new_: CoverageMap, counter: string, f: Finding)
    requires p.Summary? && counter in p.counters && CounterSource(counter) in p.statuses
    requires q.Summary? && counter in q.counters && CounterSource(counter) in q.statuses
    requires Includes(old_, Compose(p)) && Includes(new_, Compose(q))
    requires POSTURE in before && before[POSTURE] == PostureSection(Compose(p))
    requires POSTURE in after && after[POSTURE] == PostureSection(Compose(q))
    requires f in InDomain(Findings(before, after, Some(old_), Some(new_)), POSTURE)
    requires f.path == [POSTURE, "summary", counter]
    ensures f.cls != New && f.cls != Removed
  {
    assert POSTURE in Compose(p).coverage && POSTURE in Compose(q).coverage;
    DistinctSections();
    AllFindingsByDomain(SECTIONS, before, after, old_, new_, HashesDiffer(before, after), POSTURE);
    assert SECTIONS[0] == POSTURE;
    if Covered(POSTURE, old_, new_) {
      KeptCounter(p, old_, counter);
      KeptCounter(q, new_, counter);
      CountersCompared(Compose(p), Compose(q), counter, f);
    }
  }

  // ----- exchanging, separating and silencing whole snapshots

  lemma SectionMirrored(
      section: string, before: map<string, Json>, after: map<string, Json>, old_: CoverageMap, new_: CoverageMap, changed: bool)
    ensures AllMirror(
      SectionFindings(section, before, after, old_, new_, changed),
      SectionFindings(section, after, before, new_, old_, changed))
  {
    if Covered(section, old_, new_) {
      CompareMirrored(Section(before, section), Section(after, section), section, [section]);
    } else {
      assert Mirrors(Unavailable(section, old_, new_), Unavailable(section, new_, old_));
    }
  }

  lemma {:induction false} AllFindingsMirrored(
      sections: seq<string>, before: map<string, Json>, after: map<string, Json>,
      old_: CoverageMap, new_: CoverageMap, changed: bool)
    ensures AllMirror(
      AllFindings(sections, before, after, old_, new_, changed),
      AllFindings(sections, after, before, new_, old_, changed))
  {
    if sections != [] {
      SectionMirrored(sections[0], before, after, old_, new_, changed);
      AllFindingsMirrored(sections[1..], before, after, old_, new_, changed);
      AllMirrorConcat(
        SectionFindings(sections[0], before, after, old_, new_, changed),
        SectionFindings(sections[0], after, before, new_, old_, changed),
        AllFindings(sections[1..], before, after, old_, new_, changed),
        AllFindings(sections[1..], after, before, new_, old_, changed));
    }
  }

  /** With both coverage maps given, exchanging the snapshots exchanges every finding in place. */
  lemma ExchangedSnapshots(
      before: map<string, Json>, after: map<string, Json>, old_: CoverageMap, new_: CoverageMap)
    requires old_ != map[] && new_ != map[]
    ensures AllMirror(
      Findings(before, after, Some(old_), Some(new_)),
      Findings(after, before, Some(new_), Some(old_)))
  {
    AllFindingsMirrored(SECTIONS, before, after, old_, new_, HashesDiffer(before, after));
  }

  lemma {:induction false} AllFindingsUnder(
      sections: seq<string>, before: map<string, Json>, after: map<string, Json>,
      old_: CoverageMap, new_: CoverageMap, changed: bool, f: Finding)
    requires f in AllFindings(sections, before, after, old_, new_, changed)
    ensures f.domain in sections && Extends(f, [f.domain])
  {
    if f in SectionFindings(sections[0], before, after, old_, new_, changed) {
      SectionDomain(sections[0], before, after, old_, new_, changed);
    } else {
      AllFindingsUnder(sections[1..], before, after, old_, new_, changed, f);
    }
  }

  lemma {:induction false} AllFindingsApart(
      sections: seq<string>, before: map<string, Json>, after: map<string, Json>,
      old_: CoverageMap, new_: CoverageMap, changed: bool)
    requires forall i, j :: 0 <= i < j < |sections| ==> sections[i] != sections[j]
    ensures Apart(AllFindings(sections, before, after, old_, new_, changed))
  {
    if sections != [] {
      var fs := SectionFindings(sections[0], before, after, old_, new_, changed);
      var gs := AllFindings(sections[1..], before, after, old_, new_, changed);
      CompareApart(Section(before, sections[0]), Section(after, sections[0]), sections[0], [sections[0]]);
      AllFindingsApart(sections[1..], before, after, old_, new_, changed);
      SectionDomain(sections[0], before, after, old_, new_, changed);
      forall f, g | f in fs && g in gs ensures !(f.path <= g.path) && !(g.path <= f.path) {
        AllFindingsUnder(sections[1..], before, after, old_, new_, changed, g);
        assert [] + [sections[0]] == [sections[0]] && [] + [g.domain] == [g.domain];
        DifferentKeysApart(f, g, [], sections[0], g.domain);
      }
      ApartConcat(fs, gs);
    }
  }

  /** No two findings of a whole diff share a path, and none lies below another. */
  lemma FindingsApart(
      before: map<string, Json>, after: map<string, Json>,
      beforeCoverage: Option<CoverageMap>, afterCoverage: Option<CoverageMap>)
    ensures Apart(Findings(before, after, beforeCoverage, afterCoverage))
  {
    DistinctSections();
    var old_ := OrElse(beforeCoverage, READY_EVERYWHERE);
    AllFindingsApart(SECTIONS, before, after, old_, OrElse(afterCoverage, old_), HashesDiffer(before, after));
  }

  lemma {:induction false} AllFindingsSilent(
      sections: seq<string>, before: map<string, Json>, after: map<string, Json>, old_: CoverageMap, new_: CoverageMap)
    ensures AllFindings(sections, before, after, old_, new_, true) == [] <==>
      forall s :: s in sections ==>
        && Covered(s, old_, new_)
        && Same(Fill(Section(before, s), Section(after, s), [s]), Fill(Section(after, s), Section(before, s), [s]))
  {
    if sections != [] {
      var s := sections[0];
      CompareSilent(Section(before, s), Section(after, s), s, [s]);
      AllFindingsSilent(sections[1..], before, after, old_, new_);
      BothEmpty(
        SectionFindings(s, before, after, old_, new_, true),
        AllFindings(sections[1..], before, after, old_, new_, true));
      assert forall t :: t in sections <==> t == s || t in sections[1..];
    }
  }

  /** `unchanged` is reported exactly when every section is covered and agrees up to list order, one-sided empty maps and Python's `True == 1`. */
  lemma UnchangedExactly(
      before: map<string, Json>, after: map<string, Json>,
      beforeCoverage: Option<CoverageMap>, afterCoverage: Option<CoverageMap>)
    ensures var old_ := OrElse(beforeCoverage, READY_EVERYWHERE);
      Findings(before, after, beforeCoverage, afterCoverage) == [] <==>
      forall s :: s in SECTIONS ==>
        && Covered(s, old_, OrElse(afterCoverage, old_))
        && Same(Fill(Section(before, s), Section(after, s), [s]), Fill(Section(after, s), Section(before, s), [s]))
  {
    var old_ := OrElse(beforeCoverage, READY_EVERYWHERE);
    ShortcutIsHarmless(before, after, beforeCoverage, afterCoverage);
    AllFindingsSilent(SECTIONS, before, after, old_, OrElse(afterCoverage, old_));
  }

  // ----- which sections are compared

  predicate StartsWith(key: string, prefix: string) {
    |key| >= |prefix| && key[..|prefix|] == prefix
  }

  /** The coverage keys of each section, by their prefixes. */
  lemma SectionKeys(key: string)
    ensures Belongs("microsoft_posture", key) <==> StartsWith(key, "microsoft:") || StartsWith(key, "microsoft_posture")
    ensures Belongs("environment_graph", key) <==> StartsWith(key, "environment_graph")
    ensures Belongs("canonical_assets", key) <==> StartsWith(key, "canonical_assets")
    ensures Belongs("connector_readiness", key) <==> StartsWith(key, "connector:") || StartsWith(key, "connector_readiness")
    ensures SECTIONS == ["microsoft_posture", "environment_graph", "canonical_assets", "connector_readiness"]
  {
    DistinctSections();
    assert "environment_graph"[0] == 'e' && "canonical_assets"[1] == 'a' && "connector_readiness"[1] == 'o';
    assert "microsoft_posture"[0] == 'm' && "canonical_assets"[0] == 'c';
  }

  /** The statuses in force: those given, or ready for all four sections, or those of the older snapshot. */
  function InForce(given: Option<CoverageMap>, otherwise: CoverageMap): CoverageMap {
    match given
    case Some(coverage) => if |coverage| > 0 then coverage else otherwise
    case None => otherwise
  }

  ghost predicate EveryKeyReady(section: string, coverage: CoverageMap) {
    forall key :: key in coverage.Keys && Belongs(section, key) ==> Normalize(coverage[key]) == Ready
  }

  /** A section is compared if and only if some status is known for it and none that is known is other than ready. */
  lemma ComparedExactly(
      before: map<string, Json>, after: map<string, Json>,
      beforeCoverage: Option<CoverageMap>, afterCoverage: Option<CoverageMap>, section: string)
    requires section in SECTIONS
    ensures var old_ := InForce(beforeCoverage, map s | s in SECTIONS :: "ready");
      var new_ := InForce(afterCoverage, old_);
      var fs := InDomain(Findings(before, after, beforeCoverage, afterCoverage), section);
      if (exists key :: key in old_.Keys + new_.Keys && Belongs(section, key))
        && EveryKeyReady(section, old_) && EveryKeyReady(section, new_)
      then
        && fs == Compare(
             if section in before then before[section] else Obj(map[]),
             if section in after then after[section] else Obj(map[]), section, [section])
        && forall f :: f in fs ==> f.cls != VerificationUnavailable
      else fs == [Finding(
        section, [section], VerificationUnavailable,
        if section in old_ then Str(old_[section]) else Null, if section in new_ then Str(new_[section]) else Null)]
  {
    DefaultCoverage();
    var old_ := OrElse(beforeCoverage, READY_EVERYWHERE);
    var new_ := OrElse(afterCoverage, old_);
    ShortcutIsHarmless(before, after, beforeCoverage, afterCoverage);
    DistinctSections();
    AllFindingsByDomain(SECTIONS, before, after, old_, new_, true, section);
    GateMeans(section, old_, new_);
    ComparePlaced(Section(before, section), Section(after, section), section, [section]);
  }

  lemma DefaultCoverage()
    ensures (map s | s in SECTIONS :: "ready") == READY_EVERYWHERE
  {
    assert forall s :: s in SECTIONS <==> s in READY_EVERYWHERE;
  }

  lemma GateMeans(section: string, old_: CoverageMap, new_: CoverageMap)
    ensures Covered(section, old_, new_) <==>
      && (exists key :: key in old_.Keys + new_.Keys && Belongs(section, key))
      && EveryKeyReady(section, old_) && EveryKeyReady(section, new_)
  {
    if Mentioned(section, old_) {
      var key :| key in old_ && Belongs(section, key);
      assert key in old_.Keys + new_.Keys;
    } else if Mentioned(section, new_) {
      var key :| key in new_ && Belongs(section, key);
      assert key in old_.Keys + new_.Keys;
    }
  }

  lemma SectionNames()
    ensures Belongs(POSTURE, POSTURE)
  {}

  /** A provider that is not wired or that raises makes its section unavailable, never healthy or emptied. */
  lemma UnreachableProvider(
      p: Posture, before: map<string, Json>, after: map<string, Json>, old_: CoverageMap, new_: CoverageMap)
    requires p.NotWired? || p.Raised?
    requires Includes(old_, Compose(p)) || Includes(new_, Compose(p))
    requires old_ != map[] && new_ != map[]
    ensures Compose(p).summary == map[]
    ensures InDomain(Findings(before, after, Some(old_), Some(new_)), POSTURE) == [Unavailable(POSTURE, old_, new_)]
  {
    var status := if p.NotWired? then NotConfigured else Failed;
    NormalizeName(status);
    assert POSTURE in Compose(p).coverage && Compose(p).coverage[POSTURE] == Name(status);
    SectionNames();
    assert SECTIONS[0] == POSTURE;
    OutageIsNotDrift(before, after, old_, new_, POSTURE, POSTURE);
  }

  /** A diff lists its sections one after the other, Microsoft posture first. */
  lemma SectionsInOrder(
      before: map<string, Json>, after: map<string, Json>,
      beforeCoverage: Option<CoverageMap>, afterCoverage: Option<CoverageMap>)
    ensures var fs := Findings(before, after, beforeCoverage, afterCoverage);
      fs == InDomain(fs, "microsoft_posture") + (InDomain(fs, "environment_graph")
            + (InDomain(fs, "canonical_assets") + InDomain(fs, "connector_readiness")))
  {
    var old_ := OrElse(beforeCoverage, READY_EVERYWHERE);
    var new_, changed := OrElse(afterCoverage, old_), HashesDiffer(before, after);
    DistinctSections();
    forall s | s in SECTIONS
      ensures InDomain(Findings(before, after, beforeCoverage, afterCoverage), s)
           == SectionFindings(s, before, after, old_, new_, changed)
    {
      AllFindingsByDomain(SECTIONS, before, after, old_, new_, changed, s);
    }
    FourSections(before, after, old_, new_, changed);
  }

  lemma FourSections(
      before: map<string, Json>, after: map<string, Json>, old_: CoverageMap, new_: CoverageMap, changed: bool)
    ensures AllFindings(SECTIONS, before, after, old_, new_, changed)
      == SectionFindings(SECTIONS[0], before, after, old_, new_, changed)
         + (SectionFindings(SECTIONS[1], before, after, old_, new_, changed)
            + (SectionFindings(SECTIONS[2], before, after, old_, new_, changed)
               + SectionFindings(SECTIONS[3], before, after, old_, new_, changed)))
  {
    OneSection(SECTIONS, before, after, old_, new_, changed);
    OneSection(SECTIONS[1..], before, after, old_, new_, changed);
    OneSection(SECTIONS[1..][1..], before, after, old_, new_, changed);
    OneSection(SECTIONS[1..][1..][1..], before, after, old_, new_, changed);
    assert SECTIONS[1..][1..][1..][1..] == [];
  }

  lemma OneSection(
      sections: seq<string>, before: map<string, Json>, after: map<string, Json>, old_: CoverageMap, new_: CoverageMap, changed: bool)
    requires sections != []
    ensures AllFindings(sections, before, after, old_, new_, changed)
      == SectionFindings(sections[0], before, after, old_, new_, changed)
         + AllFindings(sections[1..], before, after, old_, new_, changed)
  {}
}
