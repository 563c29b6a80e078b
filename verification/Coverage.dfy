/** Source coverage: statuses, their aggregate, and the composed Microsoft section with its filtered counters. */
module Coverage {
  import opened Text
  import opened Json

  datatype Status = Ready | NotConfigured | Partial | Blocked | Failed

  function Name(s: Status): string {
    match s
    case Ready => "ready"
    case NotConfigured => "not_configured"
    case Partial => "partial"
    case Blocked => "blocked"
    case Failed => "failed"
  }

  /** `_coverage_status` */
  function Normalize(raw: string): Status {
    var status := Lower(Strip(raw));
    if status == "ready" then Ready
    else if status == "partial" then Partial
    else if status == "blocked" then Blocked
    else if status == "not_configured" then NotConfigured
    else if status == "failed" then Failed
    else if status in {"configured", "syncing", "degraded"} then Partial
    else if status in {"inactive", "disabled", "missing", "not_run"} then NotConfigured
    else Failed
  }

  /** A stored status reads back as itself. */
  lemma NormalizeName(s: Status)
    ensures Normalize(Name(s)) == s
  {
    var n := Name(s);
    assert Strip(n) == n;
    assert Lower(n) == n;
  }

  /** `_aggregate_coverage`, over already normalised statuses. */
  function Aggregate(statuses: seq<Status>): Status {
    if statuses != [] && forall s :: s in statuses ==> s == Ready then Ready
    else if Failed in statuses then Failed
    else if Blocked in statuses then Blocked
    else if Partial in statuses then Partial
    else NotConfigured
  }

  function Severity(s: Status): nat {
    match s
    case Ready => 0
    case NotConfigured => 1
    case Partial => 2
    case Blocked => 3
    case Failed => 4
  }

  /** The aggregate is the worst of the statuses. */
  lemma AggregateIsWorst(statuses: seq<Status>)
    requires statuses != []
    ensures Aggregate(statuses) in statuses
    ensures forall s :: s in statuses ==> Severity(s) <= Severity(Aggregate(statuses))
  {
    if Aggregate(statuses) == Ready {
      assert statuses[0] in statuses;
    } else if Aggregate(statuses) == NotConfigured {
      var s :| s in statuses && s != Ready;
      assert s == NotConfigured;
    }
  }

  // ----- the composed Microsoft section

  const POSTURE := "microsoft_posture"
  const SOURCE_PREFIX := "microsoft:"

  /** What the Microsoft provider gave: nothing wired, an exception, or counters and source statuses. */
  datatype Posture = NotWired | Raised | Summary(counters: map<string, Json>, statuses: map<string, string>)

  function CounterSource(counter: string): string {
    if counter == "non_operational_services" then "service_health"
    else if counter == "open_service_issues" then "service_issues"
    else if counter == "secure_score_percent" then "secure_scores"
    else if counter in {"failed_sign_ins", "risky_sign_ins"} then "sign_ins"
    else if counter in {"conditional_access_policies", "conditional_access_disabled", "conditional_access_report_only"}
      then "conditional_access"
    else if counter in {"noncompliant_devices", "unencrypted_devices", "stale_devices"} then "managed_devices"
    else if counter in {"active_defender_incidents", "high_severity_incidents"} then "defender_incidents"
    else if counter == "active_defender_alerts" then "defender_alerts"
    else counter
  }

  datatype Composed = Composed(summary: map<string, Json>, coverage: map<string, string>)

  function Normalized(statuses: map<string, string>): map<string, Status> {
    map s | s in statuses :: Normalize(statuses[s])
  }

  function Listed(statuses: map<string, Status>, sources: seq<string>): seq<Status>
    requires forall s :: s in sources ==> s in statuses
  {
    seq(|sources|, i requires 0 <= i < |sources| => statuses[sources[i]])
  }

  /** One coverage entry per reported source. */
  function Recorded(statuses: map<string, Status>, sources: seq<string>): map<string, string>
    requires forall s :: s in sources ==> s in statuses
  {
    if sources == [] then map[] else
      var last := sources[|sources| - 1];
      Recorded(statuses, sources[..|sources| - 1])[SOURCE_PREFIX + last := Name(statuses[last])]
  }

  /** The counters whose source was recorded as ready. */
  function Filtered(counters: map<string, Json>, coverage: map<string, string>): map<string, Json> {
    map k | k in counters && SOURCE_PREFIX + CounterSource(k) in coverage
                          && coverage[SOURCE_PREFIX + CounterSource(k)] == "ready" :: counters[k]
  }

  function Compose(p: Posture): Composed {
    match p
    case NotWired => Composed(map[], map[POSTURE := "not_configured"])
    case Raised => Composed(map[], map[POSTURE := "failed"])
    case Summary(counters, statuses) =>
      var sources, normalized := Sorted(statuses.Keys), Normalized(statuses);
      var coverage := Recorded(normalized, sources);
      Composed(Filtered(counters, coverage), coverage[POSTURE := Name(Aggregate(Listed(normalized, sources)))])
  }

  method ComposeMicrosoft(p: Posture) returns (c: Composed)
    ensures c == Compose(p)
  {
    match p {
      case NotWired =>
        c := Composed(map[], map[POSTURE := "not_configured"]);
      case Raised =>
        c := Composed(map[], map[POSTURE := "failed"]);
      case Summary(counters, statuses) =>
        var coverage, ss := RecordStatuses(statuses, Sorted(statuses.Keys));
        c := Composed(Filtered(counters, coverage), coverage[POSTURE := Name(Aggregate(ss))]);
    }
  }

  method RecordStatuses(statuses: map<string, string>, sources: seq<string>)
    returns (coverage: map<string, string>, ss: seq<Status>)
    requires forall s :: s in sources ==> s in statuses
    ensures coverage == Recorded(Normalized(statuses), sources)
    ensures ss == Listed(Normalized(statuses), sources)
  {
    coverage, ss := map[], [];
    for i := 0 to |sources|
      invariant ss == Listed(Normalized(statuses), sources[..i])
      invariant coverage == Recorded(Normalized(statuses), sources[..i])
    {
      var status := Normalize(statuses[sources[i]]);
      StepRecorded(Normalized(statuses), sources, i);
      coverage := coverage[SOURCE_PREFIX + sources[i] := Name(status)];
      ss := ss + [status];
    }
    assert sources[..|sources|] == sources;
  }

  lemma StepRecorded(statuses: map<string, Status>, sources: seq<string>, i: nat)
    requires i < |sources| && forall s :: s in sources ==> s in statuses
    ensures Recorded(statuses, sources[..i + 1])
         == Recorded(statuses, sources[..i])[SOURCE_PREFIX + sources[i] := Name(statuses[sources[i]])]
    ensures Listed(statuses, sources[..i + 1]) == Listed(statuses, sources[..i]) + [statuses[sources[i]]]
  {
    assert sources[..i + 1][..i] == sources[..i];
    assert sources[..i + 1][i] == sources[i];
  }

  lemma {:induction false} RecordedEntries(statuses: map<string, Status>, sources: seq<string>, s: string)
    requires forall s :: s in sources ==> s in statuses
    ensures SOURCE_PREFIX + s in Recorded(statuses, sources) <==> s in sources
    ensures s in sources ==> Recorded(statuses, sources)[SOURCE_PREFIX + s] == Name(statuses[s])
  {
    if sources != [] {
      var last := sources[|sources| - 1];
      RecordedEntries(statuses, sources[..|sources| - 1], s);
      if SOURCE_PREFIX + s == SOURCE_PREFIX + last {
        Split(SOURCE_PREFIX, s, SOURCE_PREFIX, last);
      }
      assert s in sources <==> s == last || s in sources[..|sources| - 1];
    }
  }

  lemma PrefixedIsNotPosture(source: string)
    ensures SOURCE_PREFIX + source != POSTURE
  {
    assert POSTURE[9] == '_' && (SOURCE_PREFIX + source)[9] == ':';
  }

  lemma ComposedSource(p: Posture, source: string)
    requires p.Summary? && source in p.statuses
    ensures var key, name := SOURCE_PREFIX + source, Name(Normalize(p.statuses[source]));
      && key in Compose(p).coverage && Compose(p).coverage[key] == name
      && key in Recorded(Normalized(p.statuses), Sorted(p.statuses.Keys))
      && Recorded(Normalized(p.statuses), Sorted(p.statuses.Keys))[key] == name
  {
    RecordedEntries(Normalized(p.statuses), Sorted(p.statuses.Keys), source);
    PrefixedIsNotPosture(source);
  }

  /** How every reported status is read; only "ready" itself reads ready. */
  lemma StatusTable(raw: string)
    ensures var status := Lower(Strip(raw));
      && (Normalize(raw) == Ready <==> status == "ready")
      && (Normalize(raw) == Partial <==> status in ["partial", "configured", "syncing", "degraded"])
      && (Normalize(raw) == NotConfigured <==> status in ["not_configured", "inactive", "disabled", "missing", "not_run"])
      && (Normalize(raw) == Blocked <==> status == "blocked")
  {
    var status := Lower(Strip(raw));
    assert status == "ready" ==> status[0] == 'r';
    assert status == "blocked" ==> status[0] == 'b';
    assert status == "failed" ==> status[0] == 'f';
    assert status in ["partial", "configured", "syncing", "degraded"] ==> status[0] in "pcs" || status[..2] == "de";
    assert status in ["not_configured", "inactive", "disabled", "missing", "not_run"] ==> status[0] in "nim" || status[..2] == "di";
  }

  /** A counter is kept, unchanged, if and only if its source was reported and reads ready. */
  lemma KeptExactly(counters: map<string, Json>, statuses: map<string, string>, counter: string)
    ensures var kept := Compose(Summary(counters, statuses)).summary;
      && (counter in kept <==>
            && counter in counters && CounterSource(counter) in statuses
            && Lower(Strip(statuses[CounterSource(counter)])) == "ready")
      && (counter in kept ==> kept[counter] == counters[counter])
  {
    var sources := Sorted(statuses.Keys);
    RecordedEntries(Normalized(statuses), sources, CounterSource(counter));
    if CounterSource(counter) in statuses {
      StatusTable(statuses[CounterSource(counter)]);
      NameReady(Normalize(statuses[CounterSource(counter)]));
    }
  }

  lemma NameReady(s: Status)
    ensures Name(s) == "ready" <==> s == Ready
  {}

  const SHARED_SOURCES := map[
    "non_operational_services" := "service_health", "open_service_issues" := "service_issues",
    "secure_score_percent" := "secure_scores", "failed_sign_ins" := "sign_ins", "risky_sign_ins" := "sign_ins",
    "conditional_access_policies" := "conditional_access", "conditional_access_disabled" := "conditional_access",
    "conditional_access_report_only" := "conditional_access", "noncompliant_devices" := "managed_devices",
    "unencrypted_devices" := "managed_devices", "stale_devices" := "managed_devices",
    "active_defender_incidents" := "defender_incidents", "high_severity_incidents" := "defender_incidents",
    "active_defender_alerts" := "defender_alerts"]

  /** Fourteen counters come from a source of another name; any other counter is its own source. */
  lemma SourceTable(counter: string)
    ensures CounterSource(counter) == if counter in SHARED_SOURCES then SHARED_SOURCES[counter] else counter
  {}

  /** The posture status is the worst one reported, not_configured when none was, and nothing else is recorded. */
  lemma PostureIsWorst(counters: map<string, Json>, statuses: map<string, string>)
    ensures var coverage := Compose(Summary(counters, statuses)).coverage;
      && POSTURE in coverage
      && (forall key :: key in coverage ==> key == POSTURE || exists s :: s in statuses && key == SOURCE_PREFIX + s)
      && (statuses == map[] ==> coverage[POSTURE] == "not_configured")
      && (statuses != map[] ==> exists s ::
            s in statuses && coverage[POSTURE] == Name(Normalize(statuses[s])) && Worst(statuses, s))
  {
    var sources, normalized := Sorted(statuses.Keys), Normalized(statuses);
    var listed := Listed(normalized, sources);
    RecordedKeys(normalized, sources);
    if statuses == map[] {
      assert sources == [];
    } else {
      var known :| known in statuses;
      assert known in sources;
      AggregateIsWorst(listed);
      var i :| 0 <= i < |listed| && listed[i] == Aggregate(listed);
      forall t | t in statuses ensures Severity(Normalize(statuses[t])) <= Severity(Normalize(statuses[sources[i]])) {
        var j :| 0 <= j < |sources| && sources[j] == t;
        assert listed[j] in listed;
      }
      assert Worst(statuses, sources[i]);
    }
  }

  ghost predicate Worst(statuses: map<string, string>, s: string)
    requires s in statuses
  {
    forall t :: t in statuses ==> Severity(Normalize(statuses[t])) <= Severity(Normalize(statuses[s]))
  }

  lemma {:induction false} RecordedKeys(statuses: map<string, Status>, sources: seq<string>)
    requires forall s :: s in sources ==> s in statuses
    ensures forall key :: key in Recorded(statuses, sources) ==> exists s :: s in sources && key == SOURCE_PREFIX + s
  {
    if sources != [] {
      var n := |sources| - 1;
      RecordedKeys(statuses, sources[..n]);
      assert forall s :: s in sources[..n] ==> s in sources;
      assert sources[n] in sources;
    }
  }
}
