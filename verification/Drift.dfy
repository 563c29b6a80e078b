/**
 The recursive drift comparison of two JSON values: one finding per difference, with its path,
 its classification and the values on both sides.
 */
module Drift {
  import opened Text
  import opened Json
  import opened Canonical
  import opened Numbers

  datatype Class = New | Removed | Changed | Worsened | Improved | Resolved | VerificationUnavailable

  datatype Polarity = BadUp | GoodUp

  /** `path` lists the keys that the source joins with dots. */
  datatype Finding = Finding(domain: string, path: seq<string>, cls: Class, previous: Json, current: Json)

  const EMPTY := Obj(map[])

  /** `key.rsplit(".", 1)[-1]` */
  function LastSegment(key: string): string {
    if '.' !in key then key else LastSegment(key[1..])
  }

  function Leaf(path: seq<string>): string
    requires path != []
  {
    LastSegment(path[|path| - 1])
  }

  function LeafPolarity(leaf: string): Option<Polarity> {
    if leaf in {
         "non_operational_services", "open_service_issues", "failed_sign_ins", "risky_sign_ins",
         "risky_users", "conditional_access_disabled", "conditional_access_report_only",
         "noncompliant_devices", "unencrypted_devices", "stale_devices",
         "active_defender_incidents", "high_severity_incidents", "active_defender_alerts"
       } then Some(BadUp)
    else if leaf == "secure_score_percent" then Some(GoodUp)
    else None
  }

  /** Python's `==` compares numbers by value: it identifies 1, 1.0 and `True`. */
  function Collapse(j: Json): Json {
    match j
    case Bool(_) => Reduced(j)
    case Dec(_, _) => Reduced(j)
    case List(xs) => List(seq(|xs|, i requires 0 <= i < |xs| => Collapse(xs[i])))
    case Obj(f) => Obj(map k | k in f :: Collapse(f[k]))
    case _ => j
  }

  /** `_canonicalize(a) == _canonicalize(b)` as Python evaluates it. */
  predicate Same(a: Json, b: Json) {
    Collapse(Canonicalize(a)) == Collapse(Canonicalize(b))
  }

  /** The verdict on a leaf whose values differ. */
  function Verdict(polarity: Option<Polarity>, before: Json, after: Json): Class {
    if IsNumber(before) && Numeric(after) then
      match polarity
      case Some(BadUp) =>
        if IsZero(after) && !IsZero(before) then Resolved
        else if Above(after, before) then Worsened else Improved
      case Some(GoodUp) => if Above(after, before) then Improved else Worsened
      case None => Changed
    else Changed
  }

  function Classify(leaf: string, before: Json, after: Json): Class {
    Verdict(LeafPolarity(leaf), before, after)
  }

  /** A non-empty map of maps, named `assets` or with at least two entries of one shape. */
  predicate IsEntityMap(m: map<string, Json>, path: seq<string>)
    requires path != []
  {
    && m != map[]
    && (forall k :: k in m ==> m[k].Obj?)
    && (|| Leaf(path) == "assets"
        || (|m| > 1 && forall k, l :: k in m && l in m ==> m[k].fields.Keys == m[l].fields.Keys))
  }

  predicate ByEntity(before: map<string, Json>, after: map<string, Json>, path: seq<string>)
    requires path != []
  {
    || (Leaf(path) == "assets" && (before != map[] || after != map[]))
    || (IsEntityMap(before, path) && IsEntityMap(after, path))
  }

  function Compare(before: Json, after: Json, domain: string, path: seq<string>): seq<Finding>
    requires path != []
    decreases before, 2, 0
  {
    if before.Obj? && after.Obj? then
      CompareKeys(
        before, after, domain, path, Sorted(before.fields.Keys + after.fields.Keys),
        ByEntity(before.fields, after.fields, path))
    else if Same(before, after) then []
    else [Finding(domain, path, Classify(Leaf(path), before, after), before, after)]
  }

  function CompareKeys(
      before: Json, after: Json, domain: string, path: seq<string>, keys: seq<string>, entity: bool)
    : seq<Finding>
    requires before.Obj? && after.Obj? && path != []
    requires forall k :: k in keys ==> k in before.fields || k in after.fields
    decreases before, 1, |keys|
  {
    if keys == [] then [] else
      CompareKey(before, after, domain, path, keys[0], entity)
      + CompareKeys(before, after, domain, path, keys[1..], entity)
  }

  function CompareKey(
      before: Json, after: Json, domain: string, path: seq<string>, k: string, entity: bool)
    : seq<Finding>
    requires before.Obj? && after.Obj? && path != []
    requires k in before.fields || k in after.fields
    decreases before, 0, 0
  {
    if entity then
      if k !in before.fields then [Finding(domain, path + [k], New, Null, after.fields[k])]
      else if k !in after.fields then [Finding(domain, path + [k], Removed, before.fields[k], Null)]
      else if Same(before.fields[k], after.fields[k]) then []
      else [Finding(domain, path + [k], Changed, before.fields[k], after.fields[k])]
    else if k !in before.fields then OneSided(after.fields[k], domain, path + [k], New)
    else if k !in after.fields then OneSided(before.fields[k], domain, path + [k], Removed)
    else Compare(before.fields[k], after.fields[k], domain, path + [k])
  }

  /** A value present on one side only: one finding, or one per entry when it is a map. */
  function OneSided(value: Json, domain: string, path: seq<string>, cls: Class): seq<Finding>
    requires cls == New || cls == Removed
  {
    if value.Obj? then Entries(value.fields, domain, path, cls, Sorted(value.fields.Keys))
    else [OneSidedFinding(value, domain, path, cls)]
  }

  function OneSidedFinding(value: Json, domain: string, path: seq<string>, cls: Class): Finding {
    Finding(domain, path, cls, if cls == Removed then value else Null, if cls == New then value else Null)
  }

  function Entries(
      values: map<string, Json>, domain: string, path: seq<string>, cls: Class, keys: seq<string>)
    : (fs: seq<Finding>)
    requires forall k :: k in keys ==> k in values
    ensures |fs| == |keys|
    ensures forall i :: 0 <= i < |keys| ==>
      fs[i] == OneSidedFinding(values[keys[i]], domain, path + [keys[i]], cls)
  {
    if keys == [] then []
    else
      [OneSidedFinding(values[keys[0]], domain, path + [keys[0]], cls)]
      + Entries(values, domain, path, cls, keys[1..])
  }

  /** The findings list that the comparison functions share and append to. */
  class FindingLog {
    var findings: seq<Finding>

    constructor ()
      ensures findings == []
    {
      findings := [];
    }

    method Append(f: Finding)
      modifies this
      ensures findings == old(findings) + [f]
    {
      findings := findings + [f];
    }
  }

  method CompareMappingEntries(
      values: map<string, Json>, domain: string, path: seq<string>, cls: Class, log: FindingLog)
    modifies log
    ensures log.findings == old(log.findings) + Entries(values, domain, path, cls, Sorted(values.Keys))
  {
    var keys := Sorted(values.Keys);
    for i := 0 to |keys|
      invariant log.findings + Entries(values, domain, path, cls, keys[i..])
             == old(log.findings) + Entries(values, domain, path, cls, keys)
    {
      StepEntries(log.findings, values, domain, path, cls, keys, i);
      var previous := if cls == Removed then values[keys[i]] else Null;
      var current := if cls == New then values[keys[i]] else Null;
      log.Append(Finding(domain, path + [keys[i]], cls, previous, current));
    }
    assert keys[|keys|..] == [];
  }

  lemma StepEntries(
      done: seq<Finding>, values: map<string, Json>, domain: string, path: seq<string>, cls: Class,
      keys: seq<string>, i: nat)
    requires i < |keys| && forall k :: k in keys ==> k in values
    ensures done + Entries(values, domain, path, cls, keys[i..])
         == done + [OneSidedFinding(values[keys[i]], domain, path + [keys[i]], cls)]
            + Entries(values, domain, path, cls, keys[i + 1..])
  {
    assert keys[i..][1..] == keys[i + 1..];
    assert Entries(values, domain, path, cls, keys[i..])
        == [OneSidedFinding(values[keys[i]], domain, path + [keys[i]], cls)]
           + Entries(values, domain, path, cls, keys[i + 1..]);
  }

  method CompareEntityMap(before: Json, after: Json, domain: string, path: seq<string>, log: FindingLog)
    requires before.Obj? && after.Obj? && path != []
    modifies log
    ensures log.findings == old(log.findings)
      + CompareKeys(before, after, domain, path, Sorted(before.fields.Keys + after.fields.Keys), true)
  {
    var keys := Sorted(before.fields.Keys + after.fields.Keys);
    for i := 0 to |keys|
      invariant forall k :: k in keys[i..] ==> k in before.fields || k in after.fields
      invariant log.findings + CompareKeys(before, after, domain, path, keys[i..], true)
             == old(log.findings) + CompareKeys(before, after, domain, path, keys, true)
    {
      StepKeys(log.findings, before, after, domain, path, keys, i, true);
      CompareEntity(before, after, domain, path, keys[i], log);
    }
    assert keys[|keys|..] == [];
  }

  method CompareEntity(before: Json, after: Json, domain: string, path: seq<string>, k: string, log: FindingLog)
    requires before.Obj? && after.Obj? && path != []
    requires k in before.fields || k in after.fields
    modifies log
    ensures log.findings == old(log.findings) + CompareKey(before, after, domain, path, k, true)
  {
    if k !in before.fields {
      log.Append(Finding(domain, path + [k], New, Null, after.fields[k]));
    } else if k !in after.fields {
      log.Append(Finding(domain, path + [k], Removed, before.fields[k], Null));
    } else if !Same(before.fields[k], after.fields[k]) {
      log.Append(Finding(domain, path + [k], Changed, before.fields[k], after.fields[k]));
    }
  }

  lemma StepKeys(
      done: seq<Finding>, before: Json, after: Json, domain: string, path: seq<string>,
      keys: seq<string>, i: nat, entity: bool)
    requires before.Obj? && after.Obj? && path != [] && i < |keys|
    requires forall k :: k in keys ==> k in before.fields || k in after.fields
    ensures forall k :: k in keys[i..] ==> k in before.fields || k in after.fields
    ensures done + CompareKeys(before, after, domain, path, keys[i..], entity)
         == done + CompareKey(before, after, domain, path, keys[i], entity)
            + CompareKeys(before, after, domain, path, keys[i + 1..], entity)
  {
    assert keys[i..][1..] == keys[i + 1..];
    assert keys[i..][0] == keys[i];
  }

  method CompareValues(before: Json, after: Json, domain: string, path: seq<string>, log: FindingLog)
    requires path != []
    modifies log
    ensures log.findings == old(log.findings) + Compare(before, after, domain, path)
    decreases before
  {
    if before.Obj? && after.Obj? {
      if ByEntity(before.fields, after.fields, path) {
        CompareEntityMap(before, after, domain, path, log);
        return;
      }
      var keys := Sorted(before.fields.Keys + after.fields.Keys);
      for i := 0 to |keys|
        invariant forall k :: k in keys[i..] ==> k in before.fields || k in after.fields
        invariant log.findings + CompareKeys(before, after, domain, path, keys[i..], false)
               == old(log.findings) + CompareKeys(before, after, domain, path, keys, false)
      {
        var k := keys[i];
        StepKeys(log.findings, before, after, domain, path, keys, i, false);
        if k !in before.fields {
          if after.fields[k].Obj? {
            CompareMappingEntries(after.fields[k].fields, domain, path + [k], New, log);
          } else {
            log.Append(Finding(domain, path + [k], New, Null, after.fields[k]));
          }
        } else if k !in after.fields {
          if before.fields[k].Obj? {
            CompareMappingEntries(before.fields[k].fields, domain, path + [k], Removed, log);
          } else {
            log.Append(Finding(domain, path + [k], Removed, before.fields[k], Null));
          }
        } else {
          CompareValues(before.fields[k], after.fields[k], domain, path + [k], log);
        }
      }
      assert keys[|keys|..] == [];
      return;
    }
    if Same(before, after) {
      return;
    }
    log.Append(Finding(domain, path, Classify(Leaf(path), before, after), before, after));
  }
}
