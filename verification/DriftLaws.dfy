/**
 How the comparison goes down two maps: entity by entity under an `assets` key and for collections of
 records of one shape, and key by key everywhere else.
 */
module DriftLaws {
  import opened Text
  import opened Json
  import opened Drift
  import opened DriftTheorems

  // ----- entity by entity

  /** At least two entries, all of them maps, and all with the same keys. */
  ghost predicate OneShape(m: map<string, Json>) {
    |m| >= 2 && exists shape :: HaveShape(m, shape)
  }

  ghost predicate HaveShape(m: map<string, Json>, shape: set<string>) {
    forall k :: k in m ==> m[k].Obj? && m[k].fields.Keys == shape
  }

  /** An entry that one side lacks, or that Python's comparison of canonical forms tells apart. */
  predicate Differs(before: map<string, Json>, after: map<string, Json>, k: string) {
    (k in before || k in after) && !(k in before && k in after && Same(before[k], after[k]))
  }

  /** The one finding of a differing entry: the whole records on both sides. */
  function WholeEntry(before: map<string, Json>, after: map<string, Json>, domain: string, path: seq<string>, k: string): Finding {
    Finding(
      domain, path + [k], if k !in before then New else if k !in after then Removed else Changed,
      if k in before then before[k] else Null, if k in after then after[k] else Null)
  }

  lemma {:induction false} EntityKeys(before: Json, after: Json, domain: string, path: seq<string>, keys: seq<string>, f: Finding)
    requires before.Obj? && after.Obj? && path != []
    requires forall k :: k in keys ==> k in before.fields || k in after.fields
    ensures f in CompareKeys(before, after, domain, path, keys, true) <==>
      exists k :: k in keys && Differs(before.fields, after.fields, k) && f == WholeEntry(before.fields, after.fields, domain, path, k)
  {
    if keys != [] {
      EntityKeys(before, after, domain, path, keys[1..], f);
      var k := keys[0];
      assert f in CompareKey(before, after, domain, path, k, true) <==>
        Differs(before.fields, after.fields, k) && f == WholeEntry(before.fields, after.fields, domain, path, k);
      assert forall l :: l in keys <==> l == k || l in keys[1..];
    }
  }

  lemma ShapeIsEntityMap(m: map<string, Json>, path: seq<string>)
    requires path != [] && Leaf(path) != "assets"
    ensures IsEntityMap(m, path) <==> OneShape(m)
  {
    if IsEntityMap(m, path) {
      var k :| k in m;
      var shape := m[k].fields.Keys;
      assert HaveShape(m, shape);
    }
    if OneShape(m) {
      assert m != map[];
    }
  }

  /** Which maps are compared entity by entity. */
  ghost predicate Collection(before: map<string, Json>, after: map<string, Json>, path: seq<string>)
    requires path != []
  {
    Leaf(path) == "assets" || (OneShape(before) && OneShape(after))
  }

  lemma CollectionExactly(before: map<string, Json>, after: map<string, Json>, path: seq<string>)
    requires path != []
    ensures ByEntity(before, after, path) <==> Collection(before, after, path) && (before != map[] || after != map[])
  {
    if Leaf(path) != "assets" {
      ShapeIsEntityMap(before, path);
      ShapeIsEntityMap(after, path);
    }
  }

  /** Under `assets`, or between collections of one shape each, every finding is a whole entry that differs, and every such entry is found. */
  lemma EntityLaw(before: map<string, Json>, after: map<string, Json>, domain: string, path: seq<string>, f: Finding)
    requires path != [] && Collection(before, after, path)
    ensures f in Compare(Obj(before), Obj(after), domain, path) <==>
      exists k :: Differs(before, after, k) && f == WholeEntry(before, after, domain, path, k)
  {
    CollectionExactly(before, after, path);
    var keys := Sorted(before.Keys + after.Keys);
    if before == map[] && after == map[] {
      assert keys == [];
    } else {
      EntityKeys(Obj(before), Obj(after), domain, path, keys, f);
      assert forall k :: Differs(before, after, k) ==> k in keys;
    }
  }

  // ----- key by key

  /** The findings at or below `prefix`. */
  function Within(fs: seq<Finding>, prefix: seq<string>): seq<Finding> {
    if fs == [] then []
    else (if prefix <= fs[0].path then [fs[0]] else []) + Within(fs[1..], prefix)
  }

  lemma WithinFirst(f: Finding, fs: seq<Finding>, prefix: seq<string>)
    ensures Within([f] + fs, prefix) == (if prefix <= f.path then [f] else []) + Within(fs, prefix)
  {
    assert ([f] + fs)[0] == f && ([f] + fs)[1..] == fs;
  }

  lemma Regroup(a: seq<Finding>, b: seq<Finding>, c: seq<Finding>)
    ensures a + (b + c) == (a + b) + c
  {}

  lemma {:induction false} WithinConcat(fs: seq<Finding>, gs: seq<Finding>, prefix: seq<string>)
    ensures Within(fs + gs, prefix) == Within(fs, prefix) + Within(gs, prefix)
  {
    if fs == [] {
      assert fs + gs == gs;
    } else {
      var f, rest := fs[0], fs[1..];
      WithinConcat(rest, gs, prefix);
      WithinFirst(f, rest + gs, prefix);
      Regroup([f], rest, gs);
      assert [f] + rest == fs;
      Regroup(if prefix <= f.path then [f] else [], Within(rest, prefix), Within(gs, prefix));
    }
  }

  lemma {:induction false} WithinAll(fs: seq<Finding>, prefix: seq<string>, inside: bool)
    requires forall f :: f in fs ==> (prefix <= f.path <==> inside)
    ensures Within(fs, prefix) == if inside then fs else []
  {
    if fs != [] {
      WithinAll(fs[1..], prefix, inside);
      assert fs == [fs[0]] + fs[1..];
    }
  }

  lemma KeyWithin(before: Json, after: Json, domain: string, path: seq<string>, k: string, l: string)
    requires before.Obj? && after.Obj? && path != [] && (l in before.fields || l in after.fields)
    ensures Within(CompareKey(before, after, domain, path, l, false), path + [k])
         == if k == l then CompareKey(before, after, domain, path, l, false) else []
  {
    var fs := CompareKey(before, after, domain, path, l, false);
    CompareKeyPlaced(before, after, domain, path, l, false);
    forall f | f in fs ensures path + [k] <= f.path <==> k == l {
      assert path + [l] <= f.path;
      assert f.path[|path|] == (path + [l])[|path|] == l;
      if path + [k] <= f.path { assert f.path[|path|] == (path + [k])[|path|] == k; }
    }
    WithinAll(fs, path + [k], k == l);
  }

  lemma {:induction false} KeysWithin(before: Json, after: Json, domain: string, path: seq<string>, keys: seq<string>, k: string)
    requires before.Obj? && after.Obj? && path != []
    requires forall l :: l in keys ==> l in before.fields || l in after.fields
    requires forall i, j :: 0 <= i < j < |keys| ==> keys[i] != keys[j]
    ensures Within(CompareKeys(before, after, domain, path, keys, false), path + [k])
         == if k in keys then CompareKey(before, after, domain, path, k, false) else []
  {
    if keys != [] {
      WithinConcat(
        CompareKey(before, after, domain, path, keys[0], false),
        CompareKeys(before, after, domain, path, keys[1..], false), path + [k]);
      KeyWithin(before, after, domain, path, k, keys[0]);
      KeysWithin(before, after, domain, path, keys[1..], k);
      assert k in keys <==> k == keys[0] || k in keys[1..];
    }
  }

  /** A value on one side only: itself, or each of its entries when it is a map. */
  predicate ToldOnce(fs: seq<Finding>, value: Json, domain: string, path: seq<string>, added: bool) {
    if value.Obj? then
      && |fs| == |Sorted(value.fields.Keys)|
      && forall i :: 0 <= i < |fs| ==>
           fs[i] == OnOneSide(value.fields[Sorted(value.fields.Keys)[i]], domain, path + [Sorted(value.fields.Keys)[i]], added)
    else fs == [OnOneSide(value, domain, path, added)]
  }

  function OnOneSide(value: Json, domain: string, path: seq<string>, added: bool): Finding {
    if added then Finding(domain, path, New, Null, value) else Finding(domain, path, Removed, value, Null)
  }

  /** What lies below key `k` of two maps: the findings of its two children, or of the one there is. */
  predicate ToldBelow(
      fs: seq<Finding>, before: map<string, Json>, after: map<string, Json>, domain: string, path: seq<string>, k: string)
    requires path != []
  {
    if k in before && k in after then fs == Compare(before[k], after[k], domain, path + [k])
    else if k in before then ToldOnce(fs, before[k], domain, path + [k], false)
    else if k in after then ToldOnce(fs, after[k], domain, path + [k], true)
    else fs == []
  }

  lemma OneSidedTold(value: Json, domain: string, path: seq<string>)
    ensures ToldOnce(OneSided(value, domain, path, New), value, domain, path, true)
    ensures ToldOnce(OneSided(value, domain, path, Removed), value, domain, path, false)
  {}

  lemma KeyTold(before: map<string, Json>, after: map<string, Json>, domain: string, path: seq<string>, k: string)
    requires path != [] && (k in before || k in after)
    ensures ToldBelow(CompareKey(Obj(before), Obj(after), domain, path, k, false), before, after, domain, path, k)
  {
    if k !in before {
      OneSidedTold(after[k], domain, path + [k]);
    } else if k !in after {
      OneSidedTold(before[k], domain, path + [k]);
    }
  }

  lemma DescentByKeys(before: map<string, Json>, after: map<string, Json>, domain: string, path: seq<string>)
    requires path != [] && !Collection(before, after, path)
    ensures Compare(Obj(before), Obj(after), domain, path)
         == CompareKeys(Obj(before), Obj(after), domain, path, Sorted(before.Keys + after.Keys), false)
  {
    CollectionExactly(before, after, path);
  }

  /** Any other two maps are compared key by key. */
  lemma DescendLaw(before: map<string, Json>, after: map<string, Json>, domain: string, path: seq<string>, k: string)
    requires path != [] && !Collection(before, after, path)
    ensures ToldBelow(
      Within(Compare(Obj(before), Obj(after), domain, path), path + [k]), before, after, domain, path, k)
  {
    var keys := Sorted(before.Keys + after.Keys);
    SortedAscending(before.Keys + after.Keys);
    DescentByKeys(before, after, domain, path);
    KeysWithin(Obj(before), Obj(after), domain, path, keys, k);
    if k in before || k in after {
      KeyTold(before, after, domain, path, k);
    }
  }

  /** Nothing is found outside the keys of the two maps. */
  lemma FoundBelowKeys(before: map<string, Json>, after: map<string, Json>, domain: string, path: seq<string>, f: Finding)
    requires path != [] && f in Compare(Obj(before), Obj(after), domain, path)
    ensures |f.path| > |path| && path <= f.path && (f.path[|path|] in before || f.path[|path|] in after)
  {
    var keys := Sorted(before.Keys + after.Keys);
    var k := CompareKeysUnder(Obj(before), Obj(after), domain, path, keys, ByEntity(before, after, path), f);
    assert f.path[|path|] == (path + [k])[|path|] == k;
    assert path == (path + [k])[..|path|] == f.path[..|path|];
  }

  // ----- leaves and tables

  /** The name that decides a path's polarity is what follows the last dot. */
  lemma {:induction false} LastSegmentMeans(key: string)
    ensures '.' !in LastSegment(key)
    ensures if '.' in key then exists head :: key == head + "." + LastSegment(key) else LastSegment(key) == key
  {
    if '.' in key {
      LastSegmentMeans(key[1..]);
      if '.' in key[1..] {
        var head :| key[1..] == head + "." + LastSegment(key[1..]);
        assert key == ([key[0]] + head) + "." + LastSegment(key);
      } else {
        assert key[0] == '.';
        assert key == [] + "." + LastSegment(key);
      }
    }
  }

  const BAD_UP := [
    "non_operational_services", "open_service_issues", "failed_sign_ins", "risky_sign_ins", "risky_users",
    "conditional_access_disabled", "conditional_access_report_only", "noncompliant_devices",
    "unencrypted_devices", "stale_devices", "active_defender_incidents", "high_severity_incidents",
    "active_defender_alerts"]

  /** Thirteen counters are bad when they rise, one is good, and nothing else is judged. */
  lemma PolarityTable(leaf: string)
    ensures LeafPolarity(leaf) == Some(BadUp) <==> leaf in BAD_UP
    ensures LeafPolarity(leaf) == Some(GoodUp) <==> leaf == "secure_score_percent"
  {
    assert "secure_score_percent"[0] == 's' && "secure_score_percent"[1] == 'e' && "stale_devices"[1] == 't';
  }

  // ----- order

  predicate KeyOrder(f: Finding, g: Finding, path: seq<string>) {
    |f.path| > |path| && |g.path| > |path| && Le(f.path[|path|], g.path[|path|])
  }

  lemma KeyAt(f: Finding, path: seq<string>, k: string)
    requires Extends(f, path + [k])
    ensures |f.path| > |path| && f.path[|path|] == k
  {
    assert f.path[|path|] == (path + [k])[|path|];
  }

  lemma UnderKey(before: Json, after: Json, domain: string, path: seq<string>, k: string, entity: bool, f: Finding)
    requires before.Obj? && after.Obj? && path != [] && (k in before.fields || k in after.fields)
    requires f in CompareKey(before, after, domain, path, k, entity)
    ensures |f.path| > |path| && f.path[|path|] == k
  {
    CompareKeyPlaced(before, after, domain, path, k, entity);
    KeyAt(f, path, k);
  }

  lemma FirstBeforeRest(
      before: Json, after: Json, domain: string, path: seq<string>, keys: seq<string>, entity: bool, f: Finding, g: Finding)
    requires before.Obj? && after.Obj? && path != [] && keys != []
    requires forall k :: k in keys ==> k in before.fields || k in after.fields
    requires forall i, j :: 0 <= i < j < |keys| ==> Le(keys[i], keys[j])
    requires f in CompareKey(before, after, domain, path, keys[0], entity)
    requires g in CompareKeys(before, after, domain, path, keys[1..], entity)
    ensures KeyOrder(f, g, path)
  {
    UnderKey(before, after, domain, path, keys[0], entity, f);
    var l := CompareKeysUnder(before, after, domain, path, keys[1..], entity, g);
    KeyAt(g, path, l);
    var m :| 0 <= m < |keys[1..]| && keys[1..][m] == l;
    assert keys[m + 1] == l && Le(keys[0], keys[m + 1]);
  }

  ghost predicate AllInOrder(fs: seq<Finding>, path: seq<string>) {
    forall i, j :: 0 <= i < j < |fs| ==> KeyOrder(fs[i], fs[j], path)
  }

  lemma InOrderConcat(fs: seq<Finding>, gs: seq<Finding>, path: seq<string>)
    requires AllInOrder(fs, path) && AllInOrder(gs, path)
    requires forall f, g :: f in fs && g in gs ==> KeyOrder(f, g, path)
    ensures AllInOrder(fs + gs, path)
  {}

  lemma KeyInOrder(before: Json, after: Json, domain: string, path: seq<string>, k: string, entity: bool)
    requires before.Obj? && after.Obj? && path != [] && (k in before.fields || k in after.fields)
    ensures AllInOrder(CompareKey(before, after, domain, path, k, entity), path)
  {
    var fs := CompareKey(before, after, domain, path, k, entity);
    LeReflexive(k);
    forall i, j | 0 <= i < j < |fs| ensures KeyOrder(fs[i], fs[j], path) {
      UnderKey(before, after, domain, path, k, entity, fs[i]);
      UnderKey(before, after, domain, path, k, entity, fs[j]);
    }
  }

  lemma {:induction false} KeysInOrder(
      before: Json, after: Json, domain: string, path: seq<string>, keys: seq<string>, entity: bool)
    requires before.Obj? && after.Obj? && path != []
    requires forall k :: k in keys ==> k in before.fields || k in after.fields
    requires forall i, j :: 0 <= i < j < |keys| ==> Le(keys[i], keys[j])
    ensures AllInOrder(CompareKeys(before, after, domain, path, keys, entity), path)
  {
    if keys != [] {
      var gs := CompareKey(before, after, domain, path, keys[0], entity);
      var rest := CompareKeys(before, after, domain, path, keys[1..], entity);
      KeyInOrder(before, after, domain, path, keys[0], entity);
      KeysInOrder(before, after, domain, path, keys[1..], entity);
      forall f, g | f in gs && g in rest ensures KeyOrder(f, g, path) {
        FirstBeforeRest(before, after, domain, path, keys, entity, f, g);
      }
      InOrderConcat(gs, rest, path);
    }
  }

  /** Findings come in the order of the keys they lie under. */
  lemma FoundInKeyOrder(before: map<string, Json>, after: map<string, Json>, domain: string, path: seq<string>)
    requires path != []
    ensures AllInOrder(Compare(Obj(before), Obj(after), domain, path), path)
  {
    SortedAscending(before.Keys + after.Keys);
    KeysInOrder(
      Obj(before), Obj(after), domain, path, Sorted(before.Keys + after.Keys), ByEntity(before, after, path));
  }
}
