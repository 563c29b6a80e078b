/**
 What the drift comparison guarantees for every pair of values: where its findings point, when it
 stays silent, and what happens when the two sides are exchanged.
 */
module DriftTheorems {
  import opened Text
  import opened Json
  import opened Canonical
  import opened Numbers
  import opened Drift

  // ----- placement

  /** The value that a chain of map keys leads to. */
  function At(j: Json, keys: seq<string>): Option<Json>
    decreases |keys|
  {
    if keys == [] then Some(j)
    else if j.Obj? && keys[0] in j.fields then At(j.fields[keys[0]], keys[1..])
    else None
  }

  function OrNull(v: Option<Json>): Json {
    if v.Some? then v.value else Null
  }

  predicate Extends(f: Finding, path: seq<string>) {
    path <= f.path
  }

  /** The first value is worse than the second: higher, or lower where up is good. */
  predicate Worse(polarity: Option<Polarity>, a: Json, b: Json)
    requires Numeric(a) && Numeric(b)
  {
    if polarity == Some(GoodUp) then Above(b, a) else Above(a, b)
  }

  /** A verdict is given on polar counters only, and says which way the counter went. */
  predicate Fair(polarity: Option<Polarity>, cls: Class, before: Json, after: Json) {
    cls == Worsened || cls == Improved || cls == Resolved ==>
      && Numeric(before) && Numeric(after) && polarity.Some?
      && (cls == Worsened ==> Worse(polarity, after, before)) && (cls == Improved ==> Worse(polarity, before, after))
      && (cls == Resolved ==> polarity == Some(BadUp) && IsZero(after) && !IsZero(before))
  }

  predicate Justified(f: Finding) {
    f.path != [] && f.cls != VerificationUnavailable && Fair(LeafPolarity(Leaf(f.path)), f.cls, f.previous, f.current)
  }

  /** Numbers are the same to the comparison exactly when neither is above the other. */
  lemma SameNumbers(a: Json, b: Json)
    requires Numeric(a) && Numeric(b)
    ensures Same(a, b) <==> !Above(a, b) && !Above(b, a)
    ensures !(Above(a, b) && Above(b, a))
  {
    ReducedExactly(a, b);
    assert Canonicalize(a) == a && Canonicalize(b) == b;
  }

  /** Which counters get a verdict, and which one. */
  lemma VerdictFollowsPolarity(polarity: Option<Polarity>, before: Json, after: Json)
    requires !Same(before, after)
    ensures var cls := Verdict(polarity, before, after);
      && Fair(polarity, cls, before, after)
      && (cls == Changed <==> !(IsNumber(before) && Numeric(after) && polarity.Some?))
      && (cls == Resolved <==> cls != Changed && polarity == Some(BadUp) && IsZero(after))
      && cls in {Changed, Worsened, Improved, Resolved}
  {
    if Numeric(before) && Numeric(after) {
      SameNumbers(before, after);
      if IsZero(before) && IsZero(after) {
        AboveZero(before, after);
        AboveZero(after, before);
      }
    }
  }

  /** The values stand at the finding's path, and the class says truthfully on which sides. */
  predicate Placed(f: Finding, before: Json, after: Json, domain: string, path: seq<string>) {
    && f.domain == domain && Extends(f, path) && Justified(f)
    && var keys := f.path[|path|..];
       var b, a := At(before, keys), At(after, keys);
       && f.previous == OrNull(b) && f.current == OrNull(a)
       && (f.cls == New <==> b.None?)
       && (f.cls == Removed <==> a.None?)
       && (b.Some? || a.Some?)
       && (b.Some? && a.Some? ==> !Same(b.value, a.value) && Canonicalize(b.value) != Canonicalize(a.value))
  }

  lemma AtStep(j: Json, path: seq<string>, f: Finding, k: string)
    requires Extends(f, path + [k])
    ensures Extends(f, path)
    ensures At(j, f.path[|path|..]) ==
      if j.Obj? && k in j.fields then At(j.fields[k], f.path[|path| + 1..]) else None
  {
    assert f.path[|path|] == (path + [k])[|path|] == k;
    assert f.path[|path|..][1..] == f.path[|path| + 1..];
    assert path == (path + [k])[..|path|] == f.path[..|path|];
  }

  predicate FromOneSided(f: Finding, value: Json, domain: string, path: seq<string>, cls: Class) {
    && Extends(f, path)
    && var at := At(value, f.path[|path|..]);
       at.Some? && f == OneSidedFinding(at.value, domain, f.path, cls)
  }

  lemma EntryPlaced(value: Json, domain: string, path: seq<string>, cls: Class, k: string)
    requires value.Obj? && k in value.fields
    ensures FromOneSided(OneSidedFinding(value.fields[k], domain, path + [k], cls), value, domain, path, cls)
  {
    assert (path + [k])[|path|..] == [k];
    assert At(value, [k]) == At(value.fields[k], [k][1..]);
    assert [k][1..] == [];
  }

  lemma OneSidedPlaced(value: Json, domain: string, path: seq<string>, cls: Class, f: Finding)
    requires cls == New || cls == Removed
    requires f in OneSided(value, domain, path, cls)
    ensures FromOneSided(f, value, domain, path, cls)
  {
    if value.Obj? {
      var keys := Sorted(value.fields.Keys);
      var i :| 0 <= i < |keys| && f == Entries(value.fields, domain, path, cls, keys)[i];
      EntryPlaced(value, domain, path, cls, keys[i]);
    } else {
      assert f.path[|path|..] == [];
    }
  }

  lemma {:induction false} ComparePlaced(before: Json, after: Json, domain: string, path: seq<string>)
    requires path != []
    ensures forall f :: f in Compare(before, after, domain, path) ==> Placed(f, before, after, domain, path)
    decreases before, 2, 0
  {
    if before.Obj? && after.Obj? {
      CompareKeysPlaced(
        before, after, domain, path, Sorted(before.fields.Keys + after.fields.Keys),
        ByEntity(before.fields, after.fields, path));
    } else if !Same(before, after) {
      LeafPlaced(before, after, domain, path);
    }
  }

  lemma LeafPlaced(before: Json, after: Json, domain: string, path: seq<string>)
    requires path != [] && !Same(before, after)
    ensures Placed(
      Finding(domain, path, Classify(Leaf(path), before, after), before, after), before, after, domain, path)
  {
    VerdictFollowsPolarity(LeafPolarity(Leaf(path)), before, after);
    assert path[|path|..] == [];
  }

  lemma {:induction false} CompareKeysPlaced(
      before: Json, after: Json, domain: string, path: seq<string>, keys: seq<string>, entity: bool)
    requires before.Obj? && after.Obj? && path != []
    requires forall k :: k in keys ==> k in before.fields || k in after.fields
    ensures forall f :: f in CompareKeys(before, after, domain, path, keys, entity) ==>
      Placed(f, before, after, domain, path)
    decreases before, 1, |keys|
  {
    if keys != [] {
      CompareKeyPlaced(before, after, domain, path, keys[0], entity);
      CompareKeysPlaced(before, after, domain, path, keys[1..], entity);
    }
  }

  /** A finding under key `k` that is placed between the two children is placed between the parents. */
  lemma LiftPlaced(f: Finding, before: Json, after: Json, domain: string, path: seq<string>, k: string)
    requires before.Obj? && after.Obj? && k in before.fields && k in after.fields
    requires Placed(f, before.fields[k], after.fields[k], domain, path + [k])
    ensures Placed(f, before, after, domain, path)
  {
    AtStep(before, path, f, k);
    AtStep(after, path, f, k);
  }

  lemma LiftOneSided(f: Finding, before: Json, after: Json, domain: string, path: seq<string>, k: string, cls: Class)
    requires before.Obj? && after.Obj?
    requires cls == New || cls == Removed
    requires k in before.fields <==> cls == Removed
    requires k in after.fields <==> cls == New
    requires FromOneSided(f, if cls == New then after.fields[k] else before.fields[k], domain, path + [k], cls)
    ensures Placed(f, before, after, domain, path)
  {
    AtStep(before, path, f, k);
    AtStep(after, path, f, k);
  }

  lemma EntityKeyPlaced(before: Json, after: Json, domain: string, path: seq<string>, k: string)
    requires before.Obj? && after.Obj? && path != []
    requires k in before.fields || k in after.fields
    ensures forall f :: f in CompareKey(before, after, domain, path, k, true) ==>
      Extends(f, path + [k]) && Placed(f, before, after, domain, path)
  {
    forall f | f in CompareKey(before, after, domain, path, k, true)
      ensures Extends(f, path + [k]) && Placed(f, before, after, domain, path)
    {
      assert f.path == path + [k];
      assert (path + [k])[|path| + 1..] == [];
      AtStep(before, path, f, k);
      AtStep(after, path, f, k);
    }
  }

  lemma {:induction false} CompareKeyPlaced(
      before: Json, after: Json, domain: string, path: seq<string>, k: string, entity: bool)
    requires before.Obj? && after.Obj? && path != []
    requires k in before.fields || k in after.fields
    ensures forall f :: f in CompareKey(before, after, domain, path, k, entity) ==>
      Extends(f, path + [k]) && Placed(f, before, after, domain, path)
    decreases before, 0, 0
  {
    var fs := CompareKey(before, after, domain, path, k, entity);
    if entity {
      EntityKeyPlaced(before, after, domain, path, k);
    } else if k !in before.fields {
      forall f | f in fs ensures Extends(f, path + [k]) && Placed(f, before, after, domain, path) {
        OneSidedPlaced(after.fields[k], domain, path + [k], New, f);
        LiftOneSided(f, before, after, domain, path, k, New);
      }
    } else if k !in after.fields {
      forall f | f in fs ensures Extends(f, path + [k]) && Placed(f, before, after, domain, path) {
        OneSidedPlaced(before.fields[k], domain, path + [k], Removed, f);
        LiftOneSided(f, before, after, domain, path, k, Removed);
      }
    } else {
      ComparePlaced(before.fields[k], after.fields[k], domain, path + [k]);
      forall f | f in fs ensures Placed(f, before, after, domain, path) {
        LiftPlaced(f, before, after, domain, path, k);
      }
    }
  }

  // ----- no finding's path is another's, or leads through another's

  ghost predicate Apart(fs: seq<Finding>) {
    forall i, j :: 0 <= i < j < |fs| ==> !(fs[i].path <= fs[j].path) && !(fs[j].path <= fs[i].path)
  }

  lemma DifferentKeysApart(f: Finding, g: Finding, path: seq<string>, k: string, l: string)
    requires Extends(f, path + [k]) && Extends(g, path + [l]) && k != l
    ensures !(f.path <= g.path) && !(g.path <= f.path)
  {
    assert f.path[|path|] == (path + [k])[|path|];
    assert g.path[|path|] == (path + [l])[|path|];
  }

  lemma OneSidedApart(value: Json, domain: string, path: seq<string>, cls: Class)
    requires cls == New || cls == Removed
    ensures Apart(OneSided(value, domain, path, cls))
  {
    if value.Obj? {
      var keys := Sorted(value.fields.Keys);
      var fs := Entries(value.fields, domain, path, cls, keys);
      SortedAscending(value.fields.Keys);
      forall i, j | 0 <= i < j < |fs| ensures !(fs[i].path <= fs[j].path) && !(fs[j].path <= fs[i].path) {
        DifferentKeysApart(fs[i], fs[j], path, keys[i], keys[j]);
      }
    }
  }

  lemma {:induction false} CompareApart(before: Json, after: Json, domain: string, path: seq<string>)
    requires path != []
    ensures Apart(Compare(before, after, domain, path))
    decreases before, 2, 0
  {
    if before.Obj? && after.Obj? {
      SortedAscending(before.fields.Keys + after.fields.Keys);
      CompareKeysApart(
        before, after, domain, path, Sorted(before.fields.Keys + after.fields.Keys),
        ByEntity(before.fields, after.fields, path));
    }
  }

  lemma {:induction false} CompareKeysUnder(
      before: Json, after: Json, domain: string, path: seq<string>, keys: seq<string>, entity: bool, f: Finding)
      returns (k: string)
    requires before.Obj? && after.Obj? && path != []
    requires forall k :: k in keys ==> k in before.fields || k in after.fields
    requires f in CompareKeys(before, after, domain, path, keys, entity)
    ensures k in keys && Extends(f, path + [k])
  {
    if f in CompareKey(before, after, domain, path, keys[0], entity) {
      k := keys[0];
      CompareKeyPlaced(before, after, domain, path, k, entity);
    } else {
      k := CompareKeysUnder(before, after, domain, path, keys[1..], entity, f);
    }
  }

  lemma ApartConcat(fs: seq<Finding>, gs: seq<Finding>)
    requires Apart(fs) && Apart(gs)
    requires forall f, g :: f in fs && g in gs ==> !(f.path <= g.path) && !(g.path <= f.path)
    ensures Apart(fs + gs)
  {}

  lemma {:induction false} CompareKeysApart(
      before: Json, after: Json, domain: string, path: seq<string>, keys: seq<string>, entity: bool)
    requires before.Obj? && after.Obj? && path != []
    requires forall k :: k in keys ==> k in before.fields || k in after.fields
    requires forall i, j :: 0 <= i < j < |keys| ==> keys[i] != keys[j]
    ensures Apart(CompareKeys(before, after, domain, path, keys, entity))
    decreases before, 1, |keys|
  {
    if keys != [] {
      var fs := CompareKey(before, after, domain, path, keys[0], entity);
      var gs := CompareKeys(before, after, domain, path, keys[1..], entity);
      CompareKeyApart(before, after, domain, path, keys[0], entity);
      CompareKeysApart(before, after, domain, path, keys[1..], entity);
      CompareKeyPlaced(before, after, domain, path, keys[0], entity);
      forall f, g | f in fs && g in gs ensures !(f.path <= g.path) && !(g.path <= f.path) {
        var l := CompareKeysUnder(before, after, domain, path, keys[1..], entity, g);
        DifferentKeysApart(f, g, path, keys[0], l);
      }
      ApartConcat(fs, gs);
    }
  }

  lemma {:induction false} CompareKeyApart(
      before: Json, after: Json, domain: string, path: seq<string>, k: string, entity: bool)
    requires before.Obj? && after.Obj? && path != []
    requires k in before.fields || k in after.fields
    ensures Apart(CompareKey(before, after, domain, path, k, entity))
    decreases before, 0, 0
  {
    if entity {
    } else if k !in before.fields {
      OneSidedApart(after.fields[k], domain, path + [k], New);
    } else if k !in after.fields {
      OneSidedApart(before.fields[k], domain, path + [k], Removed);
    } else {
      CompareApart(before.fields[k], after.fields[k], domain, path + [k]);
    }
  }

  // ----- silence

  /**
   `a` with the keys that only `b` has and that are bound to an empty map, wherever both sides are
   maps that are not compared entity by entity. These are the differences the comparison ignores.
   */
  function Fill(a: Json, b: Json, path: seq<string>): Json
    requires path != []
    decreases a
  {
    if a.Obj? && b.Obj? && !ByEntity(a.fields, b.fields, path) then
      Obj(map k | k in a.fields.Keys + (set l | l in b.fields && b.fields[l] == EMPTY) ::
        if k !in a.fields then EMPTY
        else if k in b.fields then Fill(a.fields[k], b.fields[k], path + [k])
        else a.fields[k])
    else a
  }

  lemma ComparedField(f: map<string, Json>, k: string)
    requires k in f
    ensures k in Collapse(Canonicalize(Obj(f))).fields
    ensures Collapse(Canonicalize(Obj(f))).fields[k] == Collapse(Canonicalize(f[k]))
  {
    assert Canonicalize(Obj(f)).fields[k] == Canonicalize(f[k]);
  }

  /** The map that stands for `f` when Python compares canonical forms. */
  lemma ComparedMap(f: map<string, Json>) returns (u: map<string, Json>)
    ensures Collapse(Canonicalize(Obj(f))) == Obj(u) && u.Keys == f.Keys
    ensures forall k :: k in f ==> u[k] == Collapse(Canonicalize(f[k]))
  {
    u := Collapse(Canonicalize(Obj(f))).fields;
    forall k | k in f ensures u[k] == Collapse(Canonicalize(f[k])) {
      ComparedField(f, k);
    }
  }

  lemma SameMaps(u: map<string, Json>, v: map<string, Json>)
    ensures u == v <==> u.Keys == v.Keys && forall k :: k in u.Keys && k in v.Keys ==> u[k] == v[k]
  {}

  lemma SameObjects(f: map<string, Json>, g: map<string, Json>)
    ensures Same(Obj(f), Obj(g)) <==> f.Keys == g.Keys && forall k :: k in f ==> Same(f[k], g[k])
  {
    var u := ComparedMap(f);
    var v := ComparedMap(g);
    SameMaps(u, v);
  }

  lemma OneSidedSilent(value: Json, domain: string, path: seq<string>, cls: Class)
    requires cls == New || cls == Removed
    ensures OneSided(value, domain, path, cls) == [] <==> value == EMPTY
  {
    if value.Obj? {
      assert |Sorted(value.fields.Keys)| == 0 <==> value.fields.Keys == {};
      assert value.fields.Keys == {} <==> value.fields == map[];
    }
  }

  lemma BothEmpty(fs: seq<Finding>, gs: seq<Finding>)
    ensures fs + gs == [] <==> fs == [] && gs == []
  {
    assert |fs + gs| == |fs| + |gs|;
  }

  lemma {:induction false} CompareKeysSilent(
      before: Json, after: Json, domain: string, path: seq<string>, keys: seq<string>, entity: bool)
    requires before.Obj? && after.Obj? && path != []
    requires forall k :: k in keys ==> k in before.fields || k in after.fields
    ensures CompareKeys(before, after, domain, path, keys, entity) == [] <==>
      forall k :: k in keys ==> CompareKey(before, after, domain, path, k, entity) == []
  {
    if keys != [] {
      CompareKeysSilent(before, after, domain, path, keys[1..], entity);
      BothEmpty(
        CompareKey(before, after, domain, path, keys[0], entity),
        CompareKeys(before, after, domain, path, keys[1..], entity));
      assert keys[0] in keys && forall k :: k in keys[1..] ==> k in keys;
      assert forall k :: k in keys ==> k == keys[0] || k in keys[1..];
    }
  }

  /** Main result: the comparison reports nothing exactly when filling in one-sided empty maps makes the sides agree. */
  lemma {:induction false} CompareSilent(before: Json, after: Json, domain: string, path: seq<string>)
    requires path != []
    ensures Compare(before, after, domain, path) == [] <==>
      Same(Fill(before, after, path), Fill(after, before, path))
    decreases before
  {
    if before.Obj? && after.Obj? {
      var f, g := before.fields, after.fields;
      var entity := ByEntity(f, g, path);
      CompareKeysSilent(before, after, domain, path, Sorted(f.Keys + g.Keys), entity);
      if entity {
        SameObjects(f, g);
        EntitiesSilent(before, after, domain, path);
      } else {
        forall k | k in f && k in g
          ensures Compare(f[k], g[k], domain, path + [k]) == [] <==>
            Same(Fill(f[k], g[k], path + [k]), Fill(g[k], f[k], path + [k]))
        {
          CompareSilent(f[k], g[k], domain, path + [k]);
        }
        FilledSilent(before, after, domain, path);
      }
    }
  }

  lemma FilledSilent(before: Json, after: Json, domain: string, path: seq<string>)
    requires before.Obj? && after.Obj? && path != [] && !ByEntity(before.fields, after.fields, path)
    requires forall k :: k in before.fields && k in after.fields ==>
      (Compare(before.fields[k], after.fields[k], domain, path + [k]) == [] <==>
       Same(Fill(before.fields[k], after.fields[k], path + [k]), Fill(after.fields[k], before.fields[k], path + [k])))
    ensures AllKeysSilent(before, after, domain, path, false) <==>
      Same(Fill(before, after, path), Fill(after, before, path))
  {
    var u, v := Fill(before, after, path).fields, Fill(after, before, path).fields;
    SameObjects(u, v);
    FillFields(before, after, path);
    FillFields(after, before, path);
    MapsSilent(before, after, domain, path, u, v);
  }

  lemma FillFields(a: Json, b: Json, path: seq<string>)
    requires path != [] && a.Obj? && b.Obj? && !ByEntity(a.fields, b.fields, path)
    ensures Fill(a, b, path).Obj?
    ensures var u := Fill(a, b, path).fields;
      forall k {:trigger k in u} ::
        && (k in u <==> k in a.fields || (k in b.fields && b.fields[k] == EMPTY))
        && (k in u && k !in a.fields ==> u[k] == EMPTY)
        && (k in u && k in a.fields && k !in b.fields ==> u[k] == a.fields[k])
        && (k in a.fields && k in b.fields ==> u[k] == Fill(a.fields[k], b.fields[k], path + [k]))
  {}

  ghost predicate AllKeysSilent(before: Json, after: Json, domain: string, path: seq<string>, entity: bool)
    requires before.Obj? && after.Obj? && path != []
  {
    forall k :: k in before.fields.Keys + after.fields.Keys ==>
      CompareKey(before, after, domain, path, k, entity) == []
  }

  lemma EntitiesSilent(before: Json, after: Json, domain: string, path: seq<string>)
    requires before.Obj? && after.Obj? && path != []
    ensures AllKeysSilent(before, after, domain, path, true) <==>
      before.fields.Keys == after.fields.Keys &&
      forall k :: k in before.fields ==> Same(before.fields[k], after.fields[k])
  {
    var f, g := before.fields, after.fields;
    if AllKeysSilent(before, after, domain, path, true) {
      forall k ensures k in f <==> k in g {
        assert k in f || k in g ==> k in f.Keys + g.Keys;
      }
      forall k | k in f ensures Same(f[k], g[k]) {
        assert k in f.Keys + g.Keys;
      }
    }
  }

  /** `u` and `v` are the two sides with one-sided empty maps filled in. */
  lemma MapsSilent(
      before: Json, after: Json, domain: string, path: seq<string>,
      u: map<string, Json>, v: map<string, Json>)
    requires before.Obj? && after.Obj? && path != []
    requires forall k :: k in before.fields && k in after.fields ==>
      k in u && k in v && (Compare(before.fields[k], after.fields[k], domain, path + [k]) == [] <==> Same(u[k], v[k]))
    requires forall k :: k in before.fields && k !in after.fields ==>
      k in u && u[k] == before.fields[k] && (k in v <==> u[k] == EMPTY) && (k in v ==> v[k] == EMPTY)
    requires forall k :: k !in before.fields && k in after.fields ==>
      k in v && v[k] == after.fields[k] && (k in u <==> v[k] == EMPTY) && (k in u ==> u[k] == EMPTY)
    requires forall k :: k in u || k in v ==> k in before.fields || k in after.fields
    ensures AllKeysSilent(before, after, domain, path, false) <==>
      u.Keys == v.Keys && forall k :: k in u ==> Same(u[k], v[k])
  {
    var f, g := before.fields, after.fields;
    forall k | k in f.Keys + g.Keys
      ensures CompareKey(before, after, domain, path, k, false) == [] <==>
        k in u && k in v && Same(u[k], v[k])
    {
      if k !in g {
        OneSidedSilent(f[k], domain, path + [k], Removed);
      } else if k !in f {
        OneSidedSilent(g[k], domain, path + [k], New);
      }
    }
    if AllKeysSilent(before, after, domain, path, false) {
      forall k ensures k in u <==> k in v {
        assert k in u || k in v ==> k in f.Keys + g.Keys;
      }
      forall k | k in u ensures Same(u[k], v[k]) {
        assert k in f.Keys + g.Keys;
      }
    }
    if u.Keys == v.Keys && forall k :: k in u ==> Same(u[k], v[k]) {
      forall k | k in f.Keys + g.Keys ensures CompareKey(before, after, domain, path, k, false) == [] {
        assert k in u;
      }
    }
  }

  lemma {:induction false} SameFilled(a: Json, b: Json, path: seq<string>)
    requires path != [] && Same(a, b)
    ensures Same(Fill(a, b, path), Fill(b, a, path))
    decreases a
  {
    if a.Obj? && b.Obj? && !ByEntity(a.fields, b.fields, path) {
      var u, v := Fill(a, b, path).fields, Fill(b, a, path).fields;
      SameObjects(a.fields, b.fields);
      assert u.Keys == a.fields.Keys && v.Keys == b.fields.Keys;
      forall k | k in u ensures Same(u[k], v[k]) {
        SameFilled(a.fields[k], b.fields[k], path + [k]);
      }
      SameObjects(u, v);
    }
  }

  /** Values that differ only in list order are never reported. */
  lemma ReorderingIsSilent(before: Json, after: Json, domain: string, path: seq<string>)
    requires path != [] && Reordered(before, after)
    ensures Compare(before, after, domain, path) == []
  {
    SameHashIffReordered(before, after);
    SameFilled(before, after, path);
    CompareSilent(before, after, domain, path);
  }

  ghost predicate NoEmptyMaps(j: Json) {
    j.Obj? ==> forall k :: k in j.fields ==> j.fields[k] != EMPTY && NoEmptyMaps(j.fields[k])
  }

  /** No value that Python equates with a different one: no booleans, and no floats such as 1.0 that are integers. */
  ghost predicate NoAliases(j: Json) {
    && !j.Bool? && (j.Dec? ==> InLowestTerms(j))
    && (j.List? ==> forall i :: 0 <= i < |j.items| ==> NoAliases(j.items[i]))
    && (j.Obj? ==> forall k :: k in j.fields ==> NoAliases(j.fields[k]))
  }

  lemma {:induction false} FillUnneeded(a: Json, b: Json, path: seq<string>)
    requires path != [] && NoEmptyMaps(b)
    ensures Fill(a, b, path) == a
    decreases a
  {
    if a.Obj? && b.Obj? && !ByEntity(a.fields, b.fields, path) {
      forall k | k in a.fields && k in b.fields
        ensures Fill(a.fields[k], b.fields[k], path + [k]) == a.fields[k]
      {
        FillUnneeded(a.fields[k], b.fields[k], path + [k]);
      }
      assert Fill(a, b, path).fields == a.fields;
    }
  }

  lemma {:induction false} CanonicalKeepsNoAliases(j: Json)
    requires NoAliases(j)
    ensures NoAliases(Canonicalize(j))
  {
    if j.List? {
      var ys := Sort(CanonicalizeAll(j.items));
      forall i | 0 <= i < |ys| ensures NoAliases(ys[i]) {
        var k := SortedItem(j.items, i);
        CanonicalKeepsNoAliases(j.items[k]);
      }
    } else if j.Obj? {
      forall k | k in j.fields ensures NoAliases(Canonicalize(j.fields[k])) {
        CanonicalKeepsNoAliases(j.fields[k]);
      }
    }
  }

  lemma {:induction false} CollapseUnneeded(j: Json)
    requires NoAliases(j)
    ensures Collapse(j) == j
  {
    if j.List? {
      forall i | 0 <= i < |j.items| ensures Collapse(j.items[i]) == j.items[i] {
        CollapseUnneeded(j.items[i]);
      }
      assert Collapse(j).items == j.items;
    } else if j.Obj? {
      forall k | k in j.fields ensures Collapse(j.fields[k]) == j.fields[k] {
        CollapseUnneeded(j.fields[k]);
      }
      assert Collapse(j).fields == j.fields;
    }
  }

  /** Without empty maps, booleans and whole floats, every difference that is not a reordering is reported. */
  lemma CompareComplete(before: Json, after: Json, domain: string, path: seq<string>)
    requires path != []
    requires NoEmptyMaps(before) && NoEmptyMaps(after) && NoAliases(before) && NoAliases(after)
    ensures Compare(before, after, domain, path) == [] <==> Reordered(before, after)
  {
    CompareSilent(before, after, domain, path);
    FillUnneeded(before, after, path);
    FillUnneeded(after, before, path);
    CanonicalKeepsNoAliases(before);
    CanonicalKeepsNoAliases(after);
    CollapseUnneeded(Canonicalize(before));
    CollapseUnneeded(Canonicalize(after));
    SameHashIffReordered(before, after);
  }

  // Neither condition can be dropped, and silence is not transitive.

  const ONE := Obj(map["x" := EMPTY])
  const TWO := Obj(map["x" := ONE])

  lemma BooleanIsIgnored(domain: string, path: seq<string>)
    requires path != []
    ensures Compare(Num(1), Bool(true), domain, path) == [] && !Reordered(Num(1), Bool(true))
  {}

  /** 1 and 1.0 hash differently, yet the change is not reported. */
  lemma WholeFloatIsIgnored(domain: string, path: seq<string>)
    requires path != []
    ensures Compare(Num(1), Dec(10, 1), domain, path) == [] && !Reordered(Num(1), Dec(10, 1))
  {
    assert Lowest(10, 1) == Lowest(1, 0);
  }

  lemma NotByEntity(f: map<string, Json>, g: map<string, Json>, path: seq<string>)
    requires path != [] && Leaf(path) != "assets" && |f| <= 1
    ensures !ByEntity(f, g, path) && !ByEntity(g, f, path)
  {}

  lemma EmptyMapIsIgnored(domain: string, path: seq<string>)
    requires path != [] && Leaf(path) != "assets"
    ensures Compare(EMPTY, ONE, domain, path) == [] && !Reordered(EMPTY, ONE)
  {
    NotByEntity(map[], ONE.fields, path);
    OneSidedSilent(EMPTY, domain, path + ["x"], New);
    assert CompareKey(EMPTY, ONE, domain, path, "x", false) == OneSided(EMPTY, domain, path + ["x"], New);
    CompareKeysSilent(EMPTY, ONE, domain, path, Sorted(EMPTY.fields.Keys + ONE.fields.Keys), false);
    assert "x" in ONE.fields;
  }

  lemma SilenceIsNotTransitive(domain: string, path: seq<string>)
    requires path != [] && Leaf(path) != "assets"
    ensures Compare(EMPTY, ONE, domain, path) == []
    ensures Compare(ONE, TWO, domain, path) == []
    ensures Compare(EMPTY, TWO, domain, path) != []
  {
    EmptyMapIsIgnored(domain, path);
    assert LastSegment("x") == "x" && Leaf(path + ["x"]) == LastSegment("x");
    EmptyMapIsIgnored(domain, path + ["x"]);
    NotByEntity(ONE.fields, TWO.fields, path);
    assert CompareKey(ONE, TWO, domain, path, "x", false) == Compare(EMPTY, ONE, domain, path + ["x"]);
    CompareKeysSilent(ONE, TWO, domain, path, Sorted(ONE.fields.Keys + TWO.fields.Keys), false);
    NotByEntity(map[], TWO.fields, path);
    OneSidedSilent(ONE, domain, path + ["x"], New);
    assert "x" in ONE.fields;
    assert CompareKey(EMPTY, TWO, domain, path, "x", false) == OneSided(ONE, domain, path + ["x"], New);
    CompareKeysSilent(EMPTY, TWO, domain, path, Sorted(EMPTY.fields.Keys + TWO.fields.Keys), false);
  }

  // ----- exchanging the two sides

  predicate MirrorClass(c: Class, d: Class) {
    match c
    case New => d == Removed
    case Removed => d == New
    case Worsened => d == Improved || d == Resolved
    case Improved => d == Worsened
    case Resolved => d == Worsened
    case Changed => d == Changed
    case VerificationUnavailable => d == VerificationUnavailable
  }

  /**
   The numeric leaves whose verdict survives the exchange: no number set against a boolean, and no
   negative counter set against zero where up is bad.
   */
  predicate Symmetric(polarity: Option<Polarity>, a: Json, b: Json) {
    || polarity.None?
    || (&& !(IsNumber(a) && b.Bool?) && !(a.Bool? && IsNumber(b))
        && (polarity == Some(BadUp) && IsNumber(a) && IsNumber(b) ==>
              !(IsZero(a) && IsNegative(b)) && !(IsZero(b) && IsNegative(a))))
  }

  /** Exchanging the values of a differing leaf mirrors its verdict exactly when the leaf is symmetric. */
  lemma ClassifyMirrors(polarity: Option<Polarity>, a: Json, b: Json)
    requires !Same(a, b)
    ensures MirrorClass(Verdict(polarity, a, b), Verdict(polarity, b, a)) <==> Symmetric(polarity, a, b)
  {
    if Numeric(a) && Numeric(b) {
      SameNumbers(a, b);
      if IsZero(a) { AboveZero(b, a); }
      if IsZero(b) { AboveZero(a, b); }
      OrderedMirrors(polarity, a, b);
    }
  }

  lemma OrderedMirrors(polarity: Option<Polarity>, a: Json, b: Json)
    requires Numeric(a) && Numeric(b) && (Above(a, b) <==> !Above(b, a))
    requires IsZero(a) ==> (Above(a, b) <==> IsNegative(b)) && (Above(b, a) <==> Base(b) > 0)
    requires IsZero(b) ==> (Above(b, a) <==> IsNegative(a)) && (Above(a, b) <==> Base(a) > 0)
    ensures MirrorClass(Verdict(polarity, a, b), Verdict(polarity, b, a)) <==> Symmetric(polarity, a, b)
  {
    match polarity
    case None =>
    case Some(BadUp) => BadUpMirrors(a, b, IsZero(a), IsZero(b), Above(a, b), Above(b, a));
    case Some(GoodUp) => GoodUpMirrors(a, b, Above(a, b), Above(b, a));
  }

  lemma GoodUpMirrors(a: Json, b: Json, over: bool, under: bool)
    requires Numeric(a) && Numeric(b) && over == Above(a, b) && under == Above(b, a) && over == !under
    ensures MirrorClass(Verdict(Some(GoodUp), a, b), Verdict(Some(GoodUp), b, a)) <==> Symmetric(Some(GoodUp), a, b)
  {}

  lemma BadUpMirrors(a: Json, b: Json, zeroA: bool, zeroB: bool, over: bool, under: bool)
    requires Numeric(a) && Numeric(b) && zeroA == IsZero(a) && zeroB == IsZero(b)
    requires over == Above(a, b) && under == Above(b, a) && over == !under
    requires (zeroA ==> (over <==> IsNegative(b))) && (zeroB ==> (under <==> IsNegative(a)))
    requires !(zeroA && zeroB)
    ensures MirrorClass(Verdict(Some(BadUp), a, b), Verdict(Some(BadUp), b, a)) <==> Symmetric(Some(BadUp), a, b)
  {}

  lemma NegativeAgainstZero(a: Json, zero: Json)
    requires IsNumber(a) && IsNegative(a) && IsNumber(zero) && IsZero(zero)
    ensures !Same(a, zero) && !Same(zero, a)
    ensures Verdict(Some(BadUp), a, zero) == Resolved && Verdict(Some(BadUp), zero, a) == Improved
  {
    SameNumbers(a, zero);
    SameNumbers(zero, a);
    AboveZero(a, zero);
  }

  /** A bad counter that goes from below zero to zero is resolved; the other way it is improved, not worsened. */
  lemma ExchangeExample(a: Json, zero: Json, domain: string, path: seq<string>)
    requires IsNumber(a) && IsNegative(a) && IsNumber(zero) && IsZero(zero)
    requires path != [] && LeafPolarity(Leaf(path)) == Some(BadUp)
    ensures Compare(a, zero, domain, path) == [Finding(domain, path, Resolved, a, zero)]
    ensures Compare(zero, a, domain, path) == [Finding(domain, path, Improved, zero, a)]
    ensures !MirrorClass(Resolved, Improved)
  {
    NegativeAgainstZero(a, zero);
    LeafFinding(a, zero, domain, path, Some(BadUp), Resolved);
    LeafFinding(zero, a, domain, path, Some(BadUp), Improved);
  }

  lemma LeafFinding(
      before: Json, after: Json, domain: string, path: seq<string>, polarity: Option<Polarity>, cls: Class)
    requires path != [] && !(before.Obj? && after.Obj?) && !Same(before, after)
    requires polarity == LeafPolarity(Leaf(path)) && cls == Verdict(polarity, before, after)
    ensures Compare(before, after, domain, path) == [Finding(domain, path, cls, before, after)]
  {
    LeafCompare(before, after, domain, path);
  }

  /** Same place, sides exchanged, and the verdict mirrored wherever the leaf is symmetric. */
  predicate Mirrors(f: Finding, g: Finding) {
    && g.domain == f.domain && g.path == f.path
    && g.previous == f.current && g.current == f.previous
    && f.path != []
    && (MirrorClass(f.cls, g.cls) <==>
          Symmetric(LeafPolarity(Leaf(f.path)), f.previous, f.current) || (f.cls == Changed && g.cls == Changed))
  }

  ghost predicate Pairwise(r: (Finding, Finding) -> bool, fs: seq<Finding>, gs: seq<Finding>) {
    |fs| == |gs| && forall i :: 0 <= i < |fs| ==> r(fs[i], gs[i])
  }

  lemma PairwiseConcat(
      r: (Finding, Finding) -> bool, fs: seq<Finding>, gs: seq<Finding>, fs': seq<Finding>, gs': seq<Finding>)
    requires Pairwise(r, fs, gs) && Pairwise(r, fs', gs')
    ensures Pairwise(r, fs + fs', gs + gs')
  {}

  ghost predicate AllMirror(fs: seq<Finding>, gs: seq<Finding>) {
    Pairwise(Mirrors, fs, gs)
  }

  lemma AllMirrorConcat(fs: seq<Finding>, gs: seq<Finding>, fs': seq<Finding>, gs': seq<Finding>)
    requires AllMirror(fs, gs) && AllMirror(fs', gs')
    ensures AllMirror(fs + fs', gs + gs')
  {
    PairwiseConcat(Mirrors, fs, gs, fs', gs');
  }

  lemma {:induction false} CompareMirrored(before: Json, after: Json, domain: string, path: seq<string>)
    requires path != []
    ensures AllMirror(Compare(before, after, domain, path), Compare(after, before, domain, path))
    decreases before, 2, 0
  {
    if before.Obj? && after.Obj? {
      assert before.fields.Keys + after.fields.Keys == after.fields.Keys + before.fields.Keys;
      CompareKeysMirrored(
        before, after, domain, path, Sorted(before.fields.Keys + after.fields.Keys),
        ByEntity(before.fields, after.fields, path));
    } else {
      LeafMirrored(before, after, domain, path);
    }
  }

  /** A leaf is compared by value, whichever side comes first. */
  lemma LeafCompare(before: Json, after: Json, domain: string, path: seq<string>)
    requires path != [] && !(before.Obj? && after.Obj?)
    ensures Compare(before, after, domain, path) == if Same(before, after) then []
      else [Finding(domain, path, Verdict(LeafPolarity(Leaf(path)), before, after), before, after)]
  {}

  lemma LeafMirrored(before: Json, after: Json, domain: string, path: seq<string>)
    requires path != [] && !(before.Obj? && after.Obj?)
    ensures AllMirror(Compare(before, after, domain, path), Compare(after, before, domain, path))
  {
    LeafCompare(before, after, domain, path);
    LeafCompare(after, before, domain, path);
    if !Same(before, after) {
      LeafPair(domain, path, LeafPolarity(Leaf(path)), before, after);
    }
  }

  lemma LeafPair(domain: string, path: seq<string>, polarity: Option<Polarity>, a: Json, b: Json)
    requires path != [] && polarity == LeafPolarity(Leaf(path)) && !Same(a, b)
    ensures Mirrors(
      Finding(domain, path, Verdict(polarity, a, b), a, b), Finding(domain, path, Verdict(polarity, b, a), b, a))
  {
    ClassifyMirrors(polarity, a, b);
  }

  lemma {:induction false} CompareKeysMirrored(
      before: Json, after: Json, domain: string, path: seq<string>, keys: seq<string>, entity: bool)
    requires before.Obj? && after.Obj? && path != []
    requires forall k :: k in keys ==> k in before.fields || k in after.fields
    ensures AllMirror(
      CompareKeys(before, after, domain, path, keys, entity),
      CompareKeys(after, before, domain, path, keys, entity))
    decreases before, 1, |keys|
  {
    if keys != [] {
      CompareKeyMirrored(before, after, domain, path, keys[0], entity);
      CompareKeysMirrored(before, after, domain, path, keys[1..], entity);
      AllMirrorConcat(
        CompareKey(before, after, domain, path, keys[0], entity),
        CompareKey(after, before, domain, path, keys[0], entity),
        CompareKeys(before, after, domain, path, keys[1..], entity),
        CompareKeys(after, before, domain, path, keys[1..], entity));
    }
  }

  /** A finding with one side only is mirrored whatever its leaf. */
  lemma OneSidedPair(value: Json, domain: string, path: seq<string>)
    requires path != []
    ensures Mirrors(OneSidedFinding(value, domain, path, New), OneSidedFinding(value, domain, path, Removed))
    ensures Mirrors(OneSidedFinding(value, domain, path, Removed), OneSidedFinding(value, domain, path, New))
  {
    var polarity := LeafPolarity(Leaf(path));
    assert Symmetric(polarity, Null, value) && Symmetric(polarity, value, Null);
  }

  lemma OneSidedMirrored(value: Json, domain: string, path: seq<string>)
    requires path != []
    ensures AllMirror(OneSided(value, domain, path, New), OneSided(value, domain, path, Removed))
    ensures AllMirror(OneSided(value, domain, path, Removed), OneSided(value, domain, path, New))
  {
    if value.Obj? {
      var keys := Sorted(value.fields.Keys);
      forall i | 0 <= i < |keys|
        ensures var fs, gs := OneSided(value, domain, path, New), OneSided(value, domain, path, Removed);
          Mirrors(fs[i], gs[i]) && Mirrors(gs[i], fs[i])
      {
        OneSidedPair(value.fields[keys[i]], domain, path + [keys[i]]);
      }
    } else {
      OneSidedPair(value, domain, path);
    }
  }

  lemma {:induction false} CompareKeyMirrored(
      before: Json, after: Json, domain: string, path: seq<string>, k: string, entity: bool)
    requires before.Obj? && after.Obj? && path != []
    requires k in before.fields || k in after.fields
    ensures AllMirror(
      CompareKey(before, after, domain, path, k, entity),
      CompareKey(after, before, domain, path, k, entity))
    decreases before, 0, 0
  {
    if entity {
      EntityMirrored(before, after, domain, path, k);
    } else if k !in before.fields {
      OneSidedMirrored(after.fields[k], domain, path + [k]);
    } else if k !in after.fields {
      OneSidedMirrored(before.fields[k], domain, path + [k]);
    } else {
      CompareMirrored(before.fields[k], after.fields[k], domain, path + [k]);
    }
  }

  lemma EntityMirrored(before: Json, after: Json, domain: string, path: seq<string>, k: string)
    requires before.Obj? && after.Obj? && path != []
    requires k in before.fields || k in after.fields
    ensures AllMirror(
      CompareKey(before, after, domain, path, k, true),
      CompareKey(after, before, domain, path, k, true))
  {
    if k !in before.fields {
      OneSidedPair(after.fields[k], domain, path + [k]);
    } else if k !in after.fields {
      OneSidedPair(before.fields[k], domain, path + [k]);
    }
  }
}
