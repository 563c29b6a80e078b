/**
 The canonical form that baseline hashing and comparison are built on: maps keep their keys, every
 list is sorted by the compact text of its canonical items. Main result: two values share a
 canonical form exactly when lists in one can be reordered, at any depth, into the other.
 */
module Canonical {
  import opened Text
  import opened Json

  predicate Before(a: Json, b: Json) {
    Le(Dumps(a), Dumps(b))
  }

  function Insert(x: Json, xs: seq<Json>): seq<Json> {
    if xs == [] || Before(x, xs[0]) then [x] + xs else [xs[0]] + Insert(x, xs[1..])
  }

  /** `sorted(items, key=_json_sort_key)` */
  function Sort(xs: seq<Json>): seq<Json> {
    if xs == [] then [] else Insert(xs[0], Sort(xs[1..]))
  }

  function Canonicalize(j: Json): Json
    decreases j, 1
  {
    match j
    case List(xs) => List(Sort(CanonicalizeAll(xs)))
    case Obj(f) => Obj(map k | k in f :: Canonicalize(f[k]))
    case _ => j
  }

  function CanonicalizeAll(xs: seq<Json>): (ys: seq<Json>)
    ensures |ys| == |xs| && forall i :: 0 <= i < |xs| ==> ys[i] == Canonicalize(xs[i])
    decreases xs, 0
  {
    if xs == [] then [] else [Canonicalize(xs[0])] + CanonicalizeAll(xs[1..])
  }

  /** The text that `normalized_hash` digests. */
  function HashText(j: Json): string {
    Dumps(Canonicalize(j))
  }

  // ----- sorting

  ghost predicate Ascending(xs: seq<Json>) {
    forall i, j :: 0 <= i < j < |xs| ==> Before(xs[i], xs[j])
  }

  lemma {:induction false} InsertContents(x: Json, xs: seq<Json>)
    ensures multiset(Insert(x, xs)) == multiset(xs) + multiset{x}
  {
    if xs != [] && !Before(x, xs[0]) {
      InsertContents(x, xs[1..]);
      assert xs == [xs[0]] + xs[1..];
    }
  }

  lemma {:induction false} SortContents(xs: seq<Json>)
    ensures multiset(Sort(xs)) == multiset(xs)
  {
    if xs != [] {
      SortContents(xs[1..]);
      InsertContents(xs[0], Sort(xs[1..]));
      assert xs == [xs[0]] + xs[1..];
    }
  }

  lemma AscendingCons(x: Json, xs: seq<Json>)
    requires Ascending(xs) && (xs == [] || Before(x, xs[0]))
    ensures Ascending([x] + xs)
  {
    forall j | 0 <= j < |xs| ensures Before(x, xs[j]) {
      if j > 0 { LeTransitive(Dumps(x), Dumps(xs[0]), Dumps(xs[j])); }
    }
  }

  lemma {:induction false} InsertAscending(x: Json, xs: seq<Json>)
    requires Ascending(xs)
    ensures Ascending(Insert(x, xs))
    ensures Insert(x, xs)[0] == if xs == [] || Before(x, xs[0]) then x else xs[0]
  {
    if xs == [] || Before(x, xs[0]) {
      AscendingCons(x, xs);
    } else {
      InsertAscending(x, xs[1..]);
      LeTotal(Dumps(x), Dumps(xs[0]));
      AscendingCons(xs[0], Insert(x, xs[1..]));
    }
  }

  lemma {:induction false} SortAscending(xs: seq<Json>)
    ensures Ascending(Sort(xs))
  {
    if xs != [] {
      SortAscending(xs[1..]);
      InsertAscending(xs[0], Sort(xs[1..]));
    }
  }

  lemma SameHead(xs: seq<Json>, ys: seq<Json>)
    requires xs != [] && ys != [] && Ascending(xs) && Ascending(ys)
    requires ys[0] in xs && xs[0] in ys
    ensures xs[0] == ys[0]
  {
    HeadBefore(xs, ys[0]);
    HeadBefore(ys, xs[0]);
    LeAntisymmetric(Dumps(xs[0]), Dumps(ys[0]));
    DumpsInjective(xs[0], ys[0]);
  }

  lemma TailContents(xs: seq<Json>)
    requires xs != []
    ensures multiset(xs[1..]) == multiset(xs) - multiset{xs[0]}
  {
    assert xs == [xs[0]] + xs[1..];
  }

  /** Distinct values have distinct texts, so there is only one ascending arrangement. */
  lemma {:induction false} AscendingUnique(xs: seq<Json>, ys: seq<Json>)
    requires Ascending(xs) && Ascending(ys) && multiset(xs) == multiset(ys)
    ensures xs == ys
  {
    assert |xs| == |multiset(xs)| && |ys| == |multiset(ys)|;
    if xs != [] {
      assert xs[0] in multiset(ys) && ys[0] in multiset(xs);
      SameHead(xs, ys);
      TailContents(xs);
      TailContents(ys);
      AscendingUnique(xs[1..], ys[1..]);
      assert xs == [xs[0]] + xs[1..] && ys == [ys[0]] + ys[1..];
    }
  }

  lemma HeadBefore(xs: seq<Json>, y: Json)
    requires Ascending(xs) && y in xs
    ensures Before(xs[0], y)
  {
    LeReflexive(Dumps(y));
  }

  lemma SortFixed(xs: seq<Json>)
    requires Ascending(xs)
    ensures Sort(xs) == xs
  {
    SortContents(xs);
    SortAscending(xs);
    AscendingUnique(Sort(xs), xs);
  }

  lemma SortSame(xs: seq<Json>, ys: seq<Json>)
    ensures Sort(xs) == Sort(ys) <==> multiset(xs) == multiset(ys)
  {
    SortContents(xs);
    SortContents(ys);
    SortAscending(xs);
    SortAscending(ys);
    if multiset(xs) == multiset(ys) {
      AscendingUnique(Sort(xs), Sort(ys));
    }
  }

  // ----- reordering

  ghost predicate IsPermutation(p: seq<nat>, n: nat) {
    && |p| == n
    && (forall i :: 0 <= i < n ==> p[i] < n)
    && (forall i, j :: 0 <= i < j < n ==> p[i] != p[j])
  }

  /** `b` is `a` with lists reordered, at any nesting depth. */
  ghost predicate Reordered(a: Json, b: Json) {
    if a.List? && b.List? then
      && |a.items| == |b.items|
      && exists p ::
           && IsPermutation(p, |a.items|)
           && forall i :: 0 <= i < |a.items| ==> Reordered(a.items[i], b.items[p[i]])
    else if a.Obj? && b.Obj? then
      && a.fields.Keys == b.fields.Keys
      && forall k :: k in a.fields ==> Reordered(a.fields[k], b.fields[k])
    else
      a == b
  }

  function Without<T>(xs: seq<T>, k: nat): seq<T>
    requires k < |xs|
  {
    xs[..k] + xs[k + 1..]
  }

  lemma WithoutContents<T>(xs: seq<T>, k: nat)
    requires k < |xs|
    ensures multiset(xs) == multiset(Without(xs, k)) + multiset{xs[k]}
    ensures multiset(Without(xs, k)) == multiset(xs) - multiset{xs[k]}
  {
    assert xs == xs[..k] + [xs[k]] + xs[k + 1..];
  }

  /** Removing value `h` from a permutation's range, closing the gap. */
  function Close(p: seq<nat>, h: nat): seq<nat>
    requires forall i :: 0 <= i < |p| ==> p[i] != h
  {
    seq(|p|, i requires 0 <= i < |p| => if p[i] > h then p[i] - 1 else p[i])
  }

  lemma ClosePermutation(p: seq<nat>)
    requires p != [] && IsPermutation(p, |p|)
    ensures IsPermutation(Close(p[1..], p[0]), |p| - 1)
  {
    var h, q := p[0], Close(p[1..], p[0]);
    forall i, j | 0 <= i < j < |q| ensures q[i] != q[j] {
      assert p[i + 1] != p[j + 1] && p[0] != p[i + 1] && p[0] != p[j + 1];
    }
  }

  lemma CloseValues(ys: seq<Json>, p: seq<nat>, i: nat)
    requires IsPermutation(p, |ys|) && 0 < i < |p|
    requires IsPermutation(Close(p[1..], p[0]), |p| - 1)
    ensures Without(ys, p[0])[Close(p[1..], p[0])[i - 1]] == ys[p[i]]
  {}

  lemma {:induction false} PermutedContents(xs: seq<Json>, ys: seq<Json>, p: seq<nat>)
    requires |xs| == |ys| && IsPermutation(p, |xs|)
    requires forall i :: 0 <= i < |xs| ==> xs[i] == ys[p[i]]
    ensures multiset(xs) == multiset(ys)
  {
    if xs != [] {
      var q := Close(p[1..], p[0]);
      ClosePermutation(p);
      forall i | 0 <= i < |xs| - 1 ensures xs[1..][i] == Without(ys, p[0])[q[i]] {
        CloseValues(ys, p, i + 1);
      }
      PermutedContents(xs[1..], Without(ys, p[0]), q);
      WithoutContents(ys, p[0]);
      TailContents(xs);
    }
  }

  /** The inverse of `Close`: `h` followed by `q` with a gap opened at `h`. */
  function Open(q: seq<nat>, h: nat): seq<nat> {
    [h] + seq(|q|, i requires 0 <= i < |q| => if q[i] >= h then q[i] + 1 else q[i])
  }

  lemma OpenPermutation(q: seq<nat>, h: nat)
    requires h <= |q| && IsPermutation(q, |q|)
    ensures IsPermutation(Open(q, h), |q| + 1)
  {
    var p := Open(q, h);
    assert forall i :: 0 <= i < |q| ==> p[i + 1] == if q[i] >= h then q[i] + 1 else q[i];
    forall i, j | 0 <= i < j < |p| ensures p[i] != p[j] {
      assert p[j] == if q[j - 1] >= h then q[j - 1] + 1 else q[j - 1];
      if i > 0 {
        assert p[i] == if q[i - 1] >= h then q[i - 1] + 1 else q[i - 1];
        assert q[i - 1] != q[j - 1];
      }
    }
  }

  lemma OpenValues(xs: seq<Json>, ys: seq<Json>, q: seq<nat>, h: nat, i: nat)
    requires h < |ys| == |xs| && xs[0] == ys[h]
    requires IsPermutation(q, |xs| - 1)
    requires forall i :: 0 <= i < |q| ==> xs[1..][i] == Without(ys, h)[q[i]]
    requires i < |xs|
    ensures Open(q, h)[i] < |ys| && xs[i] == ys[Open(q, h)[i]]
  {
    if i > 0 {
      assert xs[1..][i - 1] == Without(ys, h)[q[i - 1]];
    }
  }

  lemma {:induction false} FindPermutation(xs: seq<Json>, ys: seq<Json>) returns (p: seq<nat>)
    requires multiset(xs) == multiset(ys)
    ensures |xs| == |ys| && IsPermutation(p, |xs|)
    ensures forall i :: 0 <= i < |xs| ==> xs[i] == ys[p[i]]
  {
    assert |xs| == |multiset(xs)| && |ys| == |multiset(ys)|;
    if xs == [] {
      p := [];
    } else {
      assert xs[0] in multiset(ys);
      var h :| 0 <= h < |ys| && ys[h] == xs[0];
      WithoutContents(ys, h);
      TailContents(xs);
      var q := FindPermutation(xs[1..], Without(ys, h));
      p := Open(q, h);
      OpenPermutation(q, h);
      forall i | 0 <= i < |xs| ensures xs[i] == ys[p[i]] {
        OpenValues(xs, ys, q, h, i);
      }
    }
  }

  lemma ListsReordered(xs: seq<Json>, ys: seq<Json>, p: seq<nat>)
    requires |xs| == |ys| && IsPermutation(p, |xs|)
    requires forall i :: 0 <= i < |xs| ==> Canonicalize(xs[i]) == Canonicalize(ys[p[i]])
    ensures Canonicalize(List(xs)) == Canonicalize(List(ys))
  {
    var us, vs := CanonicalizeAll(xs), CanonicalizeAll(ys);
    PermutedContents(us, vs, p);
    SortSame(us, vs);
  }

  lemma {:induction false} ReorderedIsCanonical(a: Json, b: Json)
    requires Reordered(a, b)
    ensures Canonicalize(a) == Canonicalize(b)
  {
    if a.List? && b.List? {
      var p :| IsPermutation(p, |a.items|) &&
               forall i :: 0 <= i < |a.items| ==> Reordered(a.items[i], b.items[p[i]]);
      forall i | 0 <= i < |a.items| ensures Canonicalize(a.items[i]) == Canonicalize(b.items[p[i]]) {
        ReorderedIsCanonical(a.items[i], b.items[p[i]]);
      }
      ListsReordered(a.items, b.items, p);
    } else if a.Obj? && b.Obj? {
      forall k | k in a.fields ensures Canonicalize(a.fields[k]) == Canonicalize(b.fields[k]) {
        ReorderedIsCanonical(a.fields[k], b.fields[k]);
      }
    }
  }

  lemma {:induction false} CanonicalIsReordered(a: Json, b: Json)
    requires Canonicalize(a) == Canonicalize(b)
    ensures Reordered(a, b)
  {
    if a.List? && b.List? {
      var xs, ys := CanonicalizeAll(a.items), CanonicalizeAll(b.items);
      SortSame(xs, ys);
      var p := FindPermutation(xs, ys);
      forall i | 0 <= i < |xs| ensures Reordered(a.items[i], b.items[p[i]]) {
        CanonicalIsReordered(a.items[i], b.items[p[i]]);
      }
    } else if a.Obj? && b.Obj? {
      assert a.fields.Keys == Canonicalize(a).fields.Keys;
      assert b.fields.Keys == Canonicalize(b).fields.Keys;
      forall k | k in a.fields ensures Reordered(a.fields[k], b.fields[k]) {
        assert Canonicalize(a).fields[k] == Canonicalize(b).fields[k];
        CanonicalIsReordered(a.fields[k], b.fields[k]);
      }
    }
  }

  lemma ListFixed(ys: seq<Json>)
    requires Ascending(ys) && forall i :: 0 <= i < |ys| ==> Canonicalize(ys[i]) == ys[i]
    ensures Canonicalize(List(ys)) == List(ys)
  {
    assert CanonicalizeAll(ys) == ys;
    SortFixed(ys);
  }

  lemma SortedItem(xs: seq<Json>, i: nat) returns (k: nat)
    requires i < |Sort(CanonicalizeAll(xs))|
    ensures k < |xs| && Canonicalize(xs[k]) == Sort(CanonicalizeAll(xs))[i]
  {
    var us := CanonicalizeAll(xs);
    SortContents(us);
    assert Sort(us)[i] in multiset(us);
    k :| 0 <= k < |us| && us[k] == Sort(us)[i];
  }

  lemma {:induction false} CanonicalizeIdempotent(j: Json)
    ensures Canonicalize(Canonicalize(j)) == Canonicalize(j)
  {
    match j {
      case List(xs) =>
        var ys := Sort(CanonicalizeAll(xs));
        forall i | 0 <= i < |ys| ensures Canonicalize(ys[i]) == ys[i] {
          var k := SortedItem(xs, i);
          CanonicalizeIdempotent(xs[k]);
        }
        SortAscending(CanonicalizeAll(xs));
        ListFixed(ys);
      case Obj(f) =>
        forall k | k in f ensures Canonicalize(Canonicalize(f[k])) == Canonicalize(f[k]) {
          CanonicalizeIdempotent(f[k]);
        }
      case _ =>
    }
  }

  /** Ordering-only changes, and nothing else, leave the hashed text alone. */
  lemma SameHashIffReordered(a: Json, b: Json)
    ensures HashText(a) == HashText(b) <==> Reordered(a, b)
    ensures Canonicalize(a) == Canonicalize(b) <==> Reordered(a, b)
    ensures HashText(Canonicalize(a)) == HashText(a)
  {
    CanonicalizeIdempotent(a);
    if HashText(a) == HashText(b) {
      DumpsInjective(Canonicalize(a), Canonicalize(b));
    }
    if Canonicalize(a) == Canonicalize(b) {
      CanonicalIsReordered(a, b);
    }
    if Reordered(a, b) {
      ReorderedIsCanonical(a, b);
    }
  }
}
