/** How Python compares the numbers of a snapshot: integers, floats and booleans by value. */
module Numbers {
  import opened Json

  predicate Numeric(j: Json) {
    IsNumber(j) || j.Bool?
  }

  /** The number without its decimal point; `True` counts as 1 and `False` as 0. */
  function Base(j: Json): int
    requires Numeric(j)
  {
    match j
    case Bool(b) => if b then 1 else 0
    case Num(n) => n
    case Dec(u, _) => u
  }

  function Decimals(j: Json): nat {
    if j.Dec? then j.places else 0
  }

  function Raise(n: int, k: nat): int {
    if k == 0 then n else 10 * Raise(n, k - 1)
  }

  /** The value as a multiple of the `places`-th decimal. */
  function Units(j: Json, places: nat): int
    requires Numeric(j) && Decimals(j) <= places
  {
    Raise(Base(j), places - Decimals(j))
  }

  predicate Above(a: Json, b: Json)
    requires Numeric(a) && Numeric(b)
  {
    Units(a, Decimals(a) + Decimals(b)) > Units(b, Decimals(a) + Decimals(b))
  }

  predicate IsZero(j: Json)
    requires Numeric(j)
  {
    Base(j) == 0
  }

  predicate IsNegative(j: Json)
    requires Numeric(j)
  {
    Base(j) < 0
  }

  /** A number in lowest terms: integers for whole values, no trailing zeros otherwise. */
  function Lowest(units: int, places: nat): Json
    decreases places
  {
    if places == 0 then Num(units)
    else if units % 10 == 0 then Lowest(units / 10, places - 1)
    else Dec(units, places)
  }

  function Reduced(j: Json): Json
    requires Numeric(j)
  {
    if j.Dec? then Lowest(j.units, j.places) else Num(Base(j))
  }

  // ----- equal values have one lowest form

  lemma {:induction false} RaiseOrder(m: int, n: int, k: nat)
    ensures (Raise(m, k) > Raise(n, k) <==> m > n) && (Raise(m, k) == Raise(n, k) <==> m == n)
  {
    if k > 0 { RaiseOrder(m, n, k - 1); }
  }

  lemma {:induction false} RaiseZero(k: nat)
    ensures Raise(0, k) == 0
  {
    if k > 0 { RaiseZero(k - 1); }
  }

  lemma {:induction false} RaiseTwice(n: int, j: nat, k: nat)
    ensures Raise(Raise(n, j), k) == Raise(n, j + k)
  {
    if k > 0 { RaiseTwice(n, j, k - 1); }
  }

  predicate InLowestTerms(j: Json) {
    j.Num? || (j.Dec? && j.units % 10 != 0)
  }

  lemma {:induction false} LowestKeepsUnits(units: int, places: nat, p: nat)
    requires places <= p
    ensures var j := Lowest(units, places);
      InLowestTerms(j) && Decimals(j) <= places && Units(j, p) == Raise(units, p - places)
    decreases places
  {
    if places > 0 && units % 10 == 0 {
      LowestKeepsUnits(units / 10, places - 1, p);
      RaiseTwice(units / 10, 1, p - places);
      assert Raise(units / 10, 1) == 10 * Raise(units / 10, 0) == units;
    }
  }

  lemma ReducedKeepsUnits(j: Json, p: nat)
    requires Numeric(j) && Decimals(j) <= p
    ensures InLowestTerms(Reduced(j)) && Decimals(Reduced(j)) <= p && Units(Reduced(j), p) == Units(j, p)
  {
    if j.Dec? { LowestKeepsUnits(j.units, j.places, p); }
  }

  lemma RaiseIsTens(n: int, k: nat)
    requires k > 0
    ensures Raise(n, k) % 10 == 0
  {
    assert Raise(n, k) == 10 * Raise(n, k - 1);
  }

  lemma LowestIsUnique(a: Json, b: Json, p: nat)
    requires InLowestTerms(a) && InLowestTerms(b) && Decimals(a) <= Decimals(b) <= p && Units(a, p) == Units(b, p)
    ensures a == b
  {
    var m, n, k := Base(a), Base(b), Decimals(b) - Decimals(a);
    RaiseTwice(m, k, p - Decimals(b));
    RaiseOrder(Raise(m, k), n, p - Decimals(b));
    if k > 0 { RaiseIsTens(m, k); }
  }

  /** Two numbers have the same lowest form, or one is above the other. */
  lemma ReducedExactly(a: Json, b: Json)
    requires Numeric(a) && Numeric(b)
    ensures Reduced(a) == Reduced(b) <==> !Above(a, b) && !Above(b, a)
    ensures !(Above(a, b) && Above(b, a))
  {
    var p := Decimals(a) + Decimals(b);
    ReducedKeepsUnits(a, p);
    ReducedKeepsUnits(b, p);
    if Units(a, p) == Units(b, p) {
      if Decimals(Reduced(a)) <= Decimals(Reduced(b)) {
        LowestIsUnique(Reduced(a), Reduced(b), p);
      } else {
        LowestIsUnique(Reduced(b), Reduced(a), p);
      }
    }
  }

  /** What stands above and below zero. */
  lemma AboveZero(a: Json, b: Json)
    requires Numeric(a) && Numeric(b) && IsZero(b)
    ensures Above(b, a) <==> IsNegative(a)
    ensures Above(a, b) <==> Base(a) > 0
  {
    var p := Decimals(a) + Decimals(b);
    RaiseZero(p - Decimals(a));
    RaiseZero(p - Decimals(b));
    RaiseOrder(Base(a), 0, p - Decimals(a));
    RaiseOrder(0, Base(a), p - Decimals(a));
  }
}
