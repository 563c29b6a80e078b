/** Python's string primitives: stripping, lower-casing, code-point order, and the sorted listing of a key set. */
module Text {

  datatype Option<+T> = None | Some(value: T)

  /** `str.isspace` on one character; also what `\s` matches. */
  predicate IsSpace(c: char) {
    var code := c as int;
    || 9 <= code <= 13 || 28 <= code <= 32 || code == 0x85 || code == 0xA0 || code == 0x1680
    || 0x2000 <= code <= 0x200A || code == 0x2028 || code == 0x2029 || code == 0x202F
    || code == 0x205F || code == 0x3000
  }

  /** `not s.strip()` */
  predicate IsBlank(s: string) {
    forall i :: 0 <= i < |s| ==> IsSpace(s[i])
  }

  /** Lower-casing as far as it can produce an ASCII letter: A-Z and the Kelvin sign. */
  function LowerChar(c: char): char {
    if 'A' <= c <= 'Z' then c + 32 as char else if c as int == 0x212A then 'k' else c
  }

  function Lower(s: string): string {
    seq(|s|, i requires 0 <= i < |s| => LowerChar(s[i]))
  }

  function StripLeft(s: string): string {
    if s != [] && IsSpace(s[0]) then StripLeft(s[1..]) else s
  }

  function StripRight(s: string): string {
    if s != [] && IsSpace(s[|s| - 1]) then StripRight(s[..|s| - 1]) else s
  }

  /** `str.strip` */
  function Strip(s: string): string {
    StripRight(StripLeft(s))
  }

  predicate Le(a: string, b: string) {
    a == [] || (b != [] && (a[0] < b[0] || (a[0] == b[0] && Le(a[1..], b[1..]))))
  }

  lemma LeReflexive(a: string)
    ensures Le(a, a)
  {}

  lemma LeTotal(a: string, b: string)
    ensures Le(a, b) || Le(b, a)
  {}

  lemma {:induction false} LeAntisymmetric(a: string, b: string)
    requires Le(a, b) && Le(b, a)
    ensures a == b
  {
    if a != [] && b != [] {
      LeAntisymmetric(a[1..], b[1..]);
      assert a == [a[0]] + a[1..] && b == [b[0]] + b[1..];
    }
  }

  lemma {:induction false} LeTransitive(a: string, b: string, c: string)
    requires Le(a, b) && Le(b, c)
    ensures Le(a, c)
  {
    if a != [] && a[0] == b[0] && b[0] == c[0] {
      LeTransitive(a[1..], b[1..], c[1..]);
    }
  }

  /** The least string of a non-empty set. */
  function Least(s: set<string>): (least: string)
    requires s != {}
    ensures least in s && forall x :: x in s ==> Le(least, x)
  {
    LeastExists(s);
    assert forall x, y :: IsLeast(s, x) && IsLeast(s, y) ==> x == y by {
      forall x, y | IsLeast(s, x) && IsLeast(s, y) ensures x == y {
        LeAntisymmetric(x, y);
      }
    }
    var least :| IsLeast(s, least);
    least
  }

  predicate IsLeast(s: set<string>, least: string) {
    least in s && forall x :: x in s ==> Le(least, x)
  }

  lemma LeastExists(s: set<string>)
    requires s != {}
    ensures exists least :: IsLeast(s, least)
  {
    var x :| x in s;
    if s == {x} {
      LeReflexive(x);
      assert IsLeast(s, x);
    } else {
      LeastExists(s - {x});
      var y :| IsLeast(s - {x}, y);
      LeTotal(x, y);
      if Le(x, y) {
        forall z | z in s ensures Le(x, z) {
          if z == x { LeReflexive(x); } else { LeTransitive(x, y, z); }
        }
        assert IsLeast(s, x);
      } else {
        assert IsLeast(s, y);
      }
    }
  }

  /** The elements of `s` in ascending order, each once. */
  function Sorted(s: set<string>): (keys: seq<string>)
    ensures forall k :: k in keys <==> k in s
    ensures |keys| == |s|
    decreases |s|
  {
    if s == {} then [] else
      var least := Least(s);
      [least] + Sorted(s - {least})
  }

  lemma {:induction false} SortedAscending(s: set<string>)
    ensures forall i, j :: 0 <= i < j < |Sorted(s)| ==>
      Le(Sorted(s)[i], Sorted(s)[j]) && Sorted(s)[i] != Sorted(s)[j]
    decreases |s|
  {
    if s != {} {
      SortedAscending(s - {Least(s)});
    }
  }

  /** Earlier in code-point order decides, whatever follows. */
  lemma {:induction false} LeFirstDifference(p: string, c: char, d: char, x: string, y: string)
    requires c < d
    ensures Le(p + [c] + x, p + [d] + y) && !Le(p + [d] + y, p + [c] + x)
  {
    if p != [] {
      LeFirstDifference(p[1..], c, d, x, y);
      assert (p + [c] + x)[1..] == p[1..] + [c] + x && (p + [d] + y)[1..] == p[1..] + [d] + y;
    }
  }

  lemma {:induction false} StripLeftMeans(s: string) returns (spaces: string)
    ensures IsBlank(spaces) && s == spaces + StripLeft(s)
    ensures StripLeft(s) == [] || !IsSpace(StripLeft(s)[0])
  {
    if s != [] && IsSpace(s[0]) {
      var rest := StripLeftMeans(s[1..]);
      spaces := [s[0]] + rest;
    } else {
      spaces := [];
    }
  }

  lemma {:induction false} StripRightMeans(s: string) returns (spaces: string)
    ensures IsBlank(spaces) && s == StripRight(s) + spaces
    ensures StripRight(s) == [] || !IsSpace(StripRight(s)[|StripRight(s)| - 1])
  {
    if s != [] && IsSpace(s[|s| - 1]) {
      var rest := StripRightMeans(s[..|s| - 1]);
      spaces := rest + [s[|s| - 1]];
    } else {
      spaces := [];
    }
  }

  /** Stripping removes whitespace at both ends and nothing else. */
  lemma StripMeans(s: string) returns (left: string, right: string)
    ensures s == left + Strip(s) + right && IsBlank(left) && IsBlank(right)
    ensures Strip(s) == [] || (!IsSpace(Strip(s)[0]) && !IsSpace(Strip(s)[|Strip(s)| - 1]))
  {
    left := StripLeftMeans(s);
    right := StripRightMeans(StripLeft(s));
  }

  const SPACES := [
    9, 10, 11, 12, 13, 28, 29, 30, 31, 32, 0x85, 0xA0, 0x1680, 0x2000, 0x2001, 0x2002, 0x2003, 0x2004, 0x2005,
    0x2006, 0x2007, 0x2008, 0x2009, 0x200A, 0x2028, 0x2029, 0x202F, 0x205F, 0x3000]

  /** The twenty-nine whitespace characters. */
  lemma SpaceTable(c: char)
    ensures IsSpace(c) <==> c as int in SPACES
  {}

  /** Capitals become the letters at the same place in the small alphabet; the Kelvin sign becomes k; the rest stays. */
  lemma LowerMeans(s: string, i: nat)
    requires i < |s|
    ensures |Lower(s)| == |s|
    ensures 'A' <= s[i] <= 'Z' ==> Lower(s)[i] as int - 'a' as int == s[i] as int - 'A' as int
    ensures s[i] as int == 0x212A ==> Lower(s)[i] == 'k'
    ensures !('A' <= s[i] <= 'Z') && s[i] as int != 0x212A ==> Lower(s)[i] == s[i]
  {}
}
