/**
 JSON values and the compact, key-sorted text that the baseline code hashes and sorts by
 (`json.dumps(value, sort_keys=True, separators=(",", ":"))`).
 The main result is that this text determines the value.
 */
module Json {
  import opened Text

  type Places = p: int | p > 0 witness 1

  /** `Dec` is a float: `units` divided by ten as often as there are decimal places, as in 12.5 or 3.0. */
  datatype Json =
    | Null
    | Bool(b: bool)
    | Num(n: int)
    | Dec(units: int, places: Places)
    | Str(s: string)
    | List(items: seq<Json>)
    | Obj(fields: map<string, Json>)

  function HexDigit(d: nat): char
    requires d < 16
  {
    "0123456789abcdef"[d]
  }

  /** `n` in exactly `width` hexadecimal digits. */
  function Hex(n: nat, width: nat): (h: string)
    ensures |h| == width
  {
    if width == 0 then [] else Hex(n / 16, width - 1) + [HexDigit(n % 16)]
  }

  /** The character after the backslash in the encoder's two-character escapes. */
  function Short(c: char): Option<char> {
    var code := c as int;
    if c == '\"' || c == '\\' then Some(c)
    else if code == 10 then Some('n')
    else if code == 13 then Some('r')
    else if code == 9 then Some('t')
    else if code == 12 then Some('f')
    else if code == 8 then Some('b')
    else None
  }

  /** A `\uXXXX` escape; a surrogate pair above U+FFFF. */
  function Long(c: char): (e: string)
    ensures |e| == if c as int < 0x10000 then 6 else 12
    ensures e[..2] == "\\u"
  {
    var code := c as int;
    if code < 0x10000 then "\\u" + Hex(code, 4)
    else
      "\\u" + Hex(0xD800 + (code - 0x10000) / 1024, 4)
      + "\\u" + Hex(0xDC00 + (code - 0x10000) % 1024, 4)
  }

  /** One character as the encoder writes it inside quotes: pure ASCII. */
  function Escape(c: char): (e: string)
    ensures e != [] && e[0] != '\"'
  {
    if Short(c).Some? then ['\\', Short(c).value]
    else if 32 <= c as int <= 126 then [c]
    else Long(c)
  }

  /** The rest of a string literal: escaped characters, then the closing quote. */
  function QuoteBody(s: string): string {
    if s == [] then "\"" else Escape(s[0]) + QuoteBody(s[1..])
  }

  function Quote(s: string): string {
    "\"" + QuoteBody(s)
  }

  predicate IsDigit(c: char) {
    '0' <= c <= '9'
  }

  function Digits(n: nat): (d: string)
    ensures d != [] && forall i :: 0 <= i < |d| ==> IsDigit(d[i])
  {
    if n < 10 then ['0' + n as char] else Digits(n / 10) + ['0' + (n % 10) as char]
  }

  /** The digits before the decimal point. */
  function Whole(n: nat, places: nat): nat {
    if places == 0 then n else Whole(n / 10, places - 1)
  }

  /** The digits after it. */
  function Fraction(n: nat, places: nat): (d: string)
    ensures |d| == places && forall i :: 0 <= i < |d| ==> IsDigit(d[i])
  {
    if places == 0 then [] else Fraction(n / 10, places - 1) + ['0' + (n % 10) as char]
  }

  function Sign(n: int): string {
    if n < 0 then "-" else ""
  }

  function Size(n: int): nat {
    if n < 0 then -n else n
  }

  predicate IsNumber(j: Json) {
    j.Num? || j.Dec?
  }

  function Signed(j: Json): int
    requires IsNumber(j)
  {
    if j.Num? then j.n else j.units
  }

  /** A number without its sign. */
  function Amount(j: Json): (a: string)
    requires IsNumber(j)
    ensures a != [] && IsDigit(a[0])
  {
    match j
    case Num(n) => Digits(Size(n))
    case Dec(u, p) => Digits(Whole(Size(u), p)) + ("." + Fraction(Size(u), p))
  }

  function Dumps(j: Json): string
    decreases j, 1
  {
    match j
    case Null => "null"
    case Bool(b) => if b then "true" else "false"
    case Num(n) => Sign(n) + Amount(j)
    case Dec(u, _) => Sign(u) + Amount(j)
    case Str(s) => Quote(s)
    case List(xs) => "[" + Items(xs, true)
    case Obj(f) => "{" + Members(j, Sorted(f.Keys), true)
  }

  /** The comma-separated items and the closing bracket. */
  function Items(xs: seq<Json>, first: bool): string
    decreases xs, 0
  {
    if xs == [] then "]"
    else Separator(first) + Dumps(xs[0]) + Items(xs[1..], false)
  }

  /** The comma-separated `"key":value` members and the closing brace. */
  function Members(o: Json, keys: seq<string>, first: bool): string
    requires o.Obj? && forall k :: k in keys ==> k in o.fields
    decreases o, 0, |keys|
  {
    if keys == [] then "}"
    else
      Separator(first) + Quote(keys[0]) + ":" + Dumps(o.fields[keys[0]])
      + Members(o, keys[1..], false)
  }

  // ----- the text determines the value

  lemma Split(p: string, s: string, q: string, t: string)
    requires p + s == q + t && |p| == |q|
    ensures p == q && s == t
  {
    assert p == (p + s)[..|p|] && q == (q + t)[..|q|];
    assert s == (p + s)[|p|..] && t == (q + t)[|q|..];
  }

  lemma Assoc(p: string, q: string, r: string)
    ensures (p + q) + r == p + (q + r)
  {}

  lemma Head(p: string, q: string)
    requires p != []
    ensures (p + q)[0] == p[0]
  {}

  lemma HexDigitInjective(d: nat, e: nat)
    requires d < 16 && e < 16 && HexDigit(d) == HexDigit(e)
    ensures d == e
  {}

  function Capacity(width: nat): nat {
    if width == 0 then 1 else 16 * Capacity(width - 1)
  }

  lemma {:induction false} HexInjective(m: nat, n: nat, width: nat)
    requires m < Capacity(width) && n < Capacity(width) && Hex(m, width) == Hex(n, width)
    ensures m == n
  {
    if width > 0 {
      var x, y := Hex(m, width), Hex(n, width);
      assert Hex(m / 16, width - 1) == x[..width - 1] && Hex(n / 16, width - 1) == y[..width - 1];
      assert x[width - 1] == HexDigit(m % 16) && y[width - 1] == HexDigit(n % 16);
      HexDigitInjective(m % 16, n % 16);
      HexInjective(m / 16, n / 16, width - 1);
    }
  }

  lemma Hex4Injective(m: nat, n: nat)
    requires m < 0x10000 && n < 0x10000 && Hex(m, 4) == Hex(n, 4)
    ensures m == n
  {
    assert Capacity(4) == 16 * Capacity(3) && Capacity(3) == 16 * Capacity(2);
    HexInjective(m, n, 4);
  }

  /** The first four hex digits of a long escape; a surrogate exactly above U+FFFF. */
  function High(c: char): (n: nat)
    ensures n < 0x10000
    ensures 0xD800 <= n < 0xDC00 <==> c as int >= 0x10000
  {
    if c as int < 0x10000 then c as int else 0xD800 + (c as int - 0x10000) / 1024
  }

  lemma LongHigh(c: char, s: string)
    ensures (Long(c) + s)[2..6] == Hex(High(c), 4)
  {}

  lemma LongInjective(c: char, d: char)
    requires Long(c) == Long(d)
    ensures c == d
  {
    LongHigh(c, []);
    LongHigh(d, []);
    assert Long(c) + [] == Long(d) + [];
    Hex4Injective(High(c), High(d));
    if c as int >= 0x10000 {
      var m, n := 0xDC00 + (c as int - 0x10000) % 1024, 0xDC00 + (d as int - 0x10000) % 1024;
      assert Hex(m, 4) == Long(c)[8..] == Long(d)[8..] == Hex(n, 4);
      Hex4Injective(m, n);
    }
  }

  lemma LongLength(c: char, d: char, s: string, t: string)
    requires Long(c) + s == Long(d) + t
    ensures |Long(c)| == |Long(d)|
  {
    LongHigh(c, s);
    LongHigh(d, t);
    Hex4Injective(High(c), High(d));
  }

  lemma EscapeLength(c: char, d: char, s: string, t: string)
    requires Escape(c) + s == Escape(d) + t
    ensures |Escape(c)| == |Escape(d)|
  {
    var x, y := Escape(c), Escape(d);
    assert x[0] == (x + s)[0] == (y + t)[0] == y[0];
    if |x| > 1 && |y| > 1 {
      assert x[1] == (x + s)[1] == (y + t)[1] == y[1];
      assert Long(c)[..2][1] == 'u' && Long(d)[..2][1] == 'u';
      if Short(c).None? {
        LongLength(c, d, s, t);
      }
    }
  }

  lemma EscapeInjective(c: char, d: char)
    requires Escape(c) == Escape(d)
    ensures c == d
  {
    if Short(c).Some? {
      assert Escape(c)[1] == Escape(d)[1];
    } else if |Escape(c)| == 1 {
      assert Escape(c)[0] == c;
    } else {
      LongInjective(c, d);
    }
  }

  /** Escapes form a prefix code, so a literal can be read back character by character. */
  lemma EscapePrefix(c: char, d: char, s: string, t: string)
    requires Escape(c) + s == Escape(d) + t
    ensures c == d && s == t
  {
    EscapeLength(c, d, s, t);
    Split(Escape(c), s, Escape(d), t);
    EscapeInjective(c, d);
  }

  lemma QuoteBodyStep(a: string, s: string)
    requires a != []
    ensures QuoteBody(a) + s == Escape(a[0]) + (QuoteBody(a[1..]) + s)
    ensures (QuoteBody(a) + s)[0] != '\"'
  {
    Assoc(Escape(a[0]), QuoteBody(a[1..]), s);
    Head(Escape(a[0]), QuoteBody(a[1..]) + s);
  }

  lemma {:induction false} QuoteBodyPrefix(a: string, b: string, s: string, t: string)
    requires QuoteBody(a) + s == QuoteBody(b) + t
    ensures a == b && s == t
  {
    if a != [] { QuoteBodyStep(a, s); }
    if b != [] { QuoteBodyStep(b, t); }
    if a == [] && b == [] {
      Split("\"", s, "\"", t);
    } else if a != [] && b != [] {
      EscapePrefix(a[0], b[0], QuoteBody(a[1..]) + s, QuoteBody(b[1..]) + t);
      QuoteBodyPrefix(a[1..], b[1..], s, t);
      assert a == [a[0]] + a[1..] && b == [b[0]] + b[1..];
    }
  }

  lemma QuotePrefix(a: string, b: string, s: string, t: string)
    requires Quote(a) + s == Quote(b) + t
    ensures a == b && s == t
  {
    Assoc("\"", QuoteBody(a), s);
    Assoc("\"", QuoteBody(b), t);
    Split("\"", QuoteBody(a) + s, "\"", QuoteBody(b) + t);
    QuoteBodyPrefix(a, b, s, t);
  }

  predicate NoDigit(s: string) {
    s == [] || !IsDigit(s[0])
  }

  /** What may follow a value: nothing, or something that cannot extend a number. */
  predicate Stops(s: string) {
    NoDigit(s) && (s == [] || s[0] != '.')
  }

  lemma DigitsLength(x: string, y: string, s: string, t: string)
    requires x + s == y + t && NoDigit(s)
    requires forall i :: 0 <= i < |y| ==> IsDigit(y[i])
    ensures |y| <= |x|
  {
    assert forall i :: 0 <= i < |y| ==> IsDigit((y + t)[i]);
    assert s != [] ==> (x + s)[|x|] == s[0];
  }

  lemma DigitsPrefix(m: nat, n: nat, s: string, t: string)
    requires Digits(m) + s == Digits(n) + t && NoDigit(s) && NoDigit(t)
    ensures m == n && s == t
  {
    DigitsLength(Digits(m), Digits(n), s, t);
    DigitsLength(Digits(n), Digits(m), t, s);
    Split(Digits(m), s, Digits(n), t);
    DigitsInjective(m, n);
  }

  lemma {:induction false} DigitsInjective(m: nat, n: nat)
    requires Digits(m) == Digits(n)
    ensures m == n
  {
    var x, y := Digits(m), Digits(n);
    assert x[|x| - 1] == '0' + (m % 10) as char && y[|y| - 1] == '0' + (n % 10) as char;
    if m >= 10 && n >= 10 {
      assert Digits(m / 10) == x[..|x| - 1] && Digits(n / 10) == y[..|y| - 1];
      DigitsInjective(m / 10, n / 10);
    }
  }

  lemma {:induction false} PointInjective(m: nat, n: nat, places: nat)
    requires Whole(m, places) == Whole(n, places) && Fraction(m, places) == Fraction(n, places)
    ensures m == n
  {
    if places > 0 {
      var x, y := Fraction(m, places), Fraction(n, places);
      assert x[places - 1] == '0' + (m % 10) as char && y[places - 1] == '0' + (n % 10) as char;
      assert Fraction(m / 10, places - 1) == x[..places - 1] && Fraction(n / 10, places - 1) == y[..places - 1];
      PointInjective(m / 10, n / 10, places - 1);
    }
  }

  lemma FractionPrefix(x: string, y: string, s: string, t: string)
    requires x + s == y + t && NoDigit(s) && NoDigit(t)
    requires (forall i :: 0 <= i < |x| ==> IsDigit(x[i])) && forall i :: 0 <= i < |y| ==> IsDigit(y[i])
    ensures x == y && s == t
  {
    DigitsLength(x, y, s, t);
    DigitsLength(y, x, t, s);
    Split(x, s, y, t);
  }

  /** What follows the whole part of a number's text. */
  function Tail(j: Json, s: string): string
    requires IsNumber(j)
  {
    if j.Num? then s else "." + (Fraction(Size(j.units), j.places) + s)
  }

  function WholePart(j: Json): nat
    requires IsNumber(j)
  {
    if j.Num? then Size(j.n) else Whole(Size(j.units), j.places)
  }

  lemma AmountTail(j: Json, s: string)
    requires IsNumber(j)
    ensures Amount(j) + s == Digits(WholePart(j)) + Tail(j, s)
  {
    if j.Dec? {
      var d, f := Digits(WholePart(j)), Fraction(Size(j.units), j.places);
      Assoc(d, "." + f, s);
      Assoc(".", f, s);
    }
  }

  lemma AmountPrefix(a: Json, b: Json, s: string, t: string)
    requires IsNumber(a) && IsNumber(b) && Amount(a) + s == Amount(b) + t && Stops(s) && Stops(t)
    ensures a.Num? == b.Num? && Size(Signed(a)) == Size(Signed(b)) && s == t
    ensures a.Dec? ==> a.places == b.places
  {
    AmountTail(a, s);
    AmountTail(b, t);
    DigitsPrefix(WholePart(a), WholePart(b), Tail(a, s), Tail(b, t));
    if a.Dec? && b.Dec? {
      var f, g := Fraction(Size(a.units), a.places), Fraction(Size(b.units), b.places);
      Split(".", f + s, ".", g + t);
      FractionPrefix(f, g, s, t);
      PointInjective(Size(a.units), Size(b.units), a.places);
    }
  }

  lemma NumberPrefix(a: Json, b: Json, s: string, t: string)
    requires IsNumber(a) && IsNumber(b) && Dumps(a) + s == Dumps(b) + t && Stops(s) && Stops(t)
    ensures a == b && s == t
  {
    var x, y := Sign(Signed(a)), Sign(Signed(b));
    Assoc(x, Amount(a), s);
    Assoc(y, Amount(b), t);
    var u, v := Amount(a) + s, Amount(b) + t;
    assert u[0] == Amount(a)[0] && v[0] == Amount(b)[0];
    assert (x + u)[0] == (if Signed(a) < 0 then '-' else u[0]);
    assert (y + v)[0] == (if Signed(b) < 0 then '-' else v[0]);
    Split(x, u, y, v);
    AmountPrefix(a, b, s, t);
  }

  /** The first character of a value's text tells its kind. */
  function Lead(j: Json): char {
    match j
    case Null => 'n'
    case Bool(b) => if b then 't' else 'f'
    case Num(n) => (Sign(n) + Amount(j))[0]
    case Dec(u, _) => (Sign(u) + Amount(j))[0]
    case Str(_) => '\"'
    case List(_) => '['
    case Obj(_) => '{'
  }

  lemma DumpsLead(j: Json)
    ensures Dumps(j) != [] && Dumps(j)[0] == Lead(j)
    ensures IsNumber(j) ==> IsDigit(Lead(j)) || Lead(j) == '-'
  {}

  function Separator(first: bool): string {
    if first then "" else ","
  }

  lemma ItemsStep(xs: seq<Json>, first: bool, s: string)
    requires xs != []
    ensures Items(xs, first) + s == Separator(first) + (Dumps(xs[0]) + (Items(xs[1..], false) + s))
  {
    var x, u := Dumps(xs[0]), Items(xs[1..], false);
    Assoc(Separator(first) + x, u, s);
    Assoc(Separator(first), x, u + s);
  }

  lemma MembersStep(o: Json, ks: seq<string>, first: bool, s: string)
    requires o.Obj? && ks != [] && forall k :: k in ks ==> k in o.fields
    ensures Members(o, ks, first) + s ==
      Separator(first) + (Quote(ks[0]) + (":" + (Dumps(o.fields[ks[0]]) + (Members(o, ks[1..], false) + s))))
  {
    var q, x, u := Quote(ks[0]), Dumps(o.fields[ks[0]]), Members(o, ks[1..], false);
    Assoc(Separator(first) + q + ":" + x, u, s);
    Assoc(Separator(first) + q + ":", x, u + s);
    Assoc(Separator(first) + q, ":", x + (u + s));
    Assoc(Separator(first), q, ":" + (x + (u + s)));
  }

  lemma StopsItems(xs: seq<Json>, s: string)
    ensures Stops(Items(xs, false) + s)
  {}

  lemma StopsMembers(o: Json, ks: seq<string>, s: string)
    requires o.Obj? && forall k :: k in ks ==> k in o.fields
    ensures Stops(Members(o, ks, false) + s)
  {}

  lemma SameKind(a: Json, b: Json, s: string, t: string)
    requires Dumps(a) + s == Dumps(b) + t
    ensures IsNumber(a) == IsNumber(b) && a.Str? == b.Str? && a.List? == b.List? && a.Obj? == b.Obj?
    ensures a == b || IsNumber(a) || a.Str? || a.List? || a.Obj?
  {
    DumpsLead(a);
    DumpsLead(b);
    Head(Dumps(a), s);
    Head(Dumps(b), t);
    LeadTells(a);
    LeadTells(b);
  }

  lemma LeadTells(j: Json)
    ensures IsNumber(j) <==> IsDigit(Lead(j)) || Lead(j) == '-'
    ensures (j.Str? <==> Lead(j) == '\"') && (j.List? <==> Lead(j) == '[') && (j.Obj? <==> Lead(j) == '{')
    ensures (j.Null? <==> Lead(j) == 'n') && (j == Bool(true) <==> Lead(j) == 't') && (j == Bool(false) <==> Lead(j) == 'f')
  {
    DumpsLead(j);
  }

  /** Main result: a value's text, followed by anything that cannot extend it, can be split off uniquely. */
  lemma {:induction false} DumpsPrefix(a: Json, b: Json, s: string, t: string)
    requires Dumps(a) + s == Dumps(b) + t && Stops(s) && Stops(t)
    ensures a == b && s == t
    decreases a, 1
  {
    SameKind(a, b, s, t);
    if IsNumber(a) && IsNumber(b) {
      NumberPrefix(a, b, s, t);
    } else if a.Str? && b.Str? {
      QuotePrefix(a.s, b.s, s, t);
    } else if a.List? && b.List? {
      Assoc("[", Items(a.items, true), s);
      Assoc("[", Items(b.items, true), t);
      Split("[", Items(a.items, true) + s, "[", Items(b.items, true) + t);
      ItemsPrefix(a.items, b.items, true, s, t);
    } else if a.Obj? && b.Obj? {
      ObjectPrefix(a, b, s, t);
    } else {
      Split(Dumps(a), s, Dumps(b), t);
    }
  }

  lemma {:induction false} ObjectPrefix(a: Json, b: Json, s: string, t: string)
    requires a.Obj? && b.Obj? && Dumps(a) + s == Dumps(b) + t
    ensures a == b && s == t
    decreases a, 0, |a.fields| + 1
  {
    var ks, ls := Sorted(a.fields.Keys), Sorted(b.fields.Keys);
    Assoc("{", Members(a, ks, true), s);
    Assoc("{", Members(b, ls, true), t);
    Split("{", Members(a, ks, true) + s, "{", Members(b, ls, true) + t);
    MembersPrefix(a, b, ks, ls, true, s, t);
    assert a.fields.Keys == b.fields.Keys by {
      forall k ensures k in a.fields.Keys <==> k in b.fields.Keys {
        assert k in a.fields.Keys <==> k in ks;
      }
    }
    assert a.fields == b.fields;
  }

  lemma {:induction false} ItemsPrefix(xs: seq<Json>, ys: seq<Json>, first: bool, s: string, t: string)
    requires Items(xs, first) + s == Items(ys, first) + t
    ensures xs == ys && s == t
    decreases xs, 0
  {
    ItemsLead(xs, first, s);
    ItemsLead(ys, first, t);
    if xs == [] && ys == [] {
      Split("]", s, "]", t);
    } else if xs != [] && ys != [] {
      var u, v := Items(xs[1..], false) + s, Items(ys[1..], false) + t;
      ItemsStep(xs, first, s);
      ItemsStep(ys, first, t);
      Split(Separator(first), Dumps(xs[0]) + u, Separator(first), Dumps(ys[0]) + v);
      StopsItems(xs[1..], s);
      StopsItems(ys[1..], t);
      DumpsPrefix(xs[0], ys[0], u, v);
      ItemsPrefix(xs[1..], ys[1..], false, s, t);
      assert xs == [xs[0]] + xs[1..] && ys == [ys[0]] + ys[1..];
    }
  }

  lemma ItemsLead(xs: seq<Json>, first: bool, s: string)
    ensures Items(xs, first) != []
    ensures (Items(xs, first) + s)[0] == ']' <==> xs == []
  {
    if xs != [] {
      DumpsLead(xs[0]);
      ItemsStep(xs, first, s);
    }
  }

  lemma {:induction false} MembersPrefix(
      a: Json, b: Json, ks: seq<string>, ls: seq<string>, first: bool, s: string, t: string)
    requires a.Obj? && forall k :: k in ks ==> k in a.fields
    requires b.Obj? && forall k :: k in ls ==> k in b.fields
    requires Members(a, ks, first) + s == Members(b, ls, first) + t
    ensures ks == ls && s == t
    ensures forall k :: k in ks ==> a.fields[k] == b.fields[k]
    decreases a, 0, |ks|
  {
    MembersLead(a, ks, first, s);
    MembersLead(b, ls, first, t);
    if ks == [] && ls == [] {
      Split("}", s, "}", t);
    } else if ks != [] && ls != [] {
      var k, l := ks[0], ls[0];
      var u, v := Members(a, ks[1..], false) + s, Members(b, ls[1..], false) + t;
      var x, y := Dumps(a.fields[k]) + u, Dumps(b.fields[l]) + v;
      MembersStep(a, ks, first, s);
      MembersStep(b, ls, first, t);
      Split(Separator(first), Quote(k) + (":" + x), Separator(first), Quote(l) + (":" + y));
      QuotePrefix(k, l, ":" + x, ":" + y);
      Split(":", x, ":", y);
      StopsMembers(a, ks[1..], s);
      StopsMembers(b, ls[1..], t);
      DumpsPrefix(a.fields[k], b.fields[l], u, v);
      MembersPrefix(a, b, ks[1..], ls[1..], false, s, t);
      assert ks == [k] + ks[1..] && ls == [l] + ls[1..];
    }
  }

  lemma MembersLead(o: Json, ks: seq<string>, first: bool, s: string)
    requires o.Obj? && forall k :: k in ks ==> k in o.fields
    ensures Members(o, ks, first) != []
    ensures (Members(o, ks, first) + s)[0] == '}' <==> ks == []
  {
    if ks != [] {
      MembersStep(o, ks, first, s);
    }
  }

  lemma DumpsInjective(a: Json, b: Json)
    requires Dumps(a) == Dumps(b)
    ensures a == b
  {
    assert Dumps(a) + [] == Dumps(a) && Dumps(b) + [] == Dumps(b);
    DumpsPrefix(a, b, [], []);
  }

  // ----- the text is plain ASCII

  predicate Printable(s: string) {
    forall i :: 0 <= i < |s| ==> 32 <= s[i] as int <= 126
  }

  lemma {:induction false} HexPrintable(n: nat, width: nat)
    ensures Printable(Hex(n, width))
  {
    if width > 0 { HexPrintable(n / 16, width - 1); }
  }

  lemma PrintableConcat(a: string, b: string)
    requires Printable(a) && Printable(b)
    ensures Printable(a + b)
  {}

  lemma UnitPrintable(n: nat)
    ensures Printable("\\u" + Hex(n, 4))
  {
    HexPrintable(n, 4);
    PrintableConcat("\\u", Hex(n, 4));
  }

  lemma LongPrintable(c: char)
    ensures Printable(Long(c))
  {
    var code := c as int;
    if code < 0x10000 {
      UnitPrintable(code);
    } else {
      var high, low := 0xD800 + (code - 0x10000) / 0x400, 0xDC00 + (code - 0x10000) % 0x400;
      UnitPrintable(high);
      UnitPrintable(low);
      PrintableConcat("\\u" + Hex(high, 4), "\\u" + Hex(low, 4));
      Assoc("\\u" + Hex(high, 4), "\\u", Hex(low, 4));
    }
  }

  lemma EscapePrintable(c: char)
    ensures Printable(Escape(c))
    ensures 32 <= c as int <= 126 && c != '\"' && c != '\\' ==> Escape(c) == [c]
  {
    LongPrintable(c);
  }

  lemma {:induction false} QuotePrintable(s: string)
    ensures Printable(QuoteBody(s)) && Printable(Quote(s))
  {
    if s != [] {
      QuotePrintable(s[1..]);
      EscapePrintable(s[0]);
    }
  }

  lemma NumberPrintable(j: Json)
    requires IsNumber(j)
    ensures Printable(Dumps(j))
  {
    var sign, amount := Sign(Signed(j)), Amount(j);
    assert Printable(sign) && Printable(amount);
  }

  lemma {:induction false} DumpsPrintable(j: Json)
    ensures Printable(Dumps(j))
    decreases j, 1
  {
    match j
    case Num(_) => NumberPrintable(j);
    case Dec(_, _) => NumberPrintable(j);
    case Str(s) => QuotePrintable(s);
    case List(xs) => ItemsPrintable(xs, true);
    case Obj(f) => MembersPrintable(j, Sorted(f.Keys), true);
    case _ =>
  }

  lemma {:induction false} ItemsPrintable(xs: seq<Json>, first: bool)
    ensures Printable(Items(xs, first))
    decreases xs, 0
  {
    if xs != [] {
      DumpsPrintable(xs[0]);
      ItemsPrintable(xs[1..], false);
    }
  }

  lemma {:induction false} MembersPrintable(o: Json, keys: seq<string>, first: bool)
    requires o.Obj? && forall k :: k in keys ==> k in o.fields
    ensures Printable(Members(o, keys, first))
    decreases o, 0, |keys|
  {
    if keys != [] {
      QuotePrintable(keys[0]);
      DumpsPrintable(o.fields[keys[0]]);
      MembersPrintable(o, keys[1..], false);
    }
  }

  // ----- and reads back as what it says

  function DigitValue(c: char): int {
    if '0' <= c <= '9' then c as int - '0' as int
    else if 'a' <= c <= 'f' then c as int - 'a' as int + 10
    else -1
  }

  /** The number that a text of digits denotes in the given base. */
  function ReadIn(base: nat, digits: string): int {
    if digits == [] then 0 else ReadIn(base, digits[..|digits| - 1]) * base + DigitValue(digits[|digits| - 1])
  }

  lemma ReadSnoc(base: nat, digits: string, c: char)
    ensures ReadIn(base, digits + [c]) == ReadIn(base, digits) * base + DigitValue(c)
  {
    assert (digits + [c])[..|digits|] == digits;
  }

  lemma {:induction false} HexReads(n: nat, width: nat)
    requires n < Capacity(width)
    ensures ReadIn(16, Hex(n, width)) == n
  {
    if width > 0 {
      HexReads(n / 16, width - 1);
      ReadSnoc(16, Hex(n / 16, width - 1), HexDigit(n % 16));
    }
  }

  lemma {:induction false} DigitsRead(n: nat)
    ensures ReadIn(10, Digits(n)) == n
  {
    if n >= 10 {
      DigitsRead(n / 10);
      ReadSnoc(10, Digits(n / 10), '0' + (n % 10) as char);
    } else {
      ReadSnoc(10, [], '0' + n as char);
      assert [] + ['0' + n as char] == Digits(n);
    }
  }

  lemma ReadLast(d: string, f: string, c: char)
    ensures ReadIn(10, d + (f + [c])) == ReadIn(10, d + f) * 10 + DigitValue(c)
  {
    ReadSnoc(10, d + f, c);
    Assoc(d, f, [c]);
  }

  lemma LastFraction(n: nat, places: nat)
    requires places > 0
    ensures Fraction(n, places) == Fraction(n / 10, places - 1) + ['0' + (n % 10) as char]
    ensures Whole(n, places) == Whole(n / 10, places - 1) && DigitValue('0' + (n % 10) as char) == n % 10
  {}

  /** Without its decimal point, a float's text reads as its units. */
  lemma {:induction false} PointReads(n: nat, places: nat)
    ensures ReadIn(10, Digits(Whole(n, places)) + Fraction(n, places)) == n
  {
    if places == 0 {
      DigitsRead(n);
      assert Digits(n) + [] == Digits(n);
    } else {
      PointReads(n / 10, places - 1);
      LastFraction(n, places);
      ReadLast(Digits(Whole(n, places)), Fraction(n / 10, places - 1), '0' + (n % 10) as char);
    }
  }

  /** The fixed parts of the text. */
  lemma FixedTexts()
    ensures Dumps(Null) == "null" && Dumps(Bool(true)) == "true" && Dumps(Bool(false)) == "false"
    ensures Dumps(List([])) == "[]" && Dumps(Obj(map[])) == "{}"
    ensures Escape('\n') == "\\n" && Escape('\t') == "\\t" && Escape('\r') == "\\r"
    ensures Escape('\"') == "\\\"" && Escape('\\') == "\\\\"
  {
    assert Sorted({}) == [];
  }

  /** Every item after the first is preceded by one comma. */
  lemma ItemText(x: Json, xs: seq<Json>)
    ensures Items([x] + xs, true) == Dumps(x) + Items(xs, false)
    ensures Items([x] + xs, false) == "," + (Dumps(x) + Items(xs, false))
    ensures Items([], true) == "]" && Items([], false) == "]"
  {
    var all := [x] + xs;
    assert all[0] == x && all[1..] == xs;
    Assoc(",", Dumps(x), Items(xs, false));
    assert "" + Dumps(x) == Dumps(x);
  }

  /** So is every member, and a colon stands between its key and its value. */
  lemma MemberText(o: Json, k: string, ks: seq<string>)
    requires o.Obj? && k in o.fields && forall l :: l in ks ==> l in o.fields
    ensures Members(o, [k] + ks, true) == Quote(k) + ":" + Dumps(o.fields[k]) + Members(o, ks, false)
    ensures Members(o, [k] + ks, false) == "," + Quote(k) + ":" + Dumps(o.fields[k]) + Members(o, ks, false)
    ensures Members(o, [], true) == "}" && Members(o, [], false) == "}"
  {
    var all := [k] + ks;
    assert all[0] == k && all[1..] == ks;
    assert "" + Quote(k) == Quote(k);
  }

  /** A long escape holds the code point, or the two surrogates that stand for it. */
  lemma LongReads(c: char)
    ensures var code, high := c as int, ReadIn(16, Long(c)[2..6]);
      if code < 0x10000 then high == code
      else
        var low := ReadIn(16, Long(c)[8..12]);
        0xD800 <= high < 0xDC00 <= low < 0xE000 && (high - 0xD800) * 0x400 + (low - 0xDC00) + 0x10000 == code
  {
    var code := c as int;
    FourDigits();
    LongHigh(c, "");
    assert Long(c) + "" == Long(c);
    if code < 0x10000 {
      HexReads(code, 4);
    } else {
      var low := 0xDC00 + (code - 0x10000) % 0x400;
      HexReads(High(c), 4);
      HexReads(low, 4);
      assert Long(c)[8..12] == Hex(low, 4);
    }
  }

  lemma FourDigits()
    ensures Capacity(4) == 0x10000
  {}
}
