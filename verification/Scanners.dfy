/** The brace and comment scanners of the web-server configuration collectors. */
module Scanners {
  import opened Text

  // ----- brace bodies

  function Weight(c: char): int {
    if c == '{' then 1 else if c == '}' then -1 else 0
  }

  /** Opening minus closing braces from `a` up to `b`. */
  function Depth(text: string, a: nat, b: nat): int
    requires b <= |text|
    decreases b
  {
    if b <= a then 0 else Depth(text, a, b - 1) + Weight(text[b - 1])
  }

  predicate Balanced(text: string, a: nat, b: nat)
    requires b <= |text|
  {
    Depth(text, a, b) == 0 && forall i :: a <= i <= b ==> Depth(text, a, i) >= 0
  }

  /** A closing brace at `k` that brings the count from `open` on back to zero. */
  predicate Closes(text: string, open: nat, k: nat) {
    open <= k < |text| && text[k] == '}' && Depth(text, open, k + 1) == 0
  }

  predicate FirstClose(text: string, open: nat, k: nat) {
    Closes(text, open, k) && forall j :: 0 <= j < k ==> !Closes(text, open, j)
  }

  /** `_extract_brace_body` */
  method ExtractBraceBody(text: string, open: nat) returns (body: Option<string>)
    ensures body.None? ==> forall k: nat :: !Closes(text, open, k)
    ensures body.Some? ==> exists k: nat :: FirstClose(text, open, k) && open < k && body.value == text[open + 1..k]
  {
    var depth := 0;
    var index := open;
    while index < |text|
      invariant open <= index
      invariant index <= |text| ==> depth == Depth(text, open, index)
      invariant forall k :: 0 <= k < index ==> !Closes(text, open, k)
    {
      if text[index] == '{' {
        depth := depth + 1;
      } else if text[index] == '}' {
        depth := depth - 1;
        if depth == 0 {
          assert FirstClose(text, open, index);
          return Some(text[open + 1..index]);
        }
      }
      index := index + 1;
    }
    return None;
  }

  lemma {:induction false} DepthSplits(text: string, a: nat, b: nat, c: nat)
    requires a <= b <= c <= |text|
    ensures Depth(text, a, c) == Depth(text, a, b) + Depth(text, b, c)
    decreases c
  {
    if b < c { DepthSplits(text, a, b, c - 1); }
  }

  lemma AfterOpening(text: string, open: nat, i: nat)
    requires open < i <= |text| && text[open] == '{'
    ensures Depth(text, open, i) == 1 + Depth(text, open + 1, i)
  {
    DepthSplits(text, open, open + 1, i);
    assert Depth(text, open, open) == 0;
  }

  /** As long as nothing closes, the depth stays positive. */
  lemma {:induction false} StaysInside(text: string, open: nat, i: nat, k: nat)
    requires open < i <= k < |text| && text[open] == '{' && forall j :: 0 <= j < k ==> !Closes(text, open, j)
    ensures Depth(text, open, i) > 0
    decreases i
  {
    if i == open + 1 {
      assert Depth(text, open, open) == 0;
    } else {
      StaysInside(text, open, i - 1, k);
      assert !Closes(text, open, i - 1);
    }
  }

  /**
   Behind an opening brace, the extracted body is balanced and followed by its closing brace, and any
   balanced text in braces is extracted whole: there is exactly one such body.
   */
  lemma BodyIsBalanced(text: string, open: nat, k: nat)
    requires open < |text| && text[open] == '{'
    ensures FirstClose(text, open, k) <==> open < k < |text| && text[k] == '}' && Balanced(text, open + 1, k)
  {
    if FirstClose(text, open, k) {
      AfterOpening(text, open, k);
      var a := open + 1;
      forall i | a <= i <= k ensures Depth(text, a, i) >= 0 {
        StaysInside(text, open, i, k);
        AfterOpening(text, open, i);
      }
    }
    if open < k < |text| && text[k] == '}' && Balanced(text, open + 1, k) {
      AfterOpening(text, open, k + 1);
      forall j | 0 <= j < k ensures !Closes(text, open, j) {
        if open < j { AfterOpening(text, open, j + 1); }
      }
    }
  }

  // ----- comments

  datatype Mode = Outside | Single | Double

  function After(mode: Mode, c: char): Mode {
    if c == '\'' && mode != Double then (if mode == Single then Outside else Single)
    else if c == '\"' && mode != Single then (if mode == Double then Outside else Double)
    else mode
  }

  /** The quoting in force before position `i`. */
  function ModeAt(line: string, i: nat): Mode
    requires i <= |line|
  {
    if i == 0 then Outside else After(ModeAt(line, i - 1), line[i - 1])
  }

  predicate CommentAt(line: string, i: nat) {
    i < |line| && line[i] == '#' && ModeAt(line, i) == Outside
  }

  /** The longest prefix without an unquoted `#`. */
  predicate Stripped(line: string, r: string) {
    && |r| <= |line| && r == line[..|r|] && (|r| < |line| ==> CommentAt(line, |r|))
    && forall i :: 0 <= i < |r| ==> !CommentAt(line, i)
  }

  /** `_strip_config_comment` */
  method StripConfigComment(line: string) returns (r: string)
    ensures Stripped(line, r)
  {
    var inSingle, inDouble := false, false;
    for index := 0 to |line|
      invariant !(inSingle && inDouble)
      invariant ModeAt(line, index) == if inSingle then Single else if inDouble then Double else Outside
      invariant forall i :: 0 <= i < index ==> !CommentAt(line, i)
    {
      var character := line[index];
      if character == '\'' && !inDouble {
        inSingle := !inSingle;
      } else if character == '\"' && !inSingle {
        inDouble := !inDouble;
      } else if character == '#' && !inSingle && !inDouble {
        return line[..index];
      }
    }
    return line;
  }

  lemma {:induction false} ModeOfPrefix(line: string, n: nat, i: nat)
    requires i <= n <= |line|
    ensures ModeAt(line[..n], i) == ModeAt(line, i)
  {
    if i > 0 { ModeOfPrefix(line, n, i - 1); }
  }

  /** The result is determined, has no unquoted `#`, and stripping it again changes nothing. */
  lemma StrippedOnce(line: string, r: string, again: string)
    requires Stripped(line, r)
    ensures (forall i :: 0 <= i < |r| ==> !CommentAt(r, i)) && (Stripped(r, again) <==> again == r)
    ensures Stripped(line, again) <==> again == r
  {
    forall i | 0 <= i < |r| ensures !CommentAt(r, i) {
      ModeOfPrefix(line, |r|, i);
      assert line[..|r|][i] == line[i] && !CommentAt(line, i);
    }
    assert r[..|r|] == r;
  }

  /** Depth is the count of opening braces less that of closing ones. */
  lemma {:induction false} DepthCounts(text: string, a: nat, b: nat)
    requires a <= b <= |text|
    ensures Depth(text, a, b) == multiset(text[a..b])['{'] as int - multiset(text[a..b])['}'] as int
  {
    if a < b {
      DepthCounts(text, a, b - 1);
      assert text[a..b] == text[a..b - 1] + [text[b - 1]];
    } else {
      assert text[a..b] == [];
    }
  }

  predicate IsQuote(c: char) {
    c == '\'' || c == '\"'
  }

  /** Without quotes nothing is quoted. */
  lemma {:induction false} OutsideQuotes(line: string, i: nat, j: nat)
    requires i <= j <= |line| && ModeAt(line, i) == Outside && forall k :: i <= k < j ==> !IsQuote(line[k])
    ensures ModeAt(line, j) == Outside
    decreases j
  {
    if i < j { OutsideQuotes(line, i, j - 1); }
  }

  /** A quote opens a quotation that lasts until the same quote closes it. */
  lemma {:induction false} InsideQuotes(line: string, i: nat, j: nat)
    requires i < j <= |line| && ModeAt(line, i) == Outside && IsQuote(line[i])
    requires forall k :: i < k < j ==> line[k] != line[i]
    ensures ModeAt(line, j) == if line[i] == '\'' then Single else Double
    ensures j < |line| && line[j] == line[i] ==> ModeAt(line, j + 1) == Outside
    decreases j
  {
    if i + 1 < j { InsideQuotes(line, i, j - 1); }
  }

  /** So a `#` starts a comment when no quote precedes it, and not inside a quotation. */
  lemma CommentsAndQuotes(line: string, j: nat)
    requires j < |line| && line[j] == '#'
    ensures (forall k :: 0 <= k < j ==> !IsQuote(line[k])) ==> CommentAt(line, j)
    ensures forall i: nat :: i < j && ModeAt(line, i) == Outside && IsQuote(line[i]) && (forall k :: i < k < j ==> line[k] != line[i]) ==>
      !CommentAt(line, j)
  {
    if forall k :: 0 <= k < j ==> !IsQuote(line[k]) { OutsideQuotes(line, 0, j); }
    forall i: nat | i < j && ModeAt(line, i) == Outside && IsQuote(line[i]) && (forall k :: i < k < j ==> line[k] != line[i])
      ensures !CommentAt(line, j)
    {
      InsideQuotes(line, i, j);
    }
  }
}
