/**
 Retrieved text is framed as untrusted evidence. The sanitiser replaces everything that reads like
 one of the two frame delimiters, in any letter case and with any whitespace between the words.
 A pattern is the set of texts it matches, so that the theorems speak about every delimiter whose
 texts have the `Shaped` form, and then about the two the program uses.
 */
module Evidence {
  import opened Text

  type Pattern = string -> bool

  const REDACTED := "[redacted-delimiter]"

  // ----- matches of a pattern in a text

  ghost predicate MatchAt(d: Pattern, s: string, p: int, e: int) {
    0 <= p < e <= |s| && d(s[p..e])
  }

  ghost predicate Clean(d: Pattern, s: string) {
    forall p, e :: !MatchAt(d, s, p, e)
  }

  /** A `[`, the only one, not followed by the `r` of the replacement, and one `]` at the very end. */
  predicate Shaped(m: string) {
    && |m| > 1 && m[0] == '[' && m[1] != 'r' && m[|m| - 1] == ']'
    && (forall i :: 0 < i < |m| ==> m[i] != '[') && (forall i :: 0 <= i < |m| - 1 ==> m[i] != ']')
  }

  ghost predicate Delimits(d: Pattern) {
    forall m :: d(m) ==> Shaped(m)
  }

  lemma MatchShape(d: Pattern, s: string, p: nat, e: nat)
    requires Delimits(d) && MatchAt(d, s, p, e)
    ensures p + 1 < e && s[p] == '[' && s[p + 1] != 'r' && s[e - 1] == ']'
    ensures forall i :: p < i < e ==> s[i] != '['
    ensures forall i :: p <= i < e - 1 ==> s[i] != ']'
  {
    var m := s[p..e];
    assert Shaped(m);
    forall i | p <= i < e ensures s[i] == m[i - p] {}
  }

  /** A match ends at the first `]`: there is nothing for greedy repetition to choose. */
  lemma MatchIsUnique(d: Pattern, s: string, p: nat, e: nat, f: nat)
    requires Delimits(d) && MatchAt(d, s, p, e) && MatchAt(d, s, p, f)
    ensures e == f
  {
    MatchShape(d, s, p, e);
    MatchShape(d, s, p, f);
  }

  // ----- the sanitiser

  /** `re.sub` from position `p` on: the leftmost match is replaced, and the search goes on after it. */
  ghost function Sanitise(d: Pattern, s: string, p: nat): string
    requires p <= |s|
    decreases |s| - p
  {
    if p == |s| then []
    else if exists e :: MatchAt(d, s, p, e) then
      var e :| MatchAt(d, s, p, e);
      REDACTED + Sanitise(d, s, e)
    else
      [s[p]] + Sanitise(d, s, p + 1)
  }

  function Truncate(s: string, limit: nat): string {
    if |s| <= limit then s else s[..limit]
  }

  lemma Moved(prefix: string, rest: string, p: nat, e: nat)
    requires |prefix| <= p <= e <= |prefix| + |rest|
    ensures (prefix + rest)[p..e] == rest[p - |prefix|..e - |prefix|]
  {}

  lemma BehindPrefix(d: Pattern, prefix: string, rest: string, p: nat, e: nat)
    requires |prefix| <= p && MatchAt(d, prefix + rest, p, e)
    ensures MatchAt(d, rest, p - |prefix|, e - |prefix|)
  {
    Moved(prefix, rest, p, e);
  }

  lemma ConsCopies(c: char, rest: string, n: nat, s: string, p: nat)
    requires p < |s| && c == s[p] && n <= |rest| && p + 1 + n <= |s| && rest[..n] == s[p + 1..p + 1 + n]
    ensures ([c] + rest)[..n + 1] == s[p..p + 1 + n]
  {
    assert ([c] + rest)[..n + 1] == [c] + rest[..n];
  }

  predicate NoBracketUpTo(s: string, n: nat) {
    n <= |s| && forall i :: 0 <= i < n ==> s[i] != '['
  }

  lemma RestHasNoBracket(c: char, rest: string, n: nat)
    requires n < |[c] + rest| && forall i :: 0 < i <= n ==> ([c] + rest)[i] != '['
    ensures NoBracketUpTo(rest, n)
  {
    forall i | 0 <= i < n ensures rest[i] != '[' {
      assert rest[i] == ([c] + rest)[i + 1];
    }
  }

  /** Up to its first `[`, the sanitised text is a copy. */
  lemma {:induction false} CopiedUpToBracket(d: Pattern, s: string, p: nat, n: nat)
    requires p <= |s| && NoBracketUpTo(Sanitise(d, s, p), n)
    ensures p + n <= |s| && Sanitise(d, s, p)[..n] == s[p..p + n]
    decreases |s| - p
  {
    if n > 0 {
      var out := Sanitise(d, s, p);
      assert out[0] != '[';
      var rest := Sanitise(d, s, p + 1);
      assert out == [s[p]] + rest;
      RestHasNoBracket(s[p], rest, n - 1);
      CopiedUpToBracket(d, s, p + 1, n - 1);
      ConsCopies(s[p], rest, n - 1, s, p);
    }
  }

  lemma RedactionMatchesNothing(d: Pattern, rest: string, a: nat, b: nat)
    requires Delimits(d) && a < |REDACTED|
    ensures !MatchAt(d, REDACTED + rest, a, b)
  {
    assert (REDACTED + rest)[a] == REDACTED[a] && (REDACTED + rest)[1] == REDACTED[1];
    if MatchAt(d, REDACTED + rest, a, b) { MatchShape(d, REDACTED + rest, a, b); }
  }

  lemma CopiedMatch(d: Pattern, s: string, p: nat, rest: string, b: nat)
    requires p < |s| && MatchAt(d, [s[p]] + rest, 0, b)
    requires p + b <= |s| && rest[..b - 1] == s[p + 1..p + 1 + (b - 1)]
    ensures MatchAt(d, s, p, p + b)
  {
    ConsCopies(s[p], rest, b - 1, s, p);
    assert ([s[p]] + rest)[0..b] == ([s[p]] + rest)[..b];
  }

  /** A match at a copied character was already there. */
  lemma CopyMatchesNothing(d: Pattern, s: string, p: nat, rest: string, b: nat)
    requires Delimits(d) && p < |s| && rest == Sanitise(d, s, p + 1) && MatchAt(d, [s[p]] + rest, 0, b)
    ensures MatchAt(d, s, p, p + b)
  {
    MatchShape(d, [s[p]] + rest, 0, b);
    RestHasNoBracket(s[p], rest, b - 1);
    CopiedUpToBracket(d, s, p + 1, b - 1);
    CopiedMatch(d, s, p, rest, b);
  }

  /** One step of the sanitiser: where it goes on, and what it has written before that. */
  lemma SanitiseStep(d: Pattern, s: string, p: nat) returns (next: nat, written: string)
    requires p < |s|
    ensures p < next <= |s| && Sanitise(d, s, p) == written + Sanitise(d, s, next)
    ensures written == REDACTED || (written == [s[p]] && next == p + 1 && forall e :: !MatchAt(d, s, p, e))
  {
    if exists e :: MatchAt(d, s, p, e) {
      next :| MatchAt(d, s, p, next) && Sanitise(d, s, p) == REDACTED + Sanitise(d, s, next);
      written := REDACTED;
    } else {
      next, written := p + 1, [s[p]];
    }
  }

  /** What one step writes does not begin a match. */
  lemma StepBeginsNothing(d: Pattern, s: string, p: nat, written: string, rest: string, a: int, b: int)
    requires Delimits(d) && p < |s| && MatchAt(d, written + rest, a, b)
    requires written == REDACTED
      || (written == [s[p]] && rest == Sanitise(d, s, p + 1) && forall e :: !MatchAt(d, s, p, e))
    ensures a >= |written|
  {
    if a < |written| {
      if written == REDACTED {
        RedactionMatchesNothing(d, rest, a, b);
      } else {
        CopyMatchesNothing(d, s, p, rest, b);
      }
    }
  }

  lemma PrefixKeepsClean(d: Pattern, s: string, p: nat, written: string, rest: string)
    requires Delimits(d) && p < |s| && Clean(d, rest)
    requires written == REDACTED
      || (written == [s[p]] && rest == Sanitise(d, s, p + 1) && forall e :: !MatchAt(d, s, p, e))
    ensures Clean(d, written + rest)
  {
    forall a, b ensures !MatchAt(d, written + rest, a, b) {
      if MatchAt(d, written + rest, a, b) {
        StepBeginsNothing(d, s, p, written, rest, a, b);
        BehindPrefix(d, written, rest, a, b);
      }
    }
  }

  lemma {:induction false} ReplacementLeavesNothing(d: Pattern, s: string, p: nat)
    requires Delimits(d) && p <= |s|
    ensures Clean(d, Sanitise(d, s, p))
    decreases |s| - p
  {
    if p < |s| {
      var next, written := SanitiseStep(d, s, p);
      ReplacementLeavesNothing(d, s, next);
      PrefixKeepsClean(d, s, p, written, Sanitise(d, s, next));
    }
  }

  lemma TruncationCreatesNothing(d: Pattern, s: string, limit: nat)
    requires Clean(d, s)
    ensures Clean(d, Truncate(s, limit))
  {
    var t := Truncate(s, limit);
    forall a, b ensures !MatchAt(d, t, a, b) {
      if 0 <= a < b <= |t| { assert t[a..b] == s[a..b] && !MatchAt(d, s, a, b); }
    }
  }

  /** Replacement and truncation leave no match and create none. */
  lemma SanitisedIsClean(d: Pattern, s: string, limit: nat)
    requires Delimits(d)
    ensures Clean(d, Truncate(Sanitise(d, s, 0), limit))
  {
    ReplacementLeavesNothing(d, s, 0);
    TruncationCreatesNothing(d, Sanitise(d, s, 0), limit);
  }

  /** Clean text passes unchanged, so sanitising twice is sanitising once. */
  lemma {:induction false} CleanIsKept(d: Pattern, s: string, p: nat)
    requires Clean(d, s) && p <= |s|
    ensures Sanitise(d, s, p) == s[p..]
    decreases |s| - p
  {
    if p < |s| { CleanIsKept(d, s, p + 1); }
  }

  lemma MatchIsReplaced(d: Pattern, s: string, p: nat, e: nat)
    requires Delimits(d) && MatchAt(d, s, p, e)
    ensures Sanitise(d, s, p) == REDACTED + Sanitise(d, s, e)
  {
    var f: nat :| MatchAt(d, s, p, f) && Sanitise(d, s, p) == REDACTED + Sanitise(d, s, f);
    MatchIsUnique(d, s, p, e, f);
  }

  lemma FirstKept(s: string, p: nat, q: nat, rest: string)
    requires p < q <= |s|
    ensures [s[p]] + (s[p + 1..q] + rest) == s[p..q] + rest
  {
    assert s[p..q] == [s[p]] + s[p + 1..q];
  }

  /** Everything up to the leftmost match is kept, the match is replaced, and the rest is treated alike. */
  lemma {:induction false} LeftmostIsReplaced(d: Pattern, s: string, p: nat, q: nat, e: nat)
    requires Delimits(d) && p <= q && MatchAt(d, s, q, e) && forall i, f :: p <= i < q ==> !MatchAt(d, s, i, f)
    ensures Sanitise(d, s, p) == s[p..q] + (REDACTED + Sanitise(d, s, e))
    decreases q - p
  {
    if p < q {
      LeftmostIsReplaced(d, s, p + 1, q, e);
      FirstKept(s, p, q, REDACTED + Sanitise(d, s, e));
    } else {
      MatchIsReplaced(d, s, p, e);
    }
  }

  // ----- the frame

  predicate NoBracket(s: string) {
    forall i :: 0 <= i < |s| ==> s[i] != '['
  }

  function Framed(head: string, header: string, body: string, tail: string): string {
    head + header + body + "\n" + tail
  }

  lemma FramedAt(head: string, header: string, body: string, tail: string, i: nat)
    requires i < |Framed(head, header, body, tail)|
    ensures var h, l, b := |head|, |head| + |header|, |head| + |header| + |body|;
      Framed(head, header, body, tail)[i] ==
      if i < h then head[i] else if i < l then header[i - h] else if i < b then body[i - l]
      else if i == b then '\n' else tail[i - b - 1]
  {}

  lemma FramedParts(head: string, header: string, body: string, tail: string)
    ensures var block, l := Framed(head, header, body, tail), |head| + |header|;
      && block[0..|head|] == head && block[l..l + |body|] == body
      && block[l + |body| + 1..|block|] == tail
  {}

  /** A match cannot start in the header, in the body, or behind the first character of head or tail. */
  lemma FrameStarts(d: Pattern, head: string, header: string, body: string, tail: string, p: nat, e: nat)
    requires Delimits(d) && Shaped(head) && Shaped(tail) && NoBracket(header) && Clean(d, body)
    requires MatchAt(d, Framed(head, header, body, tail), p, e)
    ensures p == 0 || p == |head| + |header| + |body| + 1
  {
    var block := Framed(head, header, body, tail);
    var l, b := |head| + |header|, |head| + |header| + |body|;
    MatchShape(d, block, p, e);
    FramedAt(head, header, body, tail, p);
    FramedAt(head, header, body, tail, e - 1);
    FramedAt(head, header, body, tail, b + 1);
    if l <= p < b {
      assert e <= b + 1;
      BodyMatch(d, head, header, body, tail, p, e);
    }
  }

  lemma BodyMatch(d: Pattern, head: string, header: string, body: string, tail: string, p: nat, e: nat)
    requires MatchAt(d, Framed(head, header, body, tail), p, e)
    requires |head| + |header| <= p && e <= |head| + |header| + |body|
    ensures !Clean(d, body)
  {
    var block, l := Framed(head, header, body, tail), |head| + |header|;
    assert block[p..e] == body[p - l..e - l];
    assert MatchAt(d, body, p - l, e - l);
  }

  /** The whole block matches exactly twice: at its very start and at its very end. */
  lemma FrameMatches(d: Pattern, head: string, header: string, body: string, tail: string, p: int, e: int)
    requires Delimits(d) && d(head) && d(tail) && NoBracket(header) && Clean(d, body)
    ensures var block := Framed(head, header, body, tail);
      MatchAt(d, block, p, e) <==> (p == 0 && e == |head|) || (p == |block| - |tail| && e == |block|)
  {
    var block := Framed(head, header, body, tail);
    FramedParts(head, header, body, tail);
    assert Shaped(head) && Shaped(tail);
    assert MatchAt(d, block, 0, |head|) && MatchAt(d, block, |block| - |tail|, |block|);
    if MatchAt(d, block, p, e) {
      FrameStarts(d, head, header, body, tail, p, e);
      MatchIsUnique(d, block, p, e, if p == 0 then |head| else |block|);
    }
  }

  // ----- the two delimiters

  /** Case folding of the regular expression: ASCII letters, plus the characters that fold onto i, s and k. */
  function Fold(c: char): char {
    var code := c as int;
    if 'A' <= c <= 'Z' then c + 32 as char
    else if code == 0x130 || code == 0x131 then 'i'
    else if code == 0x17F then 's'
    else if code == 0x212A then 'k'
    else c
  }

  predicate SameLetters(word: string, m: string) {
    |word| == |m| && forall i :: 0 <= i < |m| ==> Fold(m[i]) == Fold(word[i])
  }

  predicate Gap(m: string) {
    m != [] && forall i :: 0 <= i < |m| ==> IsSpace(m[i])
  }

  /** The texts of the expression `word\s+word\s+...\s+word`. */
  ghost predicate Spells(words: seq<string>, m: string)
    requires words != []
    decreases |words|, 1
  {
    if |words| == 1 then SameLetters(words[0], m)
    else exists i, j :: Parts(words, m, i, j)
  }

  ghost predicate Parts(words: seq<string>, m: string, i: int, j: int)
    requires |words| > 1
    decreases |words|, 0
  {
    0 <= i <= j <= |m| && SameLetters(words[0], m[..i]) && Gap(m[i..j]) && Spells(words[1..], m[j..])
  }

  lemma FoldBracket(c: char)
    ensures (Fold(c) == '[' <==> c == '[') && (Fold(c) == ']' <==> c == ']')
  {}

  /** The same brackets at the same places. */
  predicate SameBrackets(word: string, m: string) {
    |word| == |m| && forall i :: 0 <= i < |m| ==> (m[i] == '[' <==> word[i] == '[') && (m[i] == ']' <==> word[i] == ']')
  }

  lemma LettersKeepBrackets(word: string, m: string)
    requires SameLetters(word, m)
    ensures SameBrackets(word, m)
  {
    forall i | 0 <= i < |m| ensures (m[i] == '[' <==> word[i] == '[') && (m[i] == ']' <==> word[i] == ']') {
      FoldBracket(m[i]);
      FoldBracket(word[i]);
    }
  }

  predicate Plain(m: string) {
    m != [] && forall i :: 0 <= i < |m| ==> m[i] != '[' && m[i] != ']'
  }

  /** No bracket but one `]` at the very end. */
  predicate Closing(m: string) {
    m != [] && m[|m| - 1] == ']' && Plain(m[..|m| - 1] + "x")
  }

  predicate Opening(m: string) {
    |m| > 1 && m[0] == '[' && Plain(m[1..])
  }

  lemma GapIsPlain(m: string)
    requires Gap(m)
    ensures Plain(m)
  {}

  lemma PlainThenClosing(m: string, i: nat, j: nat)
    requires i <= j <= |m| && Plain(m[..i]) && Plain(m[i..j]) && Closing(m[j..])
    ensures Closing(m)
  {
    forall k | 0 <= k < |m| - 1 ensures m[k] != '[' && m[k] != ']' {
      if k < i { assert m[k] == m[..i][k]; }
      else if k < j { assert m[k] == m[i..j][k - i]; }
      else { assert m[k] == (m[j..][..|m[j..]| - 1] + "x")[k - j]; }
    }
  }

  lemma OpeningThenClosing(m: string, i: nat, j: nat)
    requires i <= j <= |m| && Opening(m[..i]) && Plain(m[i..j]) && Closing(m[j..]) && m[1] != 'r'
    ensures Shaped(m)
  {
    forall k | 0 < k < |m| - 1 ensures m[k] != '[' && m[k] != ']' {
      if k < i { assert m[k] == m[..i][1..][k - 1]; }
      else if k < j { assert m[k] == m[i..j][k - i]; }
      else { assert m[k] == (m[j..][..|m[j..]| - 1] + "x")[k - j]; }
    }
  }

  /** Plain words and a closing one. */
  predicate ClosingWords(words: seq<string>) {
    words != [] && (forall i :: 0 <= i < |words| - 1 ==> Plain(words[i])) && Closing(words[|words| - 1])
  }

  lemma {:induction false} SpelledCloses(words: seq<string>, m: string)
    requires ClosingWords(words) && Spells(words, m)
    ensures Closing(m)
    decreases |words|
  {
    if |words| == 1 {
      LettersKeepBrackets(words[0], m);
      ClosingAlike(words[0], m);
    } else {
      var i, j :| Parts(words, m, i, j);
      LettersKeepBrackets(words[0], m[..i]);
      GapIsPlain(m[i..j]);
      SpelledCloses(words[1..], m[j..]);
      PlainThenClosing(m, i, j);
    }
  }

  lemma ClosingAlike(word: string, m: string)
    requires SameBrackets(word, m) && Closing(word)
    ensures Closing(m)
  {
    forall k | 0 <= k < |m| - 1 ensures m[k] != '[' && m[k] != ']' {
      assert word[k] == (word[..|word| - 1] + "x")[k];
    }
  }

  lemma OpeningAlike(word: string, m: string)
    requires SameBrackets(word, m) && Opening(word)
    ensures Opening(m)
  {
    forall k | 0 < k < |m| ensures m[k] != '[' && m[k] != ']' {
      assert word[k] == word[1..][k - 1];
    }
  }

  lemma SpelledIsShaped(first: string, rest: seq<string>, m: string)
    requires Opening(first) && Fold(first[1]) != 'r' && ClosingWords(rest) && Spells([first] + rest, m)
    ensures Shaped(m) && Fold(m[1]) == Fold(first[1])
  {
    var words := [first] + rest;
    var i, j :| Parts(words, m, i, j);
    assert words[1..] == rest;
    LettersKeepBrackets(first, m[..i]);
    OpeningAlike(first, m[..i]);
    GapIsPlain(m[i..j]);
    SpelledCloses(rest, m[j..]);
    assert m[1] == m[..i][1];
    OpeningThenClosing(m, i, j);
  }

  /** The words with one space between them. */
  function Spaced(words: seq<string>): string
    requires words != []
  {
    if |words| == 1 then words[0] else words[0] + " " + Spaced(words[1..])
  }

  lemma {:induction false} SpacedSpells(words: seq<string>)
    requires words != []
    ensures Spells(words, Spaced(words))
    decreases |words|
  {
    if |words| > 1 {
      var m, i := Spaced(words), |words[0]|;
      SpacedSpells(words[1..]);
      assert m[..i] == words[0] && m[i..i + 1] == " " && m[i + 1..] == Spaced(words[1..]);
      assert Parts(words, m, i, i + 1);
    }
  }

  const REST := ["RETRIEVED", "EVIDENCE:", "UNTRUSTED", "THIRD-PARTY", "DATA]"]
  const START_WORDS := ["[BEGIN"] + REST
  const END_WORDS := ["[END"] + REST

  ghost predicate IsStart(m: string) { Spells(START_WORDS, m) }
  ghost predicate IsEnd(m: string) { Spells(END_WORDS, m) }
  ghost predicate IsDelimiter(m: string) { IsStart(m) || IsEnd(m) }

  lemma RestCloses()
    ensures ClosingWords(REST)
  {
    assert Plain("RETRIEVED") && Plain("EVIDENCE:") && Plain("UNTRUSTED") && Plain("THIRD-PARTY");
    assert "DATA]"[..4] + "x" == "DATAx";
    assert Closing("DATA]");
  }

  lemma StartShape(m: string)
    requires IsStart(m)
    ensures Shaped(m) && Fold(m[1]) == 'b'
  {
    RestCloses();
    assert "[BEGIN"[1..] == "BEGIN";
    SpelledIsShaped("[BEGIN", REST, m);
  }

  lemma EndShape(m: string)
    requires IsEnd(m)
    ensures Shaped(m) && Fold(m[1]) == 'e'
  {
    RestCloses();
    assert "[END"[1..] == "END";
    SpelledIsShaped("[END", REST, m);
  }

  lemma DelimitersAreShaped()
    ensures Delimits(IsDelimiter)
  {
    forall m | IsDelimiter(m) ensures Shaped(m) {
      if IsStart(m) { StartShape(m); } else { EndShape(m); }
    }
  }

  // ----- `_safe_knowledge_context_text` and `_knowledge_evidence`

  ghost function SafeText(value: string, limit: nat): string {
    Truncate(Sanitise(IsDelimiter, value, 0), limit)
  }

  const AUTHORITIES := ["AUTHORITATIVE_POLICY", "APPROVED_SOP", "REFERENCE", "VENDOR", "TECHNICIAN_NOTES", "UNTRUSTED"]

  function Authority(value: string): string {
    if value in AUTHORITIES then value else "UNTRUSTED"
  }

  function Header(authority: string): string {
    "\nauthority=" + Authority(authority) + "\n"
  }

  ghost function EvidenceBlock(authority: string, excerpt: string): string {
    Framed(Spaced(START_WORDS), Header(authority), SafeText(excerpt, 1000), Spaced(END_WORDS))
  }

  lemma HeaderHasNoBracket(authority: string)
    ensures NoBracket(Header(authority))
  {
    var name := Authority(authority);
    assert forall i :: 0 <= i < |AUTHORITIES| ==> NoBracket(AUTHORITIES[i]);
    assert NoBracket("UNTRUSTED") && NoBracket("\nauthority=");
  }

  /** Whatever the source text and the limit, no delimiter is left, and the text fits the limit. */
  lemma SafeTextIsClean(value: string, limit: nat)
    ensures Clean(IsDelimiter, SafeText(value, limit)) && |SafeText(value, limit)| <= limit
  {
    DelimitersAreShaped();
    SanitisedIsClean(IsDelimiter, value, limit);
  }

  /** The block holds exactly one start delimiter, at its start, and one end delimiter, at its end. */
  lemma BlockIsFramed(authority: string, excerpt: string, p: int, e: int)
    ensures var block, n := EvidenceBlock(authority, excerpt), |Spaced(END_WORDS)|;
      && (MatchAt(IsStart, block, p, e) <==> p == 0 && e == |Spaced(START_WORDS)|)
      && (MatchAt(IsEnd, block, p, e) <==> p == |block| - n && e == |block|)
  {
    SafeTextIsClean(excerpt, 1000);
    HeaderHasNoBracket(authority);
    DelimitersAreShaped();
    SpacedSpells(START_WORDS);
    SpacedSpells(END_WORDS);
    StartAndEnd(Spaced(START_WORDS), Header(authority), SafeText(excerpt, 1000), Spaced(END_WORDS), p, e);
  }

  /** Of the two matches in a frame, the first is the start delimiter and the second the end delimiter. */
  lemma StartAndEnd(head: string, header: string, body: string, tail: string, p: int, e: int)
    requires Delimits(IsDelimiter) && IsStart(head) && IsEnd(tail) && NoBracket(header) && Clean(IsDelimiter, body)
    ensures var block := Framed(head, header, body, tail);
      && (MatchAt(IsStart, block, p, e) <==> p == 0 && e == |head|)
      && (MatchAt(IsEnd, block, p, e) <==> p == |block| - |tail| && e == |block|)
  {
    var block := Framed(head, header, body, tail);
    FrameMatches(IsDelimiter, head, header, body, tail, p, e);
    FramedParts(head, header, body, tail);
    StartShape(head);
    EndShape(tail);
    assert MatchAt(IsStart, block, 0, |head|) && MatchAt(IsEnd, block, |block| - |tail|, |block|);
    assert MatchAt(IsStart, block, p, e) || MatchAt(IsEnd, block, p, e) ==> MatchAt(IsDelimiter, block, p, e);
    if MatchAt(IsStart, block, p, e) { StartShape(block[p..e]); }
    if MatchAt(IsEnd, block, p, e) { EndShape(block[p..e]); }
  }

  // ----- what is kept, and what is caught

  /** An excerpt without delimiters and within the limit is kept whole; any excerpt is a prefix of the sanitised text. */
  lemma SafeTextKeeps(value: string, limit: nat)
    ensures var full := Sanitise(IsDelimiter, value, 0);
      SafeText(value, limit) == full[..if |full| < limit then |full| else limit]
    ensures Clean(IsDelimiter, value) && |value| <= limit ==> SafeText(value, limit) == value
  {
    if Clean(IsDelimiter, value) { CleanIsKept(IsDelimiter, value, 0); }
  }

  /** The block of a short clean excerpt, word for word; an authority the program does not know reads UNTRUSTED. */
  lemma BlockText(authority: string, excerpt: string)
    requires Clean(IsDelimiter, excerpt) && |excerpt| <= 1000
    ensures var known :=
        {"AUTHORITATIVE_POLICY", "APPROVED_SOP", "REFERENCE", "VENDOR", "TECHNICIAN_NOTES", "UNTRUSTED"};
      EvidenceBlock(authority, excerpt) ==
      Spaced(START_WORDS) + ("\nauthority=" + (if authority in known then authority else "UNTRUSTED") + "\n")
      + excerpt + "\n" + Spaced(END_WORDS)
  {
    SafeTextKeeps(excerpt, 1000);
  }

  /** The same character, or the same ASCII letter in the other case. */
  predicate SameButCase(c: char, d: char) {
    c == d || ('A' <= c <= 'Z' && d == c + 32 as char) || ('A' <= d <= 'Z' && c == d + 32 as char)
  }

  predicate CaseVariant(m: string, n: string) {
    |m| == |n| && forall i :: 0 <= i < |m| ==> SameButCase(m[i], n[i])
  }

  lemma CaseVariantPart(m: string, n: string, i: nat, j: nat)
    requires CaseVariant(m, n) && i <= j <= |m|
    ensures CaseVariant(m[i..j], n[i..j])
  {}

  lemma CaseKeepsLetters(word: string, m: string, n: string)
    requires SameLetters(word, m) && CaseVariant(m, n)
    ensures SameLetters(word, n)
  {
    forall i | 0 <= i < |n| ensures Fold(n[i]) == Fold(word[i]) {
      assert SameButCase(m[i], n[i]) && Fold(m[i]) == Fold(word[i]);
    }
  }

  lemma CaseKeepsGap(m: string, n: string)
    requires Gap(m) && CaseVariant(m, n)
    ensures Gap(n)
  {
    forall i | 0 <= i < |n| ensures IsSpace(n[i]) {
      assert SameButCase(m[i], n[i]) && IsSpace(m[i]);
    }
  }

  /** Changing the case of letters does not hide a delimiter. */
  lemma {:induction false} AnyCaseSpells(words: seq<string>, m: string, n: string)
    requires words != [] && Spells(words, m) && CaseVariant(m, n)
    ensures Spells(words, n)
    decreases |words|
  {
    if |words| == 1 {
      CaseKeepsLetters(words[0], m, n);
    } else {
      var i: nat, j: nat :| Parts(words, m, i, j);
      CaseVariantPart(m, n, 0, i);
      CaseVariantPart(m, n, i, j);
      CaseVariantPart(m, n, j, |m|);
      assert m[0..i] == m[..i] && n[0..i] == n[..i] && m[j..|m|] == m[j..] && n[j..|n|] == n[j..];
      CaseKeepsLetters(words[0], m[..i], n[..i]);
      CaseKeepsGap(m[i..j], n[i..j]);
      AnyCaseSpells(words[1..], m[j..], n[j..]);
      assert Parts(words, n, i, j);
    }
  }

  /** The words with the given texts between them. */
  function Joined(words: seq<string>, gaps: seq<string>): string
    requires words != [] && |gaps| == |words| - 1
  {
    if |words| == 1 then words[0] else words[0] + gaps[0] + Joined(words[1..], gaps[1..])
  }

  /** Nor does any whitespace between the words. */
  lemma {:induction false} AnyGapSpells(words: seq<string>, gaps: seq<string>)
    requires words != [] && |gaps| == |words| - 1
    requires forall i :: 0 <= i < |gaps| ==> gaps[i] != [] && IsBlank(gaps[i])
    ensures Spells(words, Joined(words, gaps))
    decreases |words|
  {
    if |words| > 1 {
      var m, i, j := Joined(words, gaps), |words[0]|, |words[0]| + |gaps[0]|;
      AnyGapSpells(words[1..], gaps[1..]);
      assert m[..i] == words[0] && m[i..j] == gaps[0] && m[j..] == Joined(words[1..], gaps[1..]);
      assert Parts(words, m, i, j);
    }
  }

  /** The letters outside ASCII that match i, s and k without regard to case. */
  lemma FoldTable(c: char)
    ensures c as int == 0x130 || c as int == 0x131 ==> Fold(c) == Fold('I')
    ensures c as int == 0x17F ==> Fold(c) == Fold('S')
    ensures c as int == 0x212A ==> Fold(c) == Fold('K')
  {}
}
