/** Retention of scheduled backup files: the listing is ranked newest first and the tail is unlinked. */
module Pruning {
  import opened Text

  datatype Entry = Entry(name: string, mtime: int, generated: bool, regular: bool, symlink: bool)
  datatype Outcome = Refused | Failures(count: nat)

  predicate Candidate(e: Entry) { e.generated && e.regular && !e.symlink }

  /** A directory holds each name once. */
  ghost predicate Listing(s: set<Entry>) {
    forall a, b :: a in s && b in s && a.name == b.name ==> a == b
  }

  predicate Newer(a: Entry, b: Entry) {
    a.mtime > b.mtime || (a.mtime == b.mtime && a.name != b.name && Le(b.name, a.name))
  }

  lemma NewerIsLinear(a: Entry, b: Entry, c: Entry)
    ensures !(Newer(a, b) && Newer(b, a)) && (a.name != b.name ==> Newer(a, b) || Newer(b, a))
    ensures Newer(a, b) && Newer(b, c) ==> Newer(a, c)
  {
    LeTotal(a.name, b.name);
    if Le(a.name, b.name) && Le(b.name, a.name) { LeAntisymmetric(a.name, b.name); }
    if Newer(a, b) && Newer(b, c) && a.mtime == c.mtime {
      LeTransitive(c.name, b.name, a.name);
      if a.name == c.name { LeAntisymmetric(a.name, b.name); }
    }
  }

  predicate IsNewest(s: set<Entry>, e: Entry) {
    e in s && forall f :: f in s && f != e ==> Newer(e, f)
  }

  lemma NewestExists(s: set<Entry>)
    requires s != {} && Listing(s)
    ensures exists e :: IsNewest(s, e)
  {
    var x :| x in s;
    if s == {x} {
      assert IsNewest(s, x);
    } else {
      NewestExists(s - {x});
      var y :| IsNewest(s - {x}, y);
      NewerIsLinear(x, y, y);
      if Newer(x, y) {
        forall z | z in s && z != x ensures Newer(x, z) { NewerIsLinear(x, y, z); }
        assert IsNewest(s, x);
      } else {
        assert IsNewest(s, y);
      }
    }
  }

  lemma NewestIsUnique(s: set<Entry>, x: Entry, y: Entry)
    requires IsNewest(s, x) && IsNewest(s, y)
    ensures x == y
  {
    NewerIsLinear(x, y, y);
  }

  function Newest(s: set<Entry>): (e: Entry)
    requires s != {} && Listing(s)
    ensures IsNewest(s, e)
  {
    NewestExists(s);
    assert forall x, y :: IsNewest(s, x) && IsNewest(s, y) ==> x == y by {
      forall x, y | IsNewest(s, x) && IsNewest(s, y) ensures x == y { NewestIsUnique(s, x, y); }
    }
    var e :| IsNewest(s, e);
    e
  }

  /** The entries sorted by modification time and name, latest first. */
  function Ranked(s: set<Entry>): (ranked: seq<Entry>)
    requires Listing(s)
    ensures |ranked| == |s| && forall e :: e in ranked <==> e in s
    decreases |s|
  {
    if s == {} then [] else [Newest(s)] + Ranked(s - {Newest(s)})
  }

  /** How many of the entries are newer than `e`. */
  function Rank(s: set<Entry>, e: Entry): nat {
    |set f | f in s && Newer(f, e)|
  }

  /** The entry at position `k` has exactly `k` newer ones. */
  ghost predicate Ranking(s: set<Entry>, q: seq<Entry>) {
    && |q| == |s| && (forall k :: 0 <= k < |q| ==> q[k] in s && Rank(s, q[k]) == k)
    && forall e :: e in s ==> Rank(s, e) < |q| && q[Rank(s, e)] == e
  }

  lemma TopHasRankZero(s: set<Entry>, top: Entry)
    requires IsNewest(s, top)
    ensures Rank(s, top) == 0
  {
    forall f | f in s ensures !Newer(f, top) { NewerIsLinear(f, top, top); }
    assert (set f | f in s && Newer(f, top)) == {};
  }

  lemma RankBelowTop(s: set<Entry>, top: Entry, e: Entry)
    requires IsNewest(s, top) && e in s && e != top
    ensures Rank(s, e) == 1 + Rank(s - {top}, e)
  {
    assert (set f | f in s && Newer(f, e)) == (set f | f in s - {top} && Newer(f, e)) + {top};
  }

  lemma RankingExtends(s: set<Entry>, top: Entry, q: seq<Entry>)
    requires IsNewest(s, top) && Ranking(s - {top}, q)
    ensures Ranking(s, [top] + q)
  {
    TopHasRankZero(s, top);
    var all := [top] + q;
    forall k | 0 <= k < |all| ensures all[k] in s && Rank(s, all[k]) == k {
      if k > 0 { RankBelowTop(s, top, q[k - 1]); }
    }
    forall e | e in s ensures Rank(s, e) < |all| && all[Rank(s, e)] == e {
      if e != top { RankBelowTop(s, top, e); }
    }
  }

  /** Position in the sorted listing is the number of newer entries. */
  lemma {:induction false} RankedIsRanking(s: set<Entry>)
    requires Listing(s)
    ensures Ranking(s, Ranked(s))
    decreases |s|
  {
    if s != {} {
      RankedIsRanking(s - {Newest(s)});
      RankingExtends(s, Newest(s), Ranked(s - {Newest(s)}));
    }
  }

  function Leading(s: set<Entry>, n: nat): set<Entry> {
    set e | e in s && Rank(s, e) < n
  }

  lemma LeadingGrows(s: set<Entry>, q: seq<Entry>, n: nat)
    requires Ranking(s, q) && n < |q|
    ensures Leading(s, n + 1) == Leading(s, n) + {q[n]} && q[n] !in Leading(s, n)
  {}

  lemma OneMore(a: set<Entry>, b: set<Entry>, e: Entry)
    requires b == a + {e} && e !in a
    ensures |b| == |a| + 1
  {}

  lemma NoneLeads(s: set<Entry>)
    ensures |Leading(s, 0)| == 0
  {
    assert Leading(s, 0) == {};
  }

  lemma RankingLeads(s: set<Entry>, q: seq<Entry>, n: nat)
    requires Ranking(s, q) && n <= |q|
    ensures |Leading(s, n)| == n
  {
    NoneLeads(s);
    for i := 0 to n
      invariant |Leading(s, i)| == i
    {
      LeadingGrows(s, q, i);
      OneMore(Leading(s, i), Leading(s, i + 1), q[i]);
    }
  }

  /** The newest `n` files are that many, or all of them when there are fewer. */
  lemma LeadingCount(s: set<Entry>, n: nat)
    requires Listing(s)
    ensures if n <= |s| then |Leading(s, n)| == n else Leading(s, n) == s
  {
    RankedIsRanking(s);
    if n <= |s| { RankingLeads(s, Ranked(s), n); }
  }

  function Candidates(s: set<Entry>): set<Entry> {
    set f | f in s && Candidate(f)
  }

  /** Past the newest `retention` generated files, and not the one just written. */
  predicate Expired(s: set<Entry>, retention: int, protected: Option<string>, e: Entry) {
    e in Candidates(s) && Rank(Candidates(s), e) >= retention && protected != Some(e.name)
  }

  /** An expired file among the first `i` of the ranking. */
  predicate Passed(s: set<Entry>, retention: int, protected: Option<string>, i: int, e: Entry) {
    Expired(s, retention, protected, e) && Rank(Candidates(s), e) < i
  }

  /** What is left when the loop has reached position `i` of the ranking. */
  function Remaining(s: set<Entry>, retention: int, protected: Option<string>, locked: set<string>, i: int): set<Entry> {
    set e | e in s && (!Passed(s, retention, protected, i, e) || e.name in locked)
  }

  /** What could not be removed up to there. */
  function Stuck(s: set<Entry>, retention: int, protected: Option<string>, locked: set<string>, i: int): set<Entry> {
    set e | e in s && Passed(s, retention, protected, i, e) && e.name in locked
  }

  /** Everything that has not expired, and what could not be removed. */
  function Surviving(s: set<Entry>, retention: int, protected: Option<string>, locked: set<string>): set<Entry> {
    set e | e in s && (!Expired(s, retention, protected, e) || e.name in locked)
  }

  function Undeleted(s: set<Entry>, retention: int, protected: Option<string>, locked: set<string>): set<Entry> {
    set e | e in s && Expired(s, retention, protected, e) && e.name in locked
  }

  lemma PassedNext(s: set<Entry>, q: seq<Entry>, retention: nat, protected: Option<string>, i: nat, e: Entry)
    requires Ranking(Candidates(s), q) && retention <= i < |q|
    ensures Passed(s, retention, protected, i + 1, e) <==>
      Passed(s, retention, protected, i, e) || (e == q[i] && protected != Some(e.name))
    ensures !Passed(s, retention, protected, i, q[i]) && q[i] in s
  {}

  lemma LoopSets(s: set<Entry>, q: seq<Entry>, retention: nat, protected: Option<string>, locked: set<string>, i: nat)
    requires Ranking(Candidates(s), q) && retention <= i < |q|
    ensures var left, stuck := Remaining(s, retention, protected, locked, i), Stuck(s, retention, protected, locked, i);
      && Remaining(s, retention, protected, locked, i + 1) ==
         (if protected != Some(q[i].name) && q[i].name !in locked then left - {q[i]} else left)
      && Stuck(s, retention, protected, locked, i + 1) ==
         (if protected != Some(q[i].name) && q[i].name in locked then stuck + {q[i]} else stuck)
      && q[i] !in stuck
  {
    forall e { PassedNext(s, q, retention, protected, i, e); }
  }

  lemma LoopStep(s: set<Entry>, q: seq<Entry>, retention: nat, protected: Option<string>, locked: set<string>, i: nat)
    requires Ranking(Candidates(s), q) && retention <= i < |q|
    ensures var left, stuck := Remaining(s, retention, protected, locked, i), Stuck(s, retention, protected, locked, i);
      && Remaining(s, retention, protected, locked, i + 1) ==
         (if protected != Some(q[i].name) && q[i].name !in locked then left - {q[i]} else left)
      && |Stuck(s, retention, protected, locked, i + 1)| ==
         |stuck| + (if protected != Some(q[i].name) && q[i].name in locked then 1 else 0)
  {
    LoopSets(s, q, retention, protected, locked, i);
    if protected != Some(q[i].name) && q[i].name in locked {
      OneMore(
        Stuck(s, retention, protected, locked, i), Stuck(s, retention, protected, locked, i + 1), q[i]);
    }
  }

  lemma LoopEnds(s: set<Entry>, q: seq<Entry>, retention: int, protected: Option<string>, locked: set<string>, i: int)
    requires Ranking(Candidates(s), q) && i >= |q|
    ensures Remaining(s, retention, protected, locked, i) == Surviving(s, retention, protected, locked)
    ensures Stuck(s, retention, protected, locked, i) == Undeleted(s, retention, protected, locked)
  {}

  lemma LoopStarts(s: set<Entry>, retention: int, protected: Option<string>, locked: set<string>)
    ensures Remaining(s, retention, protected, locked, retention) == s
    ensures Stuck(s, retention, protected, locked, retention) == {}
  {}

  class Folder {
    var entries: set<Entry>

    ghost predicate Valid() reads this { Listing(entries) }

    /** The loop over the tail of the ranking. */
    method UnlinkTail(ranked: seq<Entry>, retention: nat, protected: Option<string>, locked: set<string>)
      returns (failures: nat)
      requires Ranking(Candidates(entries), ranked)
      modifies this
      ensures entries == Surviving(old(entries), retention, protected, locked)
      ensures failures == |Undeleted(old(entries), retention, protected, locked)|
    {
      ghost var before := entries;
      LoopStarts(before, retention, protected, locked);
      var i := retention;
      failures := 0;
      while i < |ranked|
        invariant retention <= i
        invariant entries == Remaining(before, retention, protected, locked, i)
        invariant failures == |Stuck(before, retention, protected, locked, i)|
      {
        LoopStep(before, ranked, retention, protected, locked, i);
        var candidate := ranked[i];
        if protected != Some(candidate.name) {
          if candidate.name in locked {
            failures := failures + 1;
          } else {
            entries := entries - {candidate};
          }
        }
        i := i + 1;
      }
      LoopEnds(before, ranked, retention, protected, locked, i);
    }

    /** `prune_backup_files`; `locked` names the files whose removal fails. */
    method PruneBackupFiles(retention: int, protected: Option<string>, readable: bool, locked: set<string>)
      returns (r: Outcome)
      requires Valid()
      modifies this
      ensures Valid()
      ensures r.Refused? <==> retention < 1
      ensures retention < 1 || !readable ==> entries == old(entries)
      ensures retention >= 1 && !readable ==> r == Failures(1)
      ensures retention >= 1 && readable ==>
        entries == Surviving(old(entries), retention, protected, locked) &&
        r == Failures(|Undeleted(old(entries), retention, protected, locked)|)
    {
      if retention < 1 { return Refused; }
      if !readable { return Failures(1); }
      RankedIsRanking(Candidates(entries));
      SurvivingListing(entries, retention, protected, locked);
      var failures := UnlinkTail(Ranked(Candidates(entries)), retention, protected, locked);
      return Failures(failures);
    }
  }

  lemma SurvivingListing(s: set<Entry>, retention: int, protected: Option<string>, locked: set<string>)
    requires Listing(s)
    ensures Listing(Surviving(s, retention, protected, locked))
  {}

  /** What stays is newer than what goes, and only generated regular files ever go. */
  lemma SurvivorsAreNewer(
      s: set<Entry>, retention: int, protected: Option<string>, locked: set<string>, gone: Entry, kept: Entry)
    requires Listing(s) && gone in s && gone !in Surviving(s, retention, protected, locked)
    ensures gone.generated && gone.regular && !gone.symlink && protected != Some(gone.name) && gone.name !in locked
    ensures kept in Leading(Candidates(s), if retention < 0 then 0 else retention) ==>
      kept.mtime > gone.mtime || (kept.mtime == gone.mtime && Le(gone.name, kept.name))
  {
    if kept in Candidates(s) && Rank(Candidates(s), kept) < retention {
      RankOrders(Candidates(s), kept, gone);
    }
  }

  /** A lower rank is newer. */
  lemma RankOrders(s: set<Entry>, a: Entry, b: Entry)
    requires Listing(s) && a in s && b in s && Rank(s, a) < Rank(s, b)
    ensures Newer(a, b)
  {
    NewerIsLinear(a, b, b);
    if !Newer(a, b) {
      if a.name != b.name {
        forall f | f in s && Newer(f, b) ensures Newer(f, a) { NewerIsLinear(f, b, a); }
        MoreAbove(set f | f in s && Newer(f, b), set f | f in s && Newer(f, a));
      }
    }
  }

  lemma MoreAbove(a: set<Entry>, b: set<Entry>)
    requires a <= b
    ensures |a| <= |b|
  {
    assert b == a + (b - a);
  }

  predicate Generated(e: Entry) {
    e.generated && e.regular && !e.symlink
  }

  predicate Later(a: Entry, b: Entry) {
    a.mtime > b.mtime || (a.mtime == b.mtime && Le(b.name, a.name) && a.name != b.name)
  }

  /** Exactly which files go, and which of those that should go are left because they cannot be removed. */
  lemma PrunedExactly(s: set<Entry>, retention: int, protected: Option<string>, locked: set<string>, e: Entry)
    requires e in s
    ensures var due := Generated(e) && protected != Some(e.name)
        && |set f | f in s && Generated(f) && Later(f, e)| >= retention;
      && (e !in Surviving(s, retention, protected, locked) <==> due && e.name !in locked)
      && (e in Undeleted(s, retention, protected, locked) <==> due && e.name in locked)
  {
    assert (set f | f in s && Generated(f) && Later(f, e)) == (set f | f in Candidates(s) && Newer(f, e));
  }
}
