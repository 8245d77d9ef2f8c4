/** Scored baselines and the in-place sort by risk (internal/baseline/builder.go). */
module Builder {
  import opened Base
  import Scorer

  datatype ScoredEntry = ScoredEntry(entry: DestEntry, score: int, risk: Risk)

  function Scored(e: DestEntry, parsesPublic: string -> bool): ScoredEntry {
    var s := Scorer.Score(e, parsesPublic);
    ScoredEntry(e, s, Scorer.RiskLevel(e, s, parsesPublic))
  }

  function ScoreAll(entries: seq<DestEntry>, parsesPublic: string -> bool): (r: seq<ScoredEntry>)
    ensures |r| == |entries|
    ensures forall i :: 0 <= i < |r| ==> r[i] == Scored(entries[i], parsesPublic)
  {
    seq(|entries|, i requires 0 <= i < |entries| => Scored(entries[i], parsesPublic))
  }

  /** The entries of one risk level, in order. */
  function OfRisk(s: seq<ScoredEntry>, r: Risk): seq<ScoredEntry> {
    if s == [] then []
    else (if s[0].risk == r then [s[0]] else []) + OfRisk(s[1..], r)
  }

  /** What a stable sort by risk must produce: the Low entries, then the Medium, then the High,
      each in their original order. */
  function Grouped(s: seq<ScoredEntry>): seq<ScoredEntry> {
    OfRisk(s, Low) + OfRisk(s, Medium) + OfRisk(s, High)
  }

  predicate RiskSorted(s: seq<ScoredEntry>) {
    forall i, j :: 0 <= i < j < |s| ==> Rank(s[i].risk) <= Rank(s[j].risk)
  }

  predicate SameGroups(s: seq<ScoredEntry>, t: seq<ScoredEntry>) {
    forall r: Risk :: OfRisk(s, r) == OfRisk(t, r)
  }

  lemma OfRiskHead(s: seq<ScoredEntry>, r: Risk)
    requires s != []
    ensures OfRisk(s, r) == (if s[0].risk == r then [s[0]] else []) + OfRisk(s[1..], r)
  {
  }

  lemma {:induction false} OfRiskConcat(s: seq<ScoredEntry>, t: seq<ScoredEntry>, r: Risk)
    ensures OfRisk(s + t, r) == OfRisk(s, r) + OfRisk(t, r)
  {
    if s == [] {
      assert s + t == t;
    } else {
      OfRiskHead(s, r);
      OfRiskHead(s + t, r);
      hide OfRisk;
      assert (s + t)[1..] == s[1..] + t;
      OfRiskConcat(s[1..], t, r);
    }
  }

  /** Exchanging two neighbours of different risk moves no entry past one of its own level. */
  lemma SwapKeepsGroups(s: seq<ScoredEntry>, j: nat)
    requires 0 < j < |s| && s[j].risk != s[j - 1].risk
    ensures SameGroups(Swapped(s, j), s)
  {
    var t := Swapped(s, j);
    var x, y := s[j - 1], s[j];
    forall r: Risk ensures OfRisk(t, r) == OfRisk(s, r) {
      assert s == s[..j - 1] + ([x] + ([y] + s[j + 1..]));
      assert t == s[..j - 1] + ([y] + ([x] + s[j + 1..]));
      OfRiskConcat(s[..j - 1], [x] + ([y] + s[j + 1..]), r);
      OfRiskConcat(s[..j - 1], [y] + ([x] + s[j + 1..]), r);
      assert ([x] + ([y] + s[j + 1..]))[1..] == [y] + s[j + 1..];
      assert ([y] + s[j + 1..])[1..] == s[j + 1..];
      assert ([y] + ([x] + s[j + 1..]))[1..] == [x] + s[j + 1..];
      assert ([x] + s[j + 1..])[1..] == s[j + 1..];
    }
  }

  lemma {:induction false} OfRiskEmpty(s: seq<ScoredEntry>, r: Risk)
    requires forall i :: 0 <= i < |s| ==> s[i].risk != r
    ensures OfRisk(s, r) == []
  {
    if s != [] { OfRiskEmpty(s[1..], r); }
  }

  /** A sequence sorted by risk is its three groups end to end. */
  lemma {:induction false} SortedIsGrouped(s: seq<ScoredEntry>)
    requires RiskSorted(s)
    ensures s == Grouped(s)
  {
    if s != [] {
      SortedIsGrouped(s[1..]);
      assert s == [s[0]] + s[1..];
      if s[0].risk == Medium || s[0].risk == High { OfRiskEmpty(s, Low); OfRiskEmpty(s[1..], Low); }
      if s[0].risk == High { OfRiskEmpty(s, Medium); OfRiskEmpty(s[1..], Medium); }
    }
  }

  /** Everything before the insertion point is in order, and so is everything after it up to i,
      and the element being inserted ranks strictly below what it has passed. */
  ghost predicate Inserting(s: seq<ScoredEntry>, i: nat, j: nat)
    requires j <= i < |s|
  {
    && (forall p, q :: 0 <= p < q <= i && p != j && q != j ==> Rank(s[p].risk) <= Rank(s[q].risk))
    && (forall q :: j < q <= i ==> Rank(s[j].risk) < Rank(s[q].risk))
  }

  function Swapped(s: seq<ScoredEntry>, j: nat): (t: seq<ScoredEntry>)
    requires 0 < j < |s|
    ensures |t| == |s|
  {
    s[j - 1 := s[j]][j := s[j - 1]]
  }

  lemma InsertingStep(s: seq<ScoredEntry>, i: nat, j: nat)
    requires 0 < j <= i < |s| && Inserting(s, i, j)
    requires Rank(s[j].risk) < Rank(s[j - 1].risk)
    ensures Inserting(Swapped(s, j), i, j - 1)
  {
  }

  lemma InsertingDone(s: seq<ScoredEntry>, i: nat, j: nat)
    requires j <= i < |s| && Inserting(s, i, j)
    requires j > 0 ==> Rank(s[j - 1].risk) <= Rank(s[j].risk)
    ensures RiskSorted(s[..i + 1])
  {
    forall p, q | 0 <= p < q < i + 1 ensures Rank(s[p].risk) <= Rank(s[q].risk) {
      if q == j && p < j - 1 { assert Rank(s[p].risk) <= Rank(s[j - 1].risk); }
    }
  }

  method SortByRisk(a: array<ScoredEntry>)
    modifies a
    ensures a[..] == Grouped(old(a[..]))
  {
    var n := a.Length;
    var i := 1;
    while i < n
      invariant 1 <= i
      invariant n >= 1 ==> i <= n
      invariant RiskSorted(if n == 0 then [] else a[..i])
      invariant SameGroups(a[..], old(a[..]))
    {
      var j := i;
      while j > 0 && Rank(a[j].risk) < Rank(a[j - 1].risk)
        invariant 0 <= j <= i
        invariant Inserting(a[..], i, j)
        invariant SameGroups(a[..], old(a[..]))
      {
        SwapKeepsGroups(a[..], j);
        InsertingStep(a[..], i, j);
        ghost var before := a[..];
        a[j], a[j - 1] := a[j - 1], a[j];
        assert a[..] == Swapped(before, j);
        j := j - 1;
      }
      InsertingDone(a[..], i, j);
      assert a[..][..i + 1] == a[..i + 1];
      i := i + 1;
    }
    assert n >= 1 ==> a[..] == a[..i];
    SortedIsGrouped(a[..]);
  }

  /** Build: score every destination of the snapshot, then sort by risk. */
  lemma EntriesKeepScores(entries: seq<DestEntry>, parsesPublic: string -> bool)
    ensures forall x :: x in Grouped(ScoreAll(entries, parsesPublic)) ==>
              && x.score == Scorer.Score(x.entry, parsesPublic) && x.risk == Scorer.RiskOf(x.entry, parsesPublic)
  {
    var all := ScoreAll(entries, parsesPublic);
    GroupsAreAPartition(all);
    forall x | x in Grouped(all)
      ensures x.score == Scorer.Score(x.entry, parsesPublic) && x.risk == Scorer.RiskOf(x.entry, parsesPublic)
    {
      assert x in multiset(all);
      var i :| 0 <= i < |all| && all[i] == x;
    }
  }

  method Build(entries: seq<DestEntry>, parsesPublic: string -> bool) returns (result: seq<ScoredEntry>)
    ensures result == Grouped(ScoreAll(entries, parsesPublic))
    ensures forall x :: x in result ==>
              && x.score == Scorer.Score(x.entry, parsesPublic) && x.risk == Scorer.RiskOf(x.entry, parsesPublic)
  {
    EntriesKeepScores(entries, parsesPublic);
    var scored: seq<ScoredEntry> := [];
    for i := 0 to |entries|
      invariant scored == ScoreAll(entries, parsesPublic)[..i]
    {
      var s := Scorer.Score(entries[i], parsesPublic);
      scored := scored + [ScoredEntry(entries[i], s, Scorer.RiskLevel(entries[i], s, parsesPublic))];
    }
    assert scored == ScoreAll(entries, parsesPublic);
    var a := new ScoredEntry[|scored|](i requires 0 <= i < |scored| => scored[i]);
    assert a[..] == scored;
    SortByRisk(a);
    result := a[..];
  }

  lemma OfRiskStep(s: seq<ScoredEntry>, r: Risk)
    requires s != []
    ensures multiset(OfRisk(s, r)) ==
            (if s[0].risk == r then multiset{s[0]} else multiset{}) + multiset(OfRisk(s[1..], r))
  {
  }

  lemma {:induction false} GroupsCover(s: seq<ScoredEntry>)
    ensures multiset(s) == multiset(OfRisk(s, Low)) + multiset(OfRisk(s, Medium)) + multiset(OfRisk(s, High))
  {
    if s != [] {
      GroupsCover(s[1..]);
      assert s == [s[0]] + s[1..];
      OfRiskStep(s, Low); OfRiskStep(s, Medium); OfRiskStep(s, High);
      MultisetShuffle(multiset{s[0]}, multiset(OfRisk(s[1..], Low)),
                      multiset(OfRisk(s[1..], Medium)), multiset(OfRisk(s[1..], High)));
    }
  }

  lemma MultisetShuffle(x: multiset<ScoredEntry>, a: multiset<ScoredEntry>, b: multiset<ScoredEntry>,
                        c: multiset<ScoredEntry>)
    ensures x + (a + b + c) == (x + a) + b + c == a + (x + b) + c == a + b + (x + c)
    ensures multiset{} + a == a && multiset{} + b == b && multiset{} + c == c
  {
  }

  lemma GroupsAreAPartition(s: seq<ScoredEntry>)
    ensures multiset(Grouped(s)) == multiset(s)
    ensures |OfRisk(s, Low)| + |OfRisk(s, Medium)| + |OfRisk(s, High)| == |s|
  {
    GroupsCover(s);
    assert |multiset(Grouped(s))| == |Grouped(s)| && |multiset(s)| == |s|;
  }

  lemma {:induction false} OfRiskAll(s: seq<ScoredEntry>, r: Risk, q: Risk)
    ensures OfRisk(OfRisk(s, r), q) == if r == q then OfRisk(s, r) else []
  {
    if s != [] {
      OfRiskAll(s[1..], r, q);
      if s[0].risk == r {
        assert OfRisk(s, r)[1..] == OfRisk(s[1..], r);
      } else {
        assert OfRisk(s, r) == OfRisk(s[1..], r);
      }
    }
  }

  lemma {:induction false} LevelOf(s: seq<ScoredEntry>, r: Risk)
    ensures forall i :: 0 <= i < |OfRisk(s, r)| ==> OfRisk(s, r)[i].risk == r
  {
    if s != [] { LevelOf(s[1..], r); }
  }

  lemma GroupedSorted(s: seq<ScoredEntry>)
    ensures RiskSorted(Grouped(s))
  {
    LevelOf(s, Low); LevelOf(s, Medium); LevelOf(s, High);
  }

  lemma GroupedKeepsGroups(s: seq<ScoredEntry>)
    ensures SameGroups(Grouped(s), s)
  {
    forall r: Risk ensures OfRisk(Grouped(s), r) == OfRisk(s, r) {
      OfRiskConcat(OfRisk(s, Low) + OfRisk(s, Medium), OfRisk(s, High), r);
      OfRiskConcat(OfRisk(s, Low), OfRisk(s, Medium), r);
      OfRiskAll(s, Low, r); OfRiskAll(s, Medium, r); OfRiskAll(s, High, r);
    }
  }

  /** `Grouped` is the one stable sort by risk: its result is sorted, a permutation, keeps each
      level's entries in their original order, and is the only sequence that does so. */
  lemma GroupedIsTheStableSort(s: seq<ScoredEntry>, t: seq<ScoredEntry>)
    ensures multiset(Grouped(s)) == multiset(s)
    ensures t == Grouped(s) <==> (RiskSorted(t) && SameGroups(t, s))
  {
    GroupsAreAPartition(s);
    GroupedSorted(s);
    GroupedKeepsGroups(s);
    if RiskSorted(t) && SameGroups(t, s) { SortedIsGrouped(t); }
  }

  method RiskSummaryFrom(entries: seq<ScoredEntry>) returns (low: nat, medium: nat, high: nat)
    ensures low == |OfRisk(entries, Low)| && medium == |OfRisk(entries, Medium)| && high == |OfRisk(entries, High)|
    ensures low + medium + high == |entries|
  {
    low, medium, high := 0, 0, 0;
    for i := 0 to |entries|
      invariant low == |OfRisk(entries[..i], Low)|
      invariant medium == |OfRisk(entries[..i], Medium)|
      invariant high == |OfRisk(entries[..i], High)|
    {
      assert entries[..i + 1] == entries[..i] + [entries[i]];
      OfRiskConcat(entries[..i], [entries[i]], Low);
      OfRiskConcat(entries[..i], [entries[i]], Medium);
      OfRiskConcat(entries[..i], [entries[i]], High);
      match entries[i].risk
      case Low => low := low + 1;
      case Medium => medium := medium + 1;
      case High => high := high + 1;
    }
    assert entries[..|entries|] == entries;
    GroupsAreAPartition(entries);
  }
}
