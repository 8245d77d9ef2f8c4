/** Confidence scores and risk levels (internal/baseline/scorer.go).
    `parsesPublic` stands for the part of isPublicIP that runs net.ParseIP and its range tests:
    every statement holds for every such test. */
module Scorer {
  import opened Base

  predicate IsStandardPort(port: U32) {
    port in {443, 80, 8080, 8443, 5432, 3306, 6379, 27017}
  }

  predicate IsPublicIp(ip: string, parsesPublic: string -> bool) {
    ip != "" && parsesPublic(ip)
  }

  predicate IsWildcardLarge(fqdn: string) {
    || fqdn == "*.com" || fqdn == "*.net" || fqdn == "*.org" || fqdn == "*.io"
    || fqdn == "*.amazonaws.com" || fqdn == "*.cloudfront.net"
  }

  predicate DirectPublic(e: DestEntry, parsesPublic: string -> bool) {
    e.destFqdn == "" && IsPublicIp(e.destIp, parsesPublic)
  }

  function Score(e: DestEntry, parsesPublic: string -> bool): (score: int)
    ensures 5 <= score <= 100
  {
    var s0 := 50;
    var s1 := if e.snapshots >= 3 then s0 + 25 else s0;
    var s2 := if e.flowCount >= 10 then s1 + 15 else s1;
    var s3 := if IsStandardPort(e.destPort) then s2 + 10 else s2;
    var s4 := if e.destFqdn != "" && '*' !in e.destFqdn then s3 + 10 else s3;
    var s5 := if e.snapshots == 1 && e.flowCount == 1 then s4 - 15 else s4;
    var s6 := if DirectPublic(e, parsesPublic) then s5 - 30 else s5;
    var s7 := if IsWildcardLarge(e.destFqdn) then s6 - 30 else s6;
    if s7 < 0 then 0 else if s7 > 100 then 100 else s7
  }

  /** The rows of the documented scoring table, read to the letter: each condition with its points. */
  function Table(e: DestEntry, parsesPublic: string -> bool): seq<(bool, int)> {
    [ (e.destFqdn != "" && e.snapshots >= 3, 25),
      (e.flowCount >= 10, 15),
      (e.destPort in {80, 443, 3306, 5432, 6379, 8080, 8443, 27017}, 10),
      (forall i :: 0 <= i < |e.destFqdn| ==> e.destFqdn[i] != '*', 10),
      (e.snapshots == 1 && e.flowCount == 1, -15),
      (e.destFqdn == "" && e.destIp != "" && parsesPublic(e.destIp), -30),
      (e.destFqdn in {"*.com", "*.net", "*.org", "*.io", "*.amazonaws.com", "*.cloudfront.net"}, -30) ]
  }

  function Documented(e: DestEntry, parsesPublic: string -> bool): int {
    50 + Points(Table(e, parsesPublic))
  }

  function Points(rows: seq<(bool, int)>): int {
    if rows == [] then 0 else Worth(rows[0]) + Points(rows[1..])
  }

  /** The code departs from the table for destinations without a name, and only for them: a stable one
      gets the 25 points of a stable name, and none gets the 10 points for having no wildcard. */
  lemma ScoreAgainstTable(e: DestEntry, parsesPublic: string -> bool)
    ensures var total := Documented(e, parsesPublic)
                       + (if e.destFqdn != "" then 0 else if e.snapshots >= 3 then 15 else -10);
            Score(e, parsesPublic) == (if total > 100 then 100 else total) && 5 <= total <= 110
    ensures var documented := Documented(e, parsesPublic);
            Score(e, parsesPublic) == (if documented > 100 then 100 else documented) <==> e.destFqdn != ""
  {
    var t := Table(e, parsesPublic);
    PointsOf(t);
    hide Points;
    assert '*' !in e.destFqdn <==> forall i :: 0 <= i < |e.destFqdn| ==> e.destFqdn[i] != '*';
  }

  lemma PointsOf(t: seq<(bool, int)>)
    requires |t| == 7
    ensures Points(t) == Worth(t[0]) + Worth(t[1]) + Worth(t[2]) + Worth(t[3]) + Worth(t[4]) + Worth(t[5]) + Worth(t[6])
  {
    assert t[0..] == t && t[7..] == [];
    forall i | 0 <= i < 7 ensures Points(t[i..]) == Worth(t[i]) + Points(t[i + 1..]) {
      assert t[i..][1..] == t[i + 1..];
    }
  }

  function Worth(row: (bool, int)): int {
    if row.0 then row.1 else 0
  }

  function RiskLevel(e: DestEntry, score: int, parsesPublic: string -> bool): Risk {
    if DirectPublic(e, parsesPublic) then High
    else if IsWildcardLarge(e.destFqdn) then High
    else if score >= 80 then Low
    else if score >= 50 then Medium
    else High
  }

  function RiskOf(e: DestEntry, parsesPublic: string -> bool): Risk {
    RiskLevel(e, Score(e, parsesPublic), parsesPublic)
  }

  /** `b` is a later observation of the destination `a` describes. */
  predicate Grows(a: DestEntry, b: DestEntry) {
    && a.destFqdn == b.destFqdn && a.destIp == b.destIp && a.destPort == b.destPort
    && 1 <= a.snapshots <= b.snapshots
    && 1 <= a.flowCount <= b.flowCount
  }

  /** While a destination only accumulates evidence its score never drops and its risk never
      worsens. The bound on `a.snapshots` is what a flushed entry satisfies: an unflushed one
      (snapshots = 0) can lose 15 points at its first flush. */
  lemma ScoreGrows(a: DestEntry, b: DestEntry, parsesPublic: string -> bool)
    requires Grows(a, b)
    ensures Score(a, parsesPublic) <= Score(b, parsesPublic)
    ensures Rank(RiskOf(b, parsesPublic)) <= Rank(RiskOf(a, parsesPublic))
  {
  }

  /** The hard rules: an unnamed public address, or a large wildcard. */
  predicate RuledOut(e: DestEntry, parsesPublic: string -> bool) {
    DirectPublic(e, parsesPublic) || IsWildcardLarge(e.destFqdn)
  }

  /** The exact risk bands: the hard rules first, then the score. */
  lemma RiskBands(e: DestEntry, parsesPublic: string -> bool)
    ensures RiskOf(e, parsesPublic) == High <==> RuledOut(e, parsesPublic) || Score(e, parsesPublic) < 50
    ensures RiskOf(e, parsesPublic) == Medium <==> !RuledOut(e, parsesPublic) && 50 <= Score(e, parsesPublic) < 80
    ensures RiskOf(e, parsesPublic) == Low <==> !RuledOut(e, parsesPublic) && 80 <= Score(e, parsesPublic)
  {
  }

  function ScoresOf(entries: seq<DestEntry>, parsesPublic: string -> bool): (r: seq<nat>)
    ensures |r| == |entries|
    ensures forall i :: 0 <= i < |r| ==> r[i] == Score(entries[i], parsesPublic)
  {
    seq(|entries|, i requires 0 <= i < |entries| => Score(entries[i], parsesPublic))
  }

  function Sum(scores: seq<nat>): nat {
    if scores == [] then 0 else Sum(scores[..|scores| - 1]) + scores[|scores| - 1]
  }

  /** Go's division of non-negative integers. */
  function Quotient(total: nat, n: nat): nat
    requires n > 0
  {
    total / n
  }

  function Mean(scores: seq<nat>): nat {
    if scores == [] then 0 else Quotient(Sum(scores), |scores|)
  }

  method AggregateScore(entries: seq<DestEntry>, parsesPublic: string -> bool) returns (mean: nat)
    ensures mean == Mean(ScoresOf(entries, parsesPublic))
  {
    ghost var scores := ScoresOf(entries, parsesPublic);
    if |entries| == 0 {
      return 0;
    }
    var total: nat := 0;
    for i := 0 to |entries|
      invariant total == Sum(scores[..i])
    {
      assert scores[..i + 1][..i] == scores[..i];
      total := total + Score(entries[i], parsesPublic);
    }
    assert scores[..|entries|] == scores;
    mean := Quotient(total, |entries|);
  }

  lemma {:induction false} SumBounds(scores: seq<nat>, lo: nat, hi: nat)
    requires forall i :: 0 <= i < |scores| ==> lo <= scores[i] <= hi
    ensures lo * |scores| <= Sum(scores) <= hi * |scores|
  {
    if scores != [] {
      SumBounds(scores[..|scores| - 1], lo, hi);
      assert lo * |scores| == lo * (|scores| - 1) + lo && hi * |scores| == hi * (|scores| - 1) + hi;
    }
  }

  lemma MultiplyMonotone(a: nat, b: nat, n: nat)
    requires a <= b
    ensures a * n <= b * n
  {
  }

  lemma DivisionBounds(t: nat, n: nat, lo: nat, hi: nat)
    requires n > 0 && lo * n <= t <= hi * n
    ensures lo <= Quotient(t, n) <= hi
  {
    var q := Quotient(t, n);
    assert q * n <= t < q * n + n;
    if q < lo { MultiplyMonotone(q + 1, lo, n); }
    if q > hi { MultiplyMonotone(hi + 1, q, n); }
  }

  /** The mean of a non-empty snapshot lies between any bounds on its scores, so in particular
      between the least and the greatest. */
  lemma MeanBounds(scores: seq<nat>, lo: nat, hi: nat)
    requires scores != []
    requires forall i :: 0 <= i < |scores| ==> lo <= scores[i] <= hi
    ensures lo <= Mean(scores) <= hi
  {
    SumBounds(scores, lo, hi);
    DivisionBounds(Sum(scores), |scores|, lo, hi);
  }

  /** The mean is rounded down: the total is short of the next multiple. */
  lemma MeanTruncates(scores: seq<nat>)
    requires scores != []
    ensures |scores| * Mean(scores) <= Sum(scores) < |scores| * Mean(scores) + |scores|
  {
    var t, n := Sum(scores), |scores|;
    assert t == n * (t / n) + t % n;
  }

  /** The confidence score is 0 exactly for the empty snapshot, and otherwise at least 5. */
  lemma MeanZeroIffEmpty(entries: seq<DestEntry>, parsesPublic: string -> bool)
    ensures Mean(ScoresOf(entries, parsesPublic)) == 0 <==> entries == []
    ensures entries != [] ==> 5 <= Mean(ScoresOf(entries, parsesPublic)) <= 100
  {
    if entries != [] { MeanBounds(ScoresOf(entries, parsesPublic), 5, 100); }
  }
}
