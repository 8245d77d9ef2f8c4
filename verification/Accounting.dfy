/** What Generate does with every entry, counted: exclusions, omissions, the names that can ever be
    allowed, and the overall risk (internal/cilium/policy_generator.go). */
module Accounting {
  import opened Base
  import opened Rules
  import opened Builder
  import opened Generator
  import Scorer
  import Wildcard

  // ----- Counting, whatever the order -----

  function Sum<T>(s: seq<T>, f: T -> nat): nat {
    if s == [] then 0 else Sum(s[..|s| - 1], f) + f(s[|s| - 1])
  }

  lemma {:induction false} SumConcat<T>(a: seq<T>, b: seq<T>, f: T -> nat)
    ensures Sum(a + b, f) == Sum(a, f) + Sum(b, f)
  {
    if b == [] {
      assert a + b == a;
    } else {
      assert (a + b)[..|a + b| - 1] == a + b[..|b| - 1];
      SumConcat(a, b[..|b| - 1], f);
    }
  }

  lemma RemoveOne<T>(s: seq<T>, t: seq<T>, j: nat)
    requires s != [] && multiset(s) == multiset(t) && j < |t| && t[j] == s[|s| - 1]
    ensures multiset(s[..|s| - 1]) == multiset(t[..j] + t[j + 1..])
  {
    var x := t[j];
    assert s == s[..|s| - 1] + [x];
    assert t == t[..j] + ([x] + t[j + 1..]);
    var a, b := multiset(t[..j]), multiset(t[j + 1..]);
    var rest := multiset(s[..|s| - 1]);
    assert multiset(s) == rest + multiset{x};
    assert multiset(t) == a + (multiset{x} + b);
    assert multiset(t[..j] + t[j + 1..]) == a + b;
    assert rest == rest + multiset{x} - multiset{x};
    assert a + b == a + (multiset{x} + b) - multiset{x};
  }

  lemma SumRemove<T>(t: seq<T>, j: nat, f: T -> nat)
    requires j < |t|
    ensures Sum(t, f) == Sum(t[..j] + t[j + 1..], f) + f(t[j])
  {
    var a, b, c := t[..j], t[j + 1..], t[..j + 1];
    assert c[..j] == a && c[j] == t[j];
    assert Sum(c, f) == Sum(a, f) + f(t[j]);
    hide Sum;
    assert t == c + b;
    SumConcat(a, b, f);
    SumConcat(c, b, f);
  }

  lemma {:induction false} SumPermutation<T>(s: seq<T>, t: seq<T>, f: T -> nat)
    requires multiset(s) == multiset(t)
    ensures Sum(s, f) == Sum(t, f)
  {
    assert |multiset(s)| == |s| && |multiset(t)| == |t|;
    if s != [] {
      var x := s[|s| - 1];
      assert x in multiset(t);
      var j :| 0 <= j < |t| && t[j] == x;
      RemoveOne(s, t, j);
      SumPermutation(s[..|s| - 1], t[..j] + t[j + 1..], f);
      SumRemove(t, j, f);
    }
  }

  lemma {:induction false} SumScored(entries: seq<DestEntry>, f: ScoredEntry -> nat, parsesPublic: string -> bool)
    ensures Sum(ScoreAll(entries, parsesPublic), f) == Sum(entries, (e: DestEntry) => f(Scored(e, parsesPublic)))
  {
    if entries != [] {
      var n := |entries| - 1;
      assert ScoreAll(entries, parsesPublic)[..n] == ScoreAll(entries[..n], parsesPublic);
      SumScored(entries[..n], f, parsesPublic);
    }
  }

  /** A count over the sorted scored entries depends only on which entries the snapshot has. */
  lemma SortedSumPermutation(a: seq<DestEntry>, b: seq<DestEntry>, f: ScoredEntry -> nat, parsesPublic: string -> bool)
    requires multiset(a) == multiset(b)
    ensures Sum(Grouped(ScoreAll(a, parsesPublic)), f) == Sum(Grouped(ScoreAll(b, parsesPublic)), f)
  {
    GroupsAreAPartition(ScoreAll(a, parsesPublic));
    GroupsAreAPartition(ScoreAll(b, parsesPublic));
    SumPermutation(Grouped(ScoreAll(a, parsesPublic)), ScoreAll(a, parsesPublic), f);
    SumPermutation(Grouped(ScoreAll(b, parsesPublic)), ScoreAll(b, parsesPublic), f);
    SumScored(a, f, parsesPublic);
    SumScored(b, f, parsesPublic);
    SumPermutation(a, b, (e: DestEntry) => f(Scored(e, parsesPublic)));
  }

  function AllowedOne(se: ScoredEntry): nat { if Dispose(se).Allow? then 1 else 0 }
  function ExcludedOne(se: ScoredEntry): nat { if Dispose(se).Exclude? then 1 else 0 }
  function OmittedOne(se: ScoredEntry): nat { if Dispose(se).Omit? then 1 else 0 }
  function HighOne(se: ScoredEntry): nat { if Dispose(se).Exclude? && Dispose(se).item.risk == High then 1 else 0 }

  function CountHigh(items: seq<Exclusion>): nat {
    if items == [] then 0 else CountHigh(items[..|items| - 1]) + (if items[|items| - 1].risk == High then 1 else 0)
  }

  lemma {:induction false} ExcludedCounts(s: seq<ScoredEntry>)
    ensures |ExcludedOf(s)| == Sum(s, ExcludedOne)
    ensures CountHigh(ExcludedOf(s)) == Sum(s, HighOne)
    ensures Sum(s, AllowedOne) + Sum(s, ExcludedOne) + Sum(s, OmittedOne) == |s|
  {
    if s != [] {
      var front := s[..|s| - 1];
      ExcludedCounts(front);
      if Dispose(s[|s| - 1]).Exclude? {
        assert ExcludedOf(s)[..|ExcludedOf(s)| - 1] == ExcludedOf(front);
      } else {
        assert ExcludedOf(s) == ExcludedOf(front);
      }
    }
  }

  /** Counts the entries listed as the item. */
  function ListedAs(x: Exclusion): ScoredEntry -> nat {
    se => if Dispose(se) == Exclude(x) then 1 else 0
  }

  lemma {:induction false} ExclusionMultiplicity(s: seq<ScoredEntry>, x: Exclusion)
    ensures multiset(ExcludedOf(s))[x] == Sum(s, ListedAs(x))
  {
    if s != [] {
      var f := ListedAs(x);
      ExclusionMultiplicity(s[..|s| - 1], x);
      assert Sum(s, f) == Sum(s[..|s| - 1], f) + f(s[|s| - 1]);
    }
  }

  /** Which fate an entry meets, from its own fields: allowed, excluded with High risk, excluded with
      Medium risk, or left out of both lists. */
  lemma Fates(e: DestEntry, parsesPublic: string -> bool)
    ensures var d := Dispose(Scored(e, parsesPublic));
            var high := Scorer.RiskOf(e, parsesPublic) == High || Wildcard.IsDirectPublicIp(e.destFqdn, e.destIp);
            && (d.Allow? <==> Passes(e, parsesPublic))
            && (d.Exclude? && d.item.risk == High <==> high)
            && (d.Exclude? && d.item.risk != High <==>
                  !high && Wildcard.WildcardRisk(e.destFqdn) == Wildcard.MediumPattern)
            && (d.Omit? <==> !high && e.destFqdn == "")
            && (d.Exclude? ==>
                  && d.item.port == e.destPort
                  && (e.destFqdn != "" ==> d.item.host == e.destFqdn)
                  && (e.destFqdn == "" ==> d.item.host == e.destIp)
                  && (d.item.risk != High ==> d.item.risk == Medium)
                  && (d.item.reason == DirectPublicAddress <==> Wildcard.IsDirectPublicIp(e.destFqdn, e.destIp))
                  && (d.item.reason == ManualReview <==> !high))
  {
  }

  function Ones<T>(s: seq<T>, f: T -> nat): set<int> {
    set i | 0 <= i < |s| && f(s[i]) == 1
  }

  lemma {:induction false} SumCounts<T>(s: seq<T>, f: T -> nat)
    requires forall x :: f(x) <= 1
    ensures Sum(s, f) == |Ones(s, f)|
  {
    if s != [] {
      var n := |s| - 1;
      SumCounts(s[..n], f);
      assert Sum(s, f) == Sum(s[..n], f) + f(s[n]);
      hide Sum;
      assert Ones(s, f) == Ones(s[..n], f) + if f(s[n]) == 1 then {n} else {};
    }
  }

  /** The generator excludes the entry, and lists it as this item: under its name, or its address when it
      has none; as High if its risk is High or its address directly public, else as a pattern to be
      reviewed. */
  predicate ExcludedAs(e: DestEntry, x: Exclusion, parsesPublic: string -> bool) {
    var direct := Wildcard.IsDirectPublicIp(e.destFqdn, e.destIp);
    && x.port == e.destPort
    && (e.destFqdn != "" ==> x.host == e.destFqdn) && (e.destFqdn == "" ==> x.host == e.destIp)
    && (|| (x.risk == High && x.reason == DirectPublicAddress && direct)
        || (x.risk == High && x.reason == HighRisk && !direct && Scorer.RiskOf(e, parsesPublic) == High)
        || (x.risk == Medium && x.reason == ManualReview && !direct && Scorer.RiskOf(e, parsesPublic) != High
            && Wildcard.WildcardRisk(e.destFqdn) == Wildcard.MediumPattern))
  }

  lemma ExcludedAsIff(e: DestEntry, x: Exclusion, parsesPublic: string -> bool)
    ensures Dispose(Scored(e, parsesPublic)) == Exclude(x) <==> ExcludedAs(e, x, parsesPublic)
  {
  }

  lemma ListedPositions(entries: seq<DestEntry>, x: Exclusion, parsesPublic: string -> bool)
    ensures var all := ScoreAll(entries, parsesPublic);
            Ones(all, ListedAs(x)) ==
            (set i | 0 <= i < |entries| && ExcludedAs(entries[i], x, parsesPublic))
  {
    var all := ScoreAll(entries, parsesPublic);
    forall i | 0 <= i < |entries| ensures ListedAs(x)(all[i]) == 1 <==> ExcludedAs(entries[i], x, parsesPublic) {
      ExcludedAsIff(entries[i], x, parsesPublic);
    }
    hide ListedAs, ExcludedAs;
  }

  lemma ListedCount(s: seq<ScoredEntry>, t: seq<ScoredEntry>, x: Exclusion)
    requires multiset(s) == multiset(t)
    ensures multiset(ExcludedOf(s))[x] == |Ones(t, ListedAs(x))|
  {
    assert forall se :: ListedAs(x)(se) <= 1;
    hide ListedAs, Sum, ExcludedOf, Ones;
    ExclusionMultiplicity(s, x);
    SumPermutation(s, t, ListedAs(x));
    SumCounts(t, ListedAs(x));
  }

  /** The excluded list, item by item: each occurs once for every entry excluded as that item. */
  lemma ExclusionsExactly(entries: seq<DestEntry>, x: Exclusion, parsesPublic: string -> bool)
    ensures multiset(ExcludedOf(Grouped(ScoreAll(entries, parsesPublic))))[x] ==
            |set i | 0 <= i < |entries| && ExcludedAs(entries[i], x, parsesPublic)|
  {
    hide *;
    var all := ScoreAll(entries, parsesPublic);
    GroupsAreAPartition(all);
    ListedCount(Grouped(all), all, x);
    ListedPositions(entries, x, parsesPublic);
  }

  /** Generate accounts for every entry once: allowed, excluded and omitted entries add up to the
      snapshot, the excluded list has one item per excluded entry, and the items marked High are as
      many as the entries excluded for High risk. */
  lemma GenerateAccountsForAll(entries: seq<DestEntry>, parsesPublic: string -> bool)
    ensures var all := ScoreAll(entries, parsesPublic);
            var excluded := ExcludedOf(Grouped(all));
            && |excluded| == Sum(all, ExcludedOne)
            && CountHigh(excluded) == Sum(all, HighOne)
            && Sum(all, AllowedOne) + |excluded| + Sum(all, OmittedOne) == |entries|
  {
    var all := ScoreAll(entries, parsesPublic);
    GroupsAreAPartition(all);
    ExcludedCounts(all);
    ExcludedCounts(Grouped(all));
    SumPermutation(Grouped(all), all, ExcludedOne);
    SumPermutation(Grouped(all), all, HighOne);
  }

  lemma ExclusionsOrderIrrelevant(a: seq<DestEntry>, b: seq<DestEntry>, parsesPublic: string -> bool)
    requires multiset(a) == multiset(b)
    ensures multiset(ExcludedOf(Grouped(ScoreAll(a, parsesPublic)))) ==
        multiset(ExcludedOf(Grouped(ScoreAll(b, parsesPublic))))
  {
    var ga, gb := Grouped(ScoreAll(a, parsesPublic)), Grouped(ScoreAll(b, parsesPublic));
    forall x ensures multiset(ExcludedOf(ga))[x] == multiset(ExcludedOf(gb))[x] {
      ExclusionMultiplicity(ga, x);
      ExclusionMultiplicity(gb, x);
      SortedSumPermutation(a, b, ListedAs(x), parsesPublic);
    }
  }

  lemma {:induction false} SumOfScores(entries: seq<DestEntry>, parsesPublic: string -> bool)
    ensures Scorer.Sum(Scorer.ScoresOf(entries, parsesPublic)) ==
        Sum(entries, (e: DestEntry) => Scorer.Score(e, parsesPublic) as nat)
  {
    if entries != [] {
      var n := |entries| - 1;
      assert Scorer.ScoresOf(entries, parsesPublic)[..n] == Scorer.ScoresOf(entries[..n], parsesPublic);
      SumOfScores(entries[..n], parsesPublic);
    }
  }

  /** The order of a snapshot's destinations is irrelevant: any reordering yields the same policy,
      confidence and risk, and the same exclusions up to their order in the list. */
  lemma GenerateOrderIrrelevant(profileName: string, namespace: string, policy: PolicyConfig,
                                a: seq<DestEntry>, b: seq<DestEntry>, parsesPublic: string -> bool)
    requires multiset(a) == multiset(b)
    ensures var ga := Generated(profileName, namespace, policy, a, parsesPublic);
            var gb := Generated(profileName, namespace, policy, b, parsesPublic);
            && ga.cnp == gb.cnp && ga.confidence == gb.confidence && ga.risk == gb.risk
            && multiset(ga.excluded) == multiset(gb.excluded)
  {
    forall e ensures e in a <==> e in b { assert e in multiset(a) <==> e in multiset(b); }
    CompileOrderIrrelevant(a, b, parsesPublic);
    ExclusionsOrderIrrelevant(a, b, parsesPublic);
    SumOfScores(a, parsesPublic);
    SumOfScores(b, parsesPublic);
    SumPermutation(a, b, (e: DestEntry) => Scorer.Score(e, parsesPublic) as nat);
    assert |multiset(a)| == |a| && |multiset(b)| == |b|;
    AnyHighIff(a, parsesPublic);
    AnyHighIff(b, parsesPublic);
  }

  // ----- Which names can be allowed -----

  /** The exact set of names some snapshot can put on the allowlist: the safe ones, and the six
      wildcard patterns that the generator knows as high but the scorer does not. */
  lemma AllowableNames(name: string, parsesPublic: string -> bool)
    ensures (exists e: DestEntry :: e.destFqdn == name && Passes(e, parsesPublic))
       <==> (name != "" && (Wildcard.IsAllowedInEnforce(name) || name in Wildcard.UNSCORED_PATTERNS))
  {
    Wildcard.PassesBothTests(name);
    if name != "" && (Wildcard.IsAllowedInEnforce(name) || name in Wildcard.UNSCORED_PATTERNS) {
      var e := DestEntry("w", name, "", 443, "TCP", 0, 0, 10, 0, 3);
      assert Scorer.Score(e, parsesPublic) >= 50;
      assert e.destFqdn == name && Passes(e, parsesPublic);
    }
    if e: DestEntry :| e.destFqdn == name && Passes(e, parsesPublic) {
      assert !Scorer.IsWildcardLarge(e.destFqdn);
    }
  }

  /** So a rule never names a large wildcard or a pattern awaiting review; every "*." name it has is
      one of the six. */
  lemma AllowedNamesAreSafeOrUnscored(entries: seq<DestEntry>, t: Triple, parsesPublic: string -> bool)
    requires Allows(Compile(entries, parsesPublic), t)
    ensures t.fqdn != "" && !Scorer.IsWildcardLarge(t.fqdn)
    ensures Wildcard.WildcardRisk(t.fqdn) != Wildcard.MediumPattern
    ensures Wildcard.IsAllowedInEnforce(t.fqdn) || t.fqdn in Wildcard.UNSCORED_PATTERNS
  {
    CompileMeaning(entries, t, parsesPublic);
    var i :| 0 <= i < |entries| && Passes(entries[i], parsesPublic) && TripleOf(entries[i]) == t;
    AllowableNames(t.fqdn, parsesPublic);
  }

  /** The declared rule that only safe names are enforced fails: this snapshot allows "*.co". */
  lemma UnsafeNameIsAllowed(parsesPublic: string -> bool)
    ensures var e := DestEntry("w", "*.co", "", 443, "TCP", 0, 0, 10, 0, 3);
            Allows(Compile([e], parsesPublic), TripleOf(e)) && !Wildcard.IsAllowedInEnforce("*.co")
  {
    var e := DestEntry("w", "*.co", "", 443, "TCP", 0, 0, 10, 0, 3);
    assert "*.co"[..2] == "*.";
    assert Passes([e][0], parsesPublic);
    CompileMeaning([e], TripleOf(e), parsesPublic);
  }

  // ----- Overall risk -----

  /** The overall risk against the entries' own: High exactly when the mean is below 50, never High
      for a non-empty snapshot without a High entry, and Low when every entry is Low. */
  lemma OverallRiskAgrees(entries: seq<DestEntry>, parsesPublic: string -> bool)
    ensures var g := Generated("", "", PolicyConfig(false, ""), entries, parsesPublic);
            && (g.risk == High <==> g.confidence < 50)
            && (entries != [] && (forall e :: e in entries ==> Scorer.RiskOf(e, parsesPublic) != High) ==>
                g.risk != High)
            && (entries != [] && (forall e :: e in entries ==> Scorer.RiskOf(e, parsesPublic) == Low) ==> g.risk == Low)
            && (g.risk == Low <==>
                  g.confidence >= 80 && forall e :: e in entries ==> Scorer.RiskOf(e, parsesPublic) != High)
  {
    var all := ScoreAll(entries, parsesPublic);
    var scores := Scorer.ScoresOf(entries, parsesPublic);
    AnyHighIff(entries, parsesPublic);
    if entries != [] && forall e :: e in entries ==> Scorer.RiskOf(e, parsesPublic) != High {
      forall i | 0 <= i < |scores| ensures 50 <= scores[i] <= 100 { Scorer.RiskBands(entries[i], parsesPublic); }
      Scorer.MeanBounds(scores, 50, 100);
    }
    if entries != [] && forall e :: e in entries ==> Scorer.RiskOf(e, parsesPublic) == Low {
      forall i | 0 <= i < |scores| ensures 80 <= scores[i] <= 100 { Scorer.RiskBands(entries[i], parsesPublic); }
      Scorer.MeanBounds(scores, 80, 100);
    }
  }

  lemma AnyHighIff(entries: seq<DestEntry>, parsesPublic: string -> bool)
    ensures AnyHigh(Grouped(ScoreAll(entries, parsesPublic)))
       <==> exists e :: e in entries && Scorer.RiskOf(e, parsesPublic) == High
  {
    var all := ScoreAll(entries, parsesPublic);
    var sorted := Grouped(all);
    GroupsAreAPartition(all);
    if AnyHigh(sorted) {
      var i :| 0 <= i < |sorted| && sorted[i].risk == High;
      assert sorted[i] in multiset(all);
      var j :| 0 <= j < |all| && all[j] == sorted[i];
      assert entries[j] in entries;
    }
    if e :| e in entries && Scorer.RiskOf(e, parsesPublic) == High {
      var j :| 0 <= j < |entries| && entries[j] == e;
      assert all[j] in multiset(sorted);
      var i :| 0 <= i < |sorted| && sorted[i] == all[j];
    }
  }
}
