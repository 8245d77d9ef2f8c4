/** The risk counters in a profile's status (internal/controller/egressprofile_controller.go), against
    what Generate excludes. */
module ProfileCounts {
  import opened Base
  import opened Builder
  import opened Generator
  import opened Accounting
  import Scorer
  import Wildcard

  const SIMPLE_PREFIXES: seq<string> := ["10.", "172.", "192.168.", "127.", "::1"]

  predicate IsPublicIpSimple(ip: string) {
    ip != "" && forall i :: 0 <= i < |SIMPLE_PREFIXES| ==> !(SIMPLE_PREFIXES[i] <= ip)
  }

  function ProfileRisk(d: DestEntry): Risk {
    if d.destFqdn == "" && IsPublicIpSimple(d.destIp) then High
    else if d.flowCount >= 5 && d.snapshots >= 2 then Low
    else Medium
  }

  function CountProfileRisk(ds: seq<DestEntry>, r: Risk): nat {
    if ds == [] then 0 else CountProfileRisk(ds[..|ds| - 1], r) + (if ProfileRisk(ds[|ds| - 1]) == r then 1 else 0)
  }

  // ----- What the counters count -----

  /** The number of destinations that satisfy a test: of the positions where it holds. */
  function Positions(ds: seq<DestEntry>, test: DestEntry -> bool): set<int> {
    set i | 0 <= i < |ds| && test(ds[i])
  }

  predicate UnnamedPublic(d: DestEntry) {
    d.destFqdn == "" && IsPublicIpSimple(d.destIp)
  }

  /** Seen five times, in two cycles. */
  predicate Established(d: DestEntry) {
    d.flowCount >= 5 && d.snapshots >= 2
  }

  lemma {:induction false} CountIsPositions(ds: seq<DestEntry>, r: Risk, test: DestEntry -> bool)
    requires forall d :: test(d) <==> ProfileRisk(d) == r
    ensures CountProfileRisk(ds, r) == |Positions(ds, test)|
  {
    if ds != [] {
      var n := |ds| - 1;
      CountIsPositions(ds[..n], r, test);
      assert Positions(ds, test) == Positions(ds[..n], test) + if test(ds[n]) then {n} else {};
    }
  }

  /** The counters are the numbers of positions with an unnamed public destination, with an established
      other one, and with the rest. */
  lemma CountersArePositions(ds: seq<DestEntry>)
    ensures CountProfileRisk(ds, High) == |Positions(ds, d => UnnamedPublic(d))|
    ensures CountProfileRisk(ds, Low) == |Positions(ds, d => !UnnamedPublic(d) && Established(d))|
    ensures CountProfileRisk(ds, Medium) == |Positions(ds, d => !UnnamedPublic(d) && !Established(d))|
  {
    CountIsPositions(ds, High, d => UnnamedPublic(d));
    CountIsPositions(ds, Low, d => !UnnamedPublic(d) && Established(d));
    CountIsPositions(ds, Medium, d => !UnnamedPublic(d) && !Established(d));
  }

  /** While destinations only gain evidence, none is lost from the Low ones: a position counted Low stays
      so, one counted High stays so, and the Medium ones only get fewer. */
  lemma LowOnlyGrows(ds: seq<DestEntry>, later: seq<DestEntry>)
    requires |ds| == |later| && forall i :: 0 <= i < |ds| ==> Scorer.Grows(ds[i], later[i])
    ensures CountProfileRisk(ds, Low) <= CountProfileRisk(later, Low)
    ensures CountProfileRisk(ds, High) == CountProfileRisk(later, High)
    ensures CountProfileRisk(ds, Medium) >= CountProfileRisk(later, Medium)
    ensures forall i :: 0 <= i < |ds| && ProfileRisk(ds[i]) == Low ==> ProfileRisk(later[i]) == Low
  {
    if ds != [] {
      var n := |ds| - 1;
      LowOnlyGrows(ds[..n], later[..n]);
      assert Scorer.Grows(ds[n], later[n]);
      assert forall i :: 0 <= i < n ==> ds[..n][i] == ds[i] && later[..n][i] == later[i];
    }
  }

  method CountRisk(ds: seq<DestEntry>) returns (low: nat, medium: nat, high: nat)
    ensures low == CountProfileRisk(ds, Low) && medium == CountProfileRisk(ds, Medium)
        && high == CountProfileRisk(ds, High)
    ensures low == |Positions(ds, d => !UnnamedPublic(d) && Established(d))|
    ensures medium == |Positions(ds, d => !UnnamedPublic(d) && !Established(d))|
    ensures high == |Positions(ds, d => UnnamedPublic(d))|
    ensures low + medium + high == |ds|
  {
    low, medium, high := 0, 0, 0;
    for i := 0 to |ds|
      invariant low == CountProfileRisk(ds[..i], Low)
      invariant medium == CountProfileRisk(ds[..i], Medium)
      invariant high == CountProfileRisk(ds[..i], High)
      invariant low + medium + high == i
    {
      assert ds[..i + 1][..i] == ds[..i];
      var d := ds[i];
      if d.destFqdn == "" && IsPublicIpSimple(d.destIp) {
        high := high + 1;
      } else if d.flowCount >= 5 && d.snapshots >= 2 {
        low := low + 1;
      } else {
        medium := medium + 1;
      }
    }
    assert ds[..|ds|] == ds;
    CountersArePositions(ds);
  }

  /** The profile's address test is the coarser one. */
  lemma SimpleTestImpliesPrefixTest(ip: string)
    requires IsPublicIpSimple(ip)
    ensures Wildcard.IsDirectPublicIp("", ip)
  {
    var p := Wildcard.PRIVATE_PREFIXES;
    forall i | 0 <= i < |p| ensures !(p[i] <= ip) {
      assert SIMPLE_PREFIXES[1] == "172.";
      if 1 <= i <= 16 { assert "172." <= p[i]; }
      else if i == 17 { assert SIMPLE_PREFIXES[2] == p[17]; }
      else if i == 18 { assert SIMPLE_PREFIXES[3] == p[18]; }
      else if i == 19 { assert SIMPLE_PREFIXES[4] == p[19]; }
      else { assert SIMPLE_PREFIXES[0] == p[0]; }
    }
  }

  // ----- Against the exclusions -----

  /** Generate excludes the destination with risk High. */
  predicate ExcludedAsHigh(d: DestEntry, parsesPublic: string -> bool) {
    Scorer.RiskOf(d, parsesPublic) == High || Wildcard.IsDirectPublicIp(d.destFqdn, d.destIp)
  }

  /** One that the profile does not count. */
  function MissedOne(d: DestEntry, parsesPublic: string -> bool): nat {
    if ExcludedAsHigh(d, parsesPublic) && ProfileRisk(d) != High then 1 else 0
  }

  function Missed(ds: seq<DestEntry>, parsesPublic: string -> bool): nat {
    if ds == [] then 0 else Missed(ds[..|ds| - 1], parsesPublic) + MissedOne(ds[|ds| - 1], parsesPublic)
  }

  lemma {:induction false} HighCounts(ds: seq<DestEntry>, parsesPublic: string -> bool)
    ensures Sum(ScoreAll(ds, parsesPublic), HighOne) == CountProfileRisk(ds, High) + Missed(ds, parsesPublic)
  {
    if ds != [] {
      var n := |ds| - 1;
      HighCounts(ds[..n], parsesPublic);
      assert ScoreAll(ds, parsesPublic)[..n] == ScoreAll(ds[..n], parsesPublic);
      if ProfileRisk(ds[n]) == High { SimpleTestImpliesPrefixTest(ds[n].destIp); }
      Fates(ds[n], parsesPublic);
    }
  }

  lemma {:induction false} NoneMissedIff(ds: seq<DestEntry>, parsesPublic: string -> bool)
    ensures Missed(ds, parsesPublic) == 0 <==>
            forall i :: 0 <= i < |ds| && ExcludedAsHigh(ds[i], parsesPublic) ==> ProfileRisk(ds[i]) == High
  {
    hide ProfileRisk, ExcludedAsHigh;
    if ds != [] {
      var n := |ds| - 1;
      NoneMissedIff(ds[..n], parsesPublic);
      assert forall i :: 0 <= i < n ==> ds[..n][i] == ds[i];
    }
  }

  /** How far "n destination(s) High excluded", as the profile reports it, falls short of what Generate
      excludes with High risk: by the entries it misses, and by no other. It is never too high. */
  lemma HighShortfall(ds: seq<DestEntry>, parsesPublic: string -> bool)
    ensures CountHigh(ExcludedOf(Grouped(ScoreAll(ds, parsesPublic)))) ==
            CountProfileRisk(ds, High) + Missed(ds, parsesPublic)
  {
    HighCounts(ds, parsesPublic);
    GenerateAccountsForAll(ds, parsesPublic);
  }

  /** So the reported number is right exactly when every destination that Generate excludes as High is
      an unnamed one with an address outside the profile's five prefixes. */
  lemma ProfileCountsHighIff(ds: seq<DestEntry>, parsesPublic: string -> bool)
    ensures CountProfileRisk(ds, High) == CountHigh(ExcludedOf(Grouped(ScoreAll(ds, parsesPublic)))) <==>
            forall i :: 0 <= i < |ds| && ExcludedAsHigh(ds[i], parsesPublic) ==>
              ds[i].destFqdn == "" && IsPublicIpSimple(ds[i].destIp)
  {
    assert forall d :: ProfileRisk(d) == High <==> d.destFqdn == "" && IsPublicIpSimple(d.destIp);
    hide ProfileRisk, IsPublicIpSimple, ExcludedAsHigh, CountProfileRisk, Missed;
    HighShortfall(ds, parsesPublic);
    NoneMissedIff(ds, parsesPublic);
  }

  /** Which destinations are missed, by the tests of both sides: unnamed ones whose address the generator
      lets pass for public and the profile's five prefixes do not, those the scorer finds public there,
      the large wildcards, and whatever else scores below 50. */
  lemma MissedIff(d: DestEntry, parsesPublic: string -> bool)
    ensures MissedOne(d, parsesPublic) == 1 <==>
            !(d.destFqdn == "" && IsPublicIpSimple(d.destIp))
            && (|| (d.destFqdn == "" && Wildcard.IsDirectPublicIp("", d.destIp))
                || Scorer.DirectPublic(d, parsesPublic)
                || Scorer.IsWildcardLarge(d.destFqdn)
                || Scorer.Score(d, parsesPublic) < 50)
  {
  }

  /** One snapshot of each sort, for which the profile reports no High destination although Generate
      excludes the only one as High: a wildcard, a public address in 172.0.0.0/8, and an address seen
      once, in the private range, on an unusual port. */
  lemma HighIsMissed(parsesPublic: string -> bool)
    ensures forall d :: d in {DestEntry("w", "*.com", "", 443, "TCP", 0, 0, 10, 0, 3),
                              DestEntry("w", "", "172.67.0.1", 443, "TCP", 0, 0, 10, 0, 3),
                              DestEntry("w", "", "10.0.0.1", 9999, "TCP", 0, 0, 1, 0, 1)} ==>
              CountProfileRisk([d], High) == 0 && CountHigh(ExcludedOf(Grouped(ScoreAll([d], parsesPublic)))) == 1
  {
    var wildcard := DestEntry("w", "*.com", "", 443, "TCP", 0, 0, 10, 0, 3);
    var public := DestEntry("w", "", "172.67.0.1", 443, "TCP", 0, 0, 10, 0, 3);
    var once := DestEntry("w", "", "10.0.0.1", 9999, "TCP", 0, 0, 1, 0, 1);
    assert SIMPLE_PREFIXES[0] <= once.destIp && SIMPLE_PREFIXES[1] <= public.destIp;
    assert Scorer.IsWildcardLarge(wildcard.destFqdn);
    assert Wildcard.IsDirectPublicIp("", public.destIp) by { PublicIn172(); }
    forall d | d in {wildcard, public, once}
      ensures CountProfileRisk([d], High) == 0 && CountHigh(ExcludedOf(Grouped(ScoreAll([d], parsesPublic)))) == 1
    {
      HighShortfall([d], parsesPublic);
      assert [d][..0] == [];
      assert ProfileRisk(d) != High && ExcludedAsHigh(d, parsesPublic);
    }
  }

  lemma PublicIn172()
    ensures Wildcard.IsDirectPublicIp("", "172.67.0.1")
  {
    var p, ip := Wildcard.PRIVATE_PREFIXES, "172.67.0.1";
    forall i | 0 <= i < |p| ensures !(p[i] <= ip) {
      assert p[i][0] != ip[0] || p[i][1] != ip[1] || p[i][4] != ip[4];
    }
  }
}
