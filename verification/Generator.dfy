/** The policy compiler (internal/cilium/policy_generator.go): from a stored snapshot to the
    CiliumNetworkPolicy's egress rules, the excluded destinations and the overall risk. */
module Generator {
  import opened Base
  import opened Rules
  import opened Text
  import opened Builder
  import Scorer
  import Sorting
  import Wildcard

  datatype Reason = HighRisk | DirectPublicAddress | ManualReview

  /** An item of status.excludedDestinations; the Go code prints host and port as "host:port". */
  datatype Exclusion = Exclusion(host: string, port: U32, risk: Risk, reason: Reason)

  datatype EgressRule = DnsRule | FqdnRule(rule: Rule)

  datatype Cnp = Cnp(name: string, namespace: string, app: string, egress: seq<EgressRule>)

  datatype PolicyConfig = PolicyConfig(allowDns: bool, generatedPolicyName: string)

  datatype GenerationResult = GenerationResult(cnp: Cnp, excluded: seq<Exclusion>, confidence: nat, risk: Risk)

  // ----- Filters -----

  function TripleOf(e: DestEntry): Triple {
    Triple(e.destFqdn, e.destPort, e.protocol)
  }

  function DestHost(e: DestEntry): string {
    if e.destFqdn != "" then e.destFqdn else e.destIp
  }

  /** What the generator's loop does with one scored entry. */
  datatype Disposition = Allow(triple: Triple) | Exclude(item: Exclusion) | Omit

  function Dispose(se: ScoredEntry): Disposition {
    var e := se.entry;
    if se.risk == High || Wildcard.IsDirectPublicIp(e.destFqdn, e.destIp) then
      Exclude(Exclusion(DestHost(e), e.destPort, High,
                        if Wildcard.IsDirectPublicIp(e.destFqdn, e.destIp) then DirectPublicAddress else HighRisk))
    else if e.destFqdn != "" && Wildcard.WildcardRisk(e.destFqdn) == Wildcard.MediumPattern then
      Exclude(Exclusion(e.destFqdn, e.destPort, Medium, ManualReview))
    else if e.destFqdn != "" then Allow(TripleOf(e))
    else Omit
  }

  function ExcludedOf(scored: seq<ScoredEntry>): seq<Exclusion> {
    if scored == [] then []
    else
      ExcludedOf(scored[..|scored| - 1]) +
      match Dispose(scored[|scored| - 1])
      case Exclude(item) => [item]
      case _ => []
  }

  /** An entry the allowlist is meant to carry: named, not High, and no pattern needing review. */
  predicate Passes(e: DestEntry, parsesPublic: string -> bool) {
    && e.destFqdn != ""
    && Scorer.RiskOf(e, parsesPublic) != High
    && Wildcard.WildcardRisk(e.destFqdn) != Wildcard.MediumPattern
  }

  /** The traffic a snapshot's entries justify. */
  ghost predicate Justifies(entries: seq<DestEntry>, t: Triple, parsesPublic: string -> bool) {
    exists i :: 0 <= i < |entries| && Passes(entries[i], parsesPublic) && TripleOf(entries[i]) == t
  }

  /** The simple compiler: add the triples of the passing entries one by one. */
  function Compile(entries: seq<DestEntry>, parsesPublic: string -> bool): seq<Rule> {
    if entries == [] then []
    else
      var rules := Compile(entries[..|entries| - 1], parsesPublic);
      var e := entries[|entries| - 1];
      if Passes(e, parsesPublic) then AddTriple(rules, TripleOf(e)) else rules
  }

  lemma JustifiesStep(entries: seq<DestEntry>, t: Triple, parsesPublic: string -> bool)
    requires entries != []
    ensures var n := |entries| - 1;
            Justifies(entries, t, parsesPublic) <==>
            Justifies(entries[..n], t, parsesPublic) || (Passes(entries[n], parsesPublic) && TripleOf(entries[n]) == t)
  {
    var front := entries[..|entries| - 1];
    if Justifies(front, t, parsesPublic) {
      var i :| 0 <= i < |front| && Passes(front[i], parsesPublic) && TripleOf(front[i]) == t;
      assert entries[i] == front[i];
    }
    if Justifies(entries, t, parsesPublic) {
      var i :| 0 <= i < |entries| && Passes(entries[i], parsesPublic) && TripleOf(entries[i]) == t;
      if i < |front| { assert front[i] == entries[i]; }
    }
  }

  /** Compaction preserves meaning: the rules allow exactly the triples of the passing entries. */
  lemma {:induction false} CompileMeaning(entries: seq<DestEntry>, t: Triple, parsesPublic: string -> bool)
    ensures Allows(Compile(entries, parsesPublic), t) <==> Justifies(entries, t, parsesPublic)
  {
    if entries != [] {
      var n := |entries| - 1;
      CompileMeaning(entries[..n], t, parsesPublic);
      JustifiesStep(entries, t, parsesPublic);
      AddTripleMeaning(Compile(entries[..n], parsesPublic), TripleOf(entries[n]), t);
    }
  }

  lemma {:induction false} CompileCanonical(entries: seq<DestEntry>, parsesPublic: string -> bool)
    ensures Canonical(Compile(entries, parsesPublic))
  {
    if entries != [] {
      var n := |entries| - 1;
      CompileCanonical(entries[..n], parsesPublic);
      AddTripleCanonical(Compile(entries[..n], parsesPublic), TripleOf(entries[n]));
    }
  }

  /** Only the set of entries matters: neither their order nor their repetition changes a rule. */
  lemma CompileOrderIrrelevant(a: seq<DestEntry>, b: seq<DestEntry>, parsesPublic: string -> bool)
    requires forall e :: e in a <==> e in b
    ensures Compile(a, parsesPublic) == Compile(b, parsesPublic)
  {
    var ra, rb := Compile(a, parsesPublic), Compile(b, parsesPublic);
    CompileCanonical(a, parsesPublic);
    CompileCanonical(b, parsesPublic);
    forall t ensures Allows(ra, t) <==> Allows(rb, t) {
      CompileMeaning(a, t, parsesPublic);
      CompileMeaning(b, t, parsesPublic);
      JustifiesMembers(a, b, t, parsesPublic);
      JustifiesMembers(b, a, t, parsesPublic);
    }
    CanonicalUnique(ra, rb);
  }

  lemma JustifiesMembers(a: seq<DestEntry>, b: seq<DestEntry>, t: Triple, parsesPublic: string -> bool)
    requires forall e :: e in a ==> e in b
    ensures Justifies(a, t, parsesPublic) ==> Justifies(b, t, parsesPublic)
  {
    if Justifies(a, t, parsesPublic) {
      var i :| 0 <= i < |a| && Passes(a[i], parsesPublic) && TripleOf(a[i]) == t;
      assert a[i] in b;
      var j :| 0 <= j < |b| && b[j] == a[i];
    }
  }

  // ----- Overall risk -----

  ghost predicate AnyHigh(scored: seq<ScoredEntry>) {
    exists i :: 0 <= i < |scored| && scored[i].risk == High
  }

  /** The declared intent: High below 50; Low from 80 on when nothing is High; Medium otherwise. */
  ghost function OverallRisk(anyHigh: bool, score: nat): Risk {
    if score < 50 then High else if score >= 80 && !anyHigh then Low else Medium
  }

  method ComputeOverallRisk(scored: seq<ScoredEntry>, score: nat) returns (risk: Risk)
    ensures risk == OverallRisk(AnyHigh(scored), score)
  {
    for i := 0 to |scored|
      invariant forall j :: 0 <= j < i ==> scored[j].risk != High
    {
      if scored[i].risk == High {
        if score < 50 { return High; }
        return Medium;
      }
    }
    if score >= 80 { return Low; }
    if score >= 50 { return Medium; }
    return High;
  }

  // ----- The whole result, as a value -----

  function Wrap(rules: seq<Rule>): (r: seq<EgressRule>)
    ensures |r| == |rules|
    ensures forall i :: 0 <= i < |r| ==> r[i] == FqdnRule(rules[i])
  {
    seq(|rules|, i requires 0 <= i < |rules| => FqdnRule(rules[i]))
  }

  function PolicyName(profileName: string, policy: PolicyConfig): string {
    if policy.generatedPolicyName == "" then profileName + "-egress-allowlist" else policy.generatedPolicyName
  }

  ghost function Generated(profileName: string, namespace: string, policy: PolicyConfig,
                           entries: seq<DestEntry>, parsesPublic: string -> bool): GenerationResult
  {
    var scored := Grouped(ScoreAll(entries, parsesPublic));
    var score := Scorer.Mean(Scorer.ScoresOf(entries, parsesPublic));
    GenerationResult(
      Cnp(PolicyName(profileName, policy), namespace, profileName,
          (if policy.allowDns then [DnsRule] else []) + Wrap(Compile(entries, parsesPublic))),
      ExcludedOf(scored), score, OverallRisk(AnyHigh(scored), score))
  }

  // ----- The program: maps, arbitrary iteration orders, and sorts -----

  ghost predicate AllowedIn(scored: seq<ScoredEntry>, t: Triple) {
    exists i :: 0 <= i < |scored| && Dispose(scored[i]) == Allow(t)
  }

  lemma AllowedInStep(scored: seq<ScoredEntry>, i: nat, t: Triple)
    requires i < |scored|
    ensures AllowedIn(scored[..i + 1], t) <==> AllowedIn(scored[..i], t) || Dispose(scored[i]) == Allow(t)
  {
    var s := scored[..i + 1];
    if AllowedIn(scored[..i], t) {
      var j :| 0 <= j < i && Dispose(scored[..i][j]) == Allow(t);
      assert s[j] == scored[..i][j];
    }
    if AllowedIn(s, t) {
      var j :| 0 <= j < |s| && Dispose(s[j]) == Allow(t);
      if j < i { assert scored[..i][j] == s[j]; }
    }
    assert s[i] == scored[i];
  }

  /** The filtering loop: fqdnGroups and the excluded list. */
  method Filter(scored: seq<ScoredEntry>) returns (groups: set<Triple>, excluded: seq<Exclusion>)
    ensures forall t :: t in groups <==> AllowedIn(scored, t)
    ensures excluded == ExcludedOf(scored)
  {
    groups, excluded := {}, [];
    for i := 0 to |scored|
      invariant forall t :: t in groups <==> AllowedIn(scored[..i], t)
      invariant excluded == ExcludedOf(scored[..i])
    {
      forall t { AllowedInStep(scored, i, t); }
      assert scored[..i + 1][..i] == scored[..i];
      var e := scored[i].entry;
      if scored[i].risk == High || Wildcard.IsDirectPublicIp(e.destFqdn, e.destIp) {
        var reason := HighRisk;
        if Wildcard.IsDirectPublicIp(e.destFqdn, e.destIp) { reason := DirectPublicAddress; }
        excluded := excluded + [Exclusion(DestHost(e), e.destPort, High, reason)];
        continue;
      }
      if e.destFqdn != "" && Wildcard.WildcardRisk(e.destFqdn) == Wildcard.MediumPattern {
        excluded := excluded + [Exclusion(e.destFqdn, e.destPort, Medium, ManualReview)];
        continue;
      }
      if e.destFqdn != "" {
        groups := groups + {TripleOf(e)};
      }
    }
    assert scored[..|scored|] == scored;
  }

  function At(n: string, key: PortProto): Triple {
    Triple(n, key.port, key.proto)
  }

  /** `byPort` lists, under each key and once each, the names that `groups` has for that key. */
  ghost predicate Lists(byPort: map<PortProto, seq<string>>, groups: set<Triple>) {
    && (forall key :: key in byPort ==> byPort[key] != [] && NoDuplicates(byPort[key]))
    && (forall key, n {:trigger n in byPort[key]} :: key in byPort && n in byPort[key] ==> At(n, key) in groups)
    && (forall t :: t in groups ==> KeyOf(t) in byPort && t.fqdn in byPort[KeyOf(t)])
  }

  /** The grouping loop, over the map in any order. */
  method GroupByPort(groups: set<Triple>) returns (byPort: map<PortProto, seq<string>>)
    ensures Lists(byPort, groups)
  {
    byPort := map[];
    var todo := groups;
    while todo != {}
      invariant todo <= groups
      invariant Lists(byPort, groups - todo)
      decreases |todo|
    {
      var t :| t in todo;
      var key := KeyOf(t);
      ghost var done := groups - todo;
      ghost var before := byPort;
      assert At(t.fqdn, key) == t;
      var names := if key in byPort then byPort[key] else [];
      assert t.fqdn !in names;
      byPort := byPort[key := names + [t.fqdn]];
      todo := todo - {t};
      assert groups - todo == done + {t};
      assert NoDuplicates(names + [t.fqdn]);
    }
    assert groups - todo == groups;
  }

  ghost predicate EmittedFrom(rules: seq<Rule>, keys: seq<PortProto>, byPort: map<PortProto, seq<string>>) {
    && |rules| == |keys|
    && forall i :: 0 <= i < |keys| ==>
         keys[i] in byPort && rules[i] == Rule(keys[i], Sorting.Sort(byPort[keys[i]], Less))
  }

  lemma LessIsStrictOrder()
    ensures Sorting.StrictOrder(Less)
  {
    forall a, b, c | Less(a, b) && Less(b, c) ensures Less(a, c) { LessTransitive(a, b, c); }
    forall a, b ensures Less(a, b) || Less(b, a) || a == b { LessTotal(a, b); }
  }

  lemma KeyLessIsStrictOrder()
    ensures Sorting.StrictOrder(KeyLess)
  {
    forall a, b, c | KeyLess(a, b) && KeyLess(b, c) ensures KeyLess(a, c) { KeyTransitive(a, b, c); }
    forall a, b ensures KeyLess(a, b) || KeyLess(b, a) || a == b { KeyOrder(a, b); }
  }

  lemma {:induction false} AscendingIncreasing(names: seq<string>)
    requires Sorting.Ascending(names, Less)
    ensures Increasing(names)
  {
    if |names| > 1 { AscendingIncreasing(names[1..]); }
  }

  lemma {:induction false} AscendingCanonical(rules: seq<Rule>)
    requires forall i :: 0 <= i < |rules| ==> rules[i].names != [] && Increasing(rules[i].names)
    requires forall i, j :: 0 <= i < j < |rules| ==> KeyLess(rules[i].key, rules[j].key)
    ensures Canonical(rules)
  {
    if rules != [] { AscendingCanonical(rules[1..]); }
  }

  lemma {:induction false} AllowsAt(rules: seq<Rule>, t: Triple)
    ensures Allows(rules, t) <==> exists i :: 0 <= i < |rules| && Matches(rules[i], t)
  {
    if rules != [] {
      AllowsAt(rules[1..], t);
      if Allows(rules[1..], t) {
        var i :| 0 <= i < |rules[1..]| && Matches(rules[1..][i], t);
        assert Matches(rules[i + 1], t);
      }
      if i :| 0 <= i < |rules| && Matches(rules[i], t) && i > 0 {
        assert rules[1..][i - 1] == rules[i];
      }
    }
  }

  lemma EmittedCanonical(rules: seq<Rule>, keys: seq<PortProto>, byPort: map<PortProto, seq<string>>,
                         groups: set<Triple>)
    requires EmittedFrom(rules, keys, byPort) && Lists(byPort, groups)
    requires Sorting.Ascending(keys, KeyLess)
    ensures Canonical(rules)
  {
    LessIsStrictOrder();
    forall i | 0 <= i < |rules| ensures rules[i].names != [] && Increasing(rules[i].names) {
      var names := byPort[keys[i]];
      Sorting.SortSorts(names, Less);
      assert |multiset(rules[i].names)| == |multiset(names)|;
      AscendingIncreasing(rules[i].names);
    }
    AscendingCanonical(rules);
  }

  lemma EmittedMeaning(rules: seq<Rule>, keys: seq<PortProto>, byPort: map<PortProto, seq<string>>,
                       groups: set<Triple>, t: Triple)
    requires EmittedFrom(rules, keys, byPort) && Lists(byPort, groups)
    requires forall key :: key in byPort ==> key in keys
    ensures Allows(rules, t) <==> t in groups
  {
    LessIsStrictOrder();
    AllowsAt(rules, t);
    if t in groups {
      var i :| 0 <= i < |keys| && keys[i] == KeyOf(t);
      Sorting.SortMembers(byPort[keys[i]], Less, t.fqdn);
      assert Matches(rules[i], t);
    }
    if i :| 0 <= i < |rules| && Matches(rules[i], t) {
      Sorting.SortMembers(byPort[keys[i]], Less, t.fqdn);
      assert At(t.fqdn, keys[i]) == t;
    }
  }

  /** ppKeys: the map's keys, in any iteration order. */
  method KeysOf(byPort: map<PortProto, seq<string>>) returns (keys: seq<PortProto>)
    ensures NoDuplicates(keys)
    ensures forall key :: key in keys <==> key in byPort
  {
    keys := [];
    var todo := byPort.Keys;
    while todo != {}
      invariant todo <= byPort.Keys
      invariant NoDuplicates(keys)
      invariant forall key :: key in keys <==> key in byPort && key !in todo
      decreases |todo|
    {
      var key :| key in todo;
      keys := keys + [key];
      todo := todo - {key};
    }
  }

  /** The sorted port keys. */
  method SortedKeys(byPort: map<PortProto, seq<string>>) returns (keys: seq<PortProto>)
    ensures Sorting.Ascending(keys, KeyLess)
    ensures forall key :: key in keys <==> key in byPort
  {
    var unsorted := KeysOf(byPort);
    keys := Sorting.Sort(unsorted, KeyLess);
    KeyLessIsStrictOrder();
    Sorting.SortSorts(unsorted, KeyLess);
    forall key ensures key in keys <==> key in byPort { Sorting.SortMembers(unsorted, KeyLess, key); }
  }

  /** One rule per key, with its names sorted. */
  method RulesFor(keys: seq<PortProto>, byPort: map<PortProto, seq<string>>) returns (rules: seq<Rule>)
    requires forall i :: 0 <= i < |keys| ==> keys[i] in byPort
    ensures EmittedFrom(rules, keys, byPort)
  {
    rules := [];
    for i := 0 to |keys|
      invariant |rules| == i
      invariant forall j :: 0 <= j < i ==> rules[j] == Rule(keys[j], Sorting.Sort(byPort[keys[j]], Less))
    {
      rules := rules + [Rule(keys[i], Sorting.Sort(byPort[keys[i]], Less))];
    }
  }

  /** From fqdnGroups to sorted toFQDNs rules. Whatever orders the maps are walked in, the result
      is the canonical rule list of the groups. */
  method EmitRules(groups: set<Triple>) returns (rules: seq<Rule>)
    ensures Canonical(rules)
    ensures forall t :: Allows(rules, t) <==> t in groups
  {
    var byPort := GroupByPort(groups);
    var keys := SortedKeys(byPort);
    assert forall i :: 0 <= i < |keys| ==> keys[i] in keys;
    rules := RulesFor(keys, byPort);
    EmittedCanonical(rules, keys, byPort, groups);
    forall t ensures Allows(rules, t) <==> t in groups { EmittedMeaning(rules, keys, byPort, groups, t); }
  }

  lemma DisposeAllowIff(e: DestEntry, t: Triple, parsesPublic: string -> bool)
    ensures Dispose(Scored(e, parsesPublic)) == Allow(t) <==> Passes(e, parsesPublic) && TripleOf(e) == t
  {
  }

  lemma AllowedInIffJustified(entries: seq<DestEntry>, t: Triple, parsesPublic: string -> bool)
    ensures AllowedIn(Grouped(ScoreAll(entries, parsesPublic)), t) <==> Justifies(entries, t, parsesPublic)
  {
    var all := ScoreAll(entries, parsesPublic);
    var sorted := Grouped(all);
    GroupsAreAPartition(all);
    if AllowedIn(sorted, t) {
      var i :| 0 <= i < |sorted| && Dispose(sorted[i]) == Allow(t);
      assert sorted[i] in multiset(all);
      var j :| 0 <= j < |all| && all[j] == sorted[i];
      DisposeAllowIff(entries[j], t, parsesPublic);
    }
    if Justifies(entries, t, parsesPublic) {
      var j :| 0 <= j < |entries| && Passes(entries[j], parsesPublic) && TripleOf(entries[j]) == t;
      DisposeAllowIff(entries[j], t, parsesPublic);
      assert all[j] in multiset(sorted);
      var i :| 0 <= i < |sorted| && sorted[i] == all[j];
    }
  }

  method Generate(profileName: string, namespace: string, policy: PolicyConfig,
                  entries: seq<DestEntry>, parsesPublic: string -> bool) returns (r: GenerationResult)
    ensures r == Generated(profileName, namespace, policy, entries, parsesPublic)
    ensures policy.generatedPolicyName == "" ==> r.cnp.name == profileName + "-egress-allowlist"
    ensures policy.generatedPolicyName != "" ==> r.cnp.name == policy.generatedPolicyName
    ensures r.cnp.namespace == namespace && r.cnp.app == profileName
  {
    var scored := Build(entries, parsesPublic);
    var name := policy.generatedPolicyName;
    if policy.generatedPolicyName == "" {
      name := profileName + "-egress-allowlist";
    }
    var egress: seq<EgressRule> := [];
    if policy.allowDns {
      egress := egress + [DnsRule];
    }
    var groups, excluded := Filter(scored);
    var rules := EmitRules(groups);
    egress := egress + Wrap(rules);
    var score := Scorer.AggregateScore(entries, parsesPublic);
    var risk := ComputeOverallRisk(scored, score);
    assert rules == Compile(entries, parsesPublic) by {
      CompileCanonical(entries, parsesPublic);
      forall t ensures Allows(rules, t) <==> Allows(Compile(entries, parsesPublic), t) {
        CompileMeaning(entries, t, parsesPublic);
        AllowedInIffJustified(entries, t, parsesPublic);
      }
      CanonicalUnique(rules, Compile(entries, parsesPublic));
    }
    r := GenerationResult(Cnp(name, namespace, profileName, egress), excluded, score, risk);
  }

  /** The identity of the generated policy: its given name or the default one, its namespace, and the app
      whose pods it selects. */
  lemma PolicyIdentity(profileName: string, namespace: string, policy: PolicyConfig, entries: seq<DestEntry>,
                       parsesPublic: string -> bool)
    ensures var cnp := Generated(profileName, namespace, policy, entries, parsesPublic).cnp;
            && cnp.namespace == namespace && cnp.app == profileName
            && (policy.generatedPolicyName != "" ==> cnp.name == policy.generatedPolicyName)
            && (policy.generatedPolicyName == "" ==>
                  && |cnp.name| == |profileName| + 17 && cnp.name[..|profileName|] == profileName
                  && cnp.name[|profileName|..] == "-egress-allowlist")
  {
  }

  /** How Generate's rules are ordered, port by port and character by character: neither the ports nor,
      on one port, the protocols ever step back, and neither do the names within a rule. */
  lemma CompileOrdered(entries: seq<DestEntry>, parsesPublic: string -> bool, i: nat)
    requires i < |Compile(entries, parsesPublic)|
    ensures var rules := Compile(entries, parsesPublic);
            && (i + 1 < |rules| ==>
                  var a, b := rules[i].key, rules[i + 1].key;
                  a.port < b.port || (a.port == b.port && Precedes(a.proto, b.proto)))
            && (forall j :: 0 <= j < |rules[i].names| - 1 ==>
                  Precedes(rules[i].names[j], rules[i].names[j + 1]))
  {
    CompileCanonical(entries, parsesPublic);
    hide Compile, Precedes;
    CanonicalOrder(Compile(entries, parsesPublic), i);
  }

  /** The egress list is the DNS rule, if asked for and only in front, followed by the compiled rules. */
  lemma EgressShape(profileName: string, namespace: string, policy: PolicyConfig, entries: seq<DestEntry>,
                    parsesPublic: string -> bool)
    ensures var egress := Generated(profileName, namespace, policy, entries, parsesPublic).cnp.egress;
            && (forall i :: 0 <= i < |egress| ==> (egress[i] == DnsRule <==> i == 0 && policy.allowDns))
            && (policy.allowDns ==> |egress| > 0)
            && (forall t :: Justifies(entries, t, parsesPublic) <==>
                  exists i :: 0 <= i < |egress| && egress[i].FqdnRule? && Matches(egress[i].rule, t))
  {
    var rules, n := Compile(entries, parsesPublic), if policy.allowDns then 1 else 0;
    var egress := Generated(profileName, namespace, policy, entries, parsesPublic).cnp.egress;
    assert egress == (if policy.allowDns then [DnsRule] else []) + Wrap(rules);
    hide Generated, Compile, Justifies;
    forall t ensures Justifies(entries, t, parsesPublic) <==>
                     exists i :: 0 <= i < |egress| && egress[i].FqdnRule? && Matches(egress[i].rule, t)
    {
      CompileMeaning(entries, t, parsesPublic);
      AllowsAt(rules, t);
      if Allows(rules, t) {
        var j :| 0 <= j < |rules| && Matches(rules[j], t);
        assert egress[n + j] == FqdnRule(rules[j]);
      }
    }
  }
}
