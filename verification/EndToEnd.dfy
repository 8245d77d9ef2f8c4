/** From observed flows to the allowlist: what the policy generated from a stored snapshot says about
    the run of the accumulator that stored it. */
module EndToEnd {
  import opened Base
  import opened Trace
  import opened Accumulator
  import Generator
  import Rules
  import Scorer
  import Wildcard

  predicate PolicyAllows(snap: Snapshot, t: Rules.Triple, parsesPublic: string -> bool) {
    Rules.Allows(Generator.Compile(snap.destinations, parsesPublic), t)
  }

  /** A snapshot's policy allows a triple exactly when some destination in it passes and asks for it. */
  lemma PolicyAllowsIff(snap: Snapshot, t: Rules.Triple, parsesPublic: string -> bool)
    ensures PolicyAllows(snap, t, parsesPublic) <==>
            exists e :: e in snap.destinations && Generator.Passes(e, parsesPublic) && Generator.TripleOf(e) == t
  {
    var dests := snap.destinations;
    Generator.CompileMeaning(dests, t, parsesPublic);
    hide Generator.Passes, Generator.Compile;
    if e :| e in dests && Generator.Passes(e, parsesPublic) && Generator.TripleOf(e) == t {
      var i :| 0 <= i < |dests| && dests[i] == e;
    }
  }

  /** Event i is a flow of the workload for the triple, no older than the window before the tick at n. */
  ghost predicate Evidence(trace: seq<Event>, window: int, n: int, i: int, workload: string, t: Rules.Triple) {
    && 0 <= i < n < |trace| && trace[i].Ingest? && trace[n].Tick?
    && var f := trace[i].flow;
    && WorkloadOf(f) == workload && f.destFqdn == t.fqdn && f.destPort == t.port && f.protocol == t.proto
    && f.timestamp >= trace[n].now - window
  }

  /** At the tick n the workload was last registered, by event r, for this namespace and ConfigMap. */
  ghost predicate RoutedBy(trace: seq<Event>, n: int, r: int, workload: string, place: (string, string)) {
    && 0 <= r < n < |trace| && LatestRegistration(trace[..n], r, workload)
    && (trace[r].namespace, trace[r].configMap) == place
  }

  ghost predicate Justified(trace: seq<Event>, window: int, n: int, workload: string, place: (string, string),
                            t: Rules.Triple) {
    && (exists i :: Evidence(trace, window, n, i, workload, t))
    && (exists r :: RoutedBy(trace, n, r, workload, place))
  }

  lemma EntryHasEvidence(trace: seq<Event>, window: int, n: nat, k: DestKey)
    requires n < |trace| && trace[n].Tick? && k in After(trace[..n + 1], window)
    ensures exists i :: Evidence(trace, window, n, i, k.workload, Rules.Triple(k.fqdn, k.port, k.proto))
  {
    var before, now := trace[..n], trace[n].now;
    assert trace[..n + 1] == before + [Tick(now)];
    WindowBound(before, window, now, k);
    hide After;
    var i :| 0 <= i < |before| && before[i].Ingest? && KeyOf(before[i].flow) == k
        && before[i].flow.timestamp >= now - window;
    assert Evidence(trace, window, n, i, k.workload, Rules.Triple(k.fqdn, k.port, k.proto));
  }

  lemma WriteIsRouted(w: Write, trace: seq<Event>, window: int)
    requires Genuine(w, trace, window)
    ensures exists r :: RoutedBy(trace, w.at, r, w.snapshot.workloadKey, (w.namespace, w.configMap))
  {
    var before := trace[..w.at];
    RegisteredIff(before, w.snapshot.workloadKey);
    hide After, Namespaces, ConfigMaps, ListsAmong;
    var r :| LatestRegistration(before, r, w.snapshot.workloadKey);
    assert before[r] == trace[r];
    assert RoutedBy(trace, w.at, r, w.snapshot.workloadKey, (w.namespace, w.configMap));
  }

  /** The entries that a write lists: those of its workload, as the table holds them after the tick. */
  lemma WriteLists(w: Write, trace: seq<Event>, window: int, e: DestEntry)
    requires Genuine(w, trace, window)
    ensures var entries, k := After(trace[..w.at + 1], window), EntryKey(e);
            e in w.snapshot.destinations <==> k in entries && entries[k] == e && k.workload == w.snapshot.workloadKey
  {
  }

  /** Provenance: every triple that a generated policy allows comes from a flow really ingested for the
      workload, within the window of the tick that wrote the snapshot, and the workload's latest
      registration then named the ConfigMap written to. */
  lemma Provenance(w: Write, trace: seq<Event>, window: int, t: Rules.Triple, parsesPublic: string -> bool)
    requires Genuine(w, trace, window) && PolicyAllows(w.snapshot, t, parsesPublic)
    ensures Justified(trace, window, w.at, w.snapshot.workloadKey, (w.namespace, w.configMap), t)
  {
    hide After, PolicyAllows, Generator.Passes, Evidence, RoutedBy, ListsAmong, Namespaces, ConfigMaps;
    WriteIsRouted(w, trace, window);
    PolicyAllowsIff(w.snapshot, t, parsesPublic);
    var e :| e in w.snapshot.destinations && Generator.Passes(e, parsesPublic) && Generator.TripleOf(e) == t;
    WriteLists(w, trace, window, e);
    EntryHasEvidence(trace, window, w.at, EntryKey(e));
  }

  /** The same for whatever a ConfigMap holds at the end of a run: the tick is that of the last write to
      it. */
  lemma StoredProvenance(saved: seq<Write>, trace: seq<Event>, window: int, place: (string, string), t: Rules.Triple,
                         parsesPublic: string -> bool) returns (s: nat)
    requires AllGenuine(saved, trace, window) && place in Stored(saved)
    requires PolicyAllows(Stored(saved)[place], t, parsesPublic)
    ensures s < |saved| && (saved[s].namespace, saved[s].configMap) == place
    ensures forall j :: s < j < |saved| ==> (saved[j].namespace, saved[j].configMap) != place
    ensures saved[s].snapshot == Stored(saved)[place]
    ensures Justified(trace, window, saved[s].at, saved[s].snapshot.workloadKey, place, t)
  {
    s := StoredWasWritten(saved, place);
    assert Genuine(saved[s], trace, window);
    hide Genuine, Stored, PolicyAllows, Justified;
    Provenance(saved[s], trace, window, t, parsesPublic);
  }

  // ----- Counting along a run -----

  lemma {:induction false} CountsSplit(a: seq<Event>, b: seq<Event>, k: DestKey)
    ensures TicksIn(a + b) == TicksIn(a) + TicksIn(b)
    ensures FlowsFor(a + b, k) == FlowsFor(a, k) + FlowsFor(b, k)
  {
    if b == [] {
      assert a + b == a;
    } else {
      var n := |b| - 1;
      assert (a + b)[..|a + b| - 1] == a + b[..n];
      CountsSplit(a, b[..n], k);
    }
  }

  lemma LaterCounts(trace: seq<Event>, j: nat, m: nat, n: nat, k: DestKey)
    requires j <= m <= n <= |trace|
    ensures TicksIn(trace[j..n]) == TicksIn(trace[j..m]) + TicksIn(trace[m..n])
    ensures FlowsFor(trace[j..n], k) == FlowsFor(trace[j..m], k) + FlowsFor(trace[m..n], k)
  {
    assert trace[j..n] == trace[j..m] + trace[m..n];
    CountsSplit(trace[j..m], trace[m..n], k);
  }

  lemma CountsBounded(trace: seq<Event>, j: nat, n: nat, k: DestKey)
    requires j <= n <= |trace|
    ensures TicksIn(trace[j..n]) <= TicksIn(trace) && FlowsFor(trace[j..n], k) <= FlowsFor(trace, k)
  {
    LaterCounts(trace, 0, j, |trace|, k);
    LaterCounts(trace, j, n, |trace|, k);
    assert trace[0..|trace|] == trace;
  }

  lemma OneTick(trace: seq<Event>, i: nat, k: DestKey)
    requires i < |trace| && trace[i].Tick?
    ensures TicksIn(trace[i..i + 1]) == 1
  {
    assert trace[i..i + 1] == [trace[i]] && [trace[i]][..0] == [];
  }

  lemma OneFlow(trace: seq<Event>, i: nat, k: DestKey)
    requires i < |trace| && trace[i].Ingest? && KeyOf(trace[i].flow) == k
    ensures FlowsFor(trace[i..i + 1], k) == 1
  {
    assert trace[i..i + 1] == [trace[i]] && [trace[i]][..0] == [];
  }

  /** A tick after position j is counted from j on. */
  lemma TickFrom(trace: seq<Event>, j: nat, i: nat, n: nat, k: DestKey)
    requires j <= i < n <= |trace| && trace[i].Tick?
    ensures TicksIn(trace[j..n]) >= 1 + TicksIn(trace[i + 1..n])
  {
    LaterCounts(trace, j, i, n, k);
    LaterCounts(trace, i, i + 1, n, k);
    OneTick(trace, i, k);
  }

  lemma SmallCount(n: nat)
    ensures n < TWO_63 ==> WrapI64(n) == n
    ensures n < TWO_64 ==> WrapU64(n) == n
  {
  }

  // ----- Inclusion -----

  /** The key is in the table after every event from m to n. */
  ghost predicate Stays(trace: seq<Event>, window: int, k: DestKey, m: nat, n: nat) {
    n < |trace| && forall i :: m < i <= n + 1 ==> k in After(trace[..i], window)
  }

  lemma StaysAt(trace: seq<Event>, window: int, k: DestKey, m: nat, n: nat, i: nat)
    requires m <= i <= n && Stays(trace, window, k, m, n)
    ensures i < |trace| && k in After(trace[..i + 1], window)
    ensures Stays(trace, window, k, m, i)
  {
  }

  /** A key that stays from the tick at m on was inserted before it, and its counters run from there. */
  lemma InsertedBefore(trace: seq<Event>, window: int, k: DestKey, m: nat, n: nat) returns (j: nat)
    requires m <= n < |trace| && trace[m].Tick? && Stays(trace, window, k, m, n)
    ensures j < m && trace[j].Ingest? && KeyOf(trace[j].flow) == k
    ensures InsertedAt(trace[..n + 1], window, j, k)
    ensures var e := After(trace[..n + 1], window)[k];
            && e.flowCount == WrapU64(FlowsFor(trace[j..n + 1], k))
            && e.snapshots == WrapI64(TicksIn(trace[j..n + 1]))
  {
    var all := trace[..n + 1];
    assert k in After(all, window);
    j := Exact(all, window, k);
    hide After;
    assert all[..j] == trace[..j] && all[j] == trace[j] && all[j..] == trace[j..n + 1];
    assert j <= m;
  }

  lemma NotLarge(name: string)
    requires '*' !in name
    ensures !Scorer.IsWildcardLarge(name) && Wildcard.WildcardRisk(name) == Wildcard.Safe
  {
    StarFirst(name);
  }

  lemma StarFirst(name: string)
    ensures Scorer.IsWildcardLarge(name) || "*." <= name ==> |name| > 0 && name[0] == '*'
  {
  }

  lemma StableIsLow(e: DestEntry, parsesPublic: string -> bool)
    requires e.snapshots >= 3 && e.destFqdn != "" && '*' !in e.destFqdn
    ensures Scorer.Score(e, parsesPublic) >= 85 && Scorer.RiskOf(e, parsesPublic) == Low
    ensures Generator.Passes(e, parsesPublic)
  {
    NotLarge(e.destFqdn);
  }

  /** Three ticks of presence show in the entry's snapshot counter. */
  lemma ThreeTicks(trace: seq<Event>, window: int, k: DestKey, a: nat, b: nat, c: nat)
    requires a < b < c < |trace| && trace[a].Tick? && trace[b].Tick? && trace[c].Tick?
    requires Stays(trace, window, k, a, c) && TicksIn(trace) < TWO_63
    ensures k in After(trace[..c + 1], window) && After(trace[..c + 1], window)[k].snapshots >= 3
  {
    hide *;
    StaysAt(trace, window, k, a, c, c);
    var j := InsertedBefore(trace, window, k, a, c);
    TickFrom(trace, j, a, c + 1, k);
    TickFrom(trace, a + 1, b, c + 1, k);
    TickFrom(trace, b + 1, c, c + 1, k);
    CountsBounded(trace, j, c + 1, k);
    SmallCount(TicksIn(trace[j..c + 1]));
  }

  /** End-to-end inclusion: a named, wildcard-free destination that stays through three ticks is Low,
      scores at least 85, and is allowed by the policy generated from its workload's snapshot. */
  lemma Inclusion(w: Write, trace: seq<Event>, window: int, k: DestKey, a: nat, b: nat, parsesPublic: string -> bool)
    requires Genuine(w, trace, window) && k.workload == w.snapshot.workloadKey
    requires a < b < w.at && trace[a].Tick? && trace[b].Tick? && Stays(trace, window, k, a, w.at)
    requires k.fqdn != "" && '*' !in k.fqdn && TicksIn(trace) < TWO_63
    ensures exists e :: e in w.snapshot.destinations && EntryKey(e) == k
              && Scorer.Score(e, parsesPublic) >= 85 && Scorer.RiskOf(e, parsesPublic) == Low
    ensures PolicyAllows(w.snapshot, Rules.Triple(k.fqdn, k.port, k.proto), parsesPublic)
  {
    hide After, Stays, Scorer.Score, Scorer.RiskOf, Generator.Passes, PolicyAllows, TicksIn, ListsAmong, Namespaces,
        ConfigMaps;
    ThreeTicks(trace, window, k, a, b, w.at);
    CapHolds(trace[..w.at + 1], window);
    var e := After(trace[..w.at + 1], window)[k];
    WriteLists(w, trace, window, e);
    StableIsLow(e, parsesPublic);
    PolicyAllowsIff(w.snapshot, Rules.Triple(k.fqdn, k.port, k.proto), parsesPublic);
    assert e in w.snapshot.destinations && EntryKey(e) == k;
  }

  // ----- The allowlist shrinks only through purging -----

  /** Both prefixes date the key from the same event. */
  lemma SameInsertion(trace: seq<Event>, window: int, k: DestKey, i: nat, j: nat, m: nat, n: nat)
    requires i < m && j < m && m < n < |trace|
    requires InsertedAt(trace[..m + 1], window, i, k) && InsertedAt(trace[..n + 1], window, j, k)
    ensures i == j
  {
    var short, long := trace[..m + 1], trace[..n + 1];
    assert short[..i] == trace[..i] == long[..i];
    assert short[..j] == trace[..j] == long[..j];
    hide After;
  }

  /** While a key stays, its evidence only grows from one flush to a later one. */
  lemma EvidenceGrows(trace: seq<Event>, window: int, k: DestKey, m: nat, n: nat)
    requires m < n < |trace| && trace[m].Tick? && Stays(trace, window, k, m, n)
    requires FlowsFor(trace, k) < TWO_64 && TicksIn(trace) < TWO_63
    ensures k in After(trace[..m + 1], window) && k in After(trace[..n + 1], window)
    ensures Scorer.Grows(After(trace[..m + 1], window)[k], After(trace[..n + 1], window)[k])
    ensures EntryKey(After(trace[..m + 1], window)[k]) == k == EntryKey(After(trace[..n + 1], window)[k])
  {
    hide After, Stays, FlowsFor, TicksIn, WrapU64, WrapI64, InsertedAt;
    StaysAt(trace, window, k, m, n, m);
    StaysAt(trace, window, k, m, n, n);
    CapHolds(trace[..m + 1], window);
    CapHolds(trace[..n + 1], window);
    var j := InsertedBefore(trace, window, k, m, n);
    var i := InsertedBefore(trace, window, k, m, m);
    SameInsertion(trace, window, k, i, j, m, n);
    CountsGrow(trace, j, m, n, k);
    SmallCount(FlowsFor(trace[j..m + 1], k));
    SmallCount(FlowsFor(trace[j..n + 1], k));
    SmallCount(TicksIn(trace[j..m + 1]));
    SmallCount(TicksIn(trace[j..n + 1]));
  }

  /** From an insertion at j, over a tick at m, the counts are at least one and only grow. */
  lemma CountsGrow(trace: seq<Event>, j: nat, m: nat, n: nat, k: DestKey)
    requires j < m < n < |trace| && trace[j].Ingest? && KeyOf(trace[j].flow) == k && trace[m].Tick?
    ensures 1 <= FlowsFor(trace[j..m + 1], k) <= FlowsFor(trace[j..n + 1], k) <= FlowsFor(trace, k)
    ensures 1 <= TicksIn(trace[j..m + 1]) <= TicksIn(trace[j..n + 1]) <= TicksIn(trace)
  {
    hide *;
    FlowsGrow(trace, j, m, n, k);
    TicksGrow(trace, j, m, n, k);
    CountsBounded(trace, j, n + 1, k);
  }

  lemma FlowsGrow(trace: seq<Event>, j: nat, m: nat, n: nat, k: DestKey)
    requires j < m < n < |trace| && trace[j].Ingest? && KeyOf(trace[j].flow) == k
    ensures 1 <= FlowsFor(trace[j..m + 1], k) <= FlowsFor(trace[j..n + 1], k)
  {
    hide *;
    LaterCounts(trace, j, m + 1, n + 1, k);
    LaterCounts(trace, j, j + 1, m + 1, k);
    OneFlow(trace, j, k);
  }

  lemma TicksGrow(trace: seq<Event>, j: nat, m: nat, n: nat, k: DestKey)
    requires j < m < n < |trace| && trace[m].Tick?
    ensures 1 <= TicksIn(trace[j..m + 1]) <= TicksIn(trace[j..n + 1])
  {
    hide *;
    LaterCounts(trace, j, m + 1, n + 1, k);
    TickFrom(trace, j, m, m + 1, k);
  }

  lemma PassesGrows(a: DestEntry, b: DestEntry, parsesPublic: string -> bool)
    requires Scorer.Grows(a, b) && Generator.Passes(a, parsesPublic)
    ensures Generator.Passes(b, parsesPublic)
  {
    Scorer.ScoreGrows(a, b, parsesPublic);
    hide Scorer.RiskOf;
  }

  /** The workload's keys at the tick of `v` all stay until that of `w`. */
  ghost predicate NonePurged(v: Write, w: Write, trace: seq<Event>, window: int)
    requires v.at < |trace|
  {
    forall k :: k in After(trace[..v.at + 1], window) && k.workload == v.snapshot.workloadKey ==>
      Stays(trace, window, k, v.at, w.at) && FlowsFor(trace, k) < TWO_64
  }

  /** Between two writes of a workload none of whose keys were purged, its allowlist only grows. */
  lemma ShrinksOnlyByPurging(v: Write, w: Write, trace: seq<Event>, window: int, t: Rules.Triple,
                             parsesPublic: string -> bool)
    requires Genuine(v, trace, window) && Genuine(w, trace, window) && v.at < w.at
    requires v.snapshot.workloadKey == w.snapshot.workloadKey
    requires NonePurged(v, w, trace, window) && TicksIn(trace) < TWO_63
    ensures PolicyAllows(v.snapshot, t, parsesPublic) ==> PolicyAllows(w.snapshot, t, parsesPublic)
  {
    hide After, PolicyAllows, Generator.Passes, FlowsFor, TicksIn, Stays, ListsAmong, Namespaces, ConfigMaps,
        Scorer.Grows;
    PolicyAllowsIff(v.snapshot, t, parsesPublic);
    PolicyAllowsIff(w.snapshot, t, parsesPublic);
    if e :| e in v.snapshot.destinations && Generator.Passes(e, parsesPublic) && Generator.TripleOf(e) == t {
      var k := EntryKey(e);
      WriteLists(v, trace, window, e);
      EvidenceGrows(trace, window, k, v.at, w.at);
      var e' := After(trace[..w.at + 1], window)[k];
      WriteLists(w, trace, window, e');
      PassesGrows(e, e', parsesPublic);
    }
  }
}
