/** The accumulator's runs (internal/observer/accumulator.go) as sequences of events, and what a run
    leaves in the entry table, stated from the events alone. */
module Trace {
  import opened Base

  const MAX_DESTINATIONS: nat := 500

  /** One step of a run. A tick is purge at clock time `now` followed by flushSnapshots. */
  datatype Event =
    | Register(workload: string, namespace: string, configMap: string)
    | Ingest(flow: Flow)
    | Tick(now: Time)

  type Entries = map<DestKey, DestEntry>

  function WorkloadOf(f: Flow): string {
    f.sourceNamespace + "/" + f.sourceWorkload
  }

  function KeyOf(f: Flow): DestKey {
    DestKey(WorkloadOf(f), f.destFqdn, f.destIp, f.destPort, f.protocol)
  }

  function EntryKey(e: DestEntry): DestKey {
    DestKey(e.workload, e.destFqdn, e.destIp, e.destPort, e.protocol)
  }

  // ----- The steps on the entry table -----

  function NewEntry(f: Flow): DestEntry {
    DestEntry(WorkloadOf(f), f.destFqdn, f.destIp, f.destPort, f.protocol, f.timestamp, f.timestamp, 1, f.bytes, 0)
  }

  function Touched(e: DestEntry, f: Flow): DestEntry {
    e.(lastSeen := f.timestamp, flowCount := WrapU64(e.flowCount + 1), bytes := WrapU64(e.bytes + f.bytes))
  }

  function Ingested(entries: Entries, f: Flow): Entries {
    var k := KeyOf(f);
    if k in entries then entries[k := Touched(entries[k], f)]
    else if |entries| >= MAX_DESTINATIONS then entries
    else entries[k := NewEntry(f)]
  }

  function Purged(entries: Entries, cutoff: Time): Entries {
    map k | k in entries && entries[k].lastSeen >= cutoff :: entries[k]
  }

  function Counted(e: DestEntry): DestEntry {
    e.(snapshots := WrapI64(e.snapshots + 1))
  }

  function Flushed(entries: Entries): Entries {
    map k | k in entries :: Counted(entries[k])
  }

  function Stepped(entries: Entries, e: Event, window: int): Entries {
    match e
    case Register(_, _, _) => entries
    case Ingest(f) => Ingested(entries, f)
    case Tick(now) => Flushed(Purged(entries, now - window))
  }

  function After(trace: seq<Event>, window: int): Entries {
    if trace == [] then map[]
    else Stepped(After(trace[..|trace| - 1], window), trace[|trace| - 1], window)
  }

  // ----- Cap and keys -----

  /** At most 500 entries, in every run, each stored under its own key. */
  lemma {:induction false} CapHolds(trace: seq<Event>, window: int)
    ensures |After(trace, window)| <= 500
    ensures forall k :: k in After(trace, window) ==> EntryKey(After(trace, window)[k]) == k
  {
    if trace != [] {
      var front := trace[..|trace| - 1];
      CapHolds(front, window);
      var before := After(front, window);
      match trace[|trace| - 1]
      case Register(_, _, _) =>
      case Ingest(f) =>
      case Tick(now) =>
        var kept := Purged(before, now - window);
        SmallerDomain(kept, before);
        SmallerDomain(Flushed(kept), kept);
    }
  }

  lemma SmallerDomain(a: Entries, b: Entries)
    requires a.Keys <= b.Keys
    ensures |a| <= |b|
  {
    SubsetSize(a.Keys, b.Keys);
  }

  lemma {:induction false} SubsetSize(a: set<DestKey>, b: set<DestKey>)
    requires a <= b
    ensures |a| <= |b|
  {
    if a != {} {
      var x :| x in a;
      SubsetSize(a - {x}, b - {x});
    }
  }

  /** A flow is turned away exactly when its key is new and the table holds 500. */
  lemma DroppedIffFull(entries: Entries, f: Flow)
    ensures KeyOf(f) !in Ingested(entries, f) <==> KeyOf(f) !in entries && |entries| >= 500
  {
  }

  /** Flows share an entry exactly when they agree in namespace and workload (as joined by a slash),
      name, address, port and protocol; the entry shows the last four as the flow has them. */
  lemma KeysDiscern(f: Flow, g: Flow)
    ensures KeyOf(f) == KeyOf(g) <==>
              && f.sourceNamespace + "/" + f.sourceWorkload == g.sourceNamespace + "/" + g.sourceWorkload
              && f.destFqdn == g.destFqdn && f.destIp == g.destIp
              && f.destPort == g.destPort && f.protocol == g.protocol
    ensures var e := Ingested(map[], f)[KeyOf(f)];
            && e.workload == f.sourceNamespace + "/" + f.sourceWorkload
            && e.destFqdn == f.destFqdn && e.destIp == f.destIp && e.destPort == f.destPort && e.protocol == f.protocol
  {
  }

  // ----- Which keys are retained -----

  /** Event i is a flow for k that entered the table: it was not dropped at the cap. */
  ghost predicate Accepts(trace: seq<Event>, window: int, i: int, k: DestKey) {
    && 0 <= i < |trace| && trace[i].Ingest? && KeyOf(trace[i].flow) == k
    && (k in After(trace[..i], window) || |After(trace[..i], window)| < MAX_DESTINATIONS)
  }

  ghost predicate LastAccepted(trace: seq<Event>, window: int, i: int, k: DestKey) {
    && Accepts(trace, window, i, k)
    && forall j :: i < j < |trace| ==> !Accepts(trace, window, j, k)
  }

  /** No tick from event i on has its cutoff past `seen`. */
  ghost predicate OutlivesTicks(trace: seq<Event>, window: int, i: int, seen: Time) {
    forall j :: 0 <= j < |trace| && i < j && trace[j].Tick? ==> trace[j].now - window <= seen
  }

  ghost predicate Retains(trace: seq<Event>, window: int, i: int, k: DestKey) {
    LastAccepted(trace, window, i, k) && OutlivesTicks(trace, window, i, trace[i].flow.timestamp)
  }

  lemma AcceptsPrefix(trace: seq<Event>, window: int, k: DestKey)
    requires trace != []
    ensures var front := trace[..|trace| - 1];
            forall i :: 0 <= i < |front| ==> (Accepts(front, window, i, k) <==> Accepts(trace, window, i, k))
  {
    var front := trace[..|trace| - 1];
    forall i | 0 <= i < |front| ensures Accepts(front, window, i, k) <==> Accepts(trace, window, i, k) {
      assert front[..i] == trace[..i] && front[i] == trace[i];
    }
  }

  lemma RetainsStep(trace: seq<Event>, window: int, k: DestKey, i: int)
    requires trace != [] && !Accepts(trace, window, |trace| - 1, k)
    ensures var n, front := |trace| - 1, trace[..|trace| - 1];
            && (LastAccepted(trace, window, i, k) <==> LastAccepted(front, window, i, k))
            && (LastAccepted(front, window, i, k) ==> front[i] == trace[i])
            && (Retains(trace, window, i, k) <==>
                Retains(front, window, i, k) && (trace[n].Tick? ==> trace[n].now - window <= trace[i].flow.timestamp))
  {
    var n, front := |trace| - 1, trace[..|trace| - 1];
    AcceptsPrefix(trace, window, k);
    if LastAccepted(trace, window, i, k) {
      assert i < n;
      assert LastAccepted(front, window, i, k);
    }
    if LastAccepted(front, window, i, k) {
      assert forall j :: i < j < |trace| ==> j == n || !Accepts(front, window, j, k);
      assert LastAccepted(trace, window, i, k);
      OutlivesStep(trace, window, i, trace[i].flow.timestamp);
    }
  }

  lemma OutlivesStep(trace: seq<Event>, window: int, i: int, seen: Time)
    requires trace != [] && i < |trace| - 1
    ensures var n, front := |trace| - 1, trace[..|trace| - 1];
            OutlivesTicks(trace, window, i, seen) <==>
            OutlivesTicks(front, window, i, seen) && (trace[n].Tick? ==> trace[n].now - window <= seen)
  {
    var n, front := |trace| - 1, trace[..|trace| - 1];
    assert forall j :: 0 <= j < n ==> front[j] == trace[j];
  }

  /** The exact contents of the table, for every run: a key is retained iff its last accepted flow is
      within the window of every tick since, and that flow's timestamp is the entry's LastSeen. */
  lemma {:induction false} RetainedIff(trace: seq<Event>, window: int, k: DestKey)
    ensures k in After(trace, window) <==> exists i :: Retains(trace, window, i, k)
    ensures forall i :: LastAccepted(trace, window, i, k) && k in After(trace, window) ==>
              After(trace, window)[k].lastSeen == trace[i].flow.timestamp
  {
    if trace != [] {
      var n := |trace| - 1;
      var front := trace[..n];
      var before := After(front, window);
      RetainedIff(front, window, k);
      if Accepts(trace, window, n, k) {
        assert Retains(trace, window, n, k);
      } else {
        forall i ensures Retains(trace, window, i, k) ==> k in After(trace, window) {
          RetainsStep(trace, window, k, i);
        }
        if k in After(trace, window) {
          var i :| Retains(front, window, i, k);
          RetainsStep(trace, window, k, i);
        }
        forall i | LastAccepted(trace, window, i, k) && k in After(trace, window)
          ensures After(trace, window)[k].lastSeen == trace[i].flow.timestamp
        {
          RetainsStep(trace, window, k, i);
        }
      }
    }
  }

  // ----- The sliding window -----

  /** Flow timestamps do not decrease in ingestion order, nor does the clock from tick to tick. */
  ghost predicate Ordered(trace: seq<Event>) {
    && (forall i, j :: 0 <= i < j < |trace| && trace[i].Ingest? && trace[j].Ingest? ==>
          trace[i].flow.timestamp <= trace[j].flow.timestamp)
    && (forall i, j :: 0 <= i < j < |trace| && trace[i].Tick? && trace[j].Tick? ==> trace[i].now <= trace[j].now)
  }

  /** No flow of the run was dropped at the cap. */
  ghost predicate NoDrops(trace: seq<Event>, window: int) {
    forall i :: 0 <= i < |trace| && trace[i].Ingest? ==> Accepts(trace, window, i, KeyOf(trace[i].flow))
  }

  ghost predicate SeenWithin(trace: seq<Event>, k: DestKey, since: Time) {
    exists i :: 0 <= i < |trace| && trace[i].Ingest? && KeyOf(trace[i].flow) == k && trace[i].flow.timestamp >= since
  }

  ghost predicate AcceptedWithin(trace: seq<Event>, window: int, k: DestKey, since: Time) {
    exists i :: Accepts(trace, window, i, k) && trace[i].flow.timestamp >= since
  }

  lemma {:induction false} LastAcceptedExists(trace: seq<Event>, window: int, i: int, k: DestKey) returns (last: int)
    requires Accepts(trace, window, i, k)
    ensures i <= last && LastAccepted(trace, window, last, k)
    decreases |trace| - i
  {
    if j :| i < j < |trace| && Accepts(trace, window, j, k) {
      last := LastAcceptedExists(trace, window, j, k);
    } else {
      last := i;
    }
  }

  lemma AcceptsExtends(trace: seq<Event>, e: Event, window: int, i: int, k: DestKey)
    requires i < |trace|
    ensures Accepts(trace + [e], window, i, k) <==> Accepts(trace, window, i, k)
  {
    assert (trace + [e])[..|trace + [e]| - 1] == trace;
    AcceptsPrefix(trace + [e], window, k);
  }

  /** Whatever the order of timestamps, a tick leaves only keys with a flow inside the window. */
  lemma WindowBound(trace: seq<Event>, window: int, now: Time, k: DestKey)
    requires k in After(trace + [Tick(now)], window)
    ensures AcceptedWithin(trace, window, k, now - window)
    ensures SeenWithin(trace, k, now - window)
  {
    var all := trace + [Tick(now)];
    RetainedIff(all, window, k);
    var i :| Retains(all, window, i, k);
    assert all[|trace|] == Tick(now);
    assert i < |trace| && all[i] == trace[i];
    AcceptsExtends(trace, Tick(now), window, i, k);
  }

  /** Sliding window: in an ordered run a tick leaves exactly the keys that have an accepted flow no
      older than the window; in a run without drops, exactly those that have any such flow. */
  lemma SlidingWindow(trace: seq<Event>, window: int, now: Time, k: DestKey)
    requires Ordered(trace + [Tick(now)])
    ensures k in After(trace + [Tick(now)], window) <==> AcceptedWithin(trace, window, k, now - window)
    ensures NoDrops(trace, window) ==>
              (k in After(trace + [Tick(now)], window) <==> SeenWithin(trace, k, now - window))
  {
    var all := trace + [Tick(now)];
    if k in After(all, window) { WindowBound(trace, window, now, k); }
    if AcceptedWithin(trace, window, k, now - window) {
      var i :| Accepts(trace, window, i, k) && trace[i].flow.timestamp >= now - window;
      AcceptsExtends(trace, Tick(now), window, i, k);
      var last := LastAcceptedExists(all, window, i, k);
      assert all[|trace|] == Tick(now) && all[i] == trace[i];
      assert all[i].flow.timestamp <= all[last].flow.timestamp;
      assert Retains(all, window, last, k);
      RetainedIff(all, window, k);
    }
    if NoDrops(trace, window) && SeenWithin(trace, k, now - window) {
      var i :| 0 <= i < |trace| && trace[i].Ingest? && KeyOf(trace[i].flow) == k
          && trace[i].flow.timestamp >= now - window;
      assert Accepts(trace, window, i, k);
    }
  }

  /** Order matters because LastSeen is overwritten: a late-arriving old flow evicts a recent key. */
  lemma OutOfOrderEvicts(f: Flow)
    requires f.timestamp == 100
    ensures var late := f.(timestamp := 0);
            var trace := [Ingest(f), Ingest(late)];
            SeenWithin(trace, KeyOf(f), 40) && KeyOf(f) !in After(trace + [Tick(50)], 10)
  {
    var late := f.(timestamp := 0);
    var trace := [Ingest(f), Ingest(late)];
    assert trace[0].Ingest?;
    var all := trace + [Tick(50)];
    assert all[..2] == trace && trace[..1] == [Ingest(f)] && [Ingest(f)][..0] == [];
    assert After([Ingest(f)], 10) == map[KeyOf(f) := NewEntry(f)];
    assert After(trace, 10)[KeyOf(f)].lastSeen == 0;
  }

  // ----- Per-key exactness -----

  function FlowsFor(events: seq<Event>, k: DestKey): nat {
    if events == [] then 0
    else
      var e := events[|events| - 1];
      FlowsFor(events[..|events| - 1], k) + if e.Ingest? && KeyOf(e.flow) == k then 1 else 0
  }

  function BytesFor(events: seq<Event>, k: DestKey): nat {
    if events == [] then 0
    else
      var e := events[|events| - 1];
      BytesFor(events[..|events| - 1], k) + if e.Ingest? && KeyOf(e.flow) == k then e.flow.bytes else 0
  }

  function TicksIn(events: seq<Event>): nat {
    if events == [] then 0
    else TicksIn(events[..|events| - 1]) + if events[|events| - 1].Tick? then 1 else 0
  }

  /** Event j inserted k, which has been in the table ever since. */
  ghost predicate InsertedAt(trace: seq<Event>, window: int, j: int, k: DestKey) {
    && Accepts(trace, window, j, k) && k !in After(trace[..j], window)
    && forall m :: j < m <= |trace| ==> k in After(trace[..m], window)
  }

  /** The entry is the fold of what happened since event j. */
  ghost predicate FoldedSince(e: DestEntry, trace: seq<Event>, j: int, k: DestKey) {
    && 0 <= j < |trace| && trace[j].Ingest?
    && e.firstSeen == trace[j].flow.timestamp
    && e.flowCount == WrapU64(FlowsFor(trace[j..], k))
    && e.bytes == WrapU64(BytesFor(trace[j..], k))
    && e.snapshots == WrapI64(TicksIn(trace[j..]))
  }

  lemma WrapSum(a: nat, b: nat)
    ensures WrapU64(WrapU64(a) + b) == WrapU64(a + b)
  {
  }

  lemma WrapNext(a: int)
    ensures WrapI64(WrapI64(a) + 1) == WrapI64(a + 1)
  {
  }

  lemma FoldStep(e: DestEntry, e': DestEntry, trace: seq<Event>, j: int, k: DestKey)
    requires trace != [] && FoldedSince(e, trace[..|trace| - 1], j, k)
    requires var last := trace[|trace| - 1];
             e' == match last
                   case Register(_, _, _) => e
                   case Ingest(f) => if KeyOf(f) == k then Touched(e, f) else e
                   case Tick(_) => Counted(e)
    ensures FoldedSince(e', trace, j, k)
  {
    var n := |trace| - 1;
    assert trace[j..][..|trace[j..]| - 1] == trace[..n][j..];
    assert trace[j..][|trace[j..]| - 1] == trace[n];
    WrapSum(FlowsFor(trace[..n][j..], k), 1);
    if trace[n].Ingest? { WrapSum(BytesFor(trace[..n][j..], k), trace[n].flow.bytes); }
    WrapNext(TicksIn(trace[..n][j..]));
  }

  lemma FoldStart(trace: seq<Event>, k: DestKey)
    requires trace != [] && trace[|trace| - 1].Ingest? && KeyOf(trace[|trace| - 1].flow) == k
    ensures FoldedSince(NewEntry(trace[|trace| - 1].flow), trace, |trace| - 1, k)
  {
    var n := |trace| - 1;
    assert trace[n..] == [trace[n]] && trace[n..][..0] == [];
  }

  lemma InsertedStep(trace: seq<Event>, window: int, j: int, k: DestKey)
    requires trace != [] && k in After(trace, window)
    requires InsertedAt(trace[..|trace| - 1], window, j, k)
    ensures InsertedAt(trace, window, j, k)
  {
    var front := trace[..|trace| - 1];
    AcceptsPrefix(trace, window, k);
    assert front[..j] == trace[..j];
    forall m | j < m <= |trace| ensures k in After(trace[..m], window) {
      if m < |trace| { assert front[..m] == trace[..m]; } else { assert trace[..m] == trace; }
    }
  }

  /** Every retained entry's counters are exactly the fold of the flows and ticks since its latest
      insertion, modulo the widths of Go's integers. */
  lemma {:induction false} Exact(trace: seq<Event>, window: int, k: DestKey) returns (j: int)
    requires k in After(trace, window)
    ensures InsertedAt(trace, window, j, k)
    ensures FoldedSince(After(trace, window)[k], trace, j, k)
  {
    var n := |trace| - 1;
    var front := trace[..n];
    var before := After(front, window);
    if k in before {
      j := Exact(front, window, k);
      InsertedStep(trace, window, j, k);
      FoldStep(before[k], After(trace, window)[k], trace, j, k);
    } else {
      j := n;
      FoldStart(trace, k);
      assert trace[..|trace|] == trace;
    }
  }

  // ----- Conservation -----

  ghost function Total(m: Entries): nat {
    if m == map[] then 0 else var k :| k in m; m[k].flowCount + Total(m - {k})
  }

  lemma {:induction false} TotalRemove(m: Entries, k: DestKey)
    requires k in m
    ensures Total(m) == m[k].flowCount + Total(m - {k})
    decreases |m|
  {
    var c :| c in m && Total(m) == m[c].flowCount + Total(m - {c});
    if c != k {
      TotalRemove(m - {c}, k);
      TotalRemove(m - {k}, c);
      assert m - {c} - {k} == m - {k} - {c};
    }
  }

  lemma TotalUpdate(m: Entries, k: DestKey, e: DestEntry)
    ensures Total(m[k := e]) == Total(m - {k}) + e.flowCount
  {
    TotalRemove(m[k := e], k);
    assert m[k := e] - {k} == m - {k};
  }

  lemma {:induction false} TotalFlushed(m: Entries)
    ensures Total(Flushed(m)) == Total(m)
    decreases |m|
  {
    if m != map[] {
      var k :| k in m;
      TotalRemove(m, k);
      TotalFlushed(m - {k});
      assert k in Flushed(m);
      TotalRemove(Flushed(m), k);
      assert Flushed(m) - {k} == Flushed(m - {k});
    } else {
      assert Flushed(m) == map[];
    }
  }

  ghost function Expired(m: Entries, cutoff: Time): Entries {
    map k | k in m && m[k].lastSeen < cutoff :: m[k]
  }

  lemma SplitWithout(m: Entries, k: DestKey, cutoff: Time)
    requires k in m
    ensures m[k].lastSeen < cutoff ==>
              k in Expired(m, cutoff) && Expired(m, cutoff)[k] == m[k]
              && Expired(m, cutoff) - {k} == Expired(m - {k}, cutoff) && Purged(m, cutoff) == Purged(m - {k}, cutoff)
    ensures m[k].lastSeen >= cutoff ==>
              k in Purged(m, cutoff) && Purged(m, cutoff)[k] == m[k]
              && Purged(m, cutoff) - {k} == Purged(m - {k}, cutoff) && Expired(m, cutoff) == Expired(m - {k}, cutoff)
  {
  }

  lemma {:induction false} TotalSplit(m: Entries, cutoff: Time)
    ensures Total(Purged(m, cutoff)) + Total(Expired(m, cutoff)) == Total(m)
    decreases |m|
  {
    if m != map[] {
      var k :| k in m;
      TotalRemove(m, k);
      TotalSplit(m - {k}, cutoff);
      SplitWithout(m, k, cutoff);
      hide Purged, Expired;
      if m[k].lastSeen < cutoff {
        TotalRemove(Expired(m, cutoff), k);
      } else {
        TotalRemove(Purged(m, cutoff), k);
      }
    } else {
      assert Purged(m, cutoff) == map[] && Expired(m, cutoff) == map[];
    }
  }

  /** Flow counts of the entries that the run's purges removed. */
  ghost function PurgedFlows(trace: seq<Event>, window: int): nat {
    if trace == [] then 0
    else
      var front, e := trace[..|trace| - 1], trace[|trace| - 1];
      PurgedFlows(front, window) + if e.Tick? then Total(Expired(After(front, window), e.now - window)) else 0
  }

  /** Flows that the run dropped at the cap. */
  function DroppedFlows(trace: seq<Event>, window: int): nat {
    if trace == [] then 0
    else
      var front, e := trace[..|trace| - 1], trace[|trace| - 1];
      DroppedFlows(front, window) + if e.Ingest? then DropsAt(After(front, window), e.flow) else 0
  }

  function IngestedFlows(trace: seq<Event>): nat {
    if trace == [] then 0
    else IngestedFlows(trace[..|trace| - 1]) + if trace[|trace| - 1].Ingest? then 1 else 0
  }

  /** Flows forgotten when an entry's 64-bit counter wraps to zero: 2^64 each time. */
  function WrappedFlows(trace: seq<Event>, window: int): (r: nat)
    ensures r == 0 || r >= TWO_64
  {
    if trace == [] then 0
    else
      var front, e := trace[..|trace| - 1], trace[|trace| - 1];
      WrappedFlows(front, window) + if e.Ingest? then WrapsAt(After(front, window), e.flow) else 0
  }

  function WrapsAt(m: Entries, f: Flow): (r: nat)
    ensures r == 0 || r == TWO_64
  {
    if KeyOf(f) in m && m[KeyOf(f)].flowCount == TWO_64 - 1 then TWO_64 else 0
  }

  function DropsAt(m: Entries, f: Flow): nat {
    if KeyOf(f) !in m && |m| >= MAX_DESTINATIONS then 1 else 0
  }

  lemma NextCount(n: U64)
    ensures WrapU64(n + 1) == if n == TWO_64 - 1 then 0 else n + 1
  {
  }

  lemma TotalReplace(m: Entries, k: DestKey, e: DestEntry)
    requires k in m
    ensures Total(m[k := e]) == Total(m) - m[k].flowCount + e.flowCount
  {
    TotalRemove(m, k);
    TotalUpdate(m, k, e);
  }

  lemma TotalAdd(m: Entries, k: DestKey, e: DestEntry)
    requires k !in m
    ensures Total(m[k := e]) == Total(m) + e.flowCount
  {
    TotalUpdate(m, k, e);
    assert m - {k} == m;
  }

  lemma IngestTotal(m: Entries, f: Flow)
    ensures Total(Ingested(m, f)) + DropsAt(m, f) + WrapsAt(m, f) == Total(m) + 1
  {
    hide Total, WrapU64, KeyOf;
    var k := KeyOf(f);
    if k in m {
      NextCount(m[k].flowCount);
      TotalReplace(m, k, Touched(m[k], f));
    } else if |m| < MAX_DESTINATIONS {
      TotalAdd(m, k, NewEntry(f));
    }
  }

  lemma TickTotal(m: Entries, cutoff: Time)
    ensures Total(Flushed(Purged(m, cutoff))) + Total(Expired(m, cutoff)) == Total(m)
  {
    TotalSplit(m, cutoff);
    TotalFlushed(Purged(m, cutoff));
  }

  /** What the last event adds to each count. */
  lemma LastCounts(trace: seq<Event>, window: int)
    requires trace != []
    ensures var front, e := trace[..|trace| - 1], trace[|trace| - 1];
            var m := After(front, window);
            && After(trace, window) == Stepped(m, e, window)
            && PurgedFlows(trace, window) == PurgedFlows(front, window)
                 + (if e.Tick? then Total(Expired(m, e.now - window)) else 0)
            && DroppedFlows(trace, window) == DroppedFlows(front, window) + (if e.Ingest?
                                                                             then DropsAt(m, e.flow) else 0)
            && WrappedFlows(trace, window) == WrappedFlows(front, window) + (if e.Ingest?
                                                                             then WrapsAt(m, e.flow) else 0)
            && IngestedFlows(trace) == IngestedFlows(front) + (if e.Ingest? then 1 else 0)
  {
    hide Total, Stepped, Expired, DropsAt, WrapsAt;
  }

  /** Retained, purged and dropped flows add up to the flows ingested, up to the counters' own wraps,
      of which there are none below 2^64 flows. */
  lemma {:induction false} Conservation(trace: seq<Event>, window: int)
    ensures Total(After(trace, window)) + PurgedFlows(trace, window) + DroppedFlows(trace, window)
            + WrappedFlows(trace, window) == IngestedFlows(trace)
    ensures IngestedFlows(trace) < TWO_64 ==> WrappedFlows(trace, window) == 0
  {
    if trace != [] {
      var front := trace[..|trace| - 1];
      var before := After(front, window);
      Conservation(front, window);
      LastCounts(trace, window);
      hide Total, Ingested, Flushed, Purged, Expired, WrapsAt, DropsAt, After, PurgedFlows, DroppedFlows, WrappedFlows,
        IngestedFlows;
      match trace[|trace| - 1]
      case Register(_, _, _) =>
      case Ingest(f) => IngestTotal(before, f);
      case Tick(now) => TickTotal(before, now - window);
    }
  }
}
