/** The accumulator itself (internal/observer/accumulator.go): a mutable table of destinations, fed by
    flows and flushed to a snapshot store, with the events so far as a ghost trace. */
module Accumulator {
  import opened Base
  import opened Trace

  // ----- Registrations -----

  function Namespaces(trace: seq<Event>): map<string, string> {
    if trace == [] then map[]
    else
      var e := trace[|trace| - 1];
      var before := Namespaces(trace[..|trace| - 1]);
      if e.Register? then before[e.workload := e.namespace] else before
  }

  function ConfigMaps(trace: seq<Event>): map<string, string> {
    if trace == [] then map[]
    else
      var e := trace[|trace| - 1];
      var before := ConfigMaps(trace[..|trace| - 1]);
      if e.Register? then before[e.workload := e.configMap] else before
  }

  /** Event r is the workload's latest registration. */
  ghost predicate LatestRegistration(trace: seq<Event>, r: int, workload: string) {
    && 0 <= r < |trace| && trace[r].Register? && trace[r].workload == workload
    && forall j :: r < j < |trace| && trace[j].Register? ==> trace[j].workload != workload
  }

  /** The two maps are what the latest registration of each workload said, and nothing else. */
  lemma {:induction false} RegisteredIff(trace: seq<Event>, workload: string)
    ensures workload in Namespaces(trace) <==> workload in ConfigMaps(trace)
    ensures workload in Namespaces(trace) <==> exists r :: LatestRegistration(trace, r, workload)
    ensures forall r :: LatestRegistration(trace, r, workload) ==>
              && workload in Namespaces(trace) && workload in ConfigMaps(trace)
              && Namespaces(trace)[workload] == trace[r].namespace && ConfigMaps(trace)[workload] == trace[r].configMap
  {
    if trace != [] {
      var n := |trace| - 1;
      var front := trace[..n];
      RegisteredIff(front, workload);
      assert forall j :: 0 <= j < n ==> front[j] == trace[j];
      if trace[n].Register? && trace[n].workload == workload {
        assert LatestRegistration(trace, n, workload);
      } else {
        forall r ensures LatestRegistration(trace, r, workload) <==> LatestRegistration(front, r, workload) {
        }
        if workload in Namespaces(front) {
          var r :| LatestRegistration(front, r, workload);
          assert LatestRegistration(trace, r, workload);
        }
      }
    }
  }

  // ----- Snapshots and writes -----

  /** `dests` lists, once each and in some order, the workload's entries among the keys `among`. */
  ghost predicate ListsAmong(dests: seq<DestEntry>, entries: Entries, workload: string, among: set<DestKey>) {
    && NoDuplicates(dests)
    && forall d :: d in dests <==>
         EntryKey(d) in entries && EntryKey(d) in among && entries[EntryKey(d)] == d && d.workload == workload
  }

  ghost predicate Lists(dests: seq<DestEntry>, entries: Entries, workload: string) {
    ListsAmong(dests, entries, workload, entries.Keys)
  }

  /** A SaveSnapshot call that the store accepted, made by the tick at position `at` of the trace. */
  datatype Write = Write(at: nat, namespace: string, configMap: string, snapshot: Snapshot)

  /** What every write is: the full list of its workload's entries right after the tick, sent to the
      place the workload was last registered for. */
  ghost predicate Genuine(w: Write, trace: seq<Event>, window: int) {
    && w.at < |trace| && trace[w.at].Tick?
    && var wk, entries := w.snapshot.workloadKey, After(trace[..w.at + 1], window);
    && wk in Namespaces(trace[..w.at]) && w.namespace == Namespaces(trace[..w.at])[wk] != ""
    && wk in ConfigMaps(trace[..w.at]) && w.configMap == ConfigMaps(trace[..w.at])[wk] != ""
    && w.snapshot.destinations != [] && Lists(w.snapshot.destinations, entries, wk)
    && (w.snapshot.truncated <==> |entries| == MAX_DESTINATIONS)
  }

  ghost predicate AllGenuine(writes: seq<Write>, trace: seq<Event>, window: int) {
    forall i :: 0 <= i < |writes| ==> Genuine(writes[i], trace, window)
  }

  /** The writes from position `from` on are one for each of the workloads, all made at event `at`. */
  ghost predicate OnePerWorkload(writes: seq<Write>, from: nat, at: nat, workloads: set<string>) {
    && from <= |writes|
    && (forall i :: from <= i < |writes| ==> writes[i].at == at && writes[i].snapshot.workloadKey in workloads)
    && (forall i, j :: from <= i < j < |writes| ==> writes[i].snapshot.workloadKey != writes[j].snapshot.workloadKey)
    && (forall wk :: wk in workloads ==> exists i :: from <= i < |writes| && writes[i].snapshot.workloadKey == wk)
  }

  lemma OneMore(writes: seq<Write>, from: nat, at: nat, workloads: set<string>, w: Write)
    requires OnePerWorkload(writes, from, at, workloads)
    requires w.at == at && w.snapshot.workloadKey !in workloads
    ensures OnePerWorkload(writes + [w], from, at, workloads + {w.snapshot.workloadKey})
  {
    var after := writes + [w];
    forall wk | wk in workloads + {w.snapshot.workloadKey}
      ensures exists i :: from <= i < |after| && after[i].snapshot.workloadKey == wk
    {
      if wk in workloads {
        var i :| from <= i < |writes| && writes[i].snapshot.workloadKey == wk;
        assert after[i] == writes[i];
      } else {
        assert after[|writes|] == w;
      }
    }
  }

  lemma GenuineExtends(w: Write, trace: seq<Event>, e: Event, window: int)
    requires Genuine(w, trace, window)
    ensures Genuine(w, trace + [e], window)
  {
    assert (trace + [e])[..w.at] == trace[..w.at];
    assert (trace + [e])[..w.at + 1] == trace[..w.at + 1];
  }

  /** What the ConfigMaps hold after these writes: in each, the latest snapshot. */
  function Stored(writes: seq<Write>): map<(string, string), Snapshot> {
    if writes == [] then map[]
    else
      var w := writes[|writes| - 1];
      Stored(writes[..|writes| - 1])[(w.namespace, w.configMap) := w.snapshot]
  }

  /** Whatever a ConfigMap holds, some write to it put it there. */
  lemma {:induction false} StoredWasWritten(writes: seq<Write>, place: (string, string)) returns (i: nat)
    requires place in Stored(writes)
    ensures i < |writes| && (writes[i].namespace, writes[i].configMap) == place
    ensures writes[i].snapshot == Stored(writes)[place]
    ensures forall j :: i < j < |writes| ==> (writes[j].namespace, writes[j].configMap) != place
  {
    i := |writes| - 1;
    if (writes[i].namespace, writes[i].configMap) != place {
      i := StoredWasWritten(writes[..i], place);
    }
  }

  /** The groups list exactly the entries under the keys `done`, workload by workload. */
  ghost predicate Groups(byWorkload: map<string, seq<DestEntry>>, entries: Entries, done: set<DestKey>) {
    && (forall wk :: wk in byWorkload ==> byWorkload[wk] != [] && ListsAmong(byWorkload[wk], entries, wk, done))
    && (forall k :: k in done ==> k.workload in byWorkload)
  }

  lemma SavedMore(saved: seq<Write>, w: Write, trace: seq<Event>, window: int)
    requires AllGenuine(saved, trace, window) && Genuine(w, trace, window)
    ensures AllGenuine(saved + [w], trace, window)
    ensures Stored(saved + [w]) == Stored(saved)[(w.namespace, w.configMap) := w.snapshot]
  {
    hide Genuine;
    assert (saved + [w])[..|saved|] == saved;
  }

  /** One turn of the grouping loop: entry k joins its workload's list and no other. */
  lemma GroupStep(byWorkload: map<string, seq<DestEntry>>, entries: Entries, done: set<DestKey>, k: DestKey,
                  e: DestEntry)
    requires k in entries && k !in done && EntryKey(e) == k && Groups(byWorkload, entries, done)
    ensures var dests := if k.workload in byWorkload then byWorkload[k.workload] else [];
            Groups(byWorkload[k.workload := dests + [e]], entries[k := e], done + {k})
  {
    var dests := if k.workload in byWorkload then byWorkload[k.workload] else [];
    var after := byWorkload[k.workload := dests + [e]];
    forall wk | wk in after ensures ListsAmong(after[wk], entries[k := e], wk, done + {k}) {
      if wk == k.workload {
        assert ListsAmong(dests, entries, wk, done);
        ListStep(dests, entries, wk, done, k, e);
      }
    }
  }

  /** The table when the flush has counted the entries under the keys `done`. */
  function PartFlushed(entries: Entries, done: set<DestKey>): Entries {
    map k | k in entries :: if k in done then Counted(entries[k]) else entries[k]
  }

  lemma PartFlushedStep(entries: Entries, done: set<DestKey>, k: DestKey)
    requires k in entries && k !in done
    ensures var now := PartFlushed(entries, done);
            k in now && now.Keys == entries.Keys && EntryKey(Counted(now[k])) == EntryKey(entries[k])
            && now[k := Counted(now[k])] == PartFlushed(entries, done + {k})
  {
  }

  lemma PartFlushedEnds(entries: Entries)
    ensures PartFlushed(entries, {}) == entries && PartFlushed(entries, entries.Keys) == Flushed(entries)
    ensures Flushed(entries).Keys == entries.Keys && Groups(map[], entries, {})
  {
  }

  lemma ListStep(dests: seq<DestEntry>, entries: Entries, workload: string, done: set<DestKey>, k: DestKey,
                 e: DestEntry)
    requires k in entries && k !in done && EntryKey(e) == k && k.workload == workload
    requires ListsAmong(dests, entries, workload, done)
    ensures ListsAmong(dests + [e], entries[k := e], workload, done + {k})
  {
    assert e !in dests;
  }

  lemma ListSkip(dests: seq<DestEntry>, entries: Entries, workload: string, done: set<DestKey>, k: DestKey)
    requires k.workload != workload && ListsAmong(dests, entries, workload, done)
    ensures ListsAmong(dests, entries, workload, done + {k})
  {
  }

  /** Registered, with a namespace and a ConfigMap to write to. */
  predicate Routable(namespaces: map<string, string>, configMaps: map<string, string>, wk: string) {
    wk in namespaces && namespaces[wk] != "" && wk in configMaps && configMaps[wk] != ""
  }

  /** The workloads among these that a flush writes. */
  function Written(namespaces: map<string, string>, configMaps: map<string, string>,
                   workloads: set<string>, failing: set<string>): set<string>
  {
    set wk | wk in workloads && wk !in failing && Routable(namespaces, configMaps, wk)
  }

  lemma WrittenStep(namespaces: map<string, string>, configMaps: map<string, string>,
                    done: set<string>, failing: set<string>, wk: string)
    requires wk !in done
    ensures Written(namespaces, configMaps, {}, failing) == {}
    ensures wk !in Written(namespaces, configMaps, done, failing)
    ensures Written(namespaces, configMaps, done + {wk}, failing) ==
            if wk !in failing && Routable(namespaces, configMaps, wk)
            then Written(namespaces, configMaps, done, failing) + {wk}
            else Written(namespaces, configMaps, done, failing)
  {
  }

  lemma TickSteps(trace: seq<Event>, now: Time, window: int)
    ensures var kept := Purged(After(trace, window), now - window);
            && After(trace + [Event.Tick(now)], window) == Flushed(kept)
            && Namespaces(trace + [Event.Tick(now)]) == Namespaces(trace)
            && ConfigMaps(trace + [Event.Tick(now)]) == ConfigMaps(trace)
            && forall k :: k in kept ==> EntryKey(kept[k]) == k
  {
    var all := trace + [Event.Tick(now)];
    assert all[..|all| - 1] == trace;
    CapHolds(trace, window);
  }

  /** A map iteration moves one key from those to do to those done. */
  lemma MoveOne<K>(all: set<K>, todo: set<K>, k: K)
    requires todo <= all && k in todo
    ensures todo - {k} <= all && all - (todo - {k}) == (all - todo) + {k} && |todo - {k}| < |todo|
  {
  }

  class Accumulator {
    const window: int
    var workloadNs: map<string, string>
    var configMapName: map<string, string>
    var entries: Entries
    /** The baseline of each ConfigMap, as the snapshot store keeps it. */
    var store: map<(string, string), Snapshot>
    /** The events so far, and the SaveSnapshot calls that returned no error. */
    ghost var trace: seq<Event>
    ghost var saved: seq<Write>

    ghost predicate Valid()
      reads this
    {
      && entries == After(trace, window)
      && workloadNs == Namespaces(trace)
      && configMapName == ConfigMaps(trace)
      && store == Stored(saved)
      && AllGenuine(saved, trace, window)
    }

    constructor (window: int)
      ensures Valid() && this.window == window && trace == [] && saved == [] && entries == map[]
    {
      this.window := window;
      workloadNs, configMapName, entries, store := map[], map[], map[], map[];
      saved, trace := [], [];
    }

    method RegisterWorkload(workloadKey: string, namespace: string, cmName: string)
      requires Valid()
      modifies this
      ensures Valid() && trace == old(trace) + [Register(workloadKey, namespace, cmName)]
      ensures entries == old(entries) && saved == old(saved) && store == old(store)
      ensures workloadNs == old(workloadNs)[workloadKey := namespace]
      ensures configMapName == old(configMapName)[workloadKey := cmName]
    {
      workloadNs := workloadNs[workloadKey := namespace];
      configMapName := configMapName[workloadKey := cmName];
      Log(Register(workloadKey, namespace, cmName));
    }

    /** Appends an event to the trace; the earlier writes stay what they were. */
    ghost method Log(e: Event)
      requires AllGenuine(saved, trace, window)
      modifies this`trace
      ensures trace == old(trace) + [e] && trace[..|trace| - 1] == old(trace)
      ensures AllGenuine(saved, trace, window)
    {
      hide Genuine;
      forall i | 0 <= i < |saved| { GenuineExtends(saved[i], trace, e, window); }
      trace := trace + [e];
    }

    method Ingest(f: Flow)
      requires Valid()
      modifies this`entries, this`trace
      ensures Valid() && trace == old(trace) + [Event.Ingest(f)]
      ensures entries == Ingested(old(entries), f)
    {
      var k := KeyOf(f);
      if k in entries {
        var e := entries[k];
        e := e.(lastSeen := f.timestamp);
        e := e.(flowCount := WrapU64(e.flowCount + 1));
        e := e.(bytes := WrapU64(e.bytes + f.bytes));
        entries := entries[k := e];
      } else if |entries| < MAX_DESTINATIONS {
        entries := entries[k := NewEntry(f)];
      }
      Log(Event.Ingest(f));
    }

    /** Deletes, in any order, what was last seen before the cutoff. */
    method Purge(now: Time)
      modifies this`entries
      ensures entries == Purged(old(entries), now - window)
    {
      var cutoff := now - window;
      var todo := entries.Keys;
      while todo != {}
        invariant todo <= entries.Keys <= old(entries).Keys
        invariant forall k :: k in entries ==> entries[k] == old(entries)[k]
        invariant forall k :: k in old(entries) ==>
                    (k in entries <==> k in todo || old(entries)[k].lastSeen >= cutoff)
        decreases |todo|
      {
        var k :| k in todo;
        if entries[k].lastSeen < cutoff {
          entries := entries - {k};
        }
        todo := todo - {k};
      }
      assert entries == Purged(old(entries), cutoff);
    }

    /** Counts the snapshot cycle in every entry and groups the entries by workload, in any order. */
    method CountAndGroup() returns (byWorkload: map<string, seq<DestEntry>>)
      requires forall k :: k in entries ==> EntryKey(entries[k]) == k
      modifies this`entries
      ensures entries == Flushed(old(entries))
      ensures Groups(byWorkload, entries, entries.Keys)
    {
      hide *;
      byWorkload := map[];
      var todo := entries.Keys;
      ghost var done: set<DestKey> := {};
      PartFlushedEnds(entries);
      while todo != {}
        invariant todo <= old(entries).Keys && done == old(entries).Keys - todo
        invariant entries == PartFlushed(old(entries), done)
        invariant Groups(byWorkload, entries, done)
        decreases |todo|
      {
        var k :| k in todo;
        assert k in old(entries) && k !in done;
        PartFlushedStep(old(entries), done, k);
        var e := Counted(entries[k]);
        var dests := if k.workload in byWorkload then byWorkload[k.workload] else [];
        GroupStep(byWorkload, entries, done, k, e);
        entries := entries[k := e];
        byWorkload := byWorkload[k.workload := dests + [e]];
        MoveOne(old(entries).Keys, todo, k);
        todo, done := todo - {k}, done + {k};
      }
      assert done == old(entries).Keys;
    }

    /** The state in which a flush saves: the tick is the trace's last event. */
    ghost predicate Flushing()
      reads this
    {
      && trace != [] && trace[|trace| - 1].Tick? && entries == After(trace, window)
      && workloadNs == Namespaces(trace[..|trace| - 1]) && configMapName == ConfigMaps(trace[..|trace| - 1])
      && AllGenuine(saved, trace, window) && store == Stored(saved)
    }

    /** The flush so far: the writes since position `first` are one for each savable workload in `done`. */
    ghost predicate Progress(first: nat, done: set<string>, failing: set<string>)
      reads this
    {
      && Flushing()
      && OnePerWorkload(saved, first, |trace| - 1, Written(workloadNs, configMapName, done, failing))
    }

    /** One group's turn: saved unless it has nowhere to go or the store refuses it. */
    method SaveOne(wk: string, byWorkload: map<string, seq<DestEntry>>, truncated: bool, failing: set<string>,
                   ghost first: nat, ghost done: set<string>)
      requires Progress(first, done, failing) && wk !in done
      requires wk in byWorkload && Groups(byWorkload, entries, entries.Keys)
      requires truncated <==> |entries| == MAX_DESTINATIONS
      modifies this`saved, this`store
      ensures Progress(first, done + {wk}, failing) && old(saved) <= saved
    {
      hide After, Namespaces, ConfigMaps, Groups, Genuine, AllGenuine, Written, OnePerWorkload, Stored;
      WrittenStep(workloadNs, configMapName, done, failing, wk);
      var ns := if wk in workloadNs then workloadNs[wk] else "";
      var cmName := if wk in configMapName then configMapName[wk] else "";
      if ns == "" || cmName == "" {
        return;
      }
      if wk !in failing {
        var snap := Snapshot(wk, byWorkload[wk], truncated);
        ghost var w := Write(|trace| - 1, ns, cmName, snap);
        TickWriteGenuine(w, trace, window, byWorkload);
        OneMore(saved, first, |trace| - 1, Written(workloadNs, configMapName, done, failing), w);
        SavedMore(saved, w, trace, window);
        store := store[(ns, cmName) := snap];
        saved := saved + [w];
      }
    }

    lemma NothingSavedYet(failing: set<string>)
      requires Flushing()
      ensures Progress(|saved|, {}, failing)
    {
      hide After, Namespaces, ConfigMaps, AllGenuine, OnePerWorkload, Stored;
      NoneYet(saved, |trace| - 1, Written(workloadNs, configMapName, {}, failing));
    }

    /** Saves the groups, in any order; saves for the workloads in `failing` return an error. */
    method SaveAll(byWorkload: map<string, seq<DestEntry>>, truncated: bool, failing: set<string>)
      requires Flushing() && Groups(byWorkload, entries, entries.Keys)
      requires truncated <==> |entries| == MAX_DESTINATIONS
      modifies this`saved, this`store
      ensures Progress(|old(saved)|, byWorkload.Keys, failing) && old(saved) <= saved
    {
      hide *;
      NothingSavedYet(failing);
      ghost var done: set<string> := {};
      var todo := byWorkload.Keys;
      while todo != {}
        invariant todo <= byWorkload.Keys && done == byWorkload.Keys - todo
        invariant Progress(|old(saved)|, done, failing) && old(saved) <= saved
        decreases |todo|
      {
        var wk :| wk in todo;
        SaveOne(wk, byWorkload, truncated, failing, |old(saved)|, done);
        MoveOne(byWorkload.Keys, todo, wk);
        todo, done := todo - {wk}, done + {wk};
      }
      assert done == byWorkload.Keys;
    }

    /** One tick of the loop: purge at clock time `now`, then flushSnapshots. */
    method Tick(now: Time, failing: set<string>)
      requires Valid()
      modifies this
      ensures Valid() && trace == old(trace) + [Event.Tick(now)]
      ensures entries == Flushed(Purged(old(entries), now - window))
      ensures workloadNs == old(workloadNs) && configMapName == old(configMapName)
      ensures old(saved) <= saved
      ensures OnePerWorkload(saved, |old(saved)|, |old(trace)|,
                             Written(workloadNs, configMapName, set k | k in entries :: k.workload, failing))
    {
      TickSteps(trace, now, window);
      CapHolds(trace, window);
      CapHolds(trace + [Event.Tick(now)], window);
      hide Genuine, AllGenuine, OnePerWorkload, Groups, EntryKey, Stored, Flushed, Purged, Written, After,
          Namespaces, ConfigMaps;
      Purge(now);
      var byWorkload := CountAndGroup();
      Log(Event.Tick(now));
      var truncated := |entries| >= MAX_DESTINATIONS;
      WorkloadsAreGroups(byWorkload, entries);
      SaveAll(byWorkload, truncated, failing);
    }

    /** The workload's current entries, as copies. */
    method GetSnapshot(workloadKey: string) returns (snap: Snapshot)
      requires Valid()
      ensures snap.workloadKey == workloadKey && Lists(snap.destinations, entries, workloadKey)
      ensures snap.truncated <==> |entries| == 500
    {
      CapHolds(trace, window);
      var dests: seq<DestEntry> := [];
      var todo := entries.Keys;
      ghost var done: set<DestKey> := {};
      assert ListsAmong(dests, entries, workloadKey, done);
      hide ListsAmong, EntryKey, After;
      while todo != {}
        invariant todo <= entries.Keys && done == entries.Keys - todo
        invariant ListsAmong(dests, entries, workloadKey, done)
        decreases |todo|
      {
        var k :| k in todo;
        assert entries[k := entries[k]] == entries;
        if k.workload == workloadKey {
          ListStep(dests, entries, workloadKey, done, k, entries[k]);
          dests := dests + [entries[k]];
        } else {
          ListSkip(dests, entries, workloadKey, done, k);
        }
        MoveOne(entries.Keys, todo, k);
        todo, done := todo - {k}, done + {k};
      }
      assert done == entries.Keys;
      snap := Snapshot(workloadKey, dests, |entries| >= MAX_DESTINATIONS);
    }
  }

  lemma NoneYet(writes: seq<Write>, at: nat, none: set<string>)
    requires none == {}
    ensures OnePerWorkload(writes, |writes|, at, none)
  {
  }

  /** A write of one of the groups, by the tick that ends the trace, is genuine. */
  lemma TickWriteGenuine(w: Write, trace: seq<Event>, window: int, byWorkload: map<string, seq<DestEntry>>)
    requires trace != [] && w.at == |trace| - 1 && trace[w.at].Tick?
    requires Groups(byWorkload, After(trace, window), After(trace, window).Keys)
    requires var wk := w.snapshot.workloadKey;
             && wk in byWorkload && w.snapshot.destinations == byWorkload[wk]
             && wk in Namespaces(trace[..w.at]) && w.namespace == Namespaces(trace[..w.at])[wk] != ""
             && wk in ConfigMaps(trace[..w.at]) && w.configMap == ConfigMaps(trace[..w.at])[wk] != ""
    requires w.snapshot.truncated <==> |After(trace, window)| == MAX_DESTINATIONS
    ensures Genuine(w, trace, window)
  {
    assert trace[..w.at + 1] == trace;
  }

  lemma WorkloadsAreGroups(byWorkload: map<string, seq<DestEntry>>, entries: Entries)
    requires Groups(byWorkload, entries, entries.Keys)
    ensures (set k | k in entries :: k.workload) == byWorkload.Keys
  {
    forall wk | wk in byWorkload ensures exists k :: k in entries && k.workload == wk {
      var d := byWorkload[wk][0];
      assert d in byWorkload[wk];
      assert EntryKey(d) in entries && EntryKey(d).workload == wk;
    }
  }
}
