/** The joints of the pipeline: which workload a decoded flow counts for, and what an applied policy
    allows in terms of the snapshot it was compiled from. */
module Pipeline {
  import opened Base
  import opened Loop
  import opened Trace
  import opened Accumulator
  import opened EndToEnd
  import opened Cluster
  import opened Controllers
  import Generator
  import Hubble
  import Rules
  import Varint

  // ----- Flows off the wire -----

  ghost predicate DecodedFrom(f: Flow, data: Varint.Bytes, now: Time) {
    Hubble.Response(data, now) == Returned(Some(f))
  }

  /** Every flow that the run ingests was decoded from some response. */
  ghost predicate FromHubble(trace: seq<Event>) {
    forall i :: 0 <= i < |trace| && trace[i].Ingest? ==> Decodes(trace[i].flow)
  }

  ghost predicate Decodes(f: Flow) {
    exists data, now :: DecodedFrom(f, data, now)
  }

  /** A decoded flow names a namespace and a pod, and takes the time of its decoding. */
  lemma DecodedFlow(f: Flow, data: Varint.Bytes, now: Time)
    requires DecodedFrom(f, data, now)
    ensures f.sourceNamespace != "" && f.timestamp == now
    ensures WorkloadOf(f) == f.sourceNamespace + "/" + ("Pod/" + f.sourcePod)
  {
    hide Hubble.ObservationIn;
  }

  // ----- Which workloads are ever written -----

  predicate NoSlash(s: string) {
    '/' !in s
  }

  /** Kubernetes names have no slash. */
  predicate Named(namespace: string, t: Target) {
    NoSlash(namespace) && NoSlash(t.kind) && NoSlash(t.name)
  }

  function Slashes(s: string): nat {
    if s == "" then 0 else (if s[0] == '/' then 1 else 0) + Slashes(s[1..])
  }

  lemma {:induction false} SlashesConcat(a: string, b: string)
    ensures Slashes(a + b) == Slashes(a) + Slashes(b)
    ensures Slashes(a) == 0 <==> NoSlash(a)
  {
    if a == "" {
      assert a + b == b;
    } else {
      assert (a + b)[1..] == a[1..] + b;
      SlashesConcat(a[1..], b);
    }
  }

  /** The text up to the first slash is determined. */
  lemma SplitAtSlash(a: string, b: string, c: string, d: string)
    requires NoSlash(a) && NoSlash(c) && a + "/" + b == c + "/" + d
    ensures a == c && b == d
  {
    var s := a + "/" + b;
    assert s[|a|] == '/' && s[|c|] == '/';
    assert forall i :: 0 <= i < |a| ==> s[i] == a[i];
    assert forall i :: 0 <= i < |c| ==> s[i] == c[i];
    assert |a| == |c|;
    assert s[..|a|] == a && s[..|c|] == c;
    assert s[|a| + 1..] == b && s[|c| + 1..] == d;
  }

  lemma OneSlash(a: string, b: string)
    ensures Slashes(a + "/" + b) == Slashes(a) + 1 + Slashes(b)
  {
    SlashesConcat(a + "/", b);
    SlashesConcat(a, "/");
    assert "/"[1..] == "";
  }

  /** Only a pod's own key is the key of a flow of that pod, whatever bytes the flow's names hold. */
  lemma PodKey(ns: string, pod: string, namespace: string, t: Target)
    requires Named(namespace, t) && ns + "/" + ("Pod/" + pod) == WorkloadKey(namespace, t)
    ensures ns == namespace && t == Target("Pod", pod)
  {
    hide Slashes;
    var rest := t.kind + "/" + t.name;
    assert WorkloadKey(namespace, t) == namespace + "/" + rest;
    assert "Pod/" + pod == "Pod" + "/" + pod;
    OneSlash(namespace, rest);
    OneSlash(t.kind, t.name);
    OneSlash(ns, "Pod" + "/" + pod);
    OneSlash("Pod", pod);
    SlashesConcat(namespace, "");
    SlashesConcat(t.kind, "");
    SlashesConcat(t.name, "");
    SlashesConcat(ns, "");
    SplitAtSlash(ns, "Pod" + "/" + pod, namespace, rest);
    SplitAtSlash("Pod", pod, t.kind, t.name);
  }

  /** A decoded flow counts for a registered target exactly when the target is the flow's own pod: the
      decoder never looks up what owns the pod. */
  lemma CountsForIff(f: Flow, data: Varint.Bytes, now: Time, namespace: string, t: Target)
    requires DecodedFrom(f, data, now) && Named(namespace, t)
    ensures WorkloadOf(f) == WorkloadKey(namespace, t) <==>
            f.sourceNamespace == namespace && t == Target("Pod", f.sourcePod)
  {
    DecodedFlow(f, data, now);
    hide DecodedFrom, Named, NoSlash;
    if WorkloadOf(f) == WorkloadKey(namespace, t) { PodKey(f.sourceNamespace, f.sourcePod, namespace, t); }
    assert namespace + "/" + ("Pod/" + f.sourcePod) == namespace + "/" + "Pod" + "/" + f.sourcePod;
  }

  /** A genuine write is of some snapshot with a destination in it, made by a tick. */
  lemma WriteIsNotEmpty(w: Write, trace: seq<Event>, window: int)
    requires Genuine(w, trace, window)
    ensures w.at < |trace| && trace[w.at].Tick? && w.snapshot.destinations != []
  {
  }

  /** A written snapshot has a decoded flow of its workload behind it. */
  lemma WriteHasFlow(w: Write, trace: seq<Event>, window: int) returns (i: nat)
    requires Genuine(w, trace, window) && FromHubble(trace)
    ensures i < |trace| && trace[i].Ingest? && Decodes(trace[i].flow)
    ensures WorkloadOf(trace[i].flow) == w.snapshot.workloadKey
  {
    hide Genuine, After, Decodes, EntryKey;
    WriteIsNotEmpty(w, trace, window);
    var e := w.snapshot.destinations[0];
    WriteLists(w, trace, window, e);
    var k := EntryKey(e);
    EntryHasEvidence(trace, window, w.at, k);
    i :| Evidence(trace, window, w.at, i, k.workload, Rules.Triple(k.fqdn, k.port, k.proto));
  }

  /** So only pods are ever written: a profile whose target is a Deployment, or of any other kind, never
      gets a snapshot from flows that Hubble reports. */
  lemma OnlyPodsAreWritten(w: Write, trace: seq<Event>, window: int, namespace: string, t: Target)
    requires Genuine(w, trace, window) && FromHubble(trace)
    requires Named(namespace, t) && w.snapshot.workloadKey == WorkloadKey(namespace, t)
    ensures t.kind == "Pod"
  {
    hide Genuine, FromHubble, DecodedFrom;
    var i := WriteHasFlow(w, trace, window);
    var data, now :| DecodedFrom(trace[i].flow, data, now);
    CountsForIff(trace[i].flow, data, now, namespace, t);
  }

  // ----- What a policy allows -----

  ghost predicate CnpAllows(cnp: Generator.Cnp, t: Rules.Triple) {
    exists i :: 0 <= i < |cnp.egress| && cnp.egress[i].FqdnRule? && Rules.Matches(cnp.egress[i].rule, t)
  }

  lemma CnpAllowsIff(env: Setting, name: string, p: Profile, snap: Snapshot, t: Rules.Triple)
    ensures CnpAllows(PolicyFor(env, name, p, snap).cnp, t) <==> PolicyAllows(snap, t, env.parsesPublic)
  {
    Generator.EgressShape(name, env.namespace, p.policy, snap.destinations, env.parsesPublic);
    Generator.CompileMeaning(snap.destinations, t, env.parsesPublic);
    hide Generator.Generated, Generator.Compile;
  }

  lemma NothingFromNothing(t: Rules.Triple, parsesPublic: string -> bool)
    ensures !PolicyAllows(EMPTY_SNAPSHOT, t, parsesPublic)
  {
  }

  lemma RouteRegisters(trace: seq<Event>, n: int, r: int, workload: string, place: (string, string))
    requires RoutedBy(trace, n, r, workload, place)
    ensures 0 <= r < |trace| && trace[r].Register? && trace[r].workload == workload
    ensures (trace[r].namespace, trace[r].configMap) == place
  {
  }
}
