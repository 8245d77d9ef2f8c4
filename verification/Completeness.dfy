/** The other direction of Joint.WireToPolicy: whatever named destination a response can tell of, there
    is a run of the whole system in which the operator comes to allow it. */
module Completeness {
  import opened Base
  import opened Trace
  import opened Accumulator
  import opened EndToEnd
  import opened Cluster
  import opened Controllers
  import opened GateSafety
  import opened Pipeline
  import opened Joint
  import Gate
  import Generator
  import Hubble
  import Rules
  import Varint
  import Wildcard
  import Wire

  // ----- Single moves -----

  lemma RunMore(env: Setting, window: int, c: Cluster, moves: seq<Move>, m: Move)
    ensures Joint.Run(env, window, c, moves + [m]) == Next(env, window, Joint.Run(env, window, c, moves), m, |moves|)
  {
    assert (moves + [m])[..|moves|] == moves;
    hide Next;
  }

  /** A step of the proposal controller, which touches nothing but the gate. */
  lemma ProposalMove(env: Setting, window: int, s: State, a: Gate.Action, at: nat)
    requires Started(s) && (a.ReadProposal? || a.ReadOwner? || a.ReadBaseline? || a.SavePolicy? || a.ApplyPolicy?)
    ensures Next(env, window, s, Act(a), at) == s.(gate := Gate.ProposalStep(env, s.gate, a))
  {
    hide Gate.ProposalStep;
  }

  lemma ProfileMove(env: Setting, window: int, s: State, name: string, at: nat)
    requires Started(s) && s.gate.profiles == Gate.Resting && name in s.gate.history[0].profiles
    ensures var p, g := s.gate.history[0].profiles[name], s.gate;
            Next(env, window, s, Act(Gate.ReadProfile(name, 0)), at) ==
            s.(gate := g.(profiles := Gate.Started(g.runs, name, p), runs := g.runs + 1))
  {
  }

  lemma EnsureMove(env: Setting, window: int, s: State, at: nat)
    requires Started(s) && s.gate.profiles.Started?
        && ConfigMapName(s.gate.profiles.name) in Gate.Now(s.gate).configMaps
    ensures var g, w := s.gate, s.gate.profiles;
            Next(env, window, s, Act(Gate.EnsureBaseline(true)), at) ==
            WithEvent(s.(gate := g.(profiles := Gate.Ensured(w.run, w.name, w.p), history := g.history
                                    + [Gate.Now(g)])),
                      Registration(env.namespace, w.name, w.p), at)
  {
    hide ConfigMapName;
  }

  // ----- The accumulator's part -----

  /** Registered, seen twice, and flushed. */
  function Events(namespace: string, name: string, p: Profile, f: Flow): seq<Event> {
    [Registration(namespace, name, p), Event.Ingest(f), Event.Ingest(f), Event.Tick(f.timestamp)]
  }

  function EntryOf(f: Flow): DestEntry {
    Counted(Touched(NewEntry(f), f))
  }

  function WriteOf(namespace: string, name: string, f: Flow): Write {
    Write(3, namespace, ConfigMapName(name), Snapshot(WorkloadOf(f), [EntryOf(f)], false))
  }

  lemma AfterEvents(namespace: string, name: string, p: Profile, f: Flow, window: int)
    requires window >= 0
    ensures After(Events(namespace, name, p, f), window) == map[KeyOf(f) := EntryOf(f)]
  {
    var t := Events(namespace, name, p, f);
    assert t[..3][..2] == t[..2] && t[..2][..1] == t[..1] && t[..1][..0] == [];
    var m := map[KeyOf(f) := NewEntry(f)];
    assert After(t[..1], window) == map[];
    assert After(t[..2], window) == m;
    assert After(t[..3], window) == map[KeyOf(f) := Touched(NewEntry(f), f)];
    assert Purged(After(t[..3], window), f.timestamp - window) == After(t[..3], window);
  }

  lemma RoutesAfterOne(e: Event)
    requires e.Register?
    ensures Namespaces([e]) == map[e.workload := e.namespace] && ConfigMaps([e]) == map[e.workload := e.configMap]
  {
    assert [e][..0] == [];
  }

  lemma RoutesSkip(trace: seq<Event>, e: Event)
    requires !e.Register?
    ensures Namespaces(trace + [e]) == Namespaces(trace) && ConfigMaps(trace + [e]) == ConfigMaps(trace)
  {
    assert (trace + [e])[..|trace|] == trace;
  }

  lemma WriteIsGenuine(namespace: string, name: string, p: Profile, f: Flow, window: int)
    requires window >= 0 && namespace != "" && WorkloadKey(namespace, p.target) == WorkloadOf(f)
    ensures Genuine(WriteOf(namespace, name, f), Events(namespace, name, p, f), window)
  {
    var t, e := Events(namespace, name, p, f), EntryOf(f);
    AfterEvents(namespace, name, p, f, window);
    var r, i := t[0], t[1];
    RoutesAfterOne(r);
    RoutesSkip([r], i);
    RoutesSkip([r] + [i], i);
    assert [r] + [i] + [i] == t[..3] && t[..4] == t;
    hide After, Namespaces, ConfigMaps, WorkloadKey;
    assert EntryKey(e) == KeyOf(f);
    assert Lists([e], map[KeyOf(f) := e], WorkloadOf(f));
    assert |map[KeyOf(f) := e]| == 1;
  }

  /** A name that some entry can get allowed (see Accounting.AllowableNames). */
  predicate Allowable(name: string) {
    name != "" && (Wildcard.IsAllowedInEnforce(name) || name in Wildcard.UNSCORED_PATTERNS)
  }

  /** Under such a name, a destination seen twice scores at least 50, and the generator lets it pass. */
  lemma EntryPasses(f: Flow, parsesPublic: string -> bool)
    requires Allowable(f.destFqdn)
    ensures Generator.Passes(EntryOf(f), parsesPublic)
  {
    Wildcard.PassesBothTests(f.destFqdn);
  }

  lemma PolicyAllowsEntry(env: Setting, name: string, p: Profile, f: Flow)
    requires Allowable(f.destFqdn)
    ensures CnpAllows(PolicyFor(env, name, p, WriteOf(env.namespace, name, f).snapshot).cnp,
                      Rules.Triple(f.destFqdn, f.destPort, f.protocol))
  {
    var snap, t := WriteOf(env.namespace, name, f).snapshot, Rules.Triple(f.destFqdn, f.destPort, f.protocol);
    EntryPasses(f, env.parsesPublic);
    var e := EntryOf(f);
    assert e in snap.destinations && Generator.TripleOf(e) == t;
    hide Generator.Passes, PolicyFor, CnpAllows, PolicyAllows, EntryOf;
    PolicyAllowsIff(snap, t, env.parsesPublic);
    CnpAllowsIff(env, name, p, snap, t);
  }

  // ----- The run -----

  /** A cluster with one profile in mode Enforce, its approved proposal and an empty ConfigMap. */
  function Initial(name: string, p: Profile): Cluster {
    Cluster(map[name := p], map[ProposalName(name) := Proposal(name, true, NEW_PROPOSAL_STATUS)],
            map[ConfigMapName(name) := Baseline(None, None)], map[])
  }

  function Saved(namespace: string, name: string, p: Profile, f: Flow): Cluster {
    WithSnapshot(Initial(name, p), ConfigMapName(name), WriteOf(namespace, name, f).snapshot)
  }

  function Observed(namespace: string, name: string, data: Varint.Bytes, f: Flow): seq<Move> {
    [Act(Gate.ReadProfile(name, 0)), Act(Gate.EnsureBaseline(true)), Receive(data, f.timestamp),
     Receive(data, f.timestamp), TickAt(f.timestamp), Save(WriteOf(namespace, name, f))]
  }

  function StateAt(g: Gate.System, trace: seq<Event>, origin: seq<nat>, saves: seq<Saving>): State {
    State(g, [Life(trace, origin)], saves)
  }

  lemma OneMoreEvent(g: Gate.System, trace: seq<Event>, origin: seq<nat>, e: Event, at: nat)
    requires g.history != []
    ensures WithEvent(StateAt(g, trace, origin, []), e, at) == StateAt(g, trace + [e], origin + [at], [])
  {
  }

  lemma ReceiveMove(env: Setting, window: int, s: State, data: Varint.Bytes, f: Flow, at: nat)
    requires Started(s) && DecodedFrom(f, data, f.timestamp)
    ensures Next(env, window, s, Receive(data, f.timestamp), at) == WithEvent(s, Event.Ingest(f), at)
  {
    hide Hubble.Response;
  }

  lemma TickMove(env: Setting, window: int, s: State, now: Time, at: nat)
    requires Started(s)
    ensures Next(env, window, s, TickAt(now), at) == WithEvent(s, Event.Tick(now), at)
  {
  }

  lemma SaveMove(env: Setting, window: int, s: State, w: Write, at: nat)
    requires Started(s) && MaySave(env, window, s, w)
    ensures Next(env, window, s, Save(w), at) ==
            s.(gate := Gate.Wrote(s.gate, WithSnapshot(Gate.Now(s.gate), w.configMap, w.snapshot)),
               saves := s.saves + [Saving(|s.lives| - 1, w)])
  {
    hide Genuine;
  }

  lemma Registers(env: Setting, window: int, name: string, p: Profile)
    ensures var c := Initial(name, p);
            Joint.Run(env, window, c, [Act(Gate.ReadProfile(name, 0)), Act(Gate.EnsureBaseline(true))]) ==
            StateAt(Gate.System([c, c], Gate.Idle, Gate.Ensured(0, name, p), [], 1),
                    [Registration(env.namespace, name, p)], [1], [])
  {
    var c := Initial(name, p);
    var a, b := Act(Gate.ReadProfile(name, 0)), Act(Gate.EnsureBaseline(true));
    var s0 := StateAt(Gate.Start(c), [], [], []);
    assert Joint.Run(env, window, c, []) == s0;
    RunMore(env, window, c, [], a);
    RunMore(env, window, c, [a], b);
    assert [] + [a] == [a] && [a] + [b] == [a, b];
    hide Joint.Run, Next, ConfigMapName, ProposalName, Registration;
    ProfileMove(env, window, s0, name, 0);
    var s1 := StateAt(Gate.System([c], Gate.Idle, Gate.Started(0, name, p), [], 1), [], [], []);
    assert Next(env, window, s0, a, 0) == s1;
    EnsureMove(env, window, s1, 1);
    var g := Gate.System([c, c], Gate.Idle, Gate.Ensured(0, name, p), [], 1);
    var e := Registration(env.namespace, name, p);
    assert [c] + [Gate.Now(s1.gate)] == [c, c];
    assert Next(env, window, s1, b, 1) == WithEvent(StateAt(g, [], [], []), e, 1);
    OneMoreEvent(g, [], [], e, 1);
    assert [] + [e] == [e] && [] + [1] == [1];
  }

  /** The gate once the profile is registered. */
  function Rested(name: string, p: Profile): Gate.System {
    Gate.System([Initial(name, p), Initial(name, p)], Gate.Idle, Gate.Ensured(0, name, p), [], 1)
  }

  lemma EventsApart(namespace: string, name: string, p: Profile, f: Flow)
    ensures var t := Events(namespace, name, p, f);
            && t[..1] == [t[0]] && t[..2] == t[..1] + [t[1]] && t[..3] == t[..2] + [t[2]] && t == t[..3] + [t[3]]
  {
  }

  lemma MovesApart(namespace: string, name: string, data: Varint.Bytes, f: Flow)
    ensures var m := Observed(namespace, name, data, f);
            && m[..2] == [m[0], m[1]] && m[..3] == m[..2] + [m[2]] && m[..4] == m[..3] + [m[3]]
            && m[..5] == m[..4] + [m[4]] && m == m[..5] + [m[5]]
  {
  }

  lemma Flushes(env: Setting, window: int, name: string, p: Profile, data: Varint.Bytes, f: Flow)
    requires DecodedFrom(f, data, f.timestamp)
    ensures Joint.Run(env, window, Initial(name, p), Observed(env.namespace, name, data, f)[..5]) ==
            StateAt(Rested(name, p), Events(env.namespace, name, p, f), [1, 2, 3, 4], [])
  {
    var c, g, m := Initial(name, p), Rested(name, p), Observed(env.namespace, name, data, f);
    var t := Events(env.namespace, name, p, f);
    Registers(env, window, name, p);
    EventsApart(env.namespace, name, p, f);
    MovesApart(env.namespace, name, data, f);
    hide Joint.Run, Next, Initial, Registration, DecodedFrom, WithEvent;
    RunMore(env, window, c, m[..2], m[2]);
    ReceiveMove(env, window, StateAt(g, t[..1], [1], []), data, f, 2);
    OneMoreEvent(g, t[..1], [1], t[1], 2);
    RunMore(env, window, c, m[..3], m[3]);
    ReceiveMove(env, window, StateAt(g, t[..2], [1, 2], []), data, f, 3);
    OneMoreEvent(g, t[..2], [1, 2], t[2], 3);
    RunMore(env, window, c, m[..4], m[4]);
    TickMove(env, window, StateAt(g, t[..3], [1, 2, 3], []), f.timestamp, 4);
    OneMoreEvent(g, t[..3], [1, 2, 3], t[3], 4);
    assert [1] + [2] == [1, 2] && [1, 2] + [3] == [1, 2, 3] && [1, 2, 3] + [4] == [1, 2, 3, 4];
  }

  lemma Observes(env: Setting, window: int, name: string, p: Profile, data: Varint.Bytes, f: Flow)
    requires window >= 0 && env.namespace != "" && WorkloadKey(env.namespace, p.target) == WorkloadOf(f)
    requires DecodedFrom(f, data, f.timestamp)
    ensures var c := Initial(name, p);
            Joint.Run(env, window, c, Observed(env.namespace, name, data, f)) ==
            StateAt(Gate.System([c, c, Saved(env.namespace, name, p, f)], Gate.Idle, Gate.Ensured(0, name, p), [], 1),
                    Events(env.namespace, name, p, f), [1, 2, 3, 4], [Saving(0, WriteOf(env.namespace, name, f))])
  {
    var c, w := Initial(name, p), WriteOf(env.namespace, name, f);
    var m := Observed(env.namespace, name, data, f);
    Flushes(env, window, name, p, data, f);
    WriteIsGenuine(env.namespace, name, p, f, window);
    MovesApart(env.namespace, name, data, f);
    RunMore(env, window, c, m[..5], m[5]);
    hide Joint.Run, Next, Genuine, Registration, ConfigMapName, ProposalName, EntryOf;
    var s := Joint.Run(env, window, c, m[..5]);
    assert MaySave(env, window, s, w);
    SaveMove(env, window, s, w, 5);
    assert [c, c] + [Saved(env.namespace, name, p, f)] == [c, c, Saved(env.namespace, name, p, f)];
  }

  function Applied(name: string): seq<Move> {
    [Act(Gate.ReadProposal(ProposalName(name), 0)), Act(Gate.ReadOwner(0)), Act(Gate.ReadBaseline(2, true)),
     Act(Gate.SavePolicy(true)), Act(Gate.ApplyPolicy(0, true))]
  }

  /** From a gate at rest whose third version has a baseline, five steps apply the policy. */
  lemma GateApplies(env: Setting, g: Gate.System, name: string, p: Profile, snap: Snapshot)
    requires p.mode == Enforce && |g.history| == 3 && g.proposals == Gate.Idle && g.log == []
    requires g.history[0] == g.history[1] == Initial(name, p)
    requires g.history[2] == WithSnapshot(Initial(name, p), ConfigMapName(name), snap)
    ensures var g1 := Gate.ProposalStep(env, g, Gate.ReadProposal(ProposalName(name), 0));
            g1.history != [] &&
            var g2 := Gate.ProposalStep(env, g1, Gate.ReadOwner(0));
            g2.history != [] &&
            var g3 := Gate.ProposalStep(env, g2, Gate.ReadBaseline(2, true));
            g3.history != [] &&
            var g4 := Gate.ProposalStep(env, g3, Gate.SavePolicy(true));
            g4.history != [] &&
            var g5 := Gate.ProposalStep(env, g4, Gate.ApplyPolicy(0, true));
            |g5.log| == 3 && g5.log[2].WroteCnp? && g5.log[2].cnp == PolicyFor(env, name, p, snap).cnp
  {
    hide PolicyFor, ConfigMapName, ProposalName;
  }

  /** Completeness: for every allowable name, and every port and protocol, that an ordinary response can
      tell of, there is a run from a cluster without baselines or enforcement in which the operator
      writes a policy that allows it. */
  lemma EveryDestinationCanBeAllowed(env: Setting, window: int, o: Hubble.Observation, now: Time)
    returns (c: Cluster, moves: seq<Move>)
    requires window >= 0 && Hubble.Ordinary(o) && o.namespace != [] && env.namespace == Hubble.TextOf(o.namespace)
    requires Allowable(Hubble.FlowAbout(o, now).destFqdn)
    ensures Fresh(c) && Bare(c)
    ensures var f, g := Hubble.FlowAbout(o, now), Joint.Run(env, window, c, moves).gate;
            |g.log| == 3 && g.log[2].WroteCnp? && CnpAllows(g.log[2].cnp,
                                                            Rules.Triple(f.destFqdn, f.destPort, f.protocol))
  {
    var f, data := Hubble.FlowAbout(o, now), Wire.EncodeMessage(Hubble.ResponseParts(o).response);
    var p := Profile(Target("Pod", f.sourcePod), Enforce, Generator.PolicyConfig(true, ""), NEW_PROFILE_STATUS);
    assert DecodedFrom(f, data, now) && f.timestamp == now by { Hubble.RoundTrip(o, now); }
    OwnPod(f, o, p);
    assert env.namespace != "" by { Hubble.TextEmpty(o.namespace); }
    c := Initial("app", p);
    moves := ObserveAndApply(env.namespace, "app", data, f);
    hide *;
    FlowIsAllowed(env, window, "app", p, data, f);
    InitialIsBare("app", p);
  }

  lemma InitialIsBare(name: string, p: Profile)
    requires p.status == NEW_PROFILE_STATUS
    ensures Fresh(Initial(name, p)) && Bare(Initial(name, p))
  {
  }

  function ObserveAndApply(namespace: string, name: string, data: Varint.Bytes, f: Flow): seq<Move> {
    var a := Applied(name);
    Observed(namespace, name, data, f) + [a[0]] + [a[1]] + [a[2]] + [a[3]] + [a[4]]
  }

  lemma FlowIsAllowed(env: Setting, window: int, name: string, p: Profile, data: Varint.Bytes, f: Flow)
    requires window >= 0 && env.namespace != "" && WorkloadKey(env.namespace, p.target) == WorkloadOf(f)
    requires DecodedFrom(f, data, f.timestamp) && p.mode == Enforce && Allowable(f.destFqdn)
    ensures var g := Joint.Run(env, window, Initial(name, p), ObserveAndApply(env.namespace, name, data, f)).gate;
            && |g.log| == 3 && g.log[2].WroteCnp?
            && CnpAllows(g.log[2].cnp, Rules.Triple(f.destFqdn, f.destPort, f.protocol))
  {
    Observes(env, window, name, p, data, f);
    hide WorkloadKey, WorkloadOf, Joint.Run, CnpAllows, PolicyFor, ConfigMapName, ProposalName, EntryOf, DecodedFrom;
    Applies(env, window, Initial(name, p), Observed(env.namespace, name, data, f), name, p,
            WriteOf(env.namespace, name, f).snapshot);
    PolicyAllowsEntry(env, name, p, f);
  }

  /** A profile that targets the flow's pod registers the flow's key. */
  lemma OwnPod(f: Flow, o: Hubble.Observation, p: Profile)
    requires f == Hubble.FlowAbout(o, f.timestamp) && p.target == Target("Pod", f.sourcePod)
    ensures WorkloadKey(f.sourceNamespace, p.target) == WorkloadOf(f) && f.sourceNamespace == Hubble.TextOf(o.namespace)
  {
    assert "Pod/" + f.sourcePod == "Pod" + "/" + f.sourcePod;
  }

  lemma Applies(env: Setting, window: int, c: Cluster, seen: seq<Move>, name: string, p: Profile, snap: Snapshot)
    requires var g := Joint.Run(env, window, c, seen).gate;
             && p.mode == Enforce && |g.history| == 3 && g.proposals == Gate.Idle && g.log == []
             && g.history[0] == g.history[1] == Initial(name, p)
             && g.history[2] == WithSnapshot(Initial(name, p), ConfigMapName(name), snap)
    ensures var a := Applied(name);
            var g := Joint.Run(env, window, c, seen + [a[0]] + [a[1]] + [a[2]] + [a[3]] + [a[4]]).gate;
            |g.log| == 3 && g.log[2].WroteCnp? && g.log[2].cnp == PolicyFor(env, name, p, snap).cnp
  {
    var a := Applied(name);
    var m1 := seen + [a[0]];
    var m2 := m1 + [a[1]];
    var m3 := m2 + [a[2]];
    var m4 := m3 + [a[3]];
    RunMore(env, window, c, seen, a[0]);
    RunMore(env, window, c, m1, a[1]);
    RunMore(env, window, c, m2, a[2]);
    RunMore(env, window, c, m3, a[3]);
    RunMore(env, window, c, m4, a[4]);
    GateApplies(env, Joint.Run(env, window, c, seen).gate, name, p, snap);
    hide Joint.Run, Next, Gate.ProposalStep, PolicyFor, Initial, WithSnapshot, ConfigMapName, ProposalName;
    ProposalMove(env, window, Joint.Run(env, window, c, seen), a[0].action, |seen|);
    ProposalMove(env, window, Joint.Run(env, window, c, m1), a[1].action, |m1|);
    ProposalMove(env, window, Joint.Run(env, window, c, m2), a[2].action, |m2|);
    ProposalMove(env, window, Joint.Run(env, window, c, m3), a[3].action, |m3|);
    ProposalMove(env, window, Joint.Run(env, window, c, m4), a[4].action, |m4|);
  }
}
