/** What the two reconcilers write into the statuses, stated from what they read: the specs, the stored
    snapshot and the proposal's phase (internal/controller). */
module Statuses {
  import opened Base
  import opened Cluster
  import opened Controllers
  import opened ProfileCounts
  import Accounting
  import Generator
  import Scorer
  import Wildcard

  /** The stored snapshot's destinations; none without a ConfigMap, or without a snapshot in it. */
  function StoredDestinations(c: Cluster, cm: string): seq<DestEntry> {
    if cm in c.configMaps && c.configMaps[cm].snapshot.Some? then c.configMaps[cm].snapshot.value.destinations else []
  }

  predicate StoredTruncated(c: Cluster, cm: string) {
    cm in c.configMaps && c.configMaps[cm].snapshot.Some? && c.configMaps[cm].snapshot.value.truncated
  }

  // ----- The profile -----

  /** The switch, whole: which phase a profile reconcile writes, from the mode and the phase that the
      profile's proposal had (NoPhase if there was none). */
  lemma ProfilePhaseTable(c: Cluster, name: string)
    requires name in c.profiles
    ensures var mode, proposal := c.profiles[name].mode, name + "-proposal";
            var seen := if proposal in c.proposals then c.proposals[proposal].status.phase else NoPhase;
            var phase := ProfileReconciled(c, name).profiles[name].status.phase;
            && (phase == Observing <==> mode == Observe)
            && (phase == Enforced <==> mode != Observe && seen == Applied)
            && (phase == AwaitingApproval <==> mode == Enforce && (seen == PendingApproval || seen == Approved))
            && (phase == Proposed <==>
                  || (mode == Suggest && seen != Applied)
                  || (mode == Enforce && (seen == NoPhase || seen == Draft || seen == Failed)))
  {
    hide NextProfileStatus, ConfigMapName, SnapshotOf;
    PhaseIsNext(c, name);
  }

  lemma PhaseIsNext(c: Cluster, name: string)
    requires name in c.profiles
    ensures var mode, proposal := c.profiles[name].mode, name + "-proposal";
            var seen := if proposal in c.proposals then c.proposals[proposal].status.phase else NoPhase;
            ProfileReconciled(c, name).profiles[name].status.phase == NextProfilePhase(mode, seen)
  {
    hide NextProfilePhase, ConfigMapName, SnapshotOf, WithCondition, ProfilePhaseName, CountProfileRisk;
    ObserveAlone();
  }

  lemma ObserveAlone()
    ensures forall s :: NextProfilePhase(Observe, s) == Observing
  {
  }

  /** What else a profile reconcile writes: the counts are of the stored destinations, and the Ready
      condition says the phase. */
  lemma ProfileStatusWritten(c: Cluster, name: string)
    requires name in c.profiles
    ensures var cm, p := "egress-guardian-" + name, c.profiles[name];
            var ds, status := StoredDestinations(c, cm), ProfileReconciled(c, name).profiles[name].status;
            && status.observed == |ds| && status.truncated == StoredTruncated(c, cm) && status.baselineRef == cm
            && status.proposalRef == (if p.mode == Observe then p.status.proposalRef else name + "-proposal")
            && status.high == |Positions(ds, d => UnnamedPublic(d))|
            && status.low == |Positions(ds, d => !UnnamedPublic(d) && Established(d))|
            && status.medium == |Positions(ds, d => !UnnamedPublic(d) && !Established(d))|
            && SaysProfilePhase(status)
  {
    var cm, d := ConfigMapName(name), ProfileReconciled(c, name);
    var ds, status := StoredDestinations(c, cm), d.profiles[name].status;
    ReadyIsWritten(c, name);
    hide NextProfilePhase, WithCondition, ProfilePhaseName, SaysProfilePhase, CountProfileRisk, Positions;
    assert SnapshotOf(WithConfigMap(c, name).configMaps[cm]).destinations == ds;
    CountersArePositions(ds);
  }

  predicate SaysProfilePhase(status: ProfileStatus) {
    var said := match status.phase
      case NotReconciled => "" case Observing => "Observing" case Proposed => "Proposed"
      case AwaitingApproval => "AwaitingApproval" case Enforced => "Enforced" case ProfileFailed => "Failed";
    Condition("Ready", said) in status.conditions
  }

  lemma ReadyIsWritten(c: Cluster, name: string)
    requires name in c.profiles
    ensures SaysProfilePhase(ProfileReconciled(c, name).profiles[name].status)
  {
    var p, status := c.profiles[name], ProfileReconciled(c, name).profiles[name].status;
    hide ConfigMapName, ProposalName, SnapshotOf, NextProfilePhase, CountProfileRisk, WithCondition;
    ConditionKeptOnce(p.status.conditions, Condition("Ready", ProfilePhaseName(status.phase)), "Ready");
  }

  /** The objects a profile reconcile creates: its ConfigMap, empty, and outside mode Observe its
      proposal, neither approved nor with a phase. */
  lemma ProfileCreates(c: Cluster, name: string)
    requires name in c.profiles
    ensures var cm, proposal, d := "egress-guardian-" + name, name + "-proposal", ProfileReconciled(c, name);
            && d.cnps == c.cnps
            && d.configMaps == (if cm in c.configMaps then c.configMaps else c.configMaps[cm := Baseline(None, None)])
            && (if proposal in c.proposals || c.profiles[name].mode == Observe then d.proposals == c.proposals
                else
                  && d.proposals.Keys == c.proposals.Keys + {proposal}
                  && (forall x :: x in c.proposals ==> d.proposals[x] == c.proposals[x])
                  && d.proposals[proposal].profileRef == name && !d.proposals[proposal].approved
                  && d.proposals[proposal].status.phase == NoPhase)
  {
    hide NextProfileStatus, NextProfilePhase, SnapshotOf;
  }

  // ----- The proposal -----

  /** The proposal can be reconciled: its profile and the profile's ConfigMap exist. */
  predicate Ready(c: Cluster, proposal: string) {
    && proposal in c.proposals && c.proposals[proposal].profileRef in c.profiles
    && "egress-guardian-" + c.proposals[proposal].profileRef in c.configMaps
  }

  /** Without those it changes nothing. */
  lemma NotReadyDoesNothing(env: Setting, c: Cluster, proposal: string, applyOk: bool)
    requires !Ready(c, proposal)
    ensures ProposalEffect(env, c, proposal, applyOk) == c
  {
    hide PolicyFor, NextProposalStatus;
  }

  /** The phases a proposal reconcile can write, and when; and the policy it applies. */
  lemma ProposalPhaseTable(env: Setting, c: Cluster, proposal: string, applyOk: bool)
    requires Ready(c, proposal)
    ensures var q := c.proposals[proposal];
            var p, d := c.profiles[q.profileRef], ProposalEffect(env, c, proposal, applyOk);
            var phase, gate := d.proposals[proposal].status.phase, p.mode == Enforce && q.approved;
            && (phase == Applied <==> gate && applyOk)
            && (phase == Failed <==> gate && !applyOk)
            && (phase == PendingApproval <==> !gate)
            && d.profiles == c.profiles && d.proposals[proposal].approved == q.approved
            && (!gate || !applyOk ==> d.cnps == c.cnps)
            && (gate && applyOk ==>
                  var name := if p.policy.generatedPolicyName != "" then p.policy.generatedPolicyName
                              else q.profileRef + "-egress-allowlist";
                  && d.cnps.Keys == c.cnps.Keys + {name} && d.cnps[name].app == q.profileRef
                  && d.configMaps["egress-guardian-" + q.profileRef].policy == Some(d.cnps[name])
                  && forall x :: x in c.cnps && x != name ==> d.cnps[x] == c.cnps[x])
  {
    hide SnapshotOf, WithCondition, ProposalPhaseName, Generator.Compile, Generator.Wrap;
    var q := c.proposals[proposal];
    var ds := SnapshotOf(c.configMaps[ConfigMapName(q.profileRef)]).destinations;
    Generator.PolicyIdentity(q.profileRef, env.namespace, c.profiles[q.profileRef].policy, ds, env.parsesPublic);
    hide Generator.Generated;
  }

  predicate SaysProposalPhase(status: ProposalStatus) {
    var said := match status.phase
      case NoPhase => "" case Draft => "Draft" case PendingApproval => "PendingApproval"
      case Approved => "Approved" case Applied => "Applied" case Failed => "Failed";
    Condition("Ready", said) in status.conditions
  }

  /** The confidence is the mean of the scores, rounded down, or 0 for no destination. */
  ghost predicate IsConfidence(confidence: nat, ds: seq<DestEntry>, parsesPublic: string -> bool) {
    var total := Scorer.Sum(Scorer.ScoresOf(ds, parsesPublic));
    if ds == [] then confidence == 0 else |ds| * confidence <= total < |ds| * confidence + |ds|
  }

  ghost predicate IsOverallRisk(r: Risk, confidence: nat, ds: seq<DestEntry>, parsesPublic: string -> bool) {
    && (r == High <==> confidence < 50)
    && (r == Low <==> confidence >= 80 && forall e :: e in ds ==> Scorer.RiskOf(e, parsesPublic) != High)
  }

  /** The excluded list has each item once for every stored destination excluded as it, and no other. */
  ghost predicate ListsExclusions(excluded: seq<Generator.Exclusion>, ds: seq<DestEntry>,
                                  parsesPublic: string -> bool) {
    forall x :: multiset(excluded)[x] == |set i | 0 <= i < |ds| && Accounting.ExcludedAs(ds[i], x, parsesPublic)|
  }

  /** What else a proposal reconcile writes, from the stored snapshot: every exclusion, the confidence and
      the risk, where the policy text is, and a Ready condition that says the phase. */
  lemma ProposalStatusWritten(env: Setting, c: Cluster, proposal: string, applyOk: bool)
    requires Ready(c, proposal)
    ensures var cm := "egress-guardian-" + c.proposals[proposal].profileRef;
            var ds, pp := StoredDestinations(c, cm), env.parsesPublic;
            var status := ProposalEffect(env, c, proposal, applyOk).proposals[proposal].status;
            && ListsExclusions(status.excluded, ds, pp)
            && IsConfidence(status.confidence, ds, pp)
            && status.risk.Some? && IsOverallRisk(status.risk.value, status.confidence, ds, pp)
            && status.policyRef == cm
            && SaysProposalPhase(status)
  {
    var q := c.proposals[proposal];
    var cm, p := ConfigMapName(q.profileRef), c.profiles[q.profileRef];
    var ds := StoredDestinations(c, cm);
    var snap := SnapshotOf(c.configMaps[cm]);
    assert snap.destinations == ds;
    var g := PolicyFor(env, q.profileRef, p, snap);
    ResultOfSnapshot(env, q.profileRef, p, snap);
    ProposalReadyWritten(env, c, proposal, applyOk);
    hide PolicyFor, WithCondition, ProposalPhaseName, SaysProposalPhase, ListsExclusions, IsConfidence,
        IsOverallRisk, SnapshotOf;
    var status := ProposalEffect(env, c, proposal, applyOk).proposals[proposal].status;
    assert status.excluded == g.excluded && status.confidence == g.confidence && status.risk == Some(g.risk);
  }

  lemma ProposalReadyWritten(env: Setting, c: Cluster, proposal: string, applyOk: bool)
    requires Ready(c, proposal)
    ensures SaysProposalPhase(ProposalEffect(env, c, proposal, applyOk).proposals[proposal].status)
  {
    hide SnapshotOf, NextProposalPhase, PolicyFor, WithCondition;
    var q, status := c.proposals[proposal], ProposalEffect(env, c, proposal, applyOk).proposals[proposal].status;
    ConditionKeptOnce(q.status.conditions, Condition("Ready", ProposalPhaseName(status.phase)), "Ready");
  }

  lemma ResultOfSnapshot(env: Setting, name: string, p: Profile, snap: Snapshot)
    ensures var g, ds := PolicyFor(env, name, p, snap), snap.destinations;
            && ListsExclusions(g.excluded, ds, env.parsesPublic)
            && IsConfidence(g.confidence, ds, env.parsesPublic)
            && IsOverallRisk(g.risk, g.confidence, ds, env.parsesPublic)
  {
    var g, ds := PolicyFor(env, name, p, snap), snap.destinations;
    ExclusionsOf(env, name, p, snap);
    var scores := Scorer.ScoresOf(ds, env.parsesPublic);
    if ds != [] { Scorer.MeanTruncates(scores); }
    Accounting.OverallRiskAgrees(ds, env.parsesPublic);
    hide ListsExclusions, Scorer.Sum, Scorer.ScoresOf, Scorer.RiskOf, Generator.Compile, Generator.ExcludedOf;
  }

  lemma ExclusionsOf(env: Setting, name: string, p: Profile, snap: Snapshot)
    ensures ListsExclusions(PolicyFor(env, name, p, snap).excluded, snap.destinations, env.parsesPublic)
  {
    hide Accounting.ExcludedAs, Generator.Compile, Generator.ExcludedOf;
    forall x { Accounting.ExclusionsExactly(snap.destinations, x, env.parsesPublic); }
  }
}
