/** The two reconcilers run to completion (internal/controller/egressprofile_controller.go,
    internal/controller/egresspolicyproposal_controller.go), and what they leave alone. Every API call
    succeeds, except that applying the policy may fail. */
module Controllers {
  import opened Base
  import opened Cluster
  import ProfileCounts
  import Accumulator
  import Generator
  import Trace

  /** What one cluster is reconciled under: its namespace and the address test of the scorer. */
  datatype Setting = Setting(namespace: string, parsesPublic: string -> bool)

  ghost function PolicyFor(env: Setting, name: string, p: Profile, snap: Snapshot): Generator.GenerationResult {
    Generator.Generated(name, env.namespace, p.policy, snap.destinations, env.parsesPublic)
  }

  // ----- The effect of one whole reconcile -----

  function WithConfigMap(c: Cluster, name: string): Cluster {
    if ConfigMapName(name) in c.configMaps then c
    else c.(configMaps := c.configMaps[ConfigMapName(name) := Baseline(None, None)])
  }

  function WithProposal(c: Cluster, name: string): Cluster {
    if ProposalName(name) in c.proposals then c
    else c.(proposals := c.proposals[ProposalName(name) := Proposal(name, false, NEW_PROPOSAL_STATUS)])
  }

  ghost function ProfileReconciled(c: Cluster, name: string): Cluster {
    if name !in c.profiles then c
    else
      var p := c.profiles[name];
      var c1 := WithConfigMap(c, name);
      var c2 := if p.mode == Observe then c1 else WithProposal(c1, name);
      var seen := if p.mode == Observe then NoPhase else c2.proposals[ProposalName(name)].status.phase;
      var ref := if p.mode == Observe then p.status.proposalRef else ProposalName(name);
      var status := NextProfileStatus(p.status, NextProfilePhase(p.mode, seen),
                                      SnapshotOf(c1.configMaps[ConfigMapName(name)]), ConfigMapName(name), ref);
      c2.(profiles := c2.profiles[name := p.(status := status)])
  }

  /** A proposal reconcile; `applyOk` says whether the policy, if it is to be applied, is. */
  ghost function ProposalEffect(env: Setting, c: Cluster, proposal: string, applyOk: bool): Cluster {
    if proposal !in c.proposals then c
    else
      var q := c.proposals[proposal];
      var cm := ConfigMapName(q.profileRef);
      if q.profileRef !in c.profiles || cm !in c.configMaps then c
      else
        var p := c.profiles[q.profileRef];
        var g := PolicyFor(env, q.profileRef, p, SnapshotOf(c.configMaps[cm]));
        var status := NextProposalStatus(q.status, NextProposalPhase(p.mode, q.approved, applyOk), g, cm);
        Cluster(c.profiles, c.proposals[proposal := q.(status := status)],
                c.configMaps[cm := c.configMaps[cm].(policy := Some(g.cnp))],
                if MayApply(p.mode, q.approved) && applyOk then c.cnps[g.cnp.name := g.cnp] else c.cnps)
  }

  /** The workload key that a profile reconcile registers with the accumulator, and where its snapshots
      are to go. */
  function WorkloadKey(namespace: string, t: Target): string {
    namespace + "/" + t.kind + "/" + t.name
  }

  function Registration(namespace: string, name: string, p: Profile): Trace.Event {
    Trace.Register(WorkloadKey(namespace, p.target), namespace, ConfigMapName(name))
  }

  // ----- The programs -----

  /** What may go wrong when a policy is applied. */
  datatype ApplyFault = NoFault | ReadFails | WriteFails

  class Operator {
    const namespace: string
    const parsesPublic: string -> bool
    const accumulator: Accumulator.Accumulator?
    var cluster: Cluster

    constructor (namespace: string, parsesPublic: string -> bool, accumulator: Accumulator.Accumulator?,
                 cluster: Cluster)
      ensures this.namespace == namespace && this.parsesPublic == parsesPublic
      ensures this.accumulator == accumulator && this.cluster == cluster
    {
      this.namespace, this.parsesPublic := namespace, parsesPublic;
      this.accumulator, this.cluster := accumulator, cluster;
    }

    method EnsureProposal(name: string) returns (q: Proposal)
      modifies this`cluster
      ensures cluster == WithProposal(old(cluster), name)
      ensures ProposalName(name) in cluster.proposals && q == cluster.proposals[ProposalName(name)]
    {
      if ProposalName(name) in cluster.proposals {
        return cluster.proposals[ProposalName(name)];
      }
      q := Proposal(name, false, NEW_PROPOSAL_STATUS);
      cluster := cluster.(proposals := cluster.proposals[ProposalName(name) := q]);
    }

    /** The switch over the mode and, unless it is Observe, the proposal's phase. */
    method DecidePhase(name: string, profile: Profile) returns (phase: ProfilePhase, proposalRef: string)
      modifies this`cluster
      ensures cluster == if profile.mode == Observe then old(cluster) else WithProposal(old(cluster), name)
      ensures profile.mode == Observe ==> phase == Observing && proposalRef == profile.status.proposalRef
      ensures profile.mode != Observe ==>
                && proposalRef == ProposalName(name) && proposalRef in cluster.proposals
                && phase == NextProfilePhase(profile.mode, cluster.proposals[proposalRef].status.phase)
    {
      phase := Observing;
      proposalRef := profile.status.proposalRef;
      if profile.mode == Suggest || profile.mode == Enforce {
        var proposal := EnsureProposal(name);
        proposalRef := ProposalName(name);
        match proposal.status.phase
        case Applied => phase := Enforced;
        case PendingApproval => phase := if profile.mode == Enforce then AwaitingApproval else Proposed;
        case Approved => phase := if profile.mode == Enforce then AwaitingApproval else Proposed;
        case _ => phase := Proposed;
      }
    }

    method ReconcileProfile(name: string)
      requires accumulator != null ==> accumulator.Valid()
      modifies this, accumulator
      ensures cluster == ProfileReconciled(old(cluster), name)
      ensures accumulator != null ==> accumulator.Valid()
      ensures accumulator != null && name in old(cluster).profiles ==>
                accumulator.trace == old(accumulator.trace)
                    + [Registration(namespace, name, old(cluster).profiles[name])]
      ensures accumulator != null && name !in old(cluster).profiles ==> accumulator.trace == old(accumulator.trace)
      ensures accumulator != null ==> accumulator.saved == old(accumulator.saved)
    {
      hide Accumulator.Accumulator.Valid, ProfileCounts.CountProfileRisk, WithCondition, ProfilePhaseName,
          SnapshotOf, ConfigMapName, ProposalName;
      if name !in cluster.profiles {
        return;
      }
      var profile := cluster.profiles[name];
      var cmName := ConfigMapName(name);
      if cmName !in cluster.configMaps {
        cluster := cluster.(configMaps := cluster.configMaps[cmName := Baseline(None, None)]);
      }
      if accumulator != null {
        accumulator.RegisterWorkload(WorkloadKey(namespace, profile.target), namespace, cmName);
      }
      var snap := SnapshotOf(cluster.configMaps[cmName]);
      var phase, proposalRef := DecidePhase(name, profile);
      var low, medium, high := ProfileCounts.CountRisk(snap.destinations);
      var conditions := SetCondition(profile.status.conditions, Condition("Ready", ProfilePhaseName(phase)));
      var status := ProfileStatus(phase, |snap.destinations|, snap.truncated, cmName, proposalRef, low, medium, high,
                                  conditions);
      cluster := cluster.(profiles := cluster.profiles[name := profile.(status := status)]);
    }

    method ApplyCnp(cnp: Generator.Cnp, fault: ApplyFault) returns (ok: bool)
      modifies this`cluster
      ensures ok <==> fault == NoFault
      ensures cluster == if ok then old(cluster).(cnps := old(cluster).cnps[cnp.name := cnp]) else old(cluster)
    {
      if fault == ReadFails {
        return false;
      }
      if fault == WriteFails {
        return false;
      }
      cluster := cluster.(cnps := cluster.cnps[cnp.name := cnp]);
      return true;
    }

    method ReconcileProposal(name: string, fault: ApplyFault)
      modifies this`cluster
      ensures cluster == ProposalEffect(Setting(namespace, parsesPublic), old(cluster), name, fault == NoFault)
    {
      hide Generator.Generated, WithCondition, ProposalPhaseName, SnapshotOf, ConfigMapName;
      if name !in cluster.proposals {
        return;
      }
      var proposal := cluster.proposals[name];
      if proposal.profileRef !in cluster.profiles {
        return;
      }
      var profile := cluster.profiles[proposal.profileRef];
      var cmName := ConfigMapName(proposal.profileRef);
      if cmName !in cluster.configMaps {
        return;
      }
      var snap := SnapshotOf(cluster.configMaps[cmName]);
      var result := Generator.Generate(proposal.profileRef, namespace, profile.policy, snap.destinations, parsesPublic);
      var baseline := cluster.configMaps[cmName].(policy := Some(result.cnp));
      cluster := cluster.(configMaps := cluster.configMaps[cmName := baseline]);
      var phase := PendingApproval;
      if profile.mode == Enforce {
        if proposal.approved {
          phase := Approved;
          var applied := ApplyCnp(result.cnp, fault);
          phase := if applied then Applied else Failed;
        } else {
          phase := PendingApproval;
        }
      }
      var conditions := SetCondition(proposal.status.conditions, Condition("Ready", ProposalPhaseName(phase)));
      var status := ProposalStatus(phase, result.confidence, Some(result.risk), result.excluded, cmName, conditions);
      cluster := cluster.(proposals := cluster.proposals[name := proposal.(status := status)]);
    }
  }

  // ----- Specs -----

  /** The second cluster has the specs and stored snapshots of the first; what it has beside them is
      not approved, or empty. */
  ghost predicate SameSpecs(c: Cluster, r: Cluster) {
    && r.profiles.Keys == c.profiles.Keys
    && (forall x :: x in c.profiles ==>
          && r.profiles[x].target == c.profiles[x].target && r.profiles[x].mode == c.profiles[x].mode
          && r.profiles[x].policy == c.profiles[x].policy)
    && (forall x :: x in c.proposals ==>
          && x in r.proposals && r.proposals[x].approved == c.proposals[x].approved
          && r.proposals[x].profileRef == c.proposals[x].profileRef)
    && (forall x :: x in r.proposals && x !in c.proposals ==> !r.proposals[x].approved)
    && (forall x :: x in c.configMaps ==> x in r.configMaps && r.configMaps[x].snapshot == c.configMaps[x].snapshot)
    && (forall x :: x in r.configMaps && x !in c.configMaps ==> r.configMaps[x].snapshot == None)
  }

  /** A reconcile leaves every spec, and every stored snapshot, as it was. */
  lemma ProfileKeepsSpecs(c: Cluster, name: string)
    ensures SameSpecs(c, ProfileReconciled(c, name))
  {
    hide NextProfileStatus, ConfigMapName, ProposalName, SnapshotOf, NextProfilePhase;
    CreationsKeepSpecs(c, name);
    CreationsKeepSpecs(WithConfigMap(c, name), name);
    if name in c.profiles {
      var p, c1 := c.profiles[name], WithConfigMap(c, name);
      var c2 := if p.mode == Observe then c1 else WithProposal(c1, name);
      hide SameSpecs;
      SpecsTransitive(c, c1, c2);
      StatusKeepsSpecs(c2, name, ProfileReconciled(c, name).profiles[name].status);
      SpecsTransitive(c, c2, ProfileReconciled(c, name));
    }
  }

  lemma CreationsKeepSpecs(c: Cluster, name: string)
    ensures SameSpecs(c, c) && SameSpecs(c, WithConfigMap(c, name)) && SameSpecs(c, WithProposal(c, name))
  {
    hide *;
    NothingKeepsSpecs(c);
    ConfigMapKeepsSpecs(c, name);
    NewProposalKeepsSpecs(c, name);
  }

  lemma NothingKeepsSpecs(c: Cluster)
    ensures SameSpecs(c, c)
  {
  }

  lemma ConfigMapKeepsSpecs(c: Cluster, name: string)
    ensures SameSpecs(c, WithConfigMap(c, name))
  {
    hide ConfigMapName;
  }

  lemma NewProposalKeepsSpecs(c: Cluster, name: string)
    ensures SameSpecs(c, WithProposal(c, name))
  {
    hide ProposalName;
  }

  lemma StatusKeepsSpecs(c: Cluster, name: string, status: ProfileStatus)
    requires name in c.profiles
    ensures SameSpecs(c, c.(profiles := c.profiles[name := c.profiles[name].(status := status)]))
  {
  }

  lemma SpecsTransitive(a: Cluster, b: Cluster, c: Cluster)
    requires SameSpecs(a, b) && SameSpecs(b, c)
    ensures SameSpecs(a, c)
  {
  }

  lemma ProposalKeepsSpecs(env: Setting, c: Cluster, proposal: string, applyOk: bool)
    ensures SameSpecs(c, ProposalEffect(env, c, proposal, applyOk))
  {
    hide NextProposalStatus, ConfigMapName, SnapshotOf, NextProposalPhase, PolicyFor;
  }
}
