/** The objects that the two controllers share, in one namespace, and the decisions they take
    (internal/controller, api/v1alpha1). */
module Cluster {
  import opened Base
  import ProfileCounts
  import Generator

  datatype Mode = Observe | Suggest | Enforce

  datatype ProposalPhase = NoPhase | Draft | PendingApproval | Approved | Applied | Failed

  datatype ProfilePhase = NotReconciled | Observing | Proposed | AwaitingApproval | Enforced | ProfileFailed

  datatype Condition = Condition(kind: string, phase: string)

  datatype ProposalStatus = ProposalStatus(
    phase: ProposalPhase, confidence: nat, risk: Option<Risk>, excluded: seq<Generator.Exclusion>,
    policyRef: string, conditions: seq<Condition>)

  datatype ProfileStatus = ProfileStatus(
    phase: ProfilePhase, observed: nat, truncated: bool, baselineRef: string, proposalRef: string,
    low: nat, medium: nat, high: nat, conditions: seq<Condition>)

  datatype Proposal = Proposal(profileRef: string, approved: bool, status: ProposalStatus)

  /** The workload that a profile governs. */
  datatype Target = Target(kind: string, name: string)

  datatype Profile = Profile(target: Target, mode: Mode, policy: Generator.PolicyConfig, status: ProfileStatus)

  /** The two keys of the per-profile ConfigMap; the policy is the value that its YAML spells. */
  datatype Baseline = Baseline(snapshot: Option<Snapshot>, policy: Option<Generator.Cnp>)

  datatype Cluster = Cluster(
    profiles: map<string, Profile>, proposals: map<string, Proposal>,
    configMaps: map<string, Baseline>, cnps: map<string, Generator.Cnp>)

  const NEW_PROPOSAL_STATUS := ProposalStatus(NoPhase, 0, None, [], "", [])

  const NEW_PROFILE_STATUS := ProfileStatus(NotReconciled, 0, false, "", "", 0, 0, 0, [])

  function ConfigMapName(profile: string): string {
    "egress-guardian-" + profile
  }

  function ProposalName(profile: string): string {
    profile + "-proposal"
  }

  function SnapshotOf(b: Baseline): Snapshot {
    if b.snapshot == None then EMPTY_SNAPSHOT else b.snapshot.value
  }

  // ----- Conditions -----

  /** The conditions with `c` in place of the first one of its kind, or added. */
  function WithCondition(conditions: seq<Condition>, c: Condition): seq<Condition> {
    if conditions == [] then [c]
    else if conditions[0].kind == c.kind then [c] + conditions[1..]
    else [conditions[0]] + WithCondition(conditions[1..], c)
  }

  method SetCondition(conditions: seq<Condition>, c: Condition) returns (r: seq<Condition>)
    ensures r == WithCondition(conditions, c)
  {
    for i := 0 to |conditions|
      invariant WithCondition(conditions, c) == conditions[..i] + WithCondition(conditions[i..], c)
    {
      if conditions[i].kind == c.kind {
        assert conditions[i := c] == conditions[..i] + ([c] + conditions[i..][1..]);
        return conditions[i := c];
      }
      assert conditions[i..] == [conditions[i]] + conditions[i + 1..];
      assert conditions[i..][1..] == conditions[i + 1..];
      assert conditions[..i] + ([conditions[i]] + WithCondition(conditions[i + 1..], c))
          == conditions[..i + 1] + WithCondition(conditions[i + 1..], c);
    }
    assert conditions[|conditions|..] == [] && conditions[..|conditions|] == conditions;
    return conditions + [c];
  }

  /** Where the condition goes: to the place of the first one of its kind, or to the end; all others stay
      where they are. */
  lemma {:induction false} ConditionPlace(conditions: seq<Condition>, c: Condition, i: nat)
    requires i <= |conditions| && (i < |conditions| ==> conditions[i].kind == c.kind)
    requires forall j :: 0 <= j < i ==> conditions[j].kind != c.kind
    ensures WithCondition(conditions, c) == if i < |conditions| then conditions[i := c] else conditions + [c]
  {
    if i > 0 { ConditionPlace(conditions[1..], c, i - 1); }
  }

  function CountKind(conditions: seq<Condition>, kind: string): nat {
    if conditions == [] then 0
    else (if conditions[0].kind == kind then 1 else 0) + CountKind(conditions[1..], kind)
  }

  /** Setting a condition keeps the number of each kind, except that a missing one appears; setting it
      again changes nothing. */
  lemma {:induction false} ConditionKeptOnce(conditions: seq<Condition>, c: Condition, kind: string)
    ensures CountKind(WithCondition(conditions, c), kind) ==
            if kind == c.kind && CountKind(conditions, kind) == 0 then 1 else CountKind(conditions, kind)
    ensures WithCondition(WithCondition(conditions, c), c) == WithCondition(conditions, c)
    ensures c in WithCondition(conditions, c)
  {
    var r := WithCondition(conditions, c);
    if conditions == [] {
      assert r[1..] == [];
    } else if conditions[0].kind == c.kind {
      assert r[1..] == conditions[1..];
    } else {
      assert r[1..] == WithCondition(conditions[1..], c);
      ConditionKeptOnce(conditions[1..], c, kind);
    }
  }

  // ----- Decisions -----

  function ProposalPhaseName(p: ProposalPhase): string {
    match p
    case NoPhase => "" case Draft => "Draft" case PendingApproval => "PendingApproval"
    case Approved => "Approved" case Applied => "Applied" case Failed => "Failed"
  }

  function ProfilePhaseName(p: ProfilePhase): string {
    match p
    case NotReconciled => "" case Observing => "Observing" case Proposed => "Proposed"
    case AwaitingApproval => "AwaitingApproval" case Enforced => "Enforced" case ProfileFailed => "Failed"
  }

  /** The gate: the policy is applied only in mode Enforce with the approval given. */
  predicate MayApply(mode: Mode, approved: bool) {
    mode == Enforce && approved
  }

  function NextProposalPhase(mode: Mode, approved: bool, applyOk: bool): ProposalPhase {
    if MayApply(mode, approved) then (if applyOk then Applied else Failed) else PendingApproval
  }

  function NextProfilePhase(mode: Mode, seen: ProposalPhase): ProfilePhase {
    if mode == Observe then Observing
    else if seen == Applied then Enforced
    else if seen == PendingApproval || seen == Approved then (if mode == Enforce then AwaitingApproval else Proposed)
    else Proposed
  }

  ghost function NextProposalStatus(was: ProposalStatus, phase: ProposalPhase, g: Generator.GenerationResult,
                                    policyRef: string): ProposalStatus {
    ProposalStatus(phase, g.confidence, Some(g.risk), g.excluded, policyRef,
                   WithCondition(was.conditions, Condition("Ready", ProposalPhaseName(phase))))
  }

  ghost function NextProfileStatus(was: ProfileStatus, phase: ProfilePhase, snap: Snapshot, baselineRef: string,
                                   proposalRef: string): ProfileStatus {
    var ds := snap.destinations;
    ProfileStatus(phase, |ds|, snap.truncated, baselineRef, proposalRef,
                  ProfileCounts.CountProfileRisk(ds, Low), ProfileCounts.CountProfileRisk(ds, Medium),
                  ProfileCounts.CountProfileRisk(ds, High),
                  WithCondition(was.conditions, Condition("Ready", ProfilePhaseName(phase))))
  }
}
