/** The approval gate as a protocol: users, the profile controller and the proposal controller
    interleave API call by API call. A read may return any earlier version of the cluster, a write may
    fail, and a reconcile may stop anywhere (internal/controller). */
module Gate {
  import opened Base
  import opened Cluster
  import opened Controllers
  import Generator

  // ----- States -----

  /** What the controllers did, in order. `run` numbers the reconciles and `version` says which version
      of the cluster a read returned. */
  datatype Entry =
    | SawProposal(run: nat, version: nat, name: string)
    | SawProfile(run: nat, version: nat, name: string)
    | WroteCnp(run: nat, name: string, cnp: Generator.Cnp)
    | WroteProposalPhase(run: nat, name: string, phase: ProposalPhase)
    | SawPhase(run: nat, version: nat, name: string)
    | WroteProfilePhase(run: nat, name: string, profilePhase: ProfilePhase)

  /** How far the proposal controller is in its reconcile, with what it has read. */
  datatype ProposalWorker =
    | Idle
    | GotProposal(run: nat, name: string, q: Proposal)
    | GotProfile(run: nat, name: string, q: Proposal, p: Profile)
    | Compiled(run: nat, name: string, q: Proposal, p: Profile, g: Generator.GenerationResult)
    | Applying(run: nat, name: string, q: Proposal, p: Profile, g: Generator.GenerationResult)
    | Decided(run: nat, name: string, q: Proposal, p: Profile, g: Generator.GenerationResult, phase: ProposalPhase)

  datatype ProfileWorker =
    | Resting
    | Started(run: nat, name: string, p: Profile)
    | Ensured(run: nat, name: string, p: Profile)
    | Counted(run: nat, name: string, p: Profile, snap: Snapshot)
    | Creating(run: nat, name: string, p: Profile, snap: Snapshot)
    | Concluded(run: nat, name: string, p: Profile, snap: Snapshot, phase: ProfilePhase, ref: string)

  /** All versions of the cluster so far, the last being the present one. */
  datatype System = System(history: seq<Cluster>, proposals: ProposalWorker, profiles: ProfileWorker,
                           log: seq<Entry>, runs: nat)

  function Now(s: System): Cluster
    requires s.history != []
  {
    s.history[|s.history| - 1]
  }

  function Start(c: Cluster): System {
    System([c], Idle, Resting, [], 0)
  }

  // ----- Steps -----

  datatype Action =
    | UserEdit(next: Cluster)
    | ReadProposal(name: string, version: nat)
    | ReadOwner(version: nat)
    | ReadBaseline(version: nat, ok: bool)
    | SavePolicy(ok: bool)
    | ApplyPolicy(version: nat, ok: bool)
    | WriteProposalStatus(ok: bool, stamped: bool)
    | StopProposal
    | ReadProfile(name: string, version: nat)
    | EnsureBaseline(ok: bool)
    | ReadCounters(version: nat, ok: bool)
    | LookUpProposal(version: nat, ok: bool)
    | CreateProposal(ok: bool)
    | WriteProfileStatus(ok: bool, stamped: bool)
    | StopProfile

  /** Users write specs and anything else they like, but not the status of a profile or a proposal. */
  ghost predicate UserMay(c: Cluster, next: Cluster) {
    && (forall x :: x in next.proposals ==>
          next.proposals[x].status == if x in c.proposals then c.proposals[x].status else NEW_PROPOSAL_STATUS)
    && (forall x :: x in next.profiles ==>
          if x in c.profiles then next.profiles[x].status == c.profiles[x].status
          else next.profiles[x].status.phase == NotReconciled)
  }

  /** One member of a merge patch: what the copy already had is not sent. */
  function Merged<T(==)>(server: T, copy: T, next: T): T {
    if copy == next then server else next
  }

  /** The conditions carry the time of the reconcile, in seconds: `stamped` says that it differs from the
      copy's, and then the list is sent even if it is the same otherwise. */
  function MergedConditions(server: seq<Condition>, copy: seq<Condition>, next: seq<Condition>,
                            stamped: bool): seq<Condition> {
    if stamped then next else Merged(server, copy, next)
  }

  function MergedProposal(server: ProposalStatus, copy: ProposalStatus, next: ProposalStatus,
                          stamped: bool): ProposalStatus {
    ProposalStatus(
      Merged(server.phase, copy.phase, next.phase), Merged(server.confidence, copy.confidence, next.confidence),
      Merged(server.risk, copy.risk, next.risk), Merged(server.excluded, copy.excluded, next.excluded),
      Merged(server.policyRef, copy.policyRef, next.policyRef),
      MergedConditions(server.conditions, copy.conditions, next.conditions, stamped))
  }

  function MergedProfile(server: ProfileStatus, copy: ProfileStatus, next: ProfileStatus,
                         stamped: bool): ProfileStatus {
    ProfileStatus(
      Merged(server.phase, copy.phase, next.phase), Merged(server.observed, copy.observed, next.observed),
      Merged(server.truncated, copy.truncated, next.truncated),
      Merged(server.baselineRef, copy.baselineRef, next.baselineRef),
      Merged(server.proposalRef, copy.proposalRef, next.proposalRef), Merged(server.low, copy.low, next.low),
      Merged(server.medium, copy.medium, next.medium), Merged(server.high, copy.high, next.high),
      MergedConditions(server.conditions, copy.conditions, next.conditions, stamped))
  }

  function Wrote(s: System, c: Cluster): System {
    s.(history := s.history + [c])
  }

  function Logged(s: System, e: Entry): System {
    s.(log := s.log + [e])
  }

  /** The policy is as the read of version v found it, or still missing: only then does the API server
      take the update with that read's resource version, or the creation. */
  ghost predicate Unchanged(s: System, v: nat, policy: string) {
    && v < |s.history|
    && forall u :: v <= u < |s.history| ==>
         (policy in s.history[u].cnps <==> policy in s.history[v].cnps)
         && (policy in s.history[v].cnps ==> s.history[u].cnps[policy] == s.history[v].cnps[policy])
  }

  ghost function ProposalStep(env: Setting, s: System, a: Action): System
    requires s.history != []
  {
    match (a, s.proposals)
    case (ReadProposal(name, v), Idle) =>
      if v < |s.history| && name in s.history[v].proposals then
        Logged(s.(proposals := GotProposal(s.runs, name, s.history[v].proposals[name]), runs := s.runs + 1),
               SawProposal(s.runs, v, name))
      else s
    case (ReadOwner(v), GotProposal(run, name, q)) =>
      if v < |s.history| && q.profileRef in s.history[v].profiles then
        Logged(s.(proposals := GotProfile(run, name, q, s.history[v].profiles[q.profileRef])),
               SawProfile(run, v, q.profileRef))
      else s.(proposals := Idle)
    case (ReadBaseline(v, ok), GotProfile(run, name, q, p)) =>
      var cm := ConfigMapName(q.profileRef);
      if ok && v < |s.history| && cm in s.history[v].configMaps then
        s.(proposals := Compiled(run, name, q, p,
                                 PolicyFor(env, q.profileRef, p, SnapshotOf(s.history[v].configMaps[cm]))))
      else s.(proposals := Idle)
    case (SavePolicy(ok), Compiled(run, name, q, p, g)) =>
      var c, cm := Now(s), ConfigMapName(q.profileRef);
      if ok && cm in c.configMaps then
        Wrote(s.(proposals := if MayApply(p.mode, q.approved) then Applying(run, name, q, p, g)
                              else Decided(run, name, q, p, g, PendingApproval)),
              c.(configMaps := c.configMaps[cm := c.configMaps[cm].(policy := Some(g.cnp))]))
      else s.(proposals := Idle)
    case (ApplyPolicy(v, ok), Applying(run, name, q, p, g)) =>
      if ok && Unchanged(s, v, g.cnp.name) then
        Logged(Wrote(s.(proposals := Decided(run, name, q, p, g, Applied)),
                     Now(s).(cnps := Now(s).cnps[g.cnp.name := g.cnp])),
               WroteCnp(run, name, g.cnp))
      else s.(proposals := Decided(run, name, q, p, g, Failed))
    case (WriteProposalStatus(ok, stamped), Decided(run, name, q, p, g, phase)) =>
      var c := Now(s);
      if ok && name in c.proposals then
        var next := NextProposalStatus(q.status, phase, g, ConfigMapName(q.profileRef));
        Logged(Wrote(s.(proposals := Idle),
                     c.(proposals := c.proposals[name := c.proposals[name].(status :=
                         MergedProposal(c.proposals[name].status, q.status, next, stamped))])),
               WroteProposalPhase(run, name, phase))
      else s.(proposals := Idle)
    case (StopProposal, _) => s.(proposals := Idle)
    case _ => s
  }

  ghost function ProfileStep(s: System, a: Action): System
    requires s.history != []
  {
    match (a, s.profiles)
    case (ReadProfile(name, v), Resting) =>
      if v < |s.history| && name in s.history[v].profiles then
        s.(profiles := Started(s.runs, name, s.history[v].profiles[name]), runs := s.runs + 1)
      else s
    case (EnsureBaseline(ok), Started(run, name, p)) =>
      if ok then Wrote(s.(profiles := Ensured(run, name, p)), WithConfigMap(Now(s), name)) else s.(profiles := Resting)
    case (ReadCounters(v, ok), Ensured(run, name, p)) =>
      var cm := ConfigMapName(name);
      var snap := if ok && v < |s.history| && cm in s.history[v].configMaps
          then SnapshotOf(s.history[v].configMaps[cm]) else EMPTY_SNAPSHOT;
      s.(profiles := if p.mode == Observe then Concluded(run, name, p, snap, Observing, p.status.proposalRef)
                     else Counted(run, name, p, snap))
    case (LookUpProposal(v, ok), Counted(run, name, p, snap)) =>
      var proposal := ProposalName(name);
      if !ok || v >= |s.history| then s.(profiles := Resting)
      else if proposal in s.history[v].proposals then
        var phase := NextProfilePhase(p.mode, s.history[v].proposals[proposal].status.phase);
        Logged(s.(profiles := Concluded(run, name, p, snap, phase, proposal)), SawPhase(run, v, proposal))
      else s.(profiles := Creating(run, name, p, snap))
    case (CreateProposal(ok), Creating(run, name, p, snap)) =>
      if ok && ProposalName(name) !in Now(s).proposals then
        Wrote(s.(profiles := Concluded(run, name, p, snap, NextProfilePhase(p.mode, NoPhase), ProposalName(name))),
              WithProposal(Now(s), name))
      else s.(profiles := Resting)
    case (WriteProfileStatus(ok, stamped), Concluded(run, name, p, snap, phase, ref)) =>
      var c := Now(s);
      if ok && name in c.profiles then
        var next := NextProfileStatus(p.status, phase, snap, ConfigMapName(name), ref);
        Logged(Wrote(s.(profiles := Resting),
                     c.(profiles := c.profiles[name := c.profiles[name].(status :=
                         MergedProfile(c.profiles[name].status, p.status, next, stamped))])),
               WroteProfilePhase(run, name, phase))
      else s.(profiles := Resting)
    case (StopProfile, _) => s.(profiles := Resting)
    case _ => s
  }

  ghost function Step(env: Setting, s: System, a: Action): System
    requires s.history != []
  {
    if a.UserEdit? then (if UserMay(Now(s), a.next) then Wrote(s, a.next) else s)
    else if a.ReadProfile? || a.EnsureBaseline? || a.ReadCounters? || a.LookUpProposal? || a.CreateProposal?
         || a.WriteProfileStatus? || a.StopProfile? then ProfileStep(s, a)
    else ProposalStep(env, s, a)
  }

  /** The system grows: versions and log entries are only added. */
  ghost predicate Extends(s: System, t: System) {
    s.history <= t.history && s.log <= t.log
  }

  lemma StepExtends(env: Setting, s: System, a: Action)
    requires s.history != []
    ensures Extends(s, Step(env, s, a)) && Step(env, s, a).history != []
  {
    hide MergedProposal, MergedProfile, NextProposalStatus, NextProfileStatus, PolicyFor, WithConfigMap,
        WithProposal, UserMay;
  }

  ghost function Run(env: Setting, c: Cluster, actions: seq<Action>): (s: System)
    ensures s.history != []
  {
    if actions == [] then Start(c)
    else
      var before := Run(env, c, actions[..|actions| - 1]);
      StepExtends(env, before, actions[|actions| - 1]);
      Step(env, before, actions[|actions| - 1])
  }
}
