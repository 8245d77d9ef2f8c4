/** Safety of the approval gate over every interleaving. */
module GateSafety {
  import opened Base
  import opened Cluster
  import opened Controllers
  import opened Gate
  import Generator

  // ----- What the log attests -----

  /** Log entry a: that reconcile read this proposal, as some version of the cluster had it. */
  ghost predicate ProposalRead(s: System, a: int, run: nat, name: string, q: Proposal) {
    && 0 <= a < |s.log| && s.log[a].SawProposal? && s.log[a].run == run && s.log[a].name == name
    && s.log[a].version < |s.history|
    && name in s.history[s.log[a].version].proposals && s.history[s.log[a].version].proposals[name] == q
  }

  ghost predicate ProfileRead(s: System, b: int, run: nat, name: string, p: Profile) {
    && 0 <= b < |s.log| && s.log[b].SawProfile? && s.log[b].run == run && s.log[b].name == name
    && s.log[b].version < |s.history|
    && name in s.history[s.log[b].version].profiles && s.history[s.log[b].version].profiles[name] == p
  }

  /** Before position `limit` the reconcile read the proposal, and then the profile it refers to. */
  ghost predicate BothRead(s: System, limit: nat, run: nat, name: string, q: Proposal, p: Profile) {
    exists a, b :: 0 <= a < b < limit && ProposalRead(s, a, run, name, q) && ProfileRead(s, b, run, q.profileRef, p)
  }

  /** The policy is the one generated for that profile from a baseline its ConfigMap really held. */
  ghost predicate FromBaseline(env: Setting, s: System, q: Proposal, p: Profile, cnp: Generator.Cnp) {
    exists v :: 0 <= v < |s.history| && HeldPolicy(env, s.history[v], q, p, cnp)
  }

  ghost predicate HeldPolicy(env: Setting, c: Cluster, q: Proposal, p: Profile, cnp: Generator.Cnp) {
    var cm := ConfigMapName(q.profileRef);
    cm in c.configMaps && cnp == PolicyFor(env, q.profileRef, p, SnapshotOf(c.configMaps[cm])).cnp
  }

  /** The reconcile was entitled to write the policy: it read the approval, then mode Enforce. */
  ghost predicate Authorized(env: Setting, s: System, limit: nat, run: nat, name: string, cnp: Generator.Cnp) {
    exists q, p :: BothRead(s, limit, run, name, q, p) && MayApply(p.mode, q.approved)
        && FromBaseline(env, s, q, p, cnp)
  }

  ghost predicate CnpWritten(s: System, limit: nat, run: nat, name: string) {
    exists j :: 0 <= j < limit && j < |s.log| && s.log[j].WroteCnp? && s.log[j].run == run && s.log[j].name == name
  }

  /** The reconcile read phase Applied of the profile's proposal. */
  ghost predicate AppliedRead(s: System, limit: nat, run: nat, name: string) {
    exists j :: 0 <= j < limit && AppliedAt(s, j, run, name)
  }

  ghost predicate AppliedAt(s: System, j: int, run: nat, name: string) {
    && 0 <= j < |s.log| && s.log[j].SawPhase? && s.log[j].run == run && s.log[j].name == ProposalName(name)
    && s.log[j].version < |s.history|
    && ProposalName(name) in s.history[s.log[j].version].proposals
    && s.history[s.log[j].version].proposals[ProposalName(name)].status.phase == Applied
  }

  ghost predicate PhaseWritten(s: System, name: string) {
    exists i :: 0 <= i < |s.log| && s.log[i].WroteProposalPhase? && s.log[i].name == name && s.log[i].phase == Applied
  }

  ghost predicate EnforcedWritten(s: System, name: string) {
    exists i :: 0 <= i < |s.log| && s.log[i].WroteProfilePhase? && s.log[i].name == name
        && s.log[i].profilePhase == Enforced
  }

  // ----- The invariant -----

  /** Each entry of the log is accounted for by earlier ones. */
  ghost predicate EntryOk(env: Setting, s: System, i: nat)
    requires i < |s.log|
  {
    match s.log[i]
    case WroteCnp(run, name, cnp) => Authorized(env, s, i, run, name, cnp)
    case WroteProposalPhase(run, name, phase) => phase == Applied ==> CnpWritten(s, i, run, name)
    case WroteProfilePhase(run, name, phase) => phase == Enforced ==> AppliedRead(s, i, run, name)
    case _ => true
  }

  ghost predicate LogOk(env: Setting, s: System) {
    forall i :: 0 <= i < |s.log| ==> EntryOk(env, s, i)
  }

  ghost predicate ProposalWorkerOk(env: Setting, s: System) {
    match s.proposals
    case Idle => true
    case GotProposal(run, name, q) => exists a :: ProposalRead(s, a, run, name, q)
    case GotProfile(run, name, q, p) => BothRead(s, |s.log|, run, name, q, p)
    case Compiled(run, name, q, p, g) => BothRead(s, |s.log|, run, name, q, p) && FromBaseline(env, s, q, p, g.cnp)
    case Applying(run, name, q, p, g) =>
      BothRead(s, |s.log|, run, name, q, p) && FromBaseline(env, s, q, p, g.cnp) && MayApply(p.mode, q.approved)
    case Decided(run, name, q, p, g, phase) => phase == Applied ==> CnpWritten(s, |s.log|, run, name)
  }

  ghost predicate ProfileWorkerOk(s: System) {
    s.profiles.Concluded? && s.profiles.phase == Enforced ==> AppliedRead(s, |s.log|, s.profiles.run, s.profiles.name)
  }

  /** No version shows a phase that no controller wrote. */
  ghost predicate VersionOk(s: System, c: Cluster) {
    && (forall x :: x in c.proposals && c.proposals[x].status.phase == Applied ==> PhaseWritten(s, x))
    && (forall x :: x in c.profiles && c.profiles[x].status.phase == Enforced ==> EnforcedWritten(s, x))
  }

  ghost predicate HistoryOk(s: System) {
    forall v :: 0 <= v < |s.history| ==> VersionOk(s, s.history[v])
  }

  ghost predicate Inv(env: Setting, s: System) {
    s.history != [] && LogOk(env, s) && ProposalWorkerOk(env, s) && ProfileWorkerOk(s) && HistoryOk(s)
  }

  // ----- What was attested stays attested -----

  lemma BothReadGrows(s: System, t: System, limit: nat, more: nat, run: nat, name: string, q: Proposal, p: Profile)
    requires Extends(s, t) && limit <= more && BothRead(s, limit, run, name, q, p)
    ensures BothRead(t, more, run, name, q, p)
  {
    var a, b :| 0 <= a < b < limit && ProposalRead(s, a, run, name, q) && ProfileRead(s, b, run, q.profileRef, p);
    assert ProposalRead(t, a, run, name, q) && ProfileRead(t, b, run, q.profileRef, p);
  }

  lemma FromBaselineGrows(env: Setting, s: System, t: System, q: Proposal, p: Profile, cnp: Generator.Cnp)
    requires Extends(s, t) && FromBaseline(env, s, q, p, cnp)
    ensures FromBaseline(env, t, q, p, cnp)
  {
    hide HeldPolicy;
    var v :| 0 <= v < |s.history| && HeldPolicy(env, s.history[v], q, p, cnp);
    assert t.history[v] == s.history[v];
  }

  lemma AuthorizedGrows(env: Setting, s: System, t: System, limit: nat, run: nat, name: string, cnp: Generator.Cnp)
    requires Extends(s, t) && Authorized(env, s, limit, run, name, cnp)
    ensures Authorized(env, t, limit, run, name, cnp)
  {
    hide BothRead, FromBaseline;
    var q, p :| BothRead(s, limit, run, name, q, p) && MayApply(p.mode, q.approved) && FromBaseline(env, s, q, p, cnp);
    BothReadGrows(s, t, limit, limit, run, name, q, p);
    FromBaselineGrows(env, s, t, q, p, cnp);
  }

  lemma CnpWrittenGrows(s: System, t: System, limit: nat, more: nat, run: nat, name: string)
    requires Extends(s, t) && limit <= more && CnpWritten(s, limit, run, name)
    ensures CnpWritten(t, more, run, name)
  {
    var j :| 0 <= j < limit && j < |s.log| && s.log[j].WroteCnp? && s.log[j].run == run && s.log[j].name == name;
    assert t.log[j] == s.log[j];
  }

  lemma AppliedReadGrows(s: System, t: System, limit: nat, more: nat, run: nat, name: string)
    requires Extends(s, t) && limit <= more && AppliedRead(s, limit, run, name)
    ensures AppliedRead(t, more, run, name)
  {
    var j :| 0 <= j < limit && AppliedAt(s, j, run, name);
    assert AppliedAt(t, j, run, name);
  }

  lemma EntryGrows(env: Setting, s: System, t: System, i: nat)
    requires Extends(s, t) && i < |s.log| && EntryOk(env, s, i)
    ensures EntryOk(env, t, i)
  {
    hide Authorized, CnpWritten, AppliedRead;
    assert t.log[i] == s.log[i];
    match s.log[i]
    case WroteCnp(run, name, cnp) => AuthorizedGrows(env, s, t, i, run, name, cnp);
    case WroteProposalPhase(run, name, phase) => if phase == Applied { CnpWrittenGrows(s, t, i, i, run, name); }
    case WroteProfilePhase(run, name, phase) => if phase == Enforced { AppliedReadGrows(s, t, i, i, run, name); }
    case _ =>
  }

  lemma WrittenGrows(s: System, t: System, name: string)
    requires Extends(s, t)
    ensures PhaseWritten(s, name) ==> PhaseWritten(t, name)
    ensures EnforcedWritten(s, name) ==> EnforcedWritten(t, name)
  {
    assert forall i :: 0 <= i < |s.log| ==> t.log[i] == s.log[i];
  }

  lemma VersionGrows(s: System, t: System, c: Cluster)
    requires Extends(s, t) && VersionOk(s, c)
    ensures VersionOk(t, c)
  {
    hide PhaseWritten, EnforcedWritten;
    forall x ensures PhaseWritten(s, x) ==> PhaseWritten(t, x) { WrittenGrows(s, t, x); }
    forall x ensures EnforcedWritten(s, x) ==> EnforcedWritten(t, x) { WrittenGrows(s, t, x); }
  }

  lemma WorkersGrow(env: Setting, s: System, t: System)
    requires Extends(s, t)
    ensures ProposalWorkerOk(env, s) && t.proposals == s.proposals ==> ProposalWorkerOk(env, t)
    ensures ProfileWorkerOk(s) && t.profiles == s.profiles ==> ProfileWorkerOk(t)
  {
    hide BothRead, FromBaseline, CnpWritten, AppliedRead;
    if ProfileWorkerOk(s) && s.profiles.Concluded? && s.profiles.phase == Enforced {
      AppliedReadGrows(s, t, |s.log|, |t.log|, s.profiles.run, s.profiles.name);
    }
    if ProposalWorkerOk(env, s) {
      match s.proposals
      case Idle =>
      case GotProposal(run, name, q) =>
        var a :| ProposalRead(s, a, run, name, q);
        assert ProposalRead(t, a, run, name, q);
      case GotProfile(run, name, q, p) => BothReadGrows(s, t, |s.log|, |t.log|, run, name, q, p);
      case Compiled(run, name, q, p, g) =>
        BothReadGrows(s, t, |s.log|, |t.log|, run, name, q, p);
        FromBaselineGrows(env, s, t, q, p, g.cnp);
      case Applying(run, name, q, p, g) =>
        BothReadGrows(s, t, |s.log|, |t.log|, run, name, q, p);
        FromBaselineGrows(env, s, t, q, p, g.cnp);
      case Decided(run, name, q, p, g, phase) =>
        if phase == Applied { CnpWrittenGrows(s, t, |s.log|, |t.log|, run, name); }
    }
  }

  // ----- Preservation -----

  /** What a step has to show beyond the old facts: the entry and the version it added, and the worker
      it moved. */
  lemma InvFromParts(env: Setting, s: System, t: System)
    requires Inv(env, s) && Extends(s, t)
    requires |t.history| <= |s.history| + 1 && |t.log| <= |s.log| + 1
    requires |t.log| == |s.log| + 1 ==> EntryOk(env, t, |s.log|)
    requires |t.history| == |s.history| + 1 ==> VersionOk(t, t.history[|s.history|])
    requires t.proposals == s.proposals || ProposalWorkerOk(env, t)
    requires t.profiles == s.profiles || ProfileWorkerOk(t)
    ensures Inv(env, t)
  {
    hide EntryOk, VersionOk, ProposalWorkerOk, ProfileWorkerOk;
    WorkersGrow(env, s, t);
    forall i | 0 <= i < |t.log| ensures EntryOk(env, t, i) {
      if i < |s.log| { EntryGrows(env, s, t, i); }
    }
    forall v | 0 <= v < |t.history| ensures VersionOk(t, t.history[v]) {
      if v < |s.history| {
        assert t.history[v] == s.history[v];
        VersionGrows(s, t, s.history[v]);
      }
    }
  }

  /** A version whose statuses are those of the present one, or new, is as good as the present one. */
  lemma SameStatuses(s: System, t: System, c: Cluster, d: Cluster)
    requires Extends(s, t) && VersionOk(s, c)
    requires forall x :: x in d.proposals && d.proposals[x].status.phase == Applied ==>
               x in c.proposals && c.proposals[x].status.phase == Applied
    requires forall x :: x in d.profiles && d.profiles[x].status.phase == Enforced ==>
               x in c.profiles && c.profiles[x].status.phase == Enforced
    ensures VersionOk(t, d)
  {
    VersionGrows(s, t, c);
    hide PhaseWritten, EnforcedWritten;
  }

  lemma UserEditKeeps(env: Setting, s: System, next: Cluster)
    requires Inv(env, s) && UserMay(Now(s), next)
    ensures Inv(env, Wrote(s, next))
  {
    var t := Wrote(s, next);
    assert VersionOk(s, Now(s));
    SameStatuses(s, t, Now(s), next);
    hide Inv;
    InvFromParts(env, s, t);
  }

  lemma ReadProposalKeeps(env: Setting, s: System, name: string, v: nat)
    requires Inv(env, s) && s.proposals.Idle?
    ensures Inv(env, ProposalStep(env, s, ReadProposal(name, v)))
  {
    var t := ProposalStep(env, s, ReadProposal(name, v));
    if v < |s.history| && name in s.history[v].proposals {
      assert ProposalRead(t, |s.log|, s.runs, name, s.history[v].proposals[name]);
    }
    hide Inv;
    InvFromParts(env, s, t);
  }

  /** The entry of the second read completes what the first one began. */
  lemma SecondRead(s: System, t: System, a: int, run: nat, name: string, q: Proposal, v: nat)
    requires ProposalRead(s, a, run, name, q) && t.history == s.history
    requires v < |s.history| && q.profileRef in s.history[v].profiles
    requires t.log == s.log + [SawProfile(run, v, q.profileRef)]
    ensures BothRead(t, |t.log|, run, name, q, s.history[v].profiles[q.profileRef])
  {
    assert ProposalRead(t, a, run, name, q);
    assert ProfileRead(t, |s.log|, run, q.profileRef, s.history[v].profiles[q.profileRef]);
  }

  lemma ReadOwnerStep(env: Setting, s: System, v: nat)
    requires s.history != [] && s.proposals.GotProposal?
    ensures var t, w := ProposalStep(env, s, ReadOwner(v)), s.proposals;
            if v < |s.history| && w.q.profileRef in s.history[v].profiles then
              t == s.(proposals := GotProfile(w.run, w.name, w.q, s.history[v].profiles[w.q.profileRef]),
                      log := s.log + [SawProfile(w.run, v, w.q.profileRef)])
            else t == s.(proposals := Idle)
  {
    hide PolicyFor, NextProposalStatus, MergedProposal, Unchanged;
  }

  lemma FirstRead(env: Setting, s: System) returns (a: int)
    requires Inv(env, s) && s.proposals.GotProposal?
    ensures s.history != [] && ProposalRead(s, a, s.proposals.run, s.proposals.name, s.proposals.q)
  {
    hide LogOk, HistoryOk, ProfileWorkerOk, ProposalRead;
    a :| ProposalRead(s, a, s.proposals.run, s.proposals.name, s.proposals.q);
  }

  lemma ReadersAreOk(env: Setting, s: System)
    requires var w := s.proposals; w.Idle? || (w.GotProfile? && BothRead(s, |s.log|, w.run, w.name, w.q, w.p))
    ensures ProposalWorkerOk(env, s)
  {
    hide BothRead, FromBaseline, CnpWritten;
  }

  lemma ReadOwnerKeeps(env: Setting, s: System, v: nat)
    requires Inv(env, s) && s.proposals.GotProposal?
    ensures Inv(env, ProposalStep(env, s, ReadOwner(v)))
  {
    hide *;
    var a := FirstRead(env, s);
    ReadOwnerStep(env, s, v);
    var t, w := ProposalStep(env, s, ReadOwner(v)), s.proposals;
    if v < |s.history| && w.q.profileRef in s.history[v].profiles {
      SecondRead(s, t, a, w.run, w.name, w.q, v);
      ReadsAreOk(env, t, |s.log|);
    }
    ReadersAreOk(env, t);
    ExtendsBoth(s, t);
    InvFromParts(env, s, t);
  }

  lemma ReadsAreOk(env: Setting, s: System, i: nat)
    requires i < |s.log| && (s.log[i].SawProposal? || s.log[i].SawProfile? || s.log[i].SawPhase?)
    ensures EntryOk(env, s, i)
  {
  }

  lemma ReadBaselineKeeps(env: Setting, s: System, v: nat, ok: bool)
    requires Inv(env, s) && s.proposals.GotProfile?
    ensures Inv(env, ProposalStep(env, s, ReadBaseline(v, ok)))
  {
    hide PolicyFor, BothRead;
    var t := ProposalStep(env, s, ReadBaseline(v, ok));
    var w := s.proposals;
    if t.proposals.Compiled? {
      assert HeldPolicy(env, s.history[v], w.q, w.p, t.proposals.g.cnp);
      assert FromBaseline(env, t, w.q, w.p, t.proposals.g.cnp);
      BothReadGrows(s, t, |s.log|, |t.log|, w.run, w.name, w.q, w.p);
    }
    hide Inv, FromBaseline;
    InvFromParts(env, s, t);
  }

  lemma SavePolicyKeeps(env: Setting, s: System, ok: bool)
    requires Inv(env, s) && s.proposals.Compiled?
    ensures Inv(env, ProposalStep(env, s, SavePolicy(ok)))
  {
    hide BothRead, FromBaseline, CnpWritten;
    var t := ProposalStep(env, s, SavePolicy(ok));
    var w := s.proposals;
    assert VersionOk(s, Now(s));
    assert Extends(s, t);
    BothReadGrows(s, t, |s.log|, |t.log|, w.run, w.name, w.q, w.p);
    FromBaselineGrows(env, s, t, w.q, w.p, w.g.cnp);
    SameStatuses(s, t, Now(s), Now(t));
    hide Inv;
    InvFromParts(env, s, t);
  }

  lemma ApplyStep(env: Setting, s: System, v: nat, ok: bool)
    requires s.history != [] && s.proposals.Applying?
    ensures var t, w := ProposalStep(env, s, ApplyPolicy(v, ok)), s.proposals;
            && t.profiles == s.profiles && s.history <= t.history && s.log <= t.log
            && (if ok && Unchanged(s, v, w.g.cnp.name) then
                  && t.proposals == Decided(w.run, w.name, w.q, w.p, w.g, Applied)
                  && t.history == s.history + [Now(t)] && t.log == s.log + [WroteCnp(w.run, w.name, w.g.cnp)]
                  && Now(t) == Now(s).(cnps := Now(s).cnps[w.g.cnp.name := w.g.cnp])
                else t == s.(proposals := Decided(w.run, w.name, w.q, w.p, w.g, Failed)))
  {
    hide PolicyFor, NextProposalStatus, MergedProposal, Unchanged;
  }

  lemma ReadyToApply(env: Setting, s: System)
    requires Inv(env, s) && s.proposals.Applying?
    ensures var w := s.proposals;
            s.history != [] && Authorized(env, s, |s.log|, w.run, w.name, w.g.cnp) && VersionOk(s, Now(s))
  {
    hide BothRead, FromBaseline, LogOk, ProfileWorkerOk, VersionOk;
  }

  /** A policy write is entitled to its log entry, and attests itself. */
  lemma WriteIsLogged(env: Setting, s: System, t: System, run: nat, name: string, cnp: Generator.Cnp)
    requires s.history <= t.history && t.log == s.log + [WroteCnp(run, name, cnp)]
    requires Authorized(env, s, |s.log|, run, name, cnp)
    ensures EntryOk(env, t, |s.log|) && CnpWritten(t, |t.log|, run, name)
  {
    AuthorizedGrows(env, s, t, |s.log|, run, name, cnp);
    hide Authorized;
    assert t.log[|s.log|] == WroteCnp(run, name, cnp);
  }

  lemma DecidedIsOk(env: Setting, s: System)
    requires s.proposals.Decided?
    requires s.proposals.phase == Applied ==> CnpWritten(s, |s.log|, s.proposals.run, s.proposals.name)
    ensures ProposalWorkerOk(env, s)
  {
    hide BothRead, FromBaseline, CnpWritten;
  }

  lemma ExtendsBoth(s: System, t: System)
    requires s.history <= t.history && s.log <= t.log
    ensures Extends(s, t)
  {
  }

  lemma ApplyKeeps(env: Setting, s: System, v: nat, ok: bool)
    requires Inv(env, s) && s.proposals.Applying?
    ensures Inv(env, ProposalStep(env, s, ApplyPolicy(v, ok)))
  {
    hide *;
    ReadyToApply(env, s);
    ApplyStep(env, s, v, ok);
    var t, w := ProposalStep(env, s, ApplyPolicy(v, ok)), s.proposals;
    ExtendsBoth(s, t);
    if t.log != s.log {
      WriteIsLogged(env, s, t, w.run, w.name, w.g.cnp);
      SameStatuses(s, t, Now(s), Now(t));
      assert t.history[|s.history|] == Now(t);
    }
    DecidedIsOk(env, t);
    InvFromParts(env, s, t);
  }

  lemma WriteProposalStatusKeeps(env: Setting, s: System, ok: bool, stamped: bool)
    requires Inv(env, s) && s.proposals.Decided?
    ensures Inv(env, ProposalStep(env, s, WriteProposalStatus(ok, stamped)))
  {
    hide NextProposalStatus, CnpWritten;
    var t := ProposalStep(env, s, WriteProposalStatus(ok, stamped));
    var w := s.proposals;
    var c := Now(s);
    assert VersionOk(s, c);
    assert Extends(s, t);
    if ok && w.name in c.proposals {
      var next := NextProposalStatus(w.q.status, w.phase, w.g, ConfigMapName(w.q.profileRef));
      assert next.phase == w.phase by { PhaseOfNext(w.q.status, w.phase, w.g, ConfigMapName(w.q.profileRef)); }
      assert t.log[|s.log|] == WroteProposalPhase(w.run, w.name, w.phase);
      if w.phase == Applied { CnpWrittenGrows(s, t, |s.log|, |s.log|, w.run, w.name); }
      VersionGrows(s, t, c);
      assert w.phase == Applied ==> PhaseWritten(t, w.name);
      hide PhaseWritten, EnforcedWritten;
      assert VersionOk(t, Now(t));
    } else {
      SameStatuses(s, t, c, Now(t));
    }
    hide Inv, VersionOk;
    InvFromParts(env, s, t);
  }

  lemma PhaseOfNext(was: ProposalStatus, phase: ProposalPhase, g: Generator.GenerationResult, ref: string)
    ensures NextProposalStatus(was, phase, g, ref).phase == phase
  {
  }

  lemma PhaseOfNextProfile(was: ProfileStatus, phase: ProfilePhase, snap: Snapshot, cm: string, ref: string)
    ensures NextProfileStatus(was, phase, snap, cm, ref).phase == phase
  {
  }

  lemma StopsKeep(env: Setting, s: System, t: System)
    requires Inv(env, s) && t.history == s.history && t.log == s.log
    requires t.proposals == s.proposals || t.proposals == Idle
    requires t.profiles == s.profiles || !t.profiles.Concluded? || t.profiles.phase != Enforced
    ensures Inv(env, t)
  {
    hide Inv;
    assert Extends(s, t);
    InvFromParts(env, s, t);
  }

  lemma EnsureBaselineKeeps(env: Setting, s: System, ok: bool)
    requires Inv(env, s) && s.profiles.Started?
    ensures Inv(env, ProfileStep(s, EnsureBaseline(ok)))
  {
    var t := ProfileStep(s, EnsureBaseline(ok));
    assert VersionOk(s, Now(s));
    SameStatuses(s, t, Now(s), Now(t));
    hide Inv;
    InvFromParts(env, s, t);
  }

  lemma LookUpProposalKeeps(env: Setting, s: System, v: nat, ok: bool)
    requires Inv(env, s) && s.profiles.Counted?
    ensures Inv(env, ProfileStep(s, LookUpProposal(v, ok)))
  {
    var t := ProfileStep(s, LookUpProposal(v, ok));
    var w := s.profiles;
    assert Extends(s, t);
    if t.profiles.Concluded? && t.profiles.phase == Enforced {
      assert AppliedAt(t, |s.log|, w.run, w.name);
      assert AppliedRead(t, |t.log|, w.run, w.name);
    }
    hide Inv, AppliedRead;
    InvFromParts(env, s, t);
  }

  lemma CreateProposalKeeps(env: Setting, s: System, ok: bool)
    requires Inv(env, s) && s.profiles.Creating?
    ensures Inv(env, ProfileStep(s, CreateProposal(ok)))
  {
    var t := ProfileStep(s, CreateProposal(ok));
    assert VersionOk(s, Now(s));
    SameStatuses(s, t, Now(s), Now(t));
    hide Inv;
    InvFromParts(env, s, t);
  }

  lemma WriteProfileStatusKeeps(env: Setting, s: System, ok: bool, stamped: bool)
    requires Inv(env, s) && s.profiles.Concluded?
    ensures Inv(env, ProfileStep(s, WriteProfileStatus(ok, stamped)))
  {
    hide NextProfileStatus, AppliedRead;
    var t := ProfileStep(s, WriteProfileStatus(ok, stamped));
    var w, c := s.profiles, Now(s);
    assert VersionOk(s, c);
    assert Extends(s, t);
    if ok && w.name in c.profiles {
      var next := NextProfileStatus(w.p.status, w.phase, w.snap, ConfigMapName(w.name), w.ref);
      assert next.phase == w.phase by { PhaseOfNextProfile(w.p.status, w.phase, w.snap, ConfigMapName(w.name), w.ref); }
      assert t.log[|s.log|] == WroteProfilePhase(w.run, w.name, w.phase);
      if w.phase == Enforced { AppliedReadGrows(s, t, |s.log|, |s.log|, w.run, w.name); }
      VersionGrows(s, t, c);
      assert w.phase == Enforced ==> EnforcedWritten(t, w.name);
      hide PhaseWritten, EnforcedWritten;
      assert VersionOk(t, Now(t));
    } else {
      SameStatuses(s, t, c, Now(t));
    }
    hide Inv, VersionOk;
    InvFromParts(env, s, t);
  }

  lemma ProposalStepKeeps(env: Setting, s: System, a: Action)
    requires Inv(env, s)
    ensures Inv(env, ProposalStep(env, s, a))
  {
    hide Inv;
    match (a, s.proposals)
    case (ReadProposal(name, v), Idle) => ReadProposalKeeps(env, s, name, v);
    case (ReadOwner(v), GotProposal(_, _, _)) => ReadOwnerKeeps(env, s, v);
    case (ReadBaseline(v, ok), GotProfile(_, _, _, _)) => ReadBaselineKeeps(env, s, v, ok);
    case (SavePolicy(ok), Compiled(_, _, _, _, _)) => SavePolicyKeeps(env, s, ok);
    case (ApplyPolicy(v, ok), Applying(_, _, _, _, _)) => ApplyKeeps(env, s, v, ok);
    case (WriteProposalStatus(ok, stamped), Decided(_, _, _, _, _, _)) => WriteProposalStatusKeeps(env, s, ok, stamped);
    case (StopProposal, _) => StopsKeep(env, s, s.(proposals := Idle));
    case _ =>
  }

  lemma ProfileStepKeeps(env: Setting, s: System, a: Action)
    requires Inv(env, s)
    ensures Inv(env, ProfileStep(s, a))
  {
    assert s.history != [];
    hide Inv;
    match (a, s.profiles)
    case (ReadProfile(name, v), Resting) => StopsKeep(env, s, ProfileStep(s, a));
    case (EnsureBaseline(ok), Started(_, _, _)) => EnsureBaselineKeeps(env, s, ok);
    case (ReadCounters(v, ok), Ensured(_, _, _)) => StopsKeep(env, s, ProfileStep(s, a));
    case (LookUpProposal(v, ok), Counted(_, _, _, _)) => LookUpProposalKeeps(env, s, v, ok);
    case (CreateProposal(ok), Creating(_, _, _, _)) => CreateProposalKeeps(env, s, ok);
    case (WriteProfileStatus(ok, stamped), Concluded(_, _, _, _, _, _)) => WriteProfileStatusKeeps(env, s, ok, stamped);
    case (StopProfile, _) => StopsKeep(env, s, s.(profiles := Resting));
    case _ =>
  }

  lemma StepKeeps(env: Setting, s: System, a: Action)
    requires Inv(env, s)
    ensures Inv(env, Step(env, s, a))
  {
    hide ProposalStep, ProfileStep, UserMay;
    ProposalStepKeeps(env, s, a);
    ProfileStepKeeps(env, s, a);
    if a.UserEdit? && UserMay(Now(s), a.next) { UserEditKeeps(env, s, a.next); }
  }

  /** A cluster in which nothing was enforced yet. */
  ghost predicate Fresh(c: Cluster) {
    && (forall x :: x in c.proposals ==> c.proposals[x].status.phase != Applied)
    && (forall x :: x in c.profiles ==> c.profiles[x].status.phase != Enforced)
  }

  lemma {:induction false} RunKeeps(env: Setting, c: Cluster, actions: seq<Action>)
    requires Fresh(c)
    ensures Inv(env, Run(env, c, actions))
  {
    if actions == [] {
      assert VersionOk(Start(c), c);
    } else {
      RunKeeps(env, c, actions[..|actions| - 1]);
      StepKeeps(env, Run(env, c, actions[..|actions| - 1]), actions[|actions| - 1]);
    }
  }

  // ----- Theorems -----

  /** Every policy written in any run was written by a reconcile that had read the approval of its
      proposal and, after that, mode Enforce of the profile it refers to, and is the policy generated for
      that profile from a baseline the ConfigMap held. */
  lemma CnpWritesAreAuthorized(env: Setting, c: Cluster, actions: seq<Action>, i: nat)
    requires Fresh(c)
    requires i < |Run(env, c, actions).log| && Run(env, c, actions).log[i].WroteCnp?
    ensures var s := Run(env, c, actions);
            Authorized(env, s, i, s.log[i].run, s.log[i].name, s.log[i].cnp)
  {
    RunKeeps(env, c, actions);
    var s := Run(env, c, actions);
    hide Authorized, Run;
    assert EntryOk(env, s, i);
  }

  /** Applied is written only after the same reconcile wrote the policy, and Enforced only after the
      same reconcile read Applied. */
  lemma PhasesFollowWrites(env: Setting, c: Cluster, actions: seq<Action>, i: nat)
    requires Fresh(c) && i < |Run(env, c, actions).log|
    ensures var s := Run(env, c, actions);
            && (s.log[i].WroteProposalPhase? && s.log[i].phase == Applied ==>
                CnpWritten(s, i, s.log[i].run, s.log[i].name))
            && (s.log[i].WroteProfilePhase? && s.log[i].profilePhase == Enforced ==>
                AppliedRead(s, i, s.log[i].run, s.log[i].name))
  {
    RunKeeps(env, c, actions);
    var s := Run(env, c, actions);
    hide Run, CnpWritten, AppliedRead;
    assert EntryOk(env, s, i);
  }

  /** The proposal was approved in some version, and the profile it then referred to was in mode Enforce
      in some version. */
  ghost predicate OnceEntitled(s: System, name: string) {
    exists v, w :: 0 <= v < |s.history| && 0 <= w < |s.history| && EntitledAt(s.history[v], s.history[w], name)
  }

  ghost predicate EntitledAt(c: Cluster, d: Cluster, name: string) {
    && name in c.proposals && c.proposals[name].approved
    && c.proposals[name].profileRef in d.profiles && d.profiles[c.proposals[name].profileRef].mode == Enforce
  }

  lemma AuthorizedMeansEntitled(env: Setting, s: System, limit: nat, run: nat, name: string, cnp: Generator.Cnp)
    requires Authorized(env, s, limit, run, name, cnp)
    ensures OnceEntitled(s, name)
  {
    hide FromBaseline;
    var q, p :| BothRead(s, limit, run, name, q, p) && MayApply(p.mode, q.approved) && FromBaseline(env, s, q, p, cnp);
    var a, b :| 0 <= a < b < limit && ProposalRead(s, a, run, name, q) && ProfileRead(s, b, run, q.profileRef, p);
    assert EntitledAt(s.history[s.log[a].version], s.history[s.log[b].version], name);
  }

  lemma WrittenMeansEntitled(env: Setting, s: System, name: string)
    requires Inv(env, s) && PhaseWritten(s, name)
    ensures OnceEntitled(s, name)
  {
    hide Authorized, OnceEntitled, ProposalWorkerOk, ProfileWorkerOk, HistoryOk;
    var i :| 0 <= i < |s.log| && s.log[i].WroteProposalPhase? && s.log[i].name == name && s.log[i].phase == Applied;
    assert EntryOk(env, s, i);
    var j :| 0 <= j < i && j < |s.log| && s.log[j].WroteCnp? && s.log[j].run == s.log[i].run && s.log[j].name == name;
    assert EntryOk(env, s, j);
    AuthorizedMeansEntitled(env, s, j, s.log[j].run, name, s.log[j].cnp);
  }

  lemma EnforcedMeansEntitled(env: Setting, s: System, name: string)
    requires Inv(env, s) && EnforcedWritten(s, name)
    ensures OnceEntitled(s, ProposalName(name))
  {
    hide OnceEntitled, ProposalWorkerOk, ProfileWorkerOk, PhaseWritten, CnpWritten, Authorized;
    var i :| 0 <= i < |s.log| && s.log[i].WroteProfilePhase? && s.log[i].name == name
        && s.log[i].profilePhase == Enforced;
    assert EntryOk(env, s, i);
    var j :| 0 <= j < i && AppliedAt(s, j, s.log[i].run, name);
    assert VersionOk(s, s.history[s.log[j].version]);
    WrittenMeansEntitled(env, s, ProposalName(name));
  }

  /** Safety over whole runs, object by object: a policy is written for a proposal, its phase is Applied
      in some version, or its profile's phase is Enforced, only if some version had it approved and some
      version had the profile it referred to in mode Enforce. */
  lemma NothingWithoutEntitlement(env: Setting, c: Cluster, actions: seq<Action>, name: string)
    requires Fresh(c) && !OnceEntitled(Run(env, c, actions), name)
    ensures var s := Run(env, c, actions);
            && (forall i :: 0 <= i < |s.log| && s.log[i].WroteCnp? ==> s.log[i].name != name)
            && (forall v :: 0 <= v < |s.history| && name in s.history[v].proposals ==>
                s.history[v].proposals[name].status.phase != Applied)
            && (forall v, x :: 0 <= v < |s.history| && x in s.history[v].profiles && ProposalName(x) == name ==>
                  s.history[v].profiles[x].status.phase != Enforced)
  {
    RunKeeps(env, c, actions);
    var s := Run(env, c, actions);
    hide Run, OnceEntitled, Authorized, PhaseWritten, EnforcedWritten, ProposalWorkerOk, ProfileWorkerOk;
    forall i | 0 <= i < |s.log| && s.log[i].WroteCnp? ensures s.log[i].name != name {
      assert EntryOk(env, s, i);
      AuthorizedMeansEntitled(env, s, i, s.log[i].run, s.log[i].name, s.log[i].cnp);
    }
    forall v | 0 <= v < |s.history| && name in s.history[v].proposals
      ensures s.history[v].proposals[name].status.phase != Applied
    {
      assert VersionOk(s, s.history[v]);
      if PhaseWritten(s, name) { WrittenMeansEntitled(env, s, name); }
    }
    forall v, x | 0 <= v < |s.history| && x in s.history[v].profiles && ProposalName(x) == name
      ensures s.history[v].profiles[x].status.phase != Enforced
    {
      assert VersionOk(s, s.history[v]);
      if EnforcedWritten(s, x) { EnforcedMeansEntitled(env, s, x); }
    }
  }

  ghost predicate NeverApproved(s: System) {
    forall v, x :: 0 <= v < |s.history| && x in s.history[v].proposals ==> !s.history[v].proposals[x].approved
  }

  ghost predicate NeverEnforcing(s: System) {
    forall v, x :: 0 <= v < |s.history| && x in s.history[v].profiles ==> s.history[v].profiles[x].mode != Enforce
  }

  lemma NotEntitled(s: System, name: string)
    requires NeverApproved(s) || NeverEnforcing(s)
    ensures !OnceEntitled(s, name)
  {
  }

  /** So a run in which no proposal was ever approved, or no profile was ever in mode Enforce, has no
      policy written by the operator, no Applied and no Enforced. */
  lemma GateClosed(env: Setting, c: Cluster, actions: seq<Action>)
    requires Fresh(c)
    requires NeverApproved(Run(env, c, actions)) || NeverEnforcing(Run(env, c, actions))
    ensures var s := Run(env, c, actions);
            && (forall i :: 0 <= i < |s.log| ==> !s.log[i].WroteCnp?)
            && (forall v :: 0 <= v < |s.history| ==> Fresh(s.history[v]))
  {
    var s := Run(env, c, actions);
    hide Run, OnceEntitled, NeverApproved, NeverEnforcing;
    forall name ensures !OnceEntitled(s, name) { NotEntitled(s, name); }
    forall i | 0 <= i < |s.log| ensures !s.log[i].WroteCnp? {
      if s.log[i].WroteCnp? { NothingWithoutEntitlement(env, c, actions, s.log[i].name); }
    }
    forall v | 0 <= v < |s.history| ensures Fresh(s.history[v]) {
      forall x | x in s.history[v].proposals ensures s.history[v].proposals[x].status.phase != Applied {
        NothingWithoutEntitlement(env, c, actions, x);
      }
      forall x | x in s.history[v].profiles ensures s.history[v].profiles[x].status.phase != Enforced {
        NothingWithoutEntitlement(env, c, actions, ProposalName(x));
      }
    }
  }
}
