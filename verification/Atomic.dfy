/** The whole reconciles of module Controllers are the protocol's own steps, taken without interruption
    and with fresh reads. */
module Atomic {
  import opened Base
  import opened Cluster
  import opened Controllers
  import opened Gate
  import Generator

  function Last(s: System): nat
    requires s.history != []
  {
    |s.history| - 1
  }

  lemma FreshProposal(was: ProposalStatus, next: ProposalStatus)
    ensures MergedProposal(was, was, next, true) == next
  {
  }

  lemma FreshProfile(was: ProfileStatus, next: ProfileStatus)
    ensures MergedProfile(was, was, next, true) == next
  {
  }

  // ----- The proposal reconcile -----

  ghost function ProposalReads(env: Setting, s: System, name: string): (t: System)
    requires s.history != []
    ensures t.history == s.history
  {
    var s1 := ProposalStep(env, s, ReadProposal(name, Last(s)));
    var s2 := ProposalStep(env, s1, ReadOwner(Last(s)));
    ProposalStep(env, s2, ReadBaseline(Last(s), true))
  }

  ghost function ProposalWrites(env: Setting, s: System, applyOk: bool): (t: System)
    requires s.history != []
    ensures t.history != []
  {
    var s1 := ProposalStep(env, s, SavePolicy(true));
    var s2 := ProposalStep(env, s1, ApplyPolicy(Last(s1), applyOk));
    ProposalStep(env, s2, WriteProposalStatus(true, true))
  }

  lemma ReadsOfProposal(env: Setting, s: System, name: string)
    requires s.history != [] && s.proposals == Idle
    ensures var c := Now(s);
            ProposalReads(env, s, name).proposals ==
            if name in c.proposals && c.proposals[name].profileRef in c.profiles
               && ConfigMapName(c.proposals[name].profileRef) in c.configMaps then
              var q := c.proposals[name];
              Compiled(s.runs, name, q, c.profiles[q.profileRef],
                       PolicyFor(env, q.profileRef, c.profiles[q.profileRef],
                                 SnapshotOf(c.configMaps[ConfigMapName(q.profileRef)])))
            else Idle
  {
    hide PolicyFor, SnapshotOf, ConfigMapName;
  }

  lemma WritesOfProposal(env: Setting, s: System, run: nat, name: string, q: Proposal, p: Profile,
                         g: Generator.GenerationResult, applyOk: bool)
    requires s.history != [] && s.proposals == Compiled(run, name, q, p, g)
    requires name in Now(s).proposals && Now(s).proposals[name] == q
    requires ConfigMapName(q.profileRef) in Now(s).configMaps
    ensures var c, t, cm := Now(s), ProposalWrites(env, s, applyOk), ConfigMapName(q.profileRef);
            && t.proposals == Idle
            && Now(t) == Cluster(c.profiles,
                 c.proposals[name :=
                   q.(status := NextProposalStatus(q.status, NextProposalPhase(p.mode, q.approved, applyOk), g, cm))],
                 c.configMaps[cm := c.configMaps[cm].(policy := Some(g.cnp))],
                 if MayApply(p.mode, q.approved) && applyOk then c.cnps[g.cnp.name := g.cnp] else c.cnps)
  {
    hide NextProposalStatus, MergedProposal, ConfigMapName;
    FreshProposal(q.status, NextProposalStatus(q.status, NextProposalPhase(p.mode, q.approved, applyOk), g,
                                               ConfigMapName(q.profileRef)));
  }

  /** A proposal reconcile's steps, run through, do what ProposalEffect says, whether or
      not the policy can be applied. */
  lemma ProposalIsSteps(env: Setting, s: System, name: string, applyOk: bool)
    requires s.history != [] && s.proposals == Idle
    ensures var t := ProposalWrites(env, ProposalReads(env, s, name), applyOk);
            t.proposals == Idle && Now(t) == ProposalEffect(env, Now(s), name, applyOk)
  {
    ReadsOfProposal(env, s, name);
    var r := ProposalReads(env, s, name);
    if r.proposals.Compiled? {
      WritesOfProposal(env, r, s.runs, name, r.proposals.q, r.proposals.p, r.proposals.g, applyOk);
      hide ProposalReads, ProposalWrites, PolicyFor, NextProposalStatus, ConfigMapName, SnapshotOf;
    }
  }

  // ----- The profile reconcile -----

  ghost function ProfileReads(s: System, name: string): (t: System)
    requires s.history != []
    ensures t.history != []
  {
    var s1 := ProfileStep(s, ReadProfile(name, Last(s)));
    var s2 := ProfileStep(s1, EnsureBaseline(true));
    ProfileStep(s2, ReadCounters(Last(s2), true))
  }

  ghost function ProfileLookUp(s: System): (t: System)
    requires s.history != []
    ensures t.history != []
  {
    ProfileStep(ProfileStep(s, LookUpProposal(Last(s), true)), CreateProposal(true))
  }

  lemma ReadsOfProfile(s: System, name: string)
    requires s.history != [] && s.profiles == Resting
    ensures var c, t := Now(s), ProfileReads(s, name);
            if name in c.profiles then
              var p, c1 := c.profiles[name], WithConfigMap(c, name);
              var snap := SnapshotOf(c1.configMaps[ConfigMapName(name)]);
              Now(t) == c1 &&
              t.profiles == if p.mode == Observe then Concluded(s.runs, name, p, snap, Observing, p.status.proposalRef)
                            else Counted(s.runs, name, p, snap)
            else Now(t) == c && t.profiles == Resting
  {
    hide SnapshotOf, ConfigMapName;
  }

  lemma LookUpOfProfile(s: System, run: nat, name: string, p: Profile, snap: Snapshot)
    requires s.history != [] && s.profiles == Counted(run, name, p, snap)
    ensures var c2, t := WithProposal(Now(s), name), ProfileLookUp(s);
            && Now(t) == c2
            && t.profiles == Concluded(run, name, p, snap,
                 NextProfilePhase(p.mode, c2.proposals[ProposalName(name)].status.phase), ProposalName(name))
  {
    hide ProposalName;
  }

  lemma WriteOfProfile(s: System, run: nat, name: string, p: Profile, snap: Snapshot, phase: ProfilePhase, ref: string)
    requires s.history != [] && s.profiles == Concluded(run, name, p, snap, phase, ref)
    requires name in Now(s).profiles && Now(s).profiles[name] == p
    ensures var c, t := Now(s), ProfileStep(s, WriteProfileStatus(true, true));
            && t.history != [] && t.profiles == Resting
            && Now(t) == c.(profiles := c.profiles[name :=
                 p.(status := NextProfileStatus(p.status, phase, snap, ConfigMapName(name), ref))])
  {
    hide NextProfileStatus, MergedProfile, ConfigMapName;
    FreshProfile(p.status, NextProfileStatus(p.status, phase, snap, ConfigMapName(name), ref));
  }

  /** A profile reconcile's steps, run through, do what ProfileReconciled says. */
  lemma ProfileIsSteps(s: System, name: string)
    requires s.history != [] && s.profiles == Resting
    ensures var t := ProfileStep(ProfileLookUp(ProfileReads(s, name)), WriteProfileStatus(true, true));
            t.history != [] && t.profiles == Resting && Now(t) == ProfileReconciled(Now(s), name)
  {
    ReadsOfProfile(s, name);
    var c, r := Now(s), ProfileReads(s, name);
    if name in c.profiles {
      var p := c.profiles[name];
      hide ProfileReads, SnapshotOf, ConfigMapName, NextProfileStatus;
      if p.mode == Observe {
        assert ProfileLookUp(r) == r;
        WriteOfProfile(r, s.runs, name, p, r.profiles.snap, Observing, p.status.proposalRef);
      } else {
        LookUpOfProfile(r, s.runs, name, p, r.profiles.snap);
        var l := ProfileLookUp(r);
        hide ProfileLookUp, ProfileStep;
        WriteOfProfile(l, s.runs, name, p, r.profiles.snap, l.profiles.phase, ProposalName(name));
      }
    }
  }
}
