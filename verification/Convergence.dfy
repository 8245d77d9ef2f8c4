/** What a profile and its proposal converge to when any reconciles of any objects follow one another
    (internal/controller). */
module Convergence {
  import opened Base
  import opened Cluster
  import opened Controllers
  import Generator
  import ProfileCounts

  // ----- The pair -----

  /** The pair under study: a profile, and its proposal (if any) referring back to it. */
  ghost predicate Paired(c: Cluster, name: string) {
    && name in c.profiles
    && (ProposalName(name) in c.proposals ==> c.proposals[ProposalName(name)].profileRef == name)
  }

  /** Its objects exist: the ConfigMap, and the proposal unless the mode is Observe. */
  ghost predicate Equipped(c: Cluster, name: string) {
    && Paired(c, name) && ConfigMapName(name) in c.configMaps
    && (c.profiles[name].mode != Observe ==> ProposalName(name) in c.proposals)
  }

  /** Here and below, `ok` says whether the pair's policy can be applied. */
  ghost predicate ProposalSettled(env: Setting, c: Cluster, name: string, ok: bool) {
    Equipped(c, name) && ProposalEffect(env, c, ProposalName(name), ok) == c
  }

  /** Neither of the pair's own reconciles changes anything any more. */
  ghost predicate Settled(env: Setting, c: Cluster, name: string, ok: bool) {
    ProposalSettled(env, c, name, ok) && ProfileReconciled(c, name) == c
  }

  /** The name of the policy that the profile's proposal applies. */
  function CnpName(c: Cluster, name: string): string
    requires name in c.profiles
  {
    Generator.PolicyName(name, c.profiles[name].policy)
  }

  /** The pair's proposal is approved and its profile in mode Enforce. */
  ghost predicate Enforcing(c: Cluster, name: string) {
    && name in c.profiles && ProposalName(name) in c.proposals
    && MayApply(c.profiles[name].mode, c.proposals[ProposalName(name)].approved)
  }

  /** An approved proposal of another profile in mode Enforce whose policy has the same name. */
  ghost predicate Rival(c: Cluster, name: string, q: string)
    requires name in c.profiles
  {
    && q in c.proposals
    && var other := c.proposals[q].profileRef;
    && other != name && other in c.profiles
    && MayApply(c.profiles[other].mode, c.proposals[q].approved)
    && CnpName(c, other) == CnpName(c, name)
  }

  /** The pair enforces a policy, and so does someone else under the same name. */
  ghost predicate Clash(c: Cluster, name: string) {
    Enforcing(c, name) && exists q :: Rival(c, name, q)
  }

  /** The two clusters have the same pair: profile, proposal, ConfigMap, and its policy if enforced and
      applied. The ConfigMap's policy text counts only when there is a proposal. */
  ghost predicate SamePair(a: Cluster, b: Cluster, name: string, ok: bool) {
    var proposal, cm := ProposalName(name), ConfigMapName(name);
    && name in a.profiles && name in b.profiles && a.profiles[name] == b.profiles[name]
    && (proposal in a.proposals <==> proposal in b.proposals)
    && (proposal in a.proposals ==> a.proposals[proposal] == b.proposals[proposal])
    && cm in a.configMaps && cm in b.configMaps && a.configMaps[cm].snapshot == b.configMaps[cm].snapshot
    && (proposal in a.proposals ==> a.configMaps[cm].policy == b.configMaps[cm].policy)
    && (Enforcing(a, name) && ok ==> SameKey(a.cnps, b.cnps, CnpName(a, name)))
  }

  predicate SameKey<V(==)>(a: map<string, V>, b: map<string, V>, key: string) {
    (key in a <==> key in b) && (key in a ==> a[key] == b[key])
  }

  // ----- Schedules -----

  /** A reconcile of any profile, or of any proposal; the latter may fail to apply its policy. */
  datatype Turn = ProfileTurn(name: string) | ProposalTurn(name: string, ok: bool)

  ghost function Act(env: Setting, c: Cluster, t: Turn): Cluster {
    match t
    case ProfileTurn(x) => ProfileReconciled(c, x)
    case ProposalTurn(x, ok) => ProposalEffect(env, c, x, ok)
  }

  ghost function Schedule(env: Setting, c: Cluster, turns: seq<Turn>): Cluster {
    if turns == [] then c
    else Act(env, Schedule(env, c, turns[..|turns| - 1]), turns[|turns| - 1])
  }

  /** Someone else's turn. */
  predicate Foreign(t: Turn, name: string) {
    t != ProfileTurn(name) && !OwnProposal(t, name)
  }

  predicate OwnProposal(t: Turn, name: string) {
    t.ProposalTurn? && t.name == ProposalName(name)
  }

  lemma NamesDiffer(a: string, b: string)
    requires a != b
    ensures ProposalName(a) != ProposalName(b) && ConfigMapName(a) != ConfigMapName(b)
  {
    assert ProposalName(a)[..|a|] == a && ProposalName(b)[..|b|] == b;
    assert ConfigMapName(a)[|ConfigMapName("")|..] == a && ConfigMapName(b)[|ConfigMapName("")|..] == b;
  }

  // ----- The pair's own turns -----

  lemma ProfileEquips(c: Cluster, name: string)
    requires Paired(c, name)
    ensures Equipped(ProfileReconciled(c, name), name)
  {
  }

  lemma ProposalKeeps(env: Setting, c: Cluster, name: string, ok: bool)
    requires Paired(c, name)
    ensures Paired(ProposalEffect(env, c, ProposalName(name), ok), name)
    ensures Equipped(c, name) ==> Equipped(ProposalEffect(env, c, ProposalName(name), ok), name)
  {
    hide Generator.Generated, WithCondition;
  }

  /** A second proposal reconcile changes nothing. */
  lemma ProposalIdempotent(env: Setting, c: Cluster, name: string, ok: bool)
    requires Equipped(c, name)
    ensures ProposalSettled(env, ProposalEffect(env, c, ProposalName(name), ok), name, ok)
  {
    ProposalKeeps(env, c, name, ok);
    var proposal := ProposalName(name);
    if proposal in c.proposals {
      hide Generator.Generated, WithCondition;
      var q, cm := c.proposals[proposal], ConfigMapName(name);
      var p := c.profiles[name];
      var g := PolicyFor(env, name, p, SnapshotOf(c.configMaps[cm]));
      var phase := NextProposalPhase(p.mode, q.approved, ok);
      ConditionKeptOnce(q.status.conditions, Condition("Ready", ProposalPhaseName(phase)), "Ready");
      var c' := ProposalEffect(env, c, proposal, ok);
      var c'' := ProposalEffect(env, c', proposal, ok);
      assert SnapshotOf(c'.configMaps[cm]) == SnapshotOf(c.configMaps[cm]);
      assert c''.proposals[proposal].status == c'.proposals[proposal].status;
      assert c''.proposals == c'.proposals;
      assert c''.configMaps == c'.configMaps;
      assert c''.cnps == c'.cnps;
    }
  }

  /** A profile reconcile of an equipped pair changes the profile's status alone. */
  lemma ProfileChangesItsStatus(c: Cluster, name: string)
    requires Equipped(c, name)
    ensures var c' := ProfileReconciled(c, name);
            && c' == c.(profiles := c.profiles[name := c.profiles[name].(status := c'.profiles[name].status)])
  {
  }

  lemma ProfileKeepsProposalSettled(env: Setting, c: Cluster, name: string, ok: bool)
    requires ProposalSettled(env, c, name, ok)
    ensures ProposalSettled(env, ProfileReconciled(c, name), name, ok)
  {
    ProfileChangesItsStatus(c, name);
    ProfileEquips(c, name);
    hide Generator.Generated, WithCondition, NextProfileStatus;
    var c', proposal := ProfileReconciled(c, name), ProposalName(name);
    if proposal in c.proposals {
      assert c'.profiles[name].mode == c.profiles[name].mode && c'.profiles[name].policy == c.profiles[name].policy;
      var d, d' := ProposalEffect(env, c, proposal, ok), ProposalEffect(env, c', proposal, ok);
      assert d'.proposals == d.proposals && d'.configMaps == d.configMaps && d'.cnps == d.cnps;
    }
  }

  lemma ProfileIdempotent(c: Cluster, name: string)
    requires Equipped(c, name)
    ensures var c' := ProfileReconciled(c, name); ProfileReconciled(c', name) == c'
  {
    ProfileEquips(c, name);
    ProfileChangesItsStatus(c, name);
    var c' := ProfileReconciled(c, name);
    ProfileChangesItsStatus(c', name);
    var p := c.profiles[name];
    var seen := if p.mode == Observe then NoPhase else c.proposals[ProposalName(name)].status.phase;
    var ready := Condition("Ready", ProfilePhaseName(NextProfilePhase(p.mode, seen)));
    ConditionKeptOnce(p.status.conditions, ready, "Ready");
    hide WithCondition, ProfileCounts.CountProfileRisk;
    var c'' := ProfileReconciled(c', name);
    assert c''.profiles[name].status == c'.profiles[name].status;
    assert c''.profiles == c'.profiles;
  }

  // ----- Other objects' turns -----

  lemma ForeignKeepsEquipped(env: Setting, c: Cluster, name: string, t: Turn)
    requires Paired(c, name) && Foreign(t, name)
    ensures Paired(Act(env, c, t), name)
    ensures Equipped(c, name) ==> Equipped(Act(env, c, t), name)
  {
    if t.ProfileTurn? { NamesDiffer(t.name, name); }
    hide Generator.Generated, WithCondition, NextProfileStatus, NextProposalStatus, ProposalName, ConfigMapName,
        SnapshotOf;
  }

  /** A profile reconcile touches no other profile, proposal or ConfigMap, and no policy. */
  lemma ProfileTouches(c: Cluster, x: string)
    ensures var d := ProfileReconciled(c, x);
            && d.cnps == c.cnps
            && (forall y :: y != x ==> SameKey(c.profiles, d.profiles, y))
            && (forall y :: y != ProposalName(x) ==> SameKey(c.proposals, d.proposals, y))
            && (forall y :: y != ConfigMapName(x) ==> SameKey(c.configMaps, d.configMaps, y))
  {
    hide NextProfileStatus, NextProfilePhase, ProposalName, ConfigMapName, SnapshotOf;
  }

  lemma ForeignProfileKeepsPair(c: Cluster, name: string, x: string, ok: bool)
    requires Equipped(c, name) && x != name
    ensures SamePair(c, ProfileReconciled(c, x), name, ok)
  {
    hide ProfileReconciled, ProposalName, ConfigMapName;
    NamesDiffer(x, name);
    ProfileTouches(c, x);
    var d := ProfileReconciled(c, x);
    assert SameKey(c.profiles, d.profiles, name);
    assert SameKey(c.proposals, d.proposals, ProposalName(name));
    assert SameKey(c.configMaps, d.configMaps, ConfigMapName(name));
  }

  /** A proposal reconcile touches one proposal, one ConfigMap's policy and one policy, the latter two set
      to the policy of the profile it refers to. */
  lemma ProposalTouches(env: Setting, c: Cluster, q: string, applied: bool)
    requires q in c.proposals && c.proposals[q].profileRef in c.profiles
    requires ConfigMapName(c.proposals[q].profileRef) in c.configMaps
    ensures var other := c.proposals[q].profileRef;
            var d, cm := ProposalEffect(env, c, q, applied), ConfigMapName(other);
            var cnp := PolicyFor(env, other, c.profiles[other], SnapshotOf(c.configMaps[cm])).cnp;
            && d.profiles == c.profiles
            && (forall y :: y != q ==> SameKey(c.proposals, d.proposals, y))
            && d.configMaps == c.configMaps[cm := c.configMaps[cm].(policy := Some(cnp))]
            && (d.cnps == c.cnps
                || (MayApply(c.profiles[other].mode, c.proposals[q].approved) && d.cnps == c.cnps[cnp.name := cnp]))
  {
    hide PolicyFor, NextProposalStatus, ConfigMapName, SnapshotOf;
  }

  /** The pair's applied policy survives: a reconcile under another name leaves it alone, and one of the
      same profile writes it again. */
  lemma PolicySurvives(env: Setting, c: Cluster, name: string, q: string, applied: bool)
    requires ProposalSettled(env, c, name, true) && !Clash(c, name) && Enforcing(c, name)
    requires q in c.proposals && c.proposals[q].profileRef in c.profiles
    requires ConfigMapName(c.proposals[q].profileRef) in c.configMaps
    ensures SameKey(c.cnps, ProposalEffect(env, c, q, applied).cnps, CnpName(c, name))
  {
    var other := c.proposals[q].profileRef;
    ProposalTouches(env, c, q, applied);
    SettledHasPolicy(env, c, name, true);
    PolicyIsNamed(env, other, c);
    PolicyIsNamed(env, name, c);
    assert other != name ==> !Rival(c, name, q);
    hide ProposalEffect, PolicyFor, ProposalName, ConfigMapName, SnapshotOf, Clash, ProposalSettled;
  }

  lemma PairFromParts(c: Cluster, d: Cluster, name: string, ok: bool)
    requires Equipped(c, name) && d.profiles == c.profiles && SameKey(c.proposals, d.proposals, ProposalName(name))
    requires var cm := ConfigMapName(name);
             && cm in d.configMaps && d.configMaps[cm].snapshot == c.configMaps[cm].snapshot
             && (ProposalName(name) in c.proposals ==> d.configMaps[cm].policy == c.configMaps[cm].policy)
    requires Enforcing(c, name) && ok ==> SameKey(c.cnps, d.cnps, CnpName(c, name))
    ensures SamePair(c, d, name, ok)
  {
    hide ProposalName, ConfigMapName, Enforcing, Generator.PolicyName;
  }

  lemma ForeignProposalKeepsPair(env: Setting, c: Cluster, name: string, q: string, ok: bool, applied: bool)
    requires ProposalSettled(env, c, name, ok) && (ok ==> !Clash(c, name)) && q != ProposalName(name)
    ensures SamePair(c, ProposalEffect(env, c, q, applied), name, ok)
  {
    var proposal, cm := ProposalName(name), ConfigMapName(name);
    var d := ProposalEffect(env, c, q, applied);
    if q in c.proposals && c.proposals[q].profileRef in c.profiles
        && ConfigMapName(c.proposals[q].profileRef) in c.configMaps {
      var other := c.proposals[q].profileRef;
      if other != name { NamesDiffer(other, name); }
      ProposalTouches(env, c, q, applied);
      if proposal in c.proposals { SettledHasPolicy(env, c, name, ok); }
      if Enforcing(c, name) && ok { PolicySurvives(env, c, name, q, applied); }
      hide ProposalEffect, PolicyFor, ProposalName, ConfigMapName, SnapshotOf, Clash, Enforcing, SamePair;
      assert SameKey(c.proposals, d.proposals, proposal);
      PairFromParts(c, d, name, ok);
    } else {
      assert d == c;
      hide ProposalEffect, PolicyFor, ProposalName, ConfigMapName, SnapshotOf, Clash, Enforcing, SamePair;
      PairFromParts(c, d, name, ok);
    }
  }

  /** A settled pair has its policy in its ConfigMap and, if enforced and applied, in the cluster. */
  lemma SettledHasPolicy(env: Setting, c: Cluster, name: string, ok: bool)
    requires ProposalSettled(env, c, name, ok) && ProposalName(name) in c.proposals
    ensures var cm := ConfigMapName(name);
            var cnp := PolicyFor(env, name, c.profiles[name], SnapshotOf(c.configMaps[cm])).cnp;
            && c.configMaps[cm].policy == Some(cnp)
            && (Enforcing(c, name) && ok ==> cnp.name in c.cnps && c.cnps[cnp.name] == cnp)
  {
    hide PolicyFor, NextProposalStatus, ConfigMapName, ProposalName, SnapshotOf;
    var d, cm := ProposalEffect(env, c, ProposalName(name), ok), ConfigMapName(name);
    assert d.configMaps[cm] == c.configMaps[cm] && d.cnps == c.cnps;
  }

  /** The generated policy bears the name that the profile gives it, and selects that profile's app. */
  lemma PolicyIsNamed(env: Setting, name: string, c: Cluster)
    ensures name in c.profiles ==> forall snap ::
              && PolicyFor(env, name, c.profiles[name], snap).cnp.name == CnpName(c, name)
              && PolicyFor(env, name, c.profiles[name], snap).cnp.app == name
  {
  }

  lemma SamePairSettled(env: Setting, a: Cluster, b: Cluster, name: string, ok: bool)
    requires Equipped(a, name) && SamePair(a, b, name, ok)
    ensures ProposalSettled(env, a, name, ok) ==> ProposalSettled(env, b, name, ok)
    ensures Settled(env, a, name, ok) ==> Settled(env, b, name, ok)
  {
    SamePairProposal(env, a, b, name, ok);
    SamePairProfile(env, a, b, name, ok);
    hide *;
  }

  lemma SamePairProposal(env: Setting, a: Cluster, b: Cluster, name: string, ok: bool)
    requires Equipped(a, name) && SamePair(a, b, name, ok)
    ensures Equipped(b, name)
    ensures ProposalSettled(env, a, name, ok) ==> ProposalSettled(env, b, name, ok)
  {
    var proposal, cm := ProposalName(name), ConfigMapName(name);
    if proposal in a.proposals && ProposalSettled(env, a, name, ok) {
      PolicyIsNamed(env, name, a);
      hide Generator.Generated, WithCondition, ProposalName, ConfigMapName;
      assert SnapshotOf(a.configMaps[cm]) == SnapshotOf(b.configMaps[cm]);
      var d, d' := ProposalEffect(env, a, proposal, ok), ProposalEffect(env, b, proposal, ok);
      assert d.proposals[proposal] == a.proposals[proposal] && d.configMaps[cm] == a.configMaps[cm];
      assert d'.proposals == b.proposals;
      assert d'.configMaps == b.configMaps;
      assert d'.cnps == b.cnps by {
        if Enforcing(a, name) && ok { assert d.cnps == a.cnps && CnpName(a, name) in d.cnps; }
      }
    }
  }

  lemma SamePairProfile(env: Setting, a: Cluster, b: Cluster, name: string, ok: bool)
    requires Equipped(a, name) && SamePair(a, b, name, ok)
    ensures ProfileReconciled(a, name) == a ==> ProfileReconciled(b, name) == b
  {
    if ProfileReconciled(a, name) == a {
      hide NextProfileStatus, ProposalName, ConfigMapName;
      var cm := ConfigMapName(name);
      assert SnapshotOf(a.configMaps[cm]) == SnapshotOf(b.configMaps[cm]);
      assert ProfileReconciled(a, name).profiles[name] == a.profiles[name];
      assert ProfileReconciled(b, name).profiles == b.profiles;
    }
  }

  lemma SamePairTransitive(a: Cluster, b: Cluster, c: Cluster, name: string, ok: bool)
    requires SamePair(a, b, name, ok) && SamePair(b, c, name, ok)
    ensures SamePair(a, c, name, ok)
  {
  }

  // ----- Specs along a schedule -----

  lemma ActKeepsSpecs(env: Setting, c: Cluster, t: Turn)
    ensures SameSpecs(c, Act(env, c, t))
  {
    hide SameSpecs;
    match t
    case ProfileTurn(x) => ProfileKeepsSpecs(c, x);
    case ProposalTurn(x, ok) => ProposalKeepsSpecs(env, c, x, ok);
  }

  /** No schedule changes a spec or a stored snapshot. */
  lemma {:induction false} ScheduleKeepsSpecs(env: Setting, c: Cluster, turns: seq<Turn>)
    ensures SameSpecs(c, Schedule(env, c, turns))
  {
    hide SameSpecs, Act;
    if turns == [] {
      CreationsKeepSpecs(c, "");
    } else {
      var front := Schedule(env, c, turns[..|turns| - 1]);
      ScheduleKeepsSpecs(env, c, turns[..|turns| - 1]);
      ActKeepsSpecs(env, front, turns[|turns| - 1]);
      SpecsTransitive(c, front, Schedule(env, c, turns));
    }
  }

  /** So neither a clash nor the absence of one is a schedule's doing. */
  lemma SpecsDecideClash(c: Cluster, r: Cluster, name: string)
    requires SameSpecs(c, r) && Paired(c, name)
    ensures Clash(r, name) <==> Clash(c, name)
    ensures Enforcing(r, name) <==> Enforcing(c, name)
  {
    hide ProposalName;
    if Clash(c, name) {
      var q :| Rival(c, name, q);
      assert Rival(r, name, q);
    }
    if Clash(r, name) {
      var q :| Rival(r, name, q);
      assert Rival(c, name, q);
    }
  }

  // ----- Convergence -----

  /** The turn leaves the pair's proposal as `ok` would have it. Whether the policy can be applied only
      matters (`strict`) to a pair that enforces. */
  predicate Agrees(t: Turn, name: string, ok: bool, strict: bool) {
    OwnProposal(t, name) && strict ==> t.ok == ok
  }

  /** How far a schedule has brought the pair: a turn of the profile, then of its proposal, then of the
      profile again, whatever comes between; a proposal turn with the other outcome sets it back. */
  function Progress(turns: seq<Turn>, name: string, ok: bool, strict: bool): nat {
    if turns == [] then 0
    else Advanced(Progress(turns[..|turns| - 1], name, ok, strict), turns[|turns| - 1], name, ok, strict)
  }

  function Advanced(before: nat, t: Turn, name: string, ok: bool, strict: bool): nat {
    if t == ProfileTurn(name) then (if before == 0 || before == 2 then before + 1 else before)
    else if OwnProposal(t, name) && before >= 1 then
      (if !Agrees(t, name, ok, strict) then 1 else if before == 1 then 2 else before)
    else before
  }

  ghost predicate Reached(env: Setting, c: Cluster, name: string, ok: bool, progress: nat) {
    && Paired(c, name)
    && (progress >= 1 ==> Equipped(c, name))
    && (progress >= 2 ==> ProposalSettled(env, c, name, ok))
    && (progress >= 3 ==> Settled(env, c, name, ok))
  }

  /** To a pair that does not enforce, the outcome makes no difference. */
  lemma OutcomeIsIdle(env: Setting, c: Cluster, name: string, ok: bool, other: bool)
    requires Paired(c, name) && !Enforcing(c, name)
    ensures ProposalEffect(env, c, ProposalName(name), other) == ProposalEffect(env, c, ProposalName(name), ok)
  {
    hide PolicyFor, WithCondition, ConfigMapName, ProposalName, SnapshotOf;
  }

  lemma OwnProposalReaches(env: Setting, c: Cluster, name: string, t: Turn, ok: bool, strict: bool, progress: nat)
    requires Reached(env, c, name, ok, progress) && OwnProposal(t, name) && (Enforcing(c, name) ==> strict)
    ensures Reached(env, Act(env, c, t), name, ok, Advanced(progress, t, name, ok, strict))
  {
    hide ProfileReconciled, ProposalEffect, Paired, Equipped, Enforcing, ProposalName;
    ProposalKeeps(env, c, name, t.ok);
    if Agrees(t, name, ok, strict) {
      if t.ok != ok { OutcomeIsIdle(env, c, name, ok, t.ok); }
      if progress >= 1 { ProposalIdempotent(env, c, name, ok); }
    }
  }

  lemma OwnProfileReaches(env: Setting, c: Cluster, name: string, ok: bool, strict: bool, progress: nat)
    requires Reached(env, c, name, ok, progress)
    ensures Reached(env, Act(env, c, ProfileTurn(name)), name, ok,
                    Advanced(progress, ProfileTurn(name), name, ok, strict))
  {
    hide ProfileReconciled, ProposalEffect, Paired, Equipped;
    ProfileEquips(c, name);
    EquippedIsPaired(ProfileReconciled(c, name), name);
    if progress >= 2 {
      ProfileKeepsProposalSettled(env, c, name, ok);
      ProfileIdempotent(c, name);
    }
  }

  lemma EquippedIsPaired(c: Cluster, name: string)
    requires Equipped(c, name)
    ensures Paired(c, name)
  {
  }

  lemma ForeignKeepsPair(env: Setting, c: Cluster, name: string, t: Turn, ok: bool)
    requires ProposalSettled(env, c, name, ok) && (ok ==> !Clash(c, name)) && Foreign(t, name)
    ensures SamePair(c, Act(env, c, t), name, ok)
  {
    hide ProfileReconciled, ProposalEffect, Paired, Equipped, Clash, SamePair, ProposalName, ConfigMapName;
    match t
    case ProfileTurn(x) => ForeignProfileKeepsPair(c, name, x, ok);
    case ProposalTurn(q, applied) => ForeignProposalKeepsPair(env, c, name, q, ok, applied);
  }

  lemma ForeignTurnReaches(env: Setting, c: Cluster, name: string, t: Turn, ok: bool, progress: nat)
    requires Reached(env, c, name, ok, progress) && Foreign(t, name) && (ok ==> !Clash(c, name))
    ensures Reached(env, Act(env, c, t), name, ok, progress)
    ensures progress >= 2 ==> SamePair(c, Act(env, c, t), name, ok)
  {
    hide Act, Foreign, Paired, Equipped, Clash, SamePair, ProfileReconciled, ProposalEffect;
    ForeignKeepsEquipped(env, c, name, t);
    if progress >= 2 {
      ForeignKeepsPair(env, c, name, t, ok);
      SamePairSettled(env, c, Act(env, c, t), name, ok);
    }
  }

  lemma TurnReaches(env: Setting, c: Cluster, name: string, t: Turn, ok: bool, strict: bool, progress: nat)
    requires Reached(env, c, name, ok, progress) && (ok ==> !Clash(c, name)) && (Enforcing(c, name) ==> strict)
    ensures Reached(env, Act(env, c, t), name, ok, Advanced(progress, t, name, ok, strict))
  {
    hide Reached, Act, Clash, Enforcing, ProposalName;
    if t == ProfileTurn(name) {
      OwnProfileReaches(env, c, name, ok, strict, progress);
    } else if OwnProposal(t, name) {
      OwnProposalReaches(env, c, name, t, ok, strict, progress);
    } else {
      ForeignTurnReaches(env, c, name, t, ok, progress);
    }
  }

  lemma {:induction false} ScheduleReaches(env: Setting, c: Cluster, name: string, ok: bool, turns: seq<Turn>)
    requires Paired(c, name) && (ok ==> !Clash(c, name))
    ensures Reached(env, Schedule(env, c, turns), name, ok, Progress(turns, name, ok, Enforcing(c, name)))
  {
    if turns != [] {
      hide Reached, Act, Clash, SameSpecs, Paired, Enforcing, Advanced;
      var front, last := turns[..|turns| - 1], turns[|turns| - 1];
      ScheduleReaches(env, c, name, ok, front);
      ScheduleKeepsSpecs(env, c, front);
      SpecsDecideClash(c, Schedule(env, c, front), name);
      TurnReaches(env, Schedule(env, c, front), name, last, ok, Enforcing(c, name),
                  Progress(front, name, ok, Enforcing(c, name)));
    }
  }

  /** The schedule has a profile turn, a later proposal turn and a later profile turn of the pair, and from
      that proposal turn on the pair's policy, if there is one to apply, can be applied or not as `ok` says. */
  ghost predicate Covers(turns: seq<Turn>, name: string, ok: bool, strict: bool) {
    exists i, j, k :: CoversAt(turns, name, ok, strict, i, j, k)
  }

  predicate CoversAt(turns: seq<Turn>, name: string, ok: bool, strict: bool, i: int, j: int, k: int) {
    && 0 <= i < j < k < |turns|
    && turns[i] == ProfileTurn(name) && OwnProposal(turns[j], name) && turns[k] == ProfileTurn(name)
    && forall m :: j <= m < |turns| ==> Agrees(turns[m], name, ok, strict)
  }

  lemma {:induction false} FirstProgress(turns: seq<Turn>, name: string, ok: bool, strict: bool, i: int)
    requires 0 <= i < |turns| && turns[i] == ProfileTurn(name)
    ensures Progress(turns, name, ok, strict) >= 1
  {
    if i < |turns| - 1 { FirstProgress(turns[..|turns| - 1], name, ok, strict, i); }
  }

  lemma {:induction false} SecondProgress(turns: seq<Turn>, name: string, ok: bool, strict: bool, i: int, j: int)
    requires 0 <= i < j < |turns| && turns[i] == ProfileTurn(name) && OwnProposal(turns[j], name)
    requires forall m :: j <= m < |turns| ==> Agrees(turns[m], name, ok, strict)
    ensures Progress(turns, name, ok, strict) >= 2
  {
    hide Agrees;
    var front := turns[..|turns| - 1];
    assert forall m :: 0 <= m < |front| ==> front[m] == turns[m];
    if j < |turns| - 1 {
      SecondProgress(front, name, ok, strict, i, j);
    } else {
      FirstProgress(front, name, ok, strict, i);
    }
    assert Agrees(turns[|turns| - 1], name, ok, strict);
  }

  lemma {:induction false} ThirdProgress(turns: seq<Turn>, name: string, ok: bool, strict: bool, i: int, j: int, k: int)
    requires CoversAt(turns, name, ok, strict, i, j, k)
    ensures Progress(turns, name, ok, strict) >= 3
  {
    hide Agrees;
    var front := turns[..|turns| - 1];
    assert forall m :: 0 <= m < |front| ==> front[m] == turns[m];
    if k < |turns| - 1 {
      ThirdProgress(front, name, ok, strict, i, j, k);
    } else {
      SecondProgress(front, name, ok, strict, i, j);
    }
    assert Agrees(turns[|turns| - 1], name, ok, strict);
  }

  function ExpectedPhase(mode: Mode, approved: bool, ok: bool): ProfilePhase {
    match mode
    case Observe => Observing
    case Suggest => Proposed
    case Enforce => if !approved then AwaitingApproval else if ok then Enforced else Proposed
  }

  /** The mode and approval table that the phases settle to, with the policy it promises; `ok` says
      whether the policy can be applied. */
  ghost predicate TableHolds(env: Setting, c: Cluster, name: string, ok: bool) {
    Equipped(c, name) &&
    var p, proposal := c.profiles[name], ProposalName(name);
    if proposal !in c.proposals then p.mode == Observe && p.status.phase == Observing
    else
      var q := c.proposals[proposal];
      var enforcing := p.mode == Enforce && q.approved;
      && q.status.phase == (if !enforcing then PendingApproval else if ok then Applied else Failed)
      && p.status.phase == ExpectedPhase(p.mode, q.approved, ok)
      && var g := PolicyFor(env, name, p, SnapshotOf(c.configMaps[ConfigMapName(name)]));
      && c.configMaps[ConfigMapName(name)].policy == Some(g.cnp)
      && (enforcing && ok ==> g.cnp.name in c.cnps && c.cnps[g.cnp.name] == g.cnp)
  }

  lemma SettledMeansTable(env: Setting, c: Cluster, name: string, ok: bool)
    requires Settled(env, c, name, ok)
    ensures TableHolds(env, c, name, ok)
  {
    hide Generator.Generated, WithCondition, ProfileCounts.CountProfileRisk;
    var c' := ProfileReconciled(c, name);
    assert c'.profiles[name] == c.profiles[name];
    if ProposalName(name) in c.proposals {
      var d := ProposalEffect(env, c, ProposalName(name), ok);
      assert d.proposals[ProposalName(name)] == c.proposals[ProposalName(name)];
      assert d.configMaps[ConfigMapName(name)] == c.configMaps[ConfigMapName(name)];
      assert d.cnps == c.cnps;
    }
  }

  /** Once settled, the pair's own turns change nothing, unless the outcome is another. */
  lemma OwnTurnIdle(env: Setting, c: Cluster, name: string, t: Turn, ok: bool)
    requires Settled(env, c, name, ok) && !Foreign(t, name) && Agrees(t, name, ok, Enforcing(c, name))
    ensures Act(env, c, t) == c
  {
    EquippedIsPaired(c, name);
    hide ProfileReconciled, ProposalEffect, Enforcing, Equipped, ProposalName;
    if t != ProfileTurn(name) && t.ok != ok { OutcomeIsIdle(env, c, name, ok, t.ok); }
  }

  lemma TurnStays(env: Setting, c: Cluster, b: Cluster, name: string, t: Turn, ok: bool)
    requires Settled(env, b, name, ok) && SamePair(c, b, name, ok) && (ok ==> !Clash(b, name))
    requires Agrees(t, name, ok, Enforcing(b, name))
    ensures Settled(env, Act(env, b, t), name, ok) && SamePair(c, Act(env, b, t), name, ok)
  {
    if Foreign(t, name) {
      EquippedIsPaired(b, name);
      hide ProfileReconciled, ProposalEffect, SamePair, Clash, Enforcing, Foreign, Act, Paired, Equipped;
      ForeignTurnReaches(env, b, name, t, ok, 3);
      SamePairTransitive(c, b, Act(env, b, t), name, ok);
    } else {
      hide *;
      OwnTurnIdle(env, b, name, t, ok);
    }
  }

  lemma SamePairReflexive(env: Setting, c: Cluster, name: string, ok: bool)
    requires Settled(env, c, name, ok)
    ensures SamePair(c, c, name, ok) && Paired(c, name)
  {
    hide ProfileReconciled, ProposalEffect;
  }

  lemma {:induction false} SettledStays(env: Setting, c: Cluster, name: string, ok: bool, more: seq<Turn>)
    requires Settled(env, c, name, ok) && (ok ==> !Clash(c, name))
    requires forall m :: 0 <= m < |more| ==> Agrees(more[m], name, ok, Enforcing(c, name))
    ensures Settled(env, Schedule(env, c, more), name, ok) && SamePair(c, Schedule(env, c, more), name, ok)
  {
    SamePairReflexive(env, c, name, ok);
    if more != [] {
      hide Settled, SamePair, Clash, SameSpecs, Paired, Act, Agrees, Enforcing;
      var front, last := more[..|more| - 1], more[|more| - 1];
      SettledStays(env, c, name, ok, front);
      ScheduleKeepsSpecs(env, c, front);
      SpecsDecideClash(c, Schedule(env, c, front), name);
      TurnStays(env, c, Schedule(env, c, front), name, last, ok);
    }
  }

  /** Convergence, whatever else the cluster holds and whoever else takes turns. Every schedule that covers
      the pair brings it to the table of its mode and approval, as they were at the start, with the row of
      the failed policy if it cannot be applied; and from there on nothing changes the pair as long as the
      outcome stays the same. Only a pair whose policy is applied must not clash with a rival's. */
  lemma Converges(env: Setting, c: Cluster, name: string, ok: bool, turns: seq<Turn>, more: seq<Turn>)
    requires Paired(c, name) && (ok ==> !Clash(c, name)) && Covers(turns, name, ok, Enforcing(c, name))
    requires forall m :: 0 <= m < |more| ==> Agrees(more[m], name, ok, Enforcing(c, name))
    ensures SameSpecs(c, Schedule(env, c, turns))
    ensures Settled(env, Schedule(env, c, turns), name, ok) && TableHolds(env, Schedule(env, c, turns), name, ok)
    ensures SamePair(Schedule(env, c, turns), Schedule(env, Schedule(env, c, turns), more), name, ok)
  {
    hide ProfileReconciled, ProposalEffect, SamePair, Clash, SameSpecs, Paired, TableHolds, Settled, Enforcing, Agrees;
    hide CoversAt;
    var i, j, k :| CoversAt(turns, name, ok, Enforcing(c, name), i, j, k);
    ThirdProgress(turns, name, ok, Enforcing(c, name), i, j, k);
    ScheduleReaches(env, c, name, ok, turns);
    ScheduleKeepsSpecs(env, c, turns);
    SpecsDecideClash(c, Schedule(env, c, turns), name);
    SettledMeansTable(env, Schedule(env, c, turns), name, ok);
    SettledStays(env, Schedule(env, c, turns), name, ok, more);
  }

  lemma TwoMore(env: Setting, c: Cluster, turns: seq<Turn>, t: Turn, u: Turn)
    ensures Schedule(env, c, turns + [t] + [u]) == Act(env, Act(env, Schedule(env, c, turns), t), u)
  {
    assert (turns + [t])[..|turns|] == turns && (turns + [t] + [u])[..|turns| + 1] == turns + [t];
    hide Act;
  }

  /** With a clash no schedule is safe: two more reconciles replace the pair's policy by the rival's. */
  lemma ClashBreaksTable(env: Setting, c: Cluster, name: string, turns: seq<Turn>)
    returns (other: string, q: string, more: seq<Turn>)
    requires Paired(c, name) && Clash(c, name)
    ensures more == turns + [ProfileTurn(other)] + [ProposalTurn(q, true)]
    ensures !TableHolds(env, Schedule(env, c, more), name, true)
  {
    q :| Rival(c, name, q);
    other := c.proposals[q].profileRef;
    more := turns + [ProfileTurn(other)] + [ProposalTurn(q, true)];
    TwoMore(env, c, turns, ProfileTurn(other), ProposalTurn(q, true));
    ScheduleKeepsSpecs(env, c, turns);
    hide Schedule, ProfileReconciled, ProposalEffect, TableHolds, ProposalName, ConfigMapName;
    var a := Schedule(env, c, turns);
    assert other in a.profiles;
    hide SameSpecs, Rival, Paired, Enforcing;
    ProfileKeepsSpecs(a, other);
    SpecsTransitive(c, a, ProfileReconciled(a, other));
    SpecsKeepRival(c, ProfileReconciled(a, other), name, q);
    ProfileMakesConfigMap(a, other);
    RivalReplaces(env, ProfileReconciled(a, other), name, q);
  }

  lemma ProfileMakesConfigMap(c: Cluster, x: string)
    requires x in c.profiles
    ensures ConfigMapName(x) in ProfileReconciled(c, x).configMaps
  {
  }

  lemma SpecsKeepRival(c: Cluster, b: Cluster, name: string, q: string)
    requires SameSpecs(c, b) && Paired(c, name) && Rival(c, name, q) && Enforcing(c, name)
    ensures Paired(b, name) && Rival(b, name, q) && Enforcing(b, name)
    ensures b.proposals[q].profileRef == c.proposals[q].profileRef
  {
    hide ProposalName;
  }

  lemma RivalReplaces(env: Setting, b: Cluster, name: string, q: string)
    requires Paired(b, name) && Rival(b, name, q) && Enforcing(b, name)
    requires ConfigMapName(b.proposals[q].profileRef) in b.configMaps
    ensures !TableHolds(env, ProposalEffect(env, b, q, true), name, true)
  {
    hide Generator.Generated, NextProposalStatus, ProposalName, ConfigMapName, SnapshotOf;
    var other := b.proposals[q].profileRef;
    var d := ProposalEffect(env, b, q, true);
    PolicyIsNamed(env, other, b);
    PolicyIsNamed(env, name, b);
    assert d.profiles == b.profiles;
    assert q != ProposalName(name);
    assert d.cnps[CnpName(b, name)].app == other;
  }

  /** There are clashes: two profiles, both approved and in mode Enforce, that name their policy alike. */
  lemma ClashExists() returns (c: Cluster)
    ensures Paired(c, "a") && Clash(c, "a")
  {
    var p := Profile(Target("Deployment", "a"), Enforce, Generator.PolicyConfig(true, "shared"), NEW_PROFILE_STATUS);
    var q := Proposal("a", true, NEW_PROPOSAL_STATUS);
    c := Cluster(map["a" := p, "b" := p], map["a-proposal" := q, "b-proposal" := q.(profileRef := "b")], map[], map[]);
    assert ProposalName("a") == "a-proposal";
    assert Rival(c, "a", "b-proposal");
  }

  /** Two profiles that leave the name to the generator never clash: their default names differ. */
  lemma DefaultNamesNeverClash(c: Cluster, name: string, q: string)
    requires name in c.profiles && c.profiles[name].policy.generatedPolicyName == ""
    requires q in c.proposals && c.proposals[q].profileRef in c.profiles
    requires c.profiles[c.proposals[q].profileRef].policy.generatedPolicyName == ""
    ensures !Rival(c, name, q)
  {
    var other := c.proposals[q].profileRef;
    assert CnpName(c, other)[..|other|] == other && CnpName(c, name)[..|name|] == name;
  }

  /** The exact condition: every schedule that covers the pair, its policy being applied, ends with the
      table in force if and only if no rival enforces a policy of the same name. */
  lemma ConvergesIff(env: Setting, c: Cluster, name: string)
    requires Paired(c, name)
    ensures (forall turns :: Covers(turns, name, true, Enforcing(c, name)) ==>
             TableHolds(env, Schedule(env, c, turns), name, true))
        <==> !Clash(c, name)
  {
    if Clash(c, name) {
      var covering := [ProfileTurn(name), ProposalTurn(ProposalName(name), true), ProfileTurn(name)];
      var other, q, more := ClashBreaksTable(env, c, name, covering);
      assert covering[0] == ProfileTurn(name) && covering[1] == ProposalTurn(ProposalName(name), true)
          && covering[2] == ProfileTurn(name);
      hide TableHolds, Clash, Schedule, Paired, Enforcing, ProposalName;
      assert CoversAt(more, name, true, Enforcing(c, name), 0, 1, 2);
    } else {
      hide TableHolds, Clash, Schedule, Paired, SameSpecs, SamePair, Settled, Enforcing, Covers;
      forall turns | Covers(turns, name, true, Enforcing(c, name)) ensures TableHolds(env, Schedule(env, c, turns),
                                                                                      name, true) {
        Converges(env, c, name, true, turns, []);
      }
    }
  }

  // ----- Conditions -----

  /** Neither this profile nor this proposal carries two Ready conditions. */
  ghost predicate OneReady(c: Cluster, profile: string, proposal: string) {
    && (profile in c.profiles ==> CountKind(c.profiles[profile].status.conditions, "Ready") <= 1)
    && (proposal in c.proposals ==> CountKind(c.proposals[proposal].status.conditions, "Ready") <= 1)
  }

  lemma {:induction false} ReadyKeptOnce(env: Setting, c: Cluster, profile: string, proposal: string, turns: seq<Turn>)
    requires OneReady(c, profile, proposal)
    ensures OneReady(Schedule(env, c, turns), profile, proposal)
  {
    if turns != [] {
      var front := turns[..|turns| - 1];
      ReadyKeptOnce(env, c, profile, proposal, front);
      var b := Schedule(env, c, front);
      match turns[|turns| - 1]
      case ProfileTurn(x) => ProfileKeepsOneReady(b, x, profile, proposal);
      case ProposalTurn(q, ok) => ProposalKeepsOneReady(env, b, q, ok, profile, proposal);
    }
  }

  lemma ProfileKeepsOneReady(c: Cluster, x: string, profile: string, proposal: string)
    requires OneReady(c, profile, proposal)
    ensures OneReady(ProfileReconciled(c, x), profile, proposal)
  {
    hide ConfigMapName, ProposalName, SnapshotOf, NextProfilePhase, WithCondition, ProfilePhaseName,
        ProfileCounts.CountProfileRisk;
    forall phase: ProfilePhase, cs: seq<Condition>
      ensures CountKind(cs, "Ready") <= 1 ==>
                CountKind(WithCondition(cs, Condition("Ready", ProfilePhaseName(phase))), "Ready") <= 1
    {
      ConditionKeptOnce(cs, Condition("Ready", ProfilePhaseName(phase)), "Ready");
    }
  }

  lemma ProposalKeepsOneReady(env: Setting, c: Cluster, q: string, ok: bool, profile: string, proposal: string)
    requires OneReady(c, profile, proposal)
    ensures OneReady(ProposalEffect(env, c, q, ok), profile, proposal)
  {
    hide ConfigMapName, ProposalName, SnapshotOf, NextProposalPhase, WithCondition, ProposalPhaseName, PolicyFor;
    forall phase: ProposalPhase, cs: seq<Condition>
      ensures CountKind(cs, "Ready") <= 1 ==>
                CountKind(WithCondition(cs, Condition("Ready", ProposalPhaseName(phase))), "Ready") <= 1
    {
      ConditionKeptOnce(cs, Condition("Ready", ProposalPhaseName(phase)), "Ready");
    }
  }
}
