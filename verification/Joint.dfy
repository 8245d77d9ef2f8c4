/** The whole system in one transition system: responses arrive and are decoded, the accumulator ingests
    and flushes, its snapshots are saved to the ConfigMaps, users edit, and the two controllers take the
    gate protocol's steps; the operator may restart at any time. */
module Joint {
  import opened Base
  import opened Loop
  import opened Trace
  import opened Accumulator
  import opened EndToEnd
  import opened Cluster
  import opened Controllers
  import opened GateSafety
  import opened Pipeline
  import Convergence
  import Gate
  import Generator
  import Hubble
  import Rules
  import Varint

  // ----- The system -----

  /** A step of a user or a controller, a response off the wire, a tick of the accumulator, a snapshot
      save that the API server accepts, or a restart of the operator. */
  datatype Move =
    | Act(action: Gate.Action)
    | Receive(data: Varint.Bytes, now: Time)
    | TickAt(now: Time)
    | Save(write: Write)
    | Restart

  /** One lifetime of the operator's process: the accumulator's events, and for each the position of the
      move that caused it. */
  datatype Life = Life(trace: seq<Event>, origin: seq<nat>)

  /** A save, and the lifetime that made it. */
  datatype Saving = Saving(life: nat, write: Write)

  datatype State = State(gate: Gate.System, lives: seq<Life>, saves: seq<Saving>)

  predicate Started(s: State) {
    s.gate.history != [] && s.lives != []
  }

  function Current(s: State): Life
    requires Started(s)
  {
    s.lives[|s.lives| - 1]
  }

  /** The accumulator gets an event, caused by the move at position `at`. */
  function WithEvent(s: State, e: Event, at: nat): State
    requires Started(s)
  {
    var l := Current(s);
    s.(lives := s.lives[|s.lives| - 1 := Life(l.trace + [e], l.origin + [at])])
  }

  /** The next version has no snapshot that the present one does not have. */
  ghost predicate KeepsBaselines(c: Cluster, next: Cluster) {
    forall cm :: cm in next.configMaps && next.configMaps[cm].snapshot.Some? ==>
      cm in c.configMaps && c.configMaps[cm].snapshot == next.configMaps[cm].snapshot
  }

  function WithSnapshot(c: Cluster, cm: string, snap: Snapshot): Cluster
    requires cm in c.configMaps
  {
    c.(configMaps := c.configMaps[cm := c.configMaps[cm].(snapshot := Some(snap))])
  }

  /** The flush of the latest tick may make this write, to a ConfigMap that exists. */
  ghost predicate MaySave(env: Setting, window: int, s: State, w: Write)
    requires Started(s)
  {
    var trace := Current(s).trace;
    && Genuine(w, trace, window) && (forall j :: w.at < j < |trace| ==> trace[j].Register?)
    && w.namespace == env.namespace && w.configMap in Gate.Now(s.gate).configMaps
  }

  /** The new process knows nothing of the old one's flows, and its controllers start afresh. */
  ghost function Restarted(env: Setting, s: State): (t: State)
    requires Started(s)
    ensures Started(t)
  {
    s.(gate := s.gate.(proposals := Gate.Idle, profiles := Gate.Resting), lives := s.lives + [Life([], [])])
  }

  /** Users do not write baselines. A profile reconcile that has ensured its ConfigMap registers the
      profile's workload. A response that makes the decoder panic ends the process. */
  ghost function Next(env: Setting, window: int, s: State, m: Move, at: nat): (t: State)
    requires Started(s)
    ensures Started(t)
  {
    match m
    case Act(a) =>
      if a.UserEdit? && !KeepsBaselines(Gate.Now(s.gate), a.next) then s
      else
        Gate.StepExtends(env, s.gate, a);
        var t := s.(gate := Gate.Step(env, s.gate, a));
        if a.EnsureBaseline? && a.ok && s.gate.profiles.Started? then
          WithEvent(t, Registration(env.namespace, s.gate.profiles.name, s.gate.profiles.p), at)
        else t
    case Receive(data, now) =>
      (match Hubble.Response(data, now)
       case Returned(None) => s
       case Returned(Some(f)) => WithEvent(s, Ingest(f), at)
       case Panicked => Restarted(env, s)
       case Endless => s)
    case TickAt(now) => WithEvent(s, Tick(now), at)
    case Save(w) =>
      if MaySave(env, window, s, w) then
        s.(gate := Gate.Wrote(s.gate, WithSnapshot(Gate.Now(s.gate), w.configMap, w.snapshot)),
           saves := s.saves + [Saving(|s.lives| - 1, w)])
      else s
    case Restart => Restarted(env, s)
  }

  ghost function Run(env: Setting, window: int, c: Cluster, moves: seq<Move>): (s: State)
    ensures Started(s)
  {
    if moves == [] then State(Gate.Start(c), [Life([], [])], [])
    else
      var n := |moves| - 1;
      Next(env, window, Run(env, window, c, moves[..n]), moves[n], n)
  }

  // ----- The invariant -----

  /** That version of the cluster had this profile. */
  ghost predicate HadProfile(history: seq<Cluster>, v: int, name: string, p: Profile) {
    0 <= v < |history| && name in history[v].profiles && history[v].profiles[name] == p
  }

  /** The profile controller registers profiles as some version had them. */
  ghost predicate WorkerRead(g: Gate.System) {
    g.profiles.Started? ==> exists v :: HadProfile(g.history, v, g.profiles.name, g.profiles.p)
  }

  ghost predicate RegistersProfile(namespace: string, history: seq<Cluster>, e: Event) {
    exists v, name, p :: HadProfile(history, v, name, p) && e == Registration(namespace, name, p)
  }

  /** The move is the cause of the event: a flow was decoded from the response it received. */
  ghost predicate Causes(namespace: string, history: seq<Cluster>, m: Move, e: Event) {
    match e
    case Ingest(f) => m.Receive? && DecodedFrom(f, m.data, m.now)
    case Tick(now) => m == TickAt(now)
    case Register(_, _, _) => m.Act? && m.action.EnsureBaseline? && RegistersProfile(namespace, history, e)
  }

  ghost predicate LifeOk(namespace: string, history: seq<Cluster>, moves: seq<Move>, l: Life) {
    && |l.origin| == |l.trace|
    && forall i :: 0 <= i < |l.trace| ==>
         l.origin[i] < |moves| && Causes(namespace, history, moves[l.origin[i]], l.trace[i])
  }

  ghost predicate SaveOk(env: Setting, window: int, lives: seq<Life>, x: Saving) {
    x.life < |lives| && Genuine(x.write, lives[x.life].trace, window) && x.write.namespace == env.namespace
  }

  ghost predicate SavedTo(saves: seq<Saving>, cm: string, snap: Snapshot) {
    exists k :: 0 <= k < |saves| && saves[k].write.configMap == cm && saves[k].write.snapshot == snap
  }

  /** Every baseline was saved there. */
  ghost predicate BaselinesOk(saves: seq<Saving>, c: Cluster) {
    forall cm :: cm in c.configMaps && c.configMaps[cm].snapshot.Some? ==>
      SavedTo(saves, cm, c.configMaps[cm].snapshot.value)
  }

  ghost predicate AllInv(env: Setting, window: int, s: State, moves: seq<Move>) {
    && Started(s) && Inv(env, s.gate) && WorkerRead(s.gate)
    && (forall l :: 0 <= l < |s.lives| ==> LifeOk(env.namespace, s.gate.history, moves, s.lives[l]))
    && (forall k :: 0 <= k < |s.saves| ==> SaveOk(env, window, s.lives, s.saves[k]))
    && (forall v :: 0 <= v < |s.gate.history| ==> BaselinesOk(s.saves, s.gate.history[v]))
  }

  // ----- What stays true as the run grows -----

  lemma CausesGrows(namespace: string, h: seq<Cluster>, h': seq<Cluster>, m: Move, e: Event)
    requires h <= h' && Causes(namespace, h, m, e)
    ensures Causes(namespace, h', m, e)
  {
    if e.Register? {
      var v, name, p :| HadProfile(h, v, name, p) && e == Registration(namespace, name, p);
      assert HadProfile(h', v, name, p);
    }
  }

  lemma LifeGrows(namespace: string, h: seq<Cluster>, h': seq<Cluster>, moves: seq<Move>, more: seq<Move>, l: Life)
    requires h <= h' && moves <= more && LifeOk(namespace, h, moves, l)
    ensures LifeOk(namespace, h', more, l)
  {
    hide Causes;
    forall i | 0 <= i < |l.trace| ensures l.origin[i] < |more| && Causes(namespace, h', more[l.origin[i]], l.trace[i]) {
      CausesGrows(namespace, h, h', moves[l.origin[i]], l.trace[i]);
    }
  }

  lemma BaselinesGrow(saves: seq<Saving>, more: seq<Saving>, c: Cluster)
    requires saves <= more && BaselinesOk(saves, c)
    ensures BaselinesOk(more, c)
  {
    forall cm | cm in c.configMaps && c.configMaps[cm].snapshot.Some?
      ensures SavedTo(more, cm, c.configMaps[cm].snapshot.value)
    {
      var k :| 0 <= k < |saves| && saves[k].write.configMap == cm
          && saves[k].write.snapshot == c.configMaps[cm].snapshot.value;
      assert more[k] == saves[k];
    }
  }

  /** The gate only grew, by one version at most. */
  ghost predicate GateExtends(env: Setting, g: Gate.System, h: Gate.System) {
    g.history != [] && g.history <= h.history && |h.history| <= |g.history| + 1 && Inv(env, h) && WorkerRead(h)
  }

  lemma GateExtendsKeeps(env: Setting, window: int, s: State, g: Gate.System, moves: seq<Move>, m: Move)
    requires AllInv(env, window, s, moves) && GateExtends(env, s.gate, g)
    requires BaselinesOk(s.saves, g.history[|g.history| - 1])
    ensures AllInv(env, window, s.(gate := g), moves + [m])
  {
    hide Inv, WorkerRead, LifeOk, SaveOk, BaselinesOk;
    forall l | 0 <= l < |s.lives| ensures LifeOk(env.namespace, g.history, moves + [m], s.lives[l]) {
      LifeGrows(env.namespace, s.gate.history, g.history, moves, moves + [m], s.lives[l]);
    }
    forall v | 0 <= v < |g.history| ensures BaselinesOk(s.saves, g.history[v]) {
      if v < |s.gate.history| { assert g.history[v] == s.gate.history[v]; }
    }
  }

  /** Nor did it gain a baseline. */
  ghost predicate GateGrows(env: Setting, g: Gate.System, h: Gate.System) {
    GateExtends(env, g, h) && KeepsBaselines(Gate.Now(g), h.history[|h.history| - 1])
  }

  lemma GateGrowsKeeps(env: Setting, window: int, s: State, g: Gate.System, moves: seq<Move>, m: Move)
    requires AllInv(env, window, s, moves) && GateGrows(env, s.gate, g)
    ensures AllInv(env, window, s.(gate := g), moves + [m])
  {
    assert BaselinesOk(s.saves, Gate.Now(s.gate));
    hide AllInv, BaselinesOk, KeepsBaselines, Inv, WorkerRead;
    FewerBaselines(s.saves, Gate.Now(s.gate), g.history[|g.history| - 1]);
    GateExtendsKeeps(env, window, s, g, moves, m);
  }

  lemma FewerBaselines(saves: seq<Saving>, c: Cluster, next: Cluster)
    requires BaselinesOk(saves, c) && KeepsBaselines(c, next)
    ensures BaselinesOk(saves, next)
  {
    hide SavedTo;
  }

  /** An event that its move causes. */
  lemma EventKeeps(env: Setting, window: int, s: State, moves: seq<Move>, e: Event, at: nat)
    requires AllInv(env, window, s, moves) && at < |moves| && Causes(env.namespace, s.gate.history, moves[at], e)
    ensures AllInv(env, window, WithEvent(s, e, at), moves)
  {
    hide Inv, WorkerRead, Causes, BaselinesOk, Genuine;
    var t, n := WithEvent(s, e, at), |s.lives| - 1;
    assert LifeOk(env.namespace, s.gate.history, moves, s.lives[n]);
    forall l | 0 <= l < |t.lives| ensures LifeOk(env.namespace, s.gate.history, moves, t.lives[l]) {
      if l < n { assert t.lives[l] == s.lives[l]; }
    }
    forall k | 0 <= k < |s.saves| ensures SaveOk(env, window, t.lives, s.saves[k]) {
      assert SaveOk(env, window, s.lives, s.saves[k]);
      if s.saves[k].life == n { GenuineExtends(s.saves[k].write, s.lives[n].trace, e, window); }
    }
  }

  // ----- The moves -----

  lemma NoNewBaselines(c: Cluster, name: string)
    ensures KeepsBaselines(c, c) && KeepsBaselines(c, WithConfigMap(c, name))
        && KeepsBaselines(c, WithProposal(c, name))
  {
  }

  lemma SameConfigMaps(c: Cluster, d: Cluster)
    requires d.configMaps == c.configMaps
    ensures KeepsBaselines(c, d)
  {
  }

  lemma ProposalStepBaselines(env: Setting, g: Gate.System, a: Gate.Action)
    requires g.history != []
    ensures var h := Gate.ProposalStep(env, g, a);
            && g.history <= h.history && |h.history| <= |g.history| + 1 && h.profiles == g.profiles
            && KeepsBaselines(Gate.Now(g), h.history[|h.history| - 1])
  {
    hide Gate.MergedProposal, NextProposalStatus, PolicyFor;
  }

  lemma ProfileStepBaselines(g: Gate.System, a: Gate.Action)
    requires g.history != [] && WorkerRead(g)
    ensures var h := Gate.ProfileStep(g, a);
            && g.history <= h.history && |h.history| <= |g.history| + 1 && WorkerRead(h)
            && KeepsBaselines(Gate.Now(g), h.history[|h.history| - 1])
  {
    hide Gate.MergedProfile, NextProfileStatus, WithConfigMap, WithProposal, KeepsBaselines, NextProfilePhase,
        SnapshotOf;
    var h, c := Gate.ProfileStep(g, a), Gate.Now(g);
    NoNewBaselines(c, "");
    match (a, g.profiles)
    case (ReadProfile(name, v), Resting) =>
      if h.profiles.Started? { assert HadProfile(h.history, v, name, h.profiles.p); }
    case (EnsureBaseline(ok), Started(run, name, p)) => NoNewBaselines(c, name);
    case (CreateProposal(ok), Creating(run, name, p, snap)) => NoNewBaselines(c, name);
    case (WriteProfileStatus(_, _), _) => SameConfigMaps(c, Gate.Now(h));
    case _ =>
  }

  lemma WorkerReadGrows(g: Gate.System, h: Gate.System)
    requires WorkerRead(g) && g.history <= h.history && h.profiles == g.profiles
    ensures WorkerRead(h)
  {
    if g.profiles.Started? {
      var v :| HadProfile(g.history, v, g.profiles.name, g.profiles.p);
      assert HadProfile(h.history, v, g.profiles.name, g.profiles.p);
    }
  }

  lemma UserEditGrows(g: Gate.System, next: Cluster)
    requires g.history != [] && WorkerRead(g) && KeepsBaselines(Gate.Now(g), next)
    ensures var h := Gate.Wrote(g, next);
            && g.history <= h.history && |h.history| == |g.history| + 1 && WorkerRead(h)
            && KeepsBaselines(Gate.Now(g), h.history[|h.history| - 1])
  {
    hide KeepsBaselines;
    WorkerReadGrows(g, Gate.Wrote(g, next));
  }

  lemma StepIsOneOf(env: Setting, g: Gate.System, a: Gate.Action)
    requires g.history != []
    ensures var h := Gate.Step(env, g, a);
            || h == g || (a.UserEdit? && h == Gate.Wrote(g, a.next))
            || h == Gate.ProfileStep(g, a) || h == Gate.ProposalStep(env, g, a)
  {
    hide Gate.ProfileStep, Gate.ProposalStep, Gate.UserMay;
  }

  lemma GrowsMeans(env: Setting, g: Gate.System, h: Gate.System)
    requires g.history != [] && g.history <= h.history && |h.history| <= |g.history| + 1 && Inv(env, h) && WorkerRead(h)
    requires KeepsBaselines(Gate.Now(g), h.history[|h.history| - 1])
    ensures GateGrows(env, g, h)
  {
    hide Inv, WorkerRead, KeepsBaselines;
  }

  lemma InvHasHistory(env: Setting, g: Gate.System)
    requires Inv(env, g)
    ensures g.history != [] && Gate.Now(g) == g.history[|g.history| - 1]
  {
  }

  lemma GateStepGrows(env: Setting, g: Gate.System, a: Gate.Action)
    requires Inv(env, g) && WorkerRead(g) && (a.UserEdit? ==> KeepsBaselines(Gate.Now(g), a.next))
    ensures GateGrows(env, g, Gate.Step(env, g, a))
  {
    hide *;
    InvHasHistory(env, g);
    StepKeeps(env, g, a);
    StepIsOneOf(env, g, a);
    NoNewBaselines(Gate.Now(g), "");
    if a.UserEdit? { UserEditGrows(g, a.next); }
    ProfileStepBaselines(g, a);
    ProposalStepBaselines(env, g, a);
    WorkerReadGrows(g, Gate.ProposalStep(env, g, a));
    GrowsMeans(env, g, Gate.Step(env, g, a));
  }

  lemma ActKeeps(env: Setting, window: int, s: State, moves: seq<Move>, a: Gate.Action)
    requires AllInv(env, window, s, moves)
    ensures AllInv(env, window, Next(env, window, s, Act(a), |moves|), moves + [Act(a)])
  {
    hide Inv, WorkerRead, LifeOk, SaveOk, BaselinesOk, KeepsBaselines, Gate.Step;
    if a.UserEdit? && !KeepsBaselines(Gate.Now(s.gate), a.next) {
      StutterKeeps(env, window, s, moves, Act(a));
    } else {
      GateStepGrows(env, s.gate, a);
      var t := s.(gate := Gate.Step(env, s.gate, a));
      GateGrowsKeeps(env, window, s, t.gate, moves, Act(a));
      if a.EnsureBaseline? && a.ok && s.gate.profiles.Started? {
        var w := s.gate.profiles;
        RegistrationCaused(env, s.gate, t.gate.history, a);
        EventKeeps(env, window, t, moves + [Act(a)], Registration(env.namespace, w.name, w.p), |moves|);
      }
    }
  }

  lemma RegistrationCaused(env: Setting, g: Gate.System, history: seq<Cluster>, a: Gate.Action)
    requires g.profiles.Started? && WorkerRead(g) && g.history <= history && a.EnsureBaseline?
    ensures Causes(env.namespace, history, Act(a), Registration(env.namespace, g.profiles.name, g.profiles.p))
  {
    var v :| HadProfile(g.history, v, g.profiles.name, g.profiles.p);
    assert HadProfile(history, v, g.profiles.name, g.profiles.p);
  }

  lemma StutterKeeps(env: Setting, window: int, s: State, moves: seq<Move>, m: Move)
    requires AllInv(env, window, s, moves)
    ensures AllInv(env, window, s, moves + [m])
  {
    NoNewBaselines(Gate.Now(s.gate), "");
    hide Inv, WorkerRead, LifeOk, SaveOk, BaselinesOk, KeepsBaselines;
    GateGrowsKeeps(env, window, s, s.gate, moves, m);
    assert s.(gate := s.gate) == s;
  }

  lemma RestartKeeps(env: Setting, window: int, s: State, moves: seq<Move>, m: Move)
    requires AllInv(env, window, s, moves)
    ensures AllInv(env, window, Restarted(env, s), moves + [m])
  {
    var g := s.gate.(proposals := Gate.Idle, profiles := Gate.Resting);
    StopsKeep(env, s.gate, g);
    NoNewBaselines(Gate.Now(s.gate), "");
    assert WorkerRead(g);
    hide Inv, WorkerRead, BaselinesOk, KeepsBaselines, Genuine;
    GateGrowsKeeps(env, window, s, g, moves, m);
    var t := Restarted(env, s);
    forall l | 0 <= l < |t.lives| ensures LifeOk(env.namespace, g.history, moves + [m], t.lives[l]) {
      if l < |s.lives| { assert t.lives[l] == s.lives[l]; }
    }
    forall k | 0 <= k < |s.saves| ensures SaveOk(env, window, t.lives, s.saves[k]) {
      assert SaveOk(env, window, s.lives, s.saves[k]);
    }
  }

  /** One more save. */
  lemma SavingKeeps(env: Setting, window: int, s: State, moves: seq<Move>, x: Saving)
    requires AllInv(env, window, s, moves) && SaveOk(env, window, s.lives, x)
    ensures AllInv(env, window, s.(saves := s.saves + [x]), moves)
  {
    hide Inv, WorkerRead, LifeOk, SaveOk, BaselinesOk;
    forall v | 0 <= v < |s.gate.history| ensures BaselinesOk(s.saves + [x], s.gate.history[v]) {
      BaselinesGrow(s.saves, s.saves + [x], s.gate.history[v]);
    }
  }

  lemma SnapshotSaved(saves: seq<Saving>, c: Cluster, w: Write)
    requires w.configMap in c.configMaps && BaselinesOk(saves, c)
    requires saves != [] && saves[|saves| - 1].write == w
    ensures BaselinesOk(saves, WithSnapshot(c, w.configMap, w.snapshot))
  {
    assert SavedTo(saves, w.configMap, w.snapshot);
  }

  lemma SaveGrows(env: Setting, window: int, s: State, w: Write)
    requires Started(s) && Inv(env, s.gate) && WorkerRead(s.gate) && w.configMap in Gate.Now(s.gate).configMaps
    ensures GateExtends(env, s.gate, Gate.Wrote(s.gate, WithSnapshot(Gate.Now(s.gate), w.configMap, w.snapshot)))
  {
    var d := WithSnapshot(Gate.Now(s.gate), w.configMap, w.snapshot);
    UserEditKeeps(env, s.gate, d);
    WorkerReadGrows(s.gate, Gate.Wrote(s.gate, d));
    hide Inv, WorkerRead;
  }

  lemma SaveKeeps(env: Setting, window: int, s: State, moves: seq<Move>, w: Write)
    requires AllInv(env, window, s, moves) && MaySave(env, window, s, w)
    ensures AllInv(env, window, Next(env, window, s, Save(w), |moves|), moves + [Save(w)])
  {
    hide Inv, WorkerRead, LifeOk, BaselinesOk, Genuine, WithSnapshot, GateExtends, Gate.Step, Hubble.Response;
    var x := Saving(|s.lives| - 1, w);
    var t := s.(saves := s.saves + [x]);
    var g := Gate.Wrote(s.gate, WithSnapshot(Gate.Now(s.gate), w.configMap, w.snapshot));
    SaveGrows(env, window, s, w);
    SavingKeeps(env, window, s, moves, x);
    assert BaselinesOk(t.saves, Gate.Now(t.gate));
    SnapshotSaved(t.saves, Gate.Now(s.gate), w);
    hide AllInv;
    GateExtendsKeeps(env, window, t, g, moves, Save(w));
  }

  lemma MoveKeeps(env: Setting, window: int, s: State, moves: seq<Move>, m: Move)
    requires AllInv(env, window, s, moves)
    ensures AllInv(env, window, Next(env, window, s, m, |moves|), moves + [m])
  {
    assert Started(s);
    hide AllInv, MaySave, Hubble.Response, Gate.Step, KeepsBaselines;
    match m
    case Act(a) => ActKeeps(env, window, s, moves, a);
    case Receive(data, now) =>
      match Hubble.Response(data, now) {
        case Returned(Some(f)) => ExternalEventKeeps(env, window, s, moves, m, Ingest(f));
        case Panicked => RestartKeeps(env, window, s, moves, m);
        case _ => StutterKeeps(env, window, s, moves, m);
      }
    case TickAt(now) => ExternalEventKeeps(env, window, s, moves, m, Tick(now));
    case Save(w) =>
      if MaySave(env, window, s, w) {
        SaveKeeps(env, window, s, moves, w);
      } else {
        StutterKeeps(env, window, s, moves, m);
      }
    case Restart => RestartKeeps(env, window, s, moves, m);
  }

  lemma ExternalEventKeeps(env: Setting, window: int, s: State, moves: seq<Move>, m: Move, e: Event)
    requires AllInv(env, window, s, moves) && !e.Register? && Causes(env.namespace, s.gate.history, m, e)
    ensures AllInv(env, window, WithEvent(s, e, |moves|), moves + [m])
  {
    hide Causes;
    StutterKeeps(env, window, s, moves, m);
    EventKeeps(env, window, s, moves + [m], e, |moves|);
  }

  /** No baseline yet. */
  ghost predicate Bare(c: Cluster) {
    forall cm :: cm in c.configMaps ==> c.configMaps[cm].snapshot == None
  }

  /** In every run: each event of the accumulator has its cause among the moves, each save is genuine,
      and each baseline in each version of the cluster was saved by the accumulator. */
  lemma {:induction false} RunKeepsAll(env: Setting, window: int, c: Cluster, moves: seq<Move>)
    requires Fresh(c) && Bare(c)
    ensures AllInv(env, window, Run(env, window, c, moves), moves)
  {
    if moves == [] {
      StartIsOk(env, window, c);
    } else {
      hide AllInv, Next, Bare, Fresh;
      var front, last := moves[..|moves| - 1], moves[|moves| - 1];
      RunKeepsAll(env, window, c, front);
      assert moves == front + [last];
      MoveKeeps(env, window, Run(env, window, c, front), front, last);
    }
  }

  lemma StartIsOk(env: Setting, window: int, c: Cluster)
    requires Fresh(c) && Bare(c)
    ensures AllInv(env, window, State(Gate.Start(c), [Life([], [])], []), [])
  {
    RunKeeps(env, c, []);
    hide Inv, Fresh;
  }

  // ----- From bytes to policy -----

  /** Save k shows the triple for a reason: event e of the lifetime that made it is a flow of that name,
      port and protocol, in the window of the tick, decoded from the very response that a move of the run
      received; and the workload was then registered for the ConfigMap saved to. */
  ghost predicate FromWire(env: Setting, window: int, s: State, moves: seq<Move>, k: nat, e: nat, t: Rules.Triple)
    requires k < |s.saves| && s.saves[k].life < |s.lives|
  {
    var w, l := s.saves[k].write, s.lives[s.saves[k].life];
    && e < |l.trace| && e < |l.origin| && l.origin[e] < |moves|
    && Evidence(l.trace, window, w.at, e, w.snapshot.workloadKey, t)
    && moves[l.origin[e]].Receive?
    && DecodedFrom(l.trace[e].flow, moves[l.origin[e]].data, moves[l.origin[e]].now)
    && exists r :: RoutedBy(l.trace, w.at, r, w.snapshot.workloadKey, (env.namespace, w.configMap))
  }

  lemma SaveIsFromWire(env: Setting, window: int, s: State, moves: seq<Move>, k: nat, t: Rules.Triple) returns (e: nat)
    requires AllInv(env, window, s, moves) && k < |s.saves|
    requires PolicyAllows(s.saves[k].write.snapshot, t, env.parsesPublic)
    ensures s.saves[k].life < |s.lives| && FromWire(env, window, s, moves, k, e, t)
  {
    assert SaveOk(env, window, s.lives, s.saves[k]);
    var w, l := s.saves[k].write, s.lives[s.saves[k].life];
    assert LifeOk(env.namespace, s.gate.history, moves, l);
    hide AllInv, Genuine, PolicyAllows, RoutedBy, DecodedFrom;
    Provenance(w, l.trace, window, t, env.parsesPublic);
    var i :| Evidence(l.trace, window, w.at, i, w.snapshot.workloadKey, t);
    e := i;
    assert Causes(env.namespace, s.gate.history, moves[l.origin[e]], l.trace[e]);
  }

  /** A policy that allows anything was compiled from some save to its profile's ConfigMap. */
  lemma PolicyIsFromSave(env: Setting, window: int, s: State, moves: seq<Move>, i: nat, t: Rules.Triple)
    returns (q: Proposal, p: Profile, k: nat)
    requires AllInv(env, window, s, moves) && i < |s.gate.log| && s.gate.log[i].WroteCnp?
    requires CnpAllows(s.gate.log[i].cnp, t)
    ensures BothRead(s.gate, i, s.gate.log[i].run, s.gate.log[i].name, q, p) && MayApply(p.mode, q.approved)
    ensures k < |s.saves| && s.saves[k].write.configMap == ConfigMapName(q.profileRef)
    ensures s.gate.log[i].cnp == PolicyFor(env, q.profileRef, p, s.saves[k].write.snapshot).cnp
    ensures PolicyAllows(s.saves[k].write.snapshot, t, env.parsesPublic)
  {
    var g, cnp := s.gate, s.gate.log[i].cnp;
    assert EntryOk(env, g, i);
    hide BothRead, CnpAllows, ConfigMapName, PolicyFor, Inv, WorkerRead, LifeOk, SaveOk, PolicyAllows;
    q, p :| BothRead(g, i, g.log[i].run, g.log[i].name, q, p) && MayApply(p.mode, q.approved)
        && FromBaseline(env, g, q, p, cnp);
    var v :| 0 <= v < |g.history| && HeldPolicy(env, g.history[v], q, p, cnp);
    var cm := ConfigMapName(q.profileRef);
    var baseline := g.history[v].configMaps[cm];
    CnpAllowsIff(env, q.profileRef, p, SnapshotOf(baseline), t);
    if baseline.snapshot == None {
      NothingFromNothing(t, env.parsesPublic);
      assert false;
    }
    assert BaselinesOk(s.saves, g.history[v]);
    k :| 0 <= k < |s.saves| && s.saves[k].write.configMap == cm && s.saves[k].write.snapshot == baseline.snapshot.value;
  }

  /** From bytes to policy, in every run of the whole system: a policy that the operator writes and that
      allows a name, port and protocol was written by a reconcile that read the proposal as approved and
      its profile as enforcing; it is the policy compiled from a snapshot that the accumulator saved to
      that profile's ConfigMap; and a response received in this run decoded to a flow of that snapshot's
      workload to that destination, within the window of the tick that made the snapshot. */
  lemma WireToPolicy(env: Setting, window: int, c: Cluster, moves: seq<Move>, i: nat, t: Rules.Triple)
    returns (q: Proposal, p: Profile, k: nat, e: nat)
    requires Fresh(c) && Bare(c)
    requires var g := Run(env, window, c, moves).gate; i < |g.log| && g.log[i].WroteCnp? && CnpAllows(g.log[i].cnp, t)
    ensures var s := Run(env, window, c, moves);
            && BothRead(s.gate, i, s.gate.log[i].run, s.gate.log[i].name, q, p) && MayApply(p.mode, q.approved)
            && k < |s.saves| && s.saves[k].life < |s.lives|
            && s.saves[k].write.configMap == ConfigMapName(q.profileRef)
            && s.gate.log[i].cnp == PolicyFor(env, q.profileRef, p, s.saves[k].write.snapshot).cnp
            && FromWire(env, window, s, moves, k, e, t)
  {
    RunKeepsAll(env, window, c, moves);
    var s := Run(env, window, c, moves);
    hide Run, AllInv, CnpAllows, BothRead, PolicyFor, ConfigMapName, FromWire, PolicyAllows, Bare, Fresh;
    q, p, k := PolicyIsFromSave(env, window, s, moves, i, t);
    e := SaveIsFromWire(env, window, s, moves, k, t);
  }

  // ----- Profiles whose target is not a pod -----

  /** Whenever there is such a profile, its target is named as Kubernetes does, and is not a pod. */
  ghost predicate NeverPod(namespace: string, history: seq<Cluster>, name: string) {
    forall v :: 0 <= v < |history| && name in history[v].profiles ==>
      Named(namespace, history[v].profiles[name].target) && history[v].profiles[name].target.kind != "Pod"
  }

  /** What was saved to a profile's ConfigMap is the snapshot of a target it once had. */
  lemma SavedForTarget(env: Setting, window: int, s: State, moves: seq<Move>, k: nat, name: string)
    returns (v: nat)
    requires AllInv(env, window, s, moves) && k < |s.saves| && s.saves[k].write.configMap == ConfigMapName(name)
    ensures v < |s.gate.history| && name in s.gate.history[v].profiles
    ensures s.saves[k].write.snapshot.workloadKey == WorkloadKey(env.namespace, s.gate.history[v].profiles[name].target)
  {
    assert SaveOk(env, window, s.lives, s.saves[k]);
    var w, l := s.saves[k].write, s.lives[s.saves[k].life];
    assert LifeOk(env.namespace, s.gate.history, moves, l);
    hide AllInv, Genuine, RoutedBy, ConfigMapName, WorkloadKey;
    WriteIsRouted(w, l.trace, window);
    var r :| RoutedBy(l.trace, w.at, r, w.snapshot.workloadKey, (w.namespace, w.configMap));
    RouteRegisters(l.trace, w.at, r, w.snapshot.workloadKey, (w.namespace, w.configMap));
    assert Causes(env.namespace, s.gate.history, moves[l.origin[r]], l.trace[r]);
    var u, x, p :| HadProfile(s.gate.history, u, x, p) && l.trace[r] == Registration(env.namespace, x, p);
    if x != name { Convergence.NamesDiffer(x, name); }
    v := u;
  }

  lemma LifeFromHubble(namespace: string, history: seq<Cluster>, moves: seq<Move>, l: Life)
    requires LifeOk(namespace, history, moves, l)
    ensures FromHubble(l.trace)
  {
    hide DecodedFrom;
    forall i | 0 <= i < |l.trace| && l.trace[i].Ingest? ensures Decodes(l.trace[i].flow) {
      assert Causes(namespace, history, moves[l.origin[i]], l.trace[i]);
    }
  }

  /** In no run is a snapshot saved for a profile whose target is never a pod. */
  lemma OtherKindsAreNeverSaved(env: Setting, window: int, c: Cluster, moves: seq<Move>, k: nat, name: string)
    requires Fresh(c) && Bare(c) && NeverPod(env.namespace, Run(env, window, c, moves).gate.history, name)
    requires k < |Run(env, window, c, moves).saves|
    ensures Run(env, window, c, moves).saves[k].write.configMap != ConfigMapName(name)
  {
    RunKeepsAll(env, window, c, moves);
    var s := Run(env, window, c, moves);
    if s.saves[k].write.configMap == ConfigMapName(name) {
      assert SaveOk(env, window, s.lives, s.saves[k]);
      var w, l := s.saves[k].write, s.lives[s.saves[k].life];
      LifeFromHubble(env.namespace, s.gate.history, moves, l);
      hide Run, AllInv, LifeOk, Genuine, FromHubble, Named, ConfigMapName, WorkloadKey, Bare, Fresh;
      var v := SavedForTarget(env, window, s, moves, k, name);
      OnlyPodsAreWritten(w, l.trace, window, env.namespace, s.gate.history[v].profiles[name].target);
    }
  }

  /** So a policy that is applied for such a profile allows no destination at all. */
  lemma OtherKindsAreDenied(env: Setting, window: int, c: Cluster, moves: seq<Move>, i: nat, t: Rules.Triple)
    requires Fresh(c) && Bare(c)
    requires i < |Run(env, window, c, moves).gate.log| && Run(env, window, c, moves).gate.log[i].WroteCnp?
    requires var g := Run(env, window, c, moves).gate; NeverPod(env.namespace, g.history, g.log[i].cnp.app)
    ensures !CnpAllows(Run(env, window, c, moves).gate.log[i].cnp, t)
  {
    var s := Run(env, window, c, moves);
    RunKeepsAll(env, window, c, moves);
    hide Run, AllInv, CnpAllows, BothRead, ConfigMapName, PolicyAllows, Bare, Fresh, NeverPod, Generator.Compile,
        Generator.Wrap;
    if CnpAllows(s.gate.log[i].cnp, t) {
      var q, p, k := PolicyIsFromSave(env, window, s, moves, i, t);
      assert s.gate.log[i].cnp.app == q.profileRef;
      OtherKindsAreNeverSaved(env, window, c, moves, k, q.profileRef);
    }
  }
}
