/** Whole runs: any number of operations on one application, in any order and
    with any outcomes. */
module Operations {
  import opened Common
  import opened StateMachines
  import opened Instances
  import opened Lineage
  import opened History
  import opened Fleets
  import opened Releases
  import opened Scaling
  import opened Healing
  import opened Deployments
  import opened Recovery

  // ---- Restart and stop by hand -----------------------------------------

  predicate Actionable(row: Instance) {
    row.status in {Running, Unhealthy}
  }

  /** The number of the agent command: after the reload, if there is a domain. */
  function CommandCall(cfg: Settings, s: Snapshot): nat {
    s.calls + if cfg.hasDomain then 1 else 0
  }

  /** Exactly that row ends RUNNING or FAILED, as the agent answers. */
  ghost predicate RestartedByHand(cfg: Settings, w: Outside, s: Snapshot, t: Snapshot, q: HealRequest)
    requires q.id in s.rows
  {
    && t.nextId == s.nextId
    && t.rows == if Actionable(s.rows[q.id]) && q.agent && q.releaseFound
                 then s.rows[q.id := s.rows[q.id].(
                        status := if Good(w, CommandCall(cfg, s)) then Running else Failed)]
                 else s.rows
  }

  /** `restart_instance`, asked for by a user; false is InstanceActionError. */
  method RestartInstance(f: Fleet, q: HealRequest) returns (ok: bool)
    requires f.Valid() && q.id in f.rows
    modifies f`rows, f`foreign, f`now, f`history, f`installed, f`calls, f`reloads
    ensures f.Valid() && OnlyRoutine(old(f.reloads), f.reloads)
    ensures RestartedByHand(f.cfg, f.world, old(f.Snap()), f.Snap(), q)
    ensures ok <==> Actionable(old(f.rows)[q.id]) && q.agent && q.releaseFound
                    && Good(f.world, CommandCall(f.cfg, old(f.Snap())))
    ensures Tracked(f.cfg, f.world, old(f.Snap()), f.Snap())
    ensures Agrees(old(f.rows), f.active, old(f.installed)) ==> Agrees(f.rows, f.active, f.installed)
  {
    if !Actionable(f.rows[q.id]) || !q.agent || !q.releaseFound {
      return false;
    }
    var moved := MoveAndSync(f, q.id, Restarting);
    ghost var m := f.Snap();
    ok := FinishRestart(f, q.id);
    assert Tracked(f.cfg, f.world, old(f.Snap()), f.Snap()) by {
      PayloadAfter(m.rows, q.id, f.rows[q.id], f.active);
      TrackedThen(f.cfg, f.world, old(f.Snap()), m, f.Snap());
    }
    TrackedAgrees(f.cfg, f.world, old(f.Snap()), f.Snap());
  }

  method FinishRestart(f: Fleet, id: nat) returns (ok: bool)
    requires f.Valid() && id in f.rows && f.rows[id].status == Restarting
    modifies f`rows, f`foreign, f`now, f`history, f`installed, f`calls, f`reloads
    ensures f.Valid() && OnlyRoutine(old(f.reloads), f.reloads) && ok == Good(f.world, old(f.calls))
    ensures f.reloads == old(f.reloads) <==> !(ok && f.cfg.hasDomain)
    ensures f.rows == old(f.rows)[id := old(f.rows)[id].(status := if ok then Running else Failed)]
    ensures Tracked(f.cfg, f.world, old(f.Snap()), f.Snap())
  {
    var moved;
    ok := f.Call();
    ghost var m := f.Snap();
    if ok {
      moved := MoveAndSync(f, id, Running);
    } else {
      moved := f.Move(id, Failed);
    }
    TrackedThen(f.cfg, f.world, old(f.Snap()), m, f.Snap());
  }

  /** Exactly that row ends STOPPED or FAILED, as the agent answers. */
  ghost predicate StoppedByHand(cfg: Settings, w: Outside, s: Snapshot, t: Snapshot, id: nat, agent: bool)
    requires id in s.rows
  {
    && t.nextId == s.nextId
    && t.rows == if Actionable(s.rows[id]) && agent
                 then s.rows[id := s.rows[id].(status := if Good(w, CommandCall(cfg, s)) then Stopped else Failed)]
                 else s.rows
  }

  method FinishStop(f: Fleet, id: nat, ghost s: Snapshot) returns (ok: bool)
    requires f.Valid() && id in f.rows && f.rows[id].status == Draining && Tracked(f.cfg, f.world, s, f.Snap())
    modifies f`rows, f`foreign, f`now, f`history, f`calls
    ensures f.Valid() && ok == Good(f.world, old(f.calls)) && Tracked(f.cfg, f.world, s, f.Snap())
    ensures f.rows == old(f.rows)[id := old(f.rows)[id].(status := if ok then Stopped else Failed)]
  {
    ghost var m := f.Snap();
    ok := StopOne(f, id);
    PayloadAfter(m.rows, id, f.rows[id], f.active);
    TrackedThen(f.cfg, f.world, s, m, f.Snap());
  }

  /** `stop_instance`, asked for by a user. */
  method StopInstance(f: Fleet, id: nat, agent: bool) returns (ok: bool)
    requires f.Valid() && id in f.rows
    modifies f`rows, f`foreign, f`now, f`history, f`installed, f`calls, f`reloads
    ensures f.Valid() && OnlyRoutine(old(f.reloads), f.reloads)
    ensures StoppedByHand(f.cfg, f.world, old(f.Snap()), f.Snap(), id, agent)
    ensures ok <==> Actionable(old(f.rows)[id]) && agent && Good(f.world, CommandCall(f.cfg, old(f.Snap())))
    ensures Tracked(f.cfg, f.world, old(f.Snap()), f.Snap())
    ensures Agrees(old(f.rows), f.active, old(f.installed)) ==> Agrees(f.rows, f.active, f.installed)
  {
    if !Actionable(f.rows[id]) || !agent {
      return false;
    }
    var moved := MoveAndSync(f, id, Draining);
    ok := FinishStop(f, id, old(f.Snap()));
    TrackedAgrees(f.cfg, f.world, old(f.Snap()), f.Snap());
  }

  // ---- One operation ----------------------------------------------------

  datatype Operation =
    | Deploy(deploy: DeployRequest)
    | Switch(request: Request)
    | Scale(scale: ScaleRequest)
    | Heal(heal: HealRequest)
    | RestartByHand(restart: HealRequest)
    | StopByHand(id: nat, agent: bool)
    | Sync
    | Reconcile

  /** Routine operations leave the active release alone, reload only to follow a
      status change, and routing follows the rows, in agreement as before. */
  ghost predicate RoutineEffect(cfg: Settings, w: Outside, s: Snapshot, t: Snapshot) {
    && t.active == s.active && OnlyRoutine(s.reloads, t.reloads) && Tracked(cfg, w, s, t)
    && (Agrees(s.rows, s.active, s.installed) ==> Agrees(t.rows, t.active, t.installed))
  }

  /** The setup lets the operation start. */
  predicate Admissible(s: Snapshot, op: Operation) {
    match op
    case Deploy(q) => s.active.None? && forall id | id in s.rows :: s.rows[id].release != Some(q.release)
    case Switch(q) => s.active.Some? && s.active != Some(q.release) && q.count >= 1
    case Heal(q) => q.id in s.rows
    case RestartByHand(q) => q.id in s.rows
    case StopByHand(id, _) => id in s.rows
    case _ => true
  }

  /** What an operation does, by kind. */
  ghost predicate Performed(cfg: Settings, w: Outside, s: Snapshot, t: Snapshot, op: Operation) {
    if !Admissible(s, op) then t == s
    else match op
      case Deploy(q) => exists status :: Deployed(cfg, w, s, t, q, status)
      case Switch(q) => exists status :: Switched(cfg, w, s, t, q, status)
      case Scale(q) => RoutineEffect(cfg, w, s, t) &&
        exists drained, status ::
          && Rescaled(cfg, w, s, t, q, drained, status)
          && (Ready(cfg, q.agentFound) ==> ScaledTo(cfg, s, t, q, status))
      case Heal(q) => RoutineEffect(cfg, w, s, t) && exists v :: Healed(cfg, w, s, t, q, v)
      case RestartByHand(q) => RoutineEffect(cfg, w, s, t) && RestartedByHand(cfg, w, s, t, q)
      case StopByHand(id, agent) => RoutineEffect(cfg, w, s, t) && StoppedByHand(cfg, w, s, t, id, agent)
      case Sync =>
        && RoutineEffect(cfg, w, s, t) && t.rows == s.rows && t.nextId == s.nextId
        && t.installed == if !Heard(w, s.calls) then s.installed else Routing(cfg, s.rows, s.active)
      case Reconcile => RoutineEffect(cfg, w, s, t) && t.rows == Settled(s.rows) && t.nextId == s.nextId
  }

  /** A reload that leaves the gateway behind: one that was applied although the
      switch, not hearing so, took everything back; or one that never reached a
      gateway which the first deployment had to tell. */
  predicate Lapse(w: Outside, n: Notice) {
    || (n.why == Cutover && Heard(w, n.call) && !Good(w, n.call))
    || (n.why == First && !Heard(w, n.call))
  }

  ghost predicate NoLapse(w: Outside, s: Snapshot, t: Snapshot) {
    forall i | |s.reloads| <= i < |t.reloads| :: !Lapse(w, t.reloads[i])
  }

  lemma RoutineHasNoLapse(w: Outside, s: Snapshot, t: Snapshot)
    requires OnlyRoutine(s.reloads, t.reloads)
    ensures |s.reloads| <= |t.reloads| && t.reloads[..|s.reloads|] == s.reloads && NoLapse(w, s, t)
  {
  }

  /** Exactly when one operation breaks the agreement of routing and rows. */
  lemma PerformedAgreement(cfg: Settings, w: Outside, s: Snapshot, t: Snapshot, op: Operation)
    requires cfg.hasDomain && Performed(cfg, w, s, t, op) && Agrees(s.rows, s.active, s.installed)
    ensures |s.reloads| <= |t.reloads| && t.reloads[..|s.reloads|] == s.reloads
    ensures Agrees(t.rows, t.active, t.installed) <==>
            NoLapse(w, s, t) || (if op.Switch? then !cfg.certified else s.installed <= {s.nextId})
  {
    if !Admissible(s, op) {
    } else {
      match op {
        case Deploy(q) => DeployPerformed(cfg, w, s, t, q);
        case Switch(q) => SwitchPerformed(cfg, w, s, t, q);
        case _ => RoutineHasNoLapse(w, s, t);
      }
    }
  }

  /** A sync the gateway hears repairs whatever went before. */
  lemma SyncRepairs(cfg: Settings, w: Outside, s: Snapshot, t: Snapshot)
    requires Performed(cfg, w, s, t, Sync) && Heard(w, s.calls)
    ensures Agrees(t.rows, t.active, t.installed)
  {
  }

  lemma OneNotice(w: Outside, s: Snapshot, t: Snapshot, n: Notice)
    requires t.reloads == s.reloads || t.reloads == s.reloads + [n]
    ensures |s.reloads| <= |t.reloads| && t.reloads[..|s.reloads|] == s.reloads
    ensures NoLapse(w, s, t) <==> !(t.reloads != s.reloads && Lapse(w, n))
  {
    if t.reloads != s.reloads {
      assert t.reloads[|s.reloads|] == n;
    }
  }

  lemma DeployPerformed(cfg: Settings, w: Outside, s: Snapshot, t: Snapshot, q: DeployRequest)
    requires cfg.hasDomain && Admissible(s, Deploy(q)) && Performed(cfg, w, s, t, Deploy(q))
    ensures |s.reloads| <= |t.reloads| && t.reloads[..|s.reloads|] == s.reloads
    ensures Agrees(t.rows, t.active, t.installed) <==> NoLapse(w, s, t) || s.installed <= {s.nextId}
  {
    var status :| Deployed(cfg, w, s, t, q, status);
    DeployAgreement(cfg, w, s, t, q, status);
    OneNotice(w, s, t, Notice(First, s.calls + 2));
  }

  lemma SwitchPerformed(cfg: Settings, w: Outside, s: Snapshot, t: Snapshot, q: Request)
    requires cfg.hasDomain && Admissible(s, Switch(q)) && Performed(cfg, w, s, t, Switch(q))
    requires Agrees(s.rows, s.active, s.installed)
    ensures |s.reloads| <= |t.reloads| && t.reloads[..|s.reloads|] == s.reloads
    ensures Agrees(t.rows, t.active, t.installed) <==> NoLapse(w, s, t) || !cfg.certified
  {
    var status :| Switched(cfg, w, s, t, q, status);
    SwitchAgreement(cfg, w, s, t, q, status);
    OneNotice(w, s, t, Notice(Cutover, CutoverCall(s, q)));
  }

  method PerformDeploy(f: Fleet, q: DeployRequest)
    requires f.Valid()
    modifies f
    ensures f.Valid() && Performed(f.cfg, f.world, old(f.Snap()), f.Snap(), Deploy(q))
  {
    var used := f.Select((row: Instance) => row.release == Some(q.release));
    if f.active.None? && used == [] {
      var status := RunDeployment(f, q);
    } else {
      assert used != [] ==> used[0] in used;
    }
  }

  method PerformScale(f: Fleet, q: ScaleRequest)
    requires f.Valid()
    modifies f
    ensures f.Valid() && Performed(f.cfg, f.world, old(f.Snap()), f.Snap(), Scale(q))
  {
    var status, drained := RunScale(f, q);
  }

  /** One operation under the application's lock; a request its setup refuses
      does nothing. */
  method Perform(f: Fleet, op: Operation)
    requires f.Valid()
    modifies f
    ensures f.Valid() && Performed(f.cfg, f.world, old(f.Snap()), f.Snap(), op)
  {
    match op {
      case Deploy(q) =>
        PerformDeploy(f, q);
      case Switch(q) =>
        if f.active.Some? && f.active != Some(q.release) && q.count >= 1 {
          var status := RunReleaseSwitch(f, q);
        }
      case Scale(q) =>
        PerformScale(f, q);
      case Heal(q) =>
        if q.id in f.rows {
          var v := HandleUnhealthy(f, q);
        }
      case RestartByHand(q) =>
        if q.id in f.rows {
          var ok := RestartInstance(f, q);
        }
      case StopByHand(id, agent) =>
        if id in f.rows {
          var ok := StopInstance(f, id, agent);
        }
      case Sync =>
        var ok := f.SyncGateway(Routine);
      case Reconcile =>
        var count := ReconcileStuckInstances(f);
    }
  }

  // ---- Whole runs -------------------------------------------------------

  ghost predicate IsRun(cfg: Settings, w: Outside, ops: seq<Operation>, snaps: seq<Snapshot>) {
    && |snaps| == |ops| + 1
    && forall i | 0 <= i < |ops| :: Performed(cfg, w, snaps[i], snaps[i + 1], ops[i])
  }

  /** Over every run of operations, with any outcomes: as long as no reload
      lapsed, the installed upstreams contain only active-release instances. */
  lemma {:induction false} RunAgrees(cfg: Settings, w: Outside, ops: seq<Operation>, snaps: seq<Snapshot>, n: nat)
    requires IsRun(cfg, w, ops, snaps) && n < |snaps|
    ensures |snaps[0].reloads| <= |snaps[n].reloads|
    ensures snaps[n].reloads[..|snaps[0].reloads|] == snaps[0].reloads
    ensures cfg.hasDomain && Agrees(snaps[0].rows, snaps[0].active, snaps[0].installed)
            && NoLapse(w, snaps[0], snaps[n]) ==>
              Agrees(snaps[n].rows, snaps[n].active, snaps[n].installed)
  {
    if n == 0 {
    } else {
      RunAgrees(cfg, w, ops, snaps, n - 1);
      var s, m, t := snaps[0], snaps[n - 1], snaps[n];
      ReloadsGrow(cfg, w, m, t, ops[n - 1]);
      assert t.reloads[..|s.reloads|] == m.reloads[..|s.reloads|];
      if cfg.hasDomain && Agrees(s.rows, s.active, s.installed) && NoLapse(w, s, t) {
        forall i | |s.reloads| <= i < |m.reloads| ensures !Lapse(w, m.reloads[i]) {
          assert m.reloads[i] == t.reloads[i];
        }
        PerformedAgreement(cfg, w, m, t, ops[n - 1]);
      }
    }
  }

  lemma ReloadsGrow(cfg: Settings, w: Outside, s: Snapshot, t: Snapshot, op: Operation)
    requires Performed(cfg, w, s, t, op)
    ensures |s.reloads| <= |t.reloads| && t.reloads[..|s.reloads|] == s.reloads
  {
  }

  /** Any operations in any order, and the moments between them. */
  method Run(f: Fleet, ops: seq<Operation>) returns (ghost snaps: seq<Snapshot>)
    requires f.Valid()
    modifies f
    ensures f.Valid() && IsRun(f.cfg, f.world, ops, snaps)
    ensures snaps[0] == old(f.Snap()) && snaps[|ops|] == f.Snap()
    ensures |old(f.reloads)| <= |f.reloads| && f.reloads[..|old(f.reloads)|] == old(f.reloads)
    ensures f.cfg.hasDomain && Agrees(old(f.rows), old(f.active), old(f.installed))
            && (forall i | |old(f.reloads)| <= i < |f.reloads| :: !Lapse(f.world, f.reloads[i])) ==>
              Agrees(f.rows, f.active, f.installed)
  {
    snaps := [f.Snap()];
    for i := 0 to |ops|
      invariant f.Valid() && IsRun(f.cfg, f.world, ops[..i], snaps)
      invariant snaps[0] == old(f.Snap()) && snaps[i] == f.Snap()
    {
      Perform(f, ops[i]);
      snaps := snaps + [f.Snap()];
    }
    assert ops[..|ops|] == ops;
    RunAgrees(f.cfg, f.world, ops, snaps, |ops|);
  }

  /** What holds of a fleet at every moment of its life, whatever was done to it:
      ports are never shared, healing is bounded, and terminal rows stay so. */
  lemma EveryMoment(f: Fleet, n: nat, r: nat)
    requires f.Valid() && n < |f.history.states|
    ensures var s := f.history.states[n];
            && SlotsDistinct(s.rows, s.foreign)
            && Restarts(s.heals, r) <= Bound(f.cfg.limits.maxAttempts)
            && Replacements(s.heals, r) <= Bound(f.cfg.limits.maxAttempts)
            && s.rows.Keys == s.root.Keys
            && (forall i, j | Alive(s.rows, i) && Alive(s.rows, j) && s.root[i] == s.root[j] :: i == j)
            && (forall id | id in s.rows && Terminal(s.rows[id].status) ::
                  id in f.rows && f.rows[id].status == s.rows[id].status)
  {
    RunIsSound(f.cfg.limits, f.history, n);
    HealingIsBounded(f.cfg.limits, f.history, n, r);
    forall id | id in f.history.states[n].rows && Terminal(f.history.states[n].rows[id].status)
      ensures id in f.rows && f.rows[id].status == f.history.states[n].rows[id].status
    {
      TerminalIsForGood(f.cfg.limits, f.history, n, |f.history.states| - 1, id);
    }
  }
}
