/** First deployment: one instance of a release nobody has deployed yet. */
module Deployments {
  import opened Common
  import opened StateMachines
  import opened Instances
  import opened History
  import opened Fleets

  datatype DeployRequest = DeployRequest(release: nat, agentFound: bool)

  /** deploy_release, then STARTING and start_instance; there is no health gate. */
  method BuildAndStart(f: Fleet, id: nat) returns (ok: bool)
    requires f.Valid() && id in f.rows && f.rows[id].status == Pending
    modifies f`rows, f`foreign, f`now, f`history, f`calls
    ensures f.Valid() && (ok <==> Good(f.world, old(f.calls)) && Good(f.world, old(f.calls) + 1))
    ensures f.now >= At(f.world, old(f.calls)).clock
    ensures f.calls == old(f.calls) + if Good(f.world, old(f.calls)) then 2 else 1
    ensures f.foreign <= At(f.world, f.calls - 1).others
    ensures f.rows == old(f.rows)[id := old(f.rows)[id].(status := if ok then Running else Failed)]
  {
    var built := f.Call();
    if !built {
      var moved := f.Move(id, Failed);
      return false;
    }
    var moved := f.Move(id, Starting);
    var o := Bring(f, id, false);
    return o == Up;
  }

  /** There is a server and a port for the instance. */
  ghost predicate Placeable(cfg: Settings, s: Snapshot) {
    && cfg.server.Some? && cfg.portStart.Some? && cfg.portEnd.Some?
    && exists p :: cfg.portStart.value <= p <= cfg.portEnd.value && !Held(s.rows, s.foreign, Slot(cfg.server.value, p))
  }

  /** The agent is there, builds the release, and starts the instance. */
  predicate Succeeds(w: Outside, s: Snapshot, q: DeployRequest) {
    q.agentFound && Good(w, s.calls) && Good(w, s.calls + 1)
  }

  /** No status means the setup refused.  Otherwise there is one new row, RUNNING
      and active exactly if the deployment succeeds; then the gateway is told, but
      what it answers changes nothing. */
  ghost predicate Deployed(cfg: Settings, w: Outside, s: Snapshot, t: Snapshot, q: DeployRequest,
                           status: Option<DeploymentStatus>) {
    if !Placeable(cfg, s) then status == None && t == s
    else
      var id, done := s.nextId, Succeeds(w, s, q);
      && status == Some(if done then DSucceeded else DFailed)
      && t.nextId == id + 1 && id !in s.rows && id in t.rows && t.rows == s.rows[id := t.rows[id]]
      && t.rows[id] == NewRow(q.release, t.rows[id].slot, s.now).(
                         status := if done then Running else if q.agentFound then Failed else Pending)
      && t.rows[id].slot.server == cfg.server.value
      && cfg.portStart.value <= t.rows[id].slot.port <= cfg.portEnd.value
      && t.active == (if done then Some(q.release) else s.active)
      && (done ==> t.calls == s.calls + if cfg.hasDomain then 3 else 2)
      && (q.agentFound && !done ==> t.calls == s.calls + if Good(w, s.calls) then 2 else 1)
      && (q.agentFound ==> t.now >= At(w, s.calls).clock && t.calls > s.calls && t.foreign <= At(w, t.calls - 1).others)
      && if done && cfg.hasDomain then
           && t.reloads == s.reloads + [Notice(First, s.calls + 2)]
           && t.installed == if !Heard(w, s.calls + 2) then s.installed else if cfg.certified then {id} else {}
         else t.reloads == s.reloads && t.installed == s.installed
  }

  /** `start_deployment` and `run_deployment`, of an application with no active
      release. */
  method RunDeployment(f: Fleet, q: DeployRequest) returns (status: Option<DeploymentStatus>)
    requires f.Valid() && f.active.None?
    requires forall id | id in f.rows :: f.rows[id].release != Some(q.release)
    modifies f`rows, f`nextId, f`foreign, f`now, f`history, f`active, f`installed, f`calls, f`reloads
    ensures f.Valid() && Deployed(f.cfg, f.world, old(f.Snap()), f.Snap(), q, status)
  {
    if f.cfg.server.None? || f.cfg.portStart.None? || f.cfg.portEnd.None? {
      return None;
    }
    var r := f.Allocate(q.release, f.cfg.server.value, f.cfg.portStart.value, f.cfg.portEnd.value);
    if r.None? {
      return None;
    }
    if !q.agentFound {
      return Some(DFailed);
    }
    var ok := BuildAndStart(f, r.value);
    if !ok {
      return Some(DFailed);
    }
    Activate(f, q.release, r.value);
    return Some(DSucceeded);
  }

  /** The release becomes active, and the gateway is told. */
  method Activate(f: Fleet, release: nat, id: nat)
    requires f.Valid() && id in f.rows && Routed(f.rows[id], Some(release))
    requires forall i | i in f.rows && i != id :: f.rows[i].release != Some(release)
    requires f.calls > 0 && f.foreign <= At(f.world, f.calls - 1).others
    modifies f`foreign, f`now, f`history, f`active, f`installed, f`calls, f`reloads
    ensures f.Valid() && f.active == Some(release) && f.now >= old(f.now)
    ensures f.calls == old(f.calls) + (if f.cfg.hasDomain then 1 else 0)
    ensures f.foreign <= At(f.world, f.calls - 1).others
    ensures f.reloads == if f.cfg.hasDomain then old(f.reloads) + [Notice(First, old(f.calls))] else old(f.reloads)
    ensures f.installed == if !f.cfg.hasDomain || !Heard(f.world, old(f.calls)) then old(f.installed)
                           else if f.cfg.certified then {id} else {}
  {
    f.active := Some(release);
    assert Payload(f.rows, f.active) == {id};
    if f.cfg.hasDomain {
      var told := f.SyncGateway(First);
    }
  }

  /** The gateway agrees with the first active release exactly when it was told,
      or was routing nothing else. */
  lemma DeployAgreement(cfg: Settings, w: Outside, s: Snapshot, t: Snapshot, q: DeployRequest,
                        status: Option<DeploymentStatus>)
    requires s.active.None? && cfg.hasDomain && Deployed(cfg, w, s, t, q, status)
    requires forall id | id in s.rows :: s.rows[id].release != Some(q.release)
    ensures Agrees(t.rows, t.active, t.installed) <==>
            !(t.reloads != s.reloads && !Heard(w, s.calls + 2) && !(s.installed <= {s.nextId}))
  {
    if t.reloads != s.reloads && !Heard(w, s.calls + 2) && !(s.installed <= {s.nextId}) {
      var id :| id in s.installed && id != s.nextId;
      assert id in t.rows ==> id in s.rows && t.rows[id] == s.rows[id];
    }
  }
}
