/** Self-healing of one instance: take it out of the upstream, restart it within
    its limits, and replace it when the restart does not help. */
module Healing {
  import opened Common
  import opened StateMachines
  import opened Instances
  import opened Lineage
  import opened History
  import opened Fleets

  /** How a healing call ended; `Raised` is an InvalidTransition. */
  datatype Verdict = GaveUp | CoolingDown | Recovered | Replaced | ReplacementDied | Raised

  /** Routing follows, and loses nothing while row `id` is being brought back; all
      that is regained is published, if there is a domain. */
  ghost predicate Regained(cfg: Settings, w: Outside, s: Snapshot, t: Snapshot, id: nat)
    requires id in s.rows
  {
    && Tracked(cfg, w, s, t) && t.active == s.active && ReleasesKept(s.rows, t.rows)
    && (s.rows[id].status != Running ==>
          && Payload(s.rows, s.active) <= Payload(t.rows, t.active)
          && (cfg.hasDomain && t.reloads == s.reloads ==> Payload(s.rows, s.active) == Payload(t.rows, t.active)))
  }

  /** A row that was not RUNNING is given another status. */
  lemma PayloadAfter(rows: Rows, id: nat, row: Instance, active: Option<nat>)
    requires id in rows && rows[id].status != Running
    ensures Payload(rows, active) <= Payload(rows[id := row], active)
    ensures row.status != Running ==> Payload(rows, active) == Payload(rows[id := row], active)
  {
  }

  lemma RegainedThen(cfg: Settings, w: Outside, s: Snapshot, m: Snapshot, t: Snapshot, id: nat)
    requires id in s.rows && id in m.rows && Regained(cfg, w, m, t, id) && m.rows[id].status != Running
    requires m.active == s.active && m.installed == s.installed && m.reloads == s.reloads
    requires ReleasesKept(s.rows, m.rows)
    requires s.rows[id].status != Running ==> Payload(m.rows, m.active) == Payload(s.rows, s.active)
    ensures Regained(cfg, w, s, t, id)
  {
    TrackedThen(cfg, w, s, m, t);
  }

  /** Given up: FAILED, unless the table refuses that. */
  ghost predicate Abandoned(rows: Rows, rows': Rows, id: nat, v: Verdict)
    requires id in rows
  {
    var s := rows[id].status;
    if s == Failed || CanMoveInstance(s, Failed)
    then v == GaveUp && rows' == rows[id := rows[id].(status := Failed)]
    else v == Raised && rows' == rows
  }

  method GiveUp(f: Fleet, id: nat) returns (v: Verdict)
    requires f.Valid() && id in f.rows
    modifies f`rows, f`history
    ensures f.Valid() && Abandoned(old(f.rows), f.rows, id, v)
    ensures Regained(f.cfg, f.world, old(f.Snap()), f.Snap(), id)
  {
    if f.rows[id].status != Failed {
      var ok := f.Move(id, Failed);
      return if ok then GaveUp else Raised;
    }
    return GaveUp;
  }

  // ---- Replacement ------------------------------------------------------

  /** The replacement of `failed`: same release and server, a port of the range,
      and the lineage's attempt count. */
  predicate Replaces(row: Instance, failed: Instance, lo: int, hi: int) {
    && row.release == failed.release && row.slot.server == failed.slot.server
    && lo <= row.slot.port <= hi && row.healingAttempts == failed.healingAttempts
    && row.lastHealingAt == None
  }

  /** What the replacement's start makes of the call.  One that fails its gate
      asks STARTING -> UNHEALTHY, which the table refuses: that raises and leaves
      it STARTING. */
  function VerdictOf(o: Start): Verdict {
    if o == Up then Replaced else if o == Broken then ReplacementDied else Raised
  }

  /** No port for a replacement of `row`. */
  ghost predicate NoPlace(cfg: Settings, rows: Rows, foreign: set<Slot>, row: Instance) {
    || cfg.portStart.None? || cfg.portEnd.None?
    || forall p | cfg.portStart.value <= p <= cfg.portEnd.value :: Held(rows, foreign, Slot(row.slot.server, p))
  }

  /** `_replace`, up to and including STARTING; none when there is no port. */
  method Substitute(f: Fleet, failed: nat, release: nat) returns (r: Option<nat>)
    requires f.Valid() && f.phase == Retrying(failed) && failed in f.rows
    requires f.rows[failed].status == Failed && f.rows[failed].release == Some(release)
    modifies f`rows, f`nextId, f`phase, f`history
    ensures f.Valid()
    ensures r.None? <==> NoPlace(f.cfg, old(f.rows), f.foreign, old(f.rows)[failed])
    ensures r.None? ==> f.rows == old(f.rows) && f.nextId == old(f.nextId)
    ensures r.Some? ==>
              var id := r.value;
              && id == old(f.nextId) && f.nextId == id + 1 && id !in old(f.rows) && id in f.rows
              && f.rows == old(f.rows)[id := f.rows[id]] && f.rows[id].status == Starting
              && Replaces(f.rows[id], old(f.rows)[failed], f.cfg.portStart.value, f.cfg.portEnd.value)
  {
    if f.cfg.portStart.None? || f.cfg.portEnd.None? {
      return None;
    }
    IdBelowNext(f.cfg.limits, f.history, failed);
    r := f.Allocate(release, f.rows[failed].slot.server, f.cfg.portStart.value, f.cfg.portEnd.value);
    if r.Some? {
      f.Inherit(failed, r.value);
      var ok := f.Move(r.value, Starting);
    }
  }

  /** The replacement's start, gate and, if it is up, its place in the upstream. */
  method Launch(f: Fleet, id: nat) returns (v: Verdict)
    requires f.Valid() && id in f.rows && f.rows[id].status == Starting
    modifies f`rows, f`foreign, f`now, f`history, f`installed, f`calls, f`reloads
    ensures f.Valid() && v == VerdictOf(Brought(f.world, old(f.calls), true))
    ensures f.rows == old(f.rows)[id := old(f.rows)[id].(status := StatusOf(Brought(f.world, old(f.calls), true)))]
    ensures OnlyRoutine(old(f.reloads), f.reloads)
    ensures Regained(f.cfg, f.world, old(f.Snap()), f.Snap(), id)
  {
    var o := Bring(f, id, true);
    if o == Sick {
      var ok := f.Move(id, Unhealthy);
      assert !ok;
    } else if o == Up {
      f.Publish();
    }
    v := VerdictOf(o);
  }

  /** `_replace`, after the restart did not help: at most one new row. */
  ghost predicate Replacement(cfg: Settings, w: Outside, s: Snapshot, t: Snapshot, failed: nat, v: Verdict)
    requires failed in s.rows
  {
    if NoPlace(cfg, s.rows, s.foreign, s.rows[failed]) then
      v == GaveUp && t.rows == s.rows && t.nextId == s.nextId
    else
      var o := Brought(w, s.calls, true);
      && v == VerdictOf(o) && t.nextId == s.nextId + 1 && s.nextId !in s.rows && s.nextId in t.rows
      && t.rows == s.rows[s.nextId := t.rows[s.nextId]] && t.rows[s.nextId].status == StatusOf(o)
      && Replaces(t.rows[s.nextId], s.rows[failed], cfg.portStart.value, cfg.portEnd.value)
  }

  lemma RegainedByAnother(cfg: Settings, w: Outside, s: Snapshot, m: Snapshot, t: Snapshot, id: nat, other: nat)
    requires id in s.rows && other in m.rows && Regained(cfg, w, m, t, other) && m.rows[other].status != Running
    requires m.active == s.active && m.installed == s.installed && m.reloads == s.reloads
    requires ReleasesKept(s.rows, m.rows)
    requires Payload(m.rows, m.active) == Payload(s.rows, s.active)
    ensures Regained(cfg, w, s, t, id)
  {
    TrackedThen(cfg, w, s, m, t);
  }

  method ReplaceFailed(f: Fleet, failed: nat, release: nat) returns (v: Verdict)
    requires f.Valid() && f.phase == Retrying(failed) && failed in f.rows
    requires f.rows[failed].status == Failed && f.rows[failed].release == Some(release)
    modifies f`rows, f`nextId, f`phase, f`foreign, f`now, f`history, f`installed, f`calls, f`reloads
    ensures f.Valid() && Replacement(f.cfg, f.world, old(f.Snap()), f.Snap(), failed, v)
    ensures OnlyRoutine(old(f.reloads), f.reloads)
    ensures Regained(f.cfg, f.world, old(f.Snap()), f.Snap(), failed)
  {
    var r := Substitute(f, failed, release);
    if r.None? {
      return GaveUp;
    }
    ghost var m := f.Snap();
    assert Payload(m.rows, m.active) == Payload(old(f.rows), m.active);
    v := Launch(f, r.value);
    assert Regained(f.cfg, f.world, old(f.Snap()), f.Snap(), failed) by {
      RegainedByAnother(f.cfg, f.world, old(f.Snap()), m, f.Snap(), failed, r.value);
    }
  }

  // ---- Restart ----------------------------------------------------------

  /** start_instance again and its gate, for a row that is RESTARTING. */
  method StartAgain(f: Fleet, id: nat) returns (healthy: bool)
    requires f.Valid() && id in f.rows && f.rows[id].status == Restarting
    modifies f`rows, f`foreign, f`now, f`history, f`calls
    ensures f.Valid()
    ensures var o := Brought(f.world, old(f.calls), true);
            && (healthy <==> o == Up) && f.calls == old(f.calls) + Used(o, true)
            && f.foreign == Unclaimed(old(f.rows), At(f.world, f.calls - 1).others)
    ensures f.rows == old(f.rows)[id := old(f.rows)[id].(status := if healthy then Running else Failed)]
  {
    healthy := f.Call();
    if healthy {
      healthy := f.Call();
    }
    var moved := f.Move(id, if healthy then Running else Failed);
  }

  /** RESTARTING, and the restart. */
  method Restart(f: Fleet, id: nat) returns (ok: bool, healthy: bool)
    requires f.Valid() && f.phase == Counted(id) && id in f.rows
    modifies f`rows, f`phase, f`foreign, f`now, f`history, f`calls
    ensures f.Valid() && (ok <==> CanMoveInstance(old(f.rows)[id].status, Restarting))
    ensures !ok ==> f.rows == old(f.rows)
    ensures ok ==>
              var o := Brought(f.world, old(f.calls), true);
              && f.phase == Retrying(id) && (healthy <==> o == Up)
              && f.calls == old(f.calls) + Used(o, true)
              && f.foreign == Unclaimed(old(f.rows)[id := old(f.rows)[id].(status := Restarting)],
                                        At(f.world, f.calls - 1).others)
              && f.rows == old(f.rows)[id := old(f.rows)[id].(status := if healthy then Running else Failed)]
  {
    healthy := false;
    ok := f.Retry(id);
    if ok {
      healthy := StartAgain(f, id);
    }
  }

  /** The rows and routing when a restart has not helped. */
  function Unhelped(w: Outside, s: Snapshot, id: nat): Snapshot
    requires id in s.rows
  {
    var calls := s.calls + Used(Brought(w, s.calls, true), true);
    s.(rows := s.rows[id := s.rows[id].(status := Failed)], calls := calls,
       foreign := Unclaimed(s.rows[id := s.rows[id].(status := Restarting)], At(w, calls - 1).others))
  }

  /** A restart the table allows: RUNNING again if both its calls are answered
      well, and otherwise FAILED and replaced. */
  ghost predicate Restarted(cfg: Settings, w: Outside, s: Snapshot, t: Snapshot, id: nat, v: Verdict)
    requires id in s.rows
  {
    if Brought(w, s.calls, true) == Up then
      v == Recovered && t.nextId == s.nextId && t.rows == s.rows[id := s.rows[id].(status := Running)]
    else
      Replacement(cfg, w, Unhelped(w, s, id), t, id, v)
  }

  lemma ReplacementFrame(cfg: Settings, w: Outside, s: Snapshot, s': Snapshot, t: Snapshot, failed: nat, v: Verdict)
    requires failed in s.rows && Replacement(cfg, w, s, t, failed, v)
    requires s'.rows == s.rows && s'.nextId == s.nextId && s'.foreign == s.foreign && s'.calls == s.calls
    ensures Replacement(cfg, w, s', t, failed, v)
  {
  }

  method ReplaceUnhelped(f: Fleet, id: nat, release: nat, ghost s: Snapshot) returns (v: Verdict)
    requires f.Valid() && f.phase == Retrying(id) && id in s.rows && Brought(f.world, s.calls, true) != Up
    requires var u := Unhelped(f.world, s, id);
             f.rows == u.rows && f.nextId == u.nextId && f.foreign == u.foreign && f.calls == u.calls
    requires f.rows[id].release == Some(release)
    modifies f`rows, f`nextId, f`phase, f`foreign, f`now, f`history, f`installed, f`calls, f`reloads
    ensures f.Valid() && OnlyRoutine(old(f.reloads), f.reloads) && Restarted(f.cfg, f.world, s, f.Snap(), id, v)
    ensures Regained(f.cfg, f.world, old(f.Snap()), f.Snap(), id)
  {
    v := ReplaceFailed(f, id, release);
    ReplacementFrame(f.cfg, f.world, old(f.Snap()), Unhelped(f.world, s, id), f.Snap(), id, v);
  }

  /** What follows the restart: back into the upstream, or a replacement. */
  method Conclude(f: Fleet, id: nat, release: nat, healthy: bool, ghost s: Snapshot) returns (v: Verdict)
    requires f.Valid() && f.phase == Retrying(id) && id in s.rows && s.rows[id].release == Some(release)
    requires healthy <==> Brought(f.world, s.calls, true) == Up
    requires f.rows == s.rows[id := s.rows[id].(status := if healthy then Running else Failed)]
    requires f.nextId == s.nextId && f.active == s.active && f.installed == s.installed && f.reloads == s.reloads
    requires !healthy ==> f.foreign == Unhelped(f.world, s, id).foreign && f.calls == Unhelped(f.world, s, id).calls
    modifies f`rows, f`nextId, f`phase, f`foreign, f`now, f`history, f`installed, f`calls, f`reloads
    ensures f.Valid() && OnlyRoutine(old(f.reloads), f.reloads) && Restarted(f.cfg, f.world, s, f.Snap(), id, v)
    ensures Regained(f.cfg, f.world, s, f.Snap(), id)
  {
    ghost var m := f.Snap();
    if s.rows[id].status != Running {
      PayloadAfter(s.rows, id, f.rows[id], f.active);
    }
    if healthy {
      f.Publish();
      TrackedThen(f.cfg, f.world, s, m, f.Snap());
      return Recovered;
    }
    v := ReplaceUnhelped(f, id, release, s);
    RegainedThen(f.cfg, f.world, s, m, f.Snap(), id);
  }

  method RestartOrReplace(f: Fleet, id: nat, release: nat) returns (v: Verdict)
    requires f.Valid() && f.phase == Counted(id) && id in f.rows && f.rows[id].release == Some(release)
    modifies f`rows, f`nextId, f`phase, f`foreign, f`now, f`history, f`installed, f`calls, f`reloads
    ensures f.Valid() && OnlyRoutine(old(f.reloads), f.reloads)
    ensures if CanMoveInstance(old(f.rows)[id].status, Restarting)
            then Restarted(f.cfg, f.world, old(f.Snap()), f.Snap(), id, v)
            else v == Raised && f.rows == old(f.rows) && f.nextId == old(f.nextId)
    ensures Regained(f.cfg, f.world, old(f.Snap()), f.Snap(), id)
  {
    var ok, healthy := Restart(f, id);
    if !ok {
      return Raised;
    }
    v := Conclude(f, id, release, healthy, old(f.Snap()));
  }

  // ---- The limits -------------------------------------------------------

  datatype Decision = Abandon | Wait | Attempt

  /** What the limits say about an instance at time `at`. */
  function Decide(row: Instance, l: Limits, agent: bool, at: int): Decision {
    if !agent then Abandon
    else if row.lastHealingAt.Some? && at - row.lastHealingAt.value < l.cooldown then Wait
    else if row.healingAttempts >= l.maxAttempts then Abandon
    else Attempt
  }

  /** An attempt the limits allow: counted, then tried if there is a release to
      start and the instance is in a state to restart. */
  ghost predicate Tried(cfg: Settings, w: Outside, s: Snapshot, t: Snapshot, id: nat, releaseFound: bool, v: Verdict)
    requires id in s.rows
  {
    var counted := s.rows[id := Attempted(s.rows[id], s.now)];
    if !releaseFound || s.rows[id].release.None? then Abandoned(counted, t.rows, id, v) && t.nextId == s.nextId
    else if CanMoveInstance(s.rows[id].status, Restarting) then Restarted(cfg, w, s.(rows := counted), t, id, v)
    else v == Raised && t.rows == counted && t.nextId == s.nextId
  }

  /** Counting an attempt does not touch the routing. */
  lemma RegainedCounted(cfg: Settings, w: Outside, s: Snapshot, t: Snapshot, id: nat)
    requires id in s.rows
    requires Regained(cfg, w, s.(rows := s.rows[id := Attempted(s.rows[id], s.now)]), t, id)
    ensures Regained(cfg, w, s, t, id)
  {
    var m := s.(rows := s.rows[id := Attempted(s.rows[id], s.now)]);
    assert Payload(m.rows, m.active) == Payload(s.rows, s.active);
    TrackedThen(cfg, w, s, m, t);
  }

  method Try(f: Fleet, id: nat, releaseFound: bool) returns (v: Verdict)
    requires f.Valid() && id in f.rows && Decide(f.rows[id], f.cfg.limits, true, f.now) == Attempt
    modifies f`rows, f`nextId, f`phase, f`foreign, f`now, f`history, f`installed, f`calls, f`reloads
    ensures f.Valid() && OnlyRoutine(old(f.reloads), f.reloads)
    ensures Tried(f.cfg, f.world, old(f.Snap()), f.Snap(), id, releaseFound, v)
    ensures Regained(f.cfg, f.world, old(f.Snap()), f.Snap(), id)
  {
    f.CountAttempt(id);
    if f.rows[id].release.None? || !releaseFound {
      v := GiveUp(f, id);
    } else {
      v := RestartOrReplace(f, id, f.rows[id].release.value);
    }
    assert Regained(f.cfg, f.world, old(f.Snap()), f.Snap(), id) by {
      RegainedCounted(f.cfg, f.world, old(f.Snap()), f.Snap(), id);
    }
  }

  /** What the limits decide about a row out of the upstream, carried out. */
  ghost predicate Treated(cfg: Settings, w: Outside, s: Snapshot, t: Snapshot, id: nat,
                          agent: bool, releaseFound: bool, v: Verdict)
    requires id in s.rows
  {
    match Decide(s.rows[id], cfg.limits, agent, s.now)
    case Wait => v == CoolingDown && t.rows == s.rows && t.nextId == s.nextId
    case Abandon => Abandoned(s.rows, t.rows, id, v) && t.nextId == s.nextId
    case Attempt => Tried(cfg, w, s, t, id, releaseFound, v)
  }

  method Treat(f: Fleet, id: nat, agent: bool, releaseFound: bool) returns (v: Verdict)
    requires f.Valid() && id in f.rows
    modifies f`rows, f`nextId, f`phase, f`foreign, f`now, f`history, f`installed, f`calls, f`reloads
    ensures f.Valid() && OnlyRoutine(old(f.reloads), f.reloads)
    ensures Treated(f.cfg, f.world, old(f.Snap()), f.Snap(), id, agent, releaseFound, v)
    ensures Regained(f.cfg, f.world, old(f.Snap()), f.Snap(), id)
  {
    if !agent {
      v := GiveUp(f, id);
      return;
    }
    var last := f.rows[id].lastHealingAt;
    if last.Some? && f.now - last.value < f.cfg.limits.cooldown {
      return CoolingDown;
    }
    if f.rows[id].healingAttempts >= f.cfg.limits.maxAttempts {
      v := GiveUp(f, id);
      return;
    }
    v := Try(f, id, releaseFound);
  }

  // ---- The whole call ---------------------------------------------------

  /** Step one of healing: out of the upstream. */
  function Removed(row: Instance): Instance {
    if row.status == Running then row.(status := Unhealthy) else row
  }

  /** When the limits are checked: after the reload, if there is a domain. */
  function CheckedAt(cfg: Settings, w: Outside, s: Snapshot): int {
    if cfg.hasDomain then Later(s.now, At(w, s.calls).clock) else s.now
  }

  function TakenOut(cfg: Settings, w: Outside, s: Snapshot, id: nat): Snapshot
    requires id in s.rows
  {
    s.(rows := s.rows[id := Removed(s.rows[id])], now := CheckedAt(cfg, w, s),
       calls := s.calls + if cfg.hasDomain then 1 else 0)
  }

  method TakeOut(f: Fleet, id: nat)
    requires f.Valid() && id in f.rows
    modifies f`rows, f`foreign, f`now, f`history, f`installed, f`calls, f`reloads
    ensures f.Valid() && OnlyRoutine(old(f.reloads), f.reloads)
    ensures f.rows == old(f.rows)[id := Removed(old(f.rows)[id])]
    ensures f.now == CheckedAt(f.cfg, f.world, old(f.Snap()))
    ensures f.calls == old(f.calls) + if f.cfg.hasDomain then 1 else 0
    ensures f.active == old(f.active) && Tracked(f.cfg, f.world, old(f.Snap()), f.Snap())
    ensures !f.cfg.hasDomain ==> f.reloads == old(f.reloads)
    ensures ReleasesKept(old(f.rows), f.rows)
  {
    if f.rows[id].status == Running {
      var ok := f.Move(id, Unhealthy);
    }
    f.Publish();
  }

  /** A healing request: of which row, and what it finds. */
  datatype HealRequest = HealRequest(id: nat, agent: bool, releaseFound: bool)

  /** The effect of one healing call on the rows. */
  ghost predicate Healed(cfg: Settings, w: Outside, s: Snapshot, t: Snapshot, q: HealRequest, v: Verdict)
    requires q.id in s.rows
  {
    Treated(cfg, w, TakenOut(cfg, w, s, q.id), t, q.id, q.agent, q.releaseFound, v)
  }

  lemma TreatedFrame(cfg: Settings, w: Outside, s: Snapshot, s': Snapshot, t: Snapshot, q: HealRequest, v: Verdict)
    requires q.id in s.rows && Treated(cfg, w, s, t, q.id, q.agent, q.releaseFound, v)
    requires s'.rows == s.rows && s'.nextId == s.nextId && s'.now == s.now && s'.calls == s.calls
    ensures Treated(cfg, w, s', t, q.id, q.agent, q.releaseFound, v)
  {
  }

  /** `handle_unhealthy_instance`, of a row in any status: the list it comes from
      may be stale. */
  method HandleUnhealthy(f: Fleet, q: HealRequest) returns (v: Verdict)
    requires f.Valid() && q.id in f.rows
    modifies f`rows, f`nextId, f`phase, f`foreign, f`now, f`history, f`installed, f`calls, f`reloads
    ensures f.Valid() && OnlyRoutine(old(f.reloads), f.reloads)
    ensures Healed(f.cfg, f.world, old(f.Snap()), f.Snap(), q, v)
    ensures Tracked(f.cfg, f.world, old(f.Snap()), f.Snap())
    ensures Agrees(old(f.rows), f.active, old(f.installed)) ==> Agrees(f.rows, f.active, f.installed)
  {
    TakeOut(f, q.id);
    ghost var m := f.Snap();
    v := Treat(f, q.id, q.agent, q.releaseFound);
    TreatedFrame(f.cfg, f.world, m, TakenOut(f.cfg, f.world, old(f.Snap()), q.id), f.Snap(), q, v);
    TrackedThen(f.cfg, f.world, old(f.Snap()), m, f.Snap());
    TrackedAgrees(f.cfg, f.world, old(f.Snap()), f.Snap());
  }

  /** What a healing call means to its caller.  An instance is back in service
      only by a counted attempt within its limits; otherwise it stays out of the
      upstream.  Nothing but the instance and at most one replacement changes,
      and the replacement carries the lineage's count.  Of a RUNNING or UNHEALTHY
      instance, only a replacement stuck in STARTING makes the call raise. */
  lemma HealingMeans(cfg: Settings, w: Outside, s: Snapshot, t: Snapshot, q: HealRequest, v: Verdict)
    requires q.id in s.rows && Healed(cfg, w, s, t, q, v)
    ensures var at, before := CheckedAt(cfg, w, s), s.rows[q.id];
            && q.id in t.rows
            && (forall i | i in s.rows && i != q.id && i != s.nextId :: i in t.rows && t.rows[i] == s.rows[i])
            && (forall i | i in t.rows && i !in s.rows :: i == s.nextId && t.nextId == s.nextId + 1
                  && t.rows[q.id].status == Failed && t.rows[i].healingAttempts == t.rows[q.id].healingAttempts)
            && (t.rows[q.id].status == Running <==> v == Recovered)
            && (t.rows[q.id].healingAttempts != before.healingAttempts ==>
                  && t.rows[q.id].healingAttempts == before.healingAttempts + 1 <= cfg.limits.maxAttempts
                  && q.agent && t.rows[q.id].lastHealingAt == Some(at)
                  && (before.lastHealingAt.Some? ==> at - before.lastHealingAt.value >= cfg.limits.cooldown))
            && (v in {Recovered, Replaced, ReplacementDied} ==>
                  t.rows[q.id].healingAttempts == before.healingAttempts + 1)
            && (v == CoolingDown <==> q.agent && before.lastHealingAt.Some?
                                      && at - before.lastHealingAt.value < cfg.limits.cooldown)
            && (before.status in {Running, Unhealthy} && v == Raised ==>
                  s.nextId in t.rows && t.rows[s.nextId].status == Starting)
  {
  }
}
