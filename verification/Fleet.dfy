/** One application's instance rows and routing, as its pipelines see them.
    Everything outside - the answers of agents, health probes and the gateway,
    the ports other applications hold, the clock - is an arbitrary script indexed
    by how many calls the pipelines have made so far. */
module Fleets {
  import opened Common
  import opened StateMachines
  import opened Instances
  import opened History
  import opened Lineage

  datatype Settings = Settings(
    server: Option<nat>, portStart: Option<int>, portEnd: Option<int>,
    hasDomain: bool,            // the configuration names a domain
    certified: bool,            // some domain row has both certificate and key
    limits: Limits)             // of the application's HealthCheck row

  /** How a call returns: its answer, the slots other applications hold by then,
      and the time.  A reload may be applied although its reply is lost. */
  datatype Return = Return(ok: bool, applied: bool, others: set<Slot>, clock: int)

  /** The returns of the calls to come, by number; beyond them every call fails. */
  type Outside = seq<Return>

  function At(w: Outside, k: nat): Return {
    if k < |w| then w[k] else Return(false, false, {}, 0)
  }

  predicate Good(w: Outside, k: nat) {
    At(w, k).ok
  }

  /** The gateway acted on reload number k, whether or not it said so. */
  predicate Heard(w: Outside, k: nat) {
    At(w, k).ok || At(w, k).applied
  }

  ghost predicate AllGood(w: Outside, from: nat, to: nat) {
    forall k: nat | from <= k < to :: Good(w, k)
  }

  /** How many of the n calls from k on are answered well before one is not. */
  function GoodRun(w: Outside, k: nat, n: nat): (r: nat)
    ensures r <= n
    decreases n
  {
    if n == 0 || !Good(w, k) then 0 else 1 + GoodRun(w, k + 1, n - 1)
  }

  lemma {:induction false} GoodRunIsAll(w: Outside, k: nat, n: nat)
    ensures AllGood(w, k, k + GoodRun(w, k, n))
    ensures AllGood(w, k, k + n) <==> GoodRun(w, k, n) == n
    decreases n
  {
    if n == 0 {
    } else if Good(w, k) {
      GoodRunIsAll(w, k + 1, n - 1);
    } else {
      assert !AllGood(w, k, k + n);
    }
  }

  function Later(now: int, clock: int): int {
    if now <= clock then clock else now
  }

  /** Slots of `others` that no row of this application occupies. */
  function Unclaimed(rows: Rows, others: set<Slot>): set<Slot> {
    set s | s in others && forall i | i in rows :: Occupies(rows, i) ==> rows[i].slot != s
  }

  /** Why the gateway is reloaded: to follow a status change, to cut over to
      another release, or after the first deployment. */
  datatype Why = Routine | Cutover | First

  datatype Notice = Notice(why: Why, call: nat)

  /** The RUNNING rows the reload payload lists: only the active release's,
      once there is one. */
  predicate Routed(row: Instance, active: Option<nat>) {
    row.status == Running && (active.Some? ==> row.release == active)
  }

  function Payload(rows: Rows, active: Option<nat>): set<nat> {
    set id | id in rows && Routed(rows[id], active)
  }

  /** Every installed upstream was built from a row of the active release. */
  ghost predicate Agrees(rows: Rows, active: Option<nat>, installed: set<nat>) {
    active.Some? ==> forall id | id in installed :: id in rows && rows[id].release == active
  }

  /** Rows may be added and change status, but keep their release. */
  ghost predicate ReleasesKept(rows: Rows, rows': Rows) {
    forall id | id in rows :: id in rows' && rows'[id].release == rows[id].release
  }

  /** Only routine reloads were made. */
  ghost predicate OnlyRoutine(before: seq<Notice>, after: seq<Notice>) {
    && |before| <= |after| && after[..|before|] == before
    && forall i | |before| <= i < |after| :: after[i].why == Routine
  }

  /** What a reload installs; without a certificate the file is removed. */
  function Routing(cfg: Settings, rows: Rows, active: Option<nat>): set<nat> {
    if cfg.certified then Payload(rows, active) else {}
  }

  /** A fleet's tables at one moment. */
  datatype Snapshot = Snapshot(
    rows: Rows, nextId: nat, foreign: set<Slot>, active: Option<nat>, installed: set<nat>,
    now: int, calls: nat, reloads: seq<Notice>)

  /** The gateway acted on none of the reloads made in between. */
  ghost predicate Deaf(w: Outside, s: Snapshot, t: Snapshot) {
    forall i | |s.reloads| <= i < |t.reloads| :: !Heard(w, t.reloads[i].call)
  }

  /** Routing follows the rows: unchanged if the gateway acted on no reload, only
      rows that are to be routed if it did, and all of them if it acted on the last. */
  ghost predicate Tracked(cfg: Settings, w: Outside, s: Snapshot, t: Snapshot) {
    && |s.reloads| <= |t.reloads| && t.reloads[..|s.reloads|] == s.reloads
    && (if Deaf(w, s, t) then t.installed == s.installed
        else t.installed <= Routing(cfg, t.rows, t.active))
    && (|s.reloads| < |t.reloads| && Heard(w, t.reloads[|t.reloads| - 1].call) ==>
          t.installed == Routing(cfg, t.rows, t.active))
  }

  /** Two stretches, the second of which takes nothing out of the routing. */
  lemma TrackedThen(cfg: Settings, w: Outside, s: Snapshot, m: Snapshot, t: Snapshot)
    requires Tracked(cfg, w, s, m) && Tracked(cfg, w, m, t)
    requires m.reloads != s.reloads ==>
               && Routing(cfg, m.rows, m.active) <= Routing(cfg, t.rows, t.active)
               && (t.reloads == m.reloads ==>
                     Routing(cfg, m.rows, m.active) == Routing(cfg, t.rows, t.active))
    ensures Tracked(cfg, w, s, t)
  {
    assert t.reloads[..|s.reloads|] == m.reloads[..|s.reloads|];
    assert forall i | 0 <= i < |m.reloads| :: m.reloads[i] == t.reloads[i];
    if m.reloads == s.reloads {
      assert Deaf(w, s, m);
    } else if |m.reloads| == |t.reloads| {
      assert t.reloads == m.reloads;
    }
  }

  /** Routing that follows rows which keep their releases stays in agreement. */
  lemma TrackedAgrees(cfg: Settings, w: Outside, s: Snapshot, t: Snapshot)
    requires Tracked(cfg, w, s, t) && t.active == s.active && ReleasesKept(s.rows, t.rows)
    ensures Agrees(s.rows, s.active, s.installed) ==> Agrees(t.rows, t.active, t.installed)
  {
  }

  class Fleet {
    const cfg: Settings
    const world: Outside

    var rows: Rows
    var nextId: nat
    var foreign: set<Slot>      // held by other applications' non-terminal rows
    var active: Option<nat>     // active_release_id
    var installed: set<nat>     // rows behind the installed upstream block; none, no file
    var now: int
    var calls: nat              // calls made so far
    var reloads: seq<Notice>    // which of them were reloads

    ghost var history: Run
    ghost var phase: Phase

    /** The tables are what a legal history made of them.  Holds at every await,
        so also wherever a crash may fall. */
    ghost predicate Valid()
      reads this
    {
      Legal(cfg.limits, history) && Matches(Last(history))
    }

    ghost predicate Matches(s: State)
      reads this
    {
      s.rows == rows && s.next == nextId && s.foreign == foreign && s.now == now && s.phase == phase
    }

    function Snap(): Snapshot
      reads this
    {
      Snapshot(rows, nextId, foreign, active, installed, now, calls, reloads)
    }

    constructor (cfg: Settings, world: Outside)
      ensures Valid() && this.cfg == cfg && this.world == world
      ensures Snap() == Snapshot(map[], 0, {}, None, {}, 0, 0, [])
    {
      this.cfg, this.world := cfg, world;
      this.rows, this.nextId, this.foreign := map[], 0, {};
      this.active, this.installed, this.now := None, {}, 0;
      this.calls, this.reloads := 0, [];
      this.history, this.phase := START, Idle;
    }

    /** Waiting for whatever is call number `calls`: other applications' ports
        change and time passes. */
    method Await()
      requires Valid()
      modifies this`foreign, this`now, this`history, this`calls
      ensures Valid() && calls == old(calls) + 1
      ensures now == Later(old(now), At(world, old(calls)).clock)
      ensures foreign == Unclaimed(rows, At(world, old(calls)).others)
    {
      var f, t := Unclaimed(rows, At(world, calls).others), Later(now, At(world, calls).clock);
      Extend(cfg.limits, history, Elsewhere(f, t));
      history := Then(history, Elsewhere(f, t));
      foreign, now, calls := f, t, calls + 1;
    }

    /** An agent command, a health gate or a build, and its answer. */
    method Call() returns (ok: bool)
      requires Valid()
      modifies this`foreign, this`now, this`history, this`calls
      ensures Valid() && calls == old(calls) + 1 && ok == Good(world, old(calls))
      ensures now == Later(old(now), At(world, old(calls)).clock)
      ensures foreign == Unclaimed(rows, At(world, old(calls)).others)
    {
      ok := Good(world, calls);
      Await();
    }

    /** `_allocate_instance`: the least port of the range that violates no
        uniqueness; none exactly when every port is held. */
    method Allocate(release: nat, server: nat, lo: int, hi: int) returns (r: Option<nat>)
      requires Valid()
      modifies this`rows, this`nextId, this`history
      ensures Valid()
      ensures r.None? <==> forall p | lo <= p <= hi :: Held(old(rows), foreign, Slot(server, p))
      ensures r.None? ==> rows == old(rows) && nextId == old(nextId)
      ensures r.Some? ==>
                var id := r.value;
                && id == old(nextId) && nextId == id + 1 && id !in old(rows)
                && id in rows && rows == old(rows)[id := NewRow(release, rows[id].slot, now)]
                && rows[id].slot.server == server && lo <= rows[id].slot.port <= hi
                && !Held(old(rows), foreign, rows[id].slot)
                && forall p | lo <= p < rows[id].slot.port :: Held(old(rows), foreign, Slot(server, p))
    {
      var port := lo;
      while port <= hi
        invariant lo <= port
        invariant forall p | lo <= p < port && p <= hi :: Held(rows, foreign, Slot(server, p))
        decreases hi - port
      {
        if !Held(rows, foreign, Slot(server, port)) {
          var id := Insert(release, Slot(server, port));
          return Some(id);
        }
        port := port + 1;
      }
      return None;
    }

    /** The flush that the unique index lets through. */
    method Insert(release: nat, slot: Slot) returns (id: nat)
      requires Valid() && !Held(rows, foreign, slot)
      modifies this`rows, this`nextId, this`history
      ensures Valid() && id == old(nextId) && nextId == id + 1 && id !in old(rows)
      ensures rows == old(rows)[id := NewRow(release, slot, now)]
    {
      IdBelowNext(cfg.limits, history, nextId);
      Extend(cfg.limits, history, Inserted(release, slot));
      history := Then(history, Inserted(release, slot));
      id := nextId;
      rows, nextId := rows[id := NewRow(release, slot, now)], nextId + 1;
    }

    /** `InstanceRepository.transition`; false is InvalidTransition.  No pipeline
        ever asks to start a row that is not freshly allocated. */
    method Move(id: nat, target: InstanceStatus) returns (ok: bool)
      requires Valid() && id in rows
      requires target == Starting ==> rows[id].status == Pending
      modifies this`rows, this`history
      ensures Valid()
      ensures ok <==> CanMoveInstance(old(rows)[id].status, target)
      ensures rows == if ok then old(rows)[id := old(rows)[id].(status := target)] else old(rows)
    {
      if !CanMoveInstance(rows[id].status, target) {
        return false;
      }
      Extend(cfg.limits, history, Moved(id, target));
      history := Then(history, Moved(id, target));
      rows := rows[id := rows[id].(status := target)];
      return true;
    }

    /** The healing attempt is counted and stamped. */
    method CountAttempt(id: nat)
      requires Valid() && id in rows && rows[id].healingAttempts < cfg.limits.maxAttempts
      requires rows[id].lastHealingAt.Some? ==> now - rows[id].lastHealingAt.value >= cfg.limits.cooldown
      modifies this`rows, this`phase, this`history
      ensures Valid() && phase == Counted(id)
      ensures rows == old(rows)[id := Attempted(old(rows)[id], now)]
    {
      Extend(cfg.limits, history, CountedAttempt(id));
      history := Then(history, CountedAttempt(id));
      rows, phase := rows[id := Attempted(rows[id], now)], Counted(id);
    }

    /** RESTARTING, on behalf of the attempt just counted; false is InvalidTransition. */
    method Retry(id: nat) returns (ok: bool)
      requires Valid() && phase == Counted(id) && id in rows
      modifies this`rows, this`phase, this`history
      ensures Valid()
      ensures ok <==> CanMoveInstance(old(rows)[id].status, Restarting)
      ensures rows == if ok then old(rows)[id := old(rows)[id].(status := Restarting)] else old(rows)
      ensures ok ==> phase == Retrying(id)
    {
      if !CanMoveInstance(rows[id].status, Restarting) {
        return false;
      }
      CountedRow(cfg.limits, history, id);
      Extend(cfg.limits, history, Retried(id));
      history := Then(history, Retried(id));
      rows, phase := rows[id := rows[id].(status := Restarting)], Retrying(id);
      return true;
    }

    /** The fresh row inherits the failed one's attempt count. */
    method Inherit(failed: nat, newcomer: nat)
      requires Valid() && phase == Retrying(failed) && failed in rows && newcomer in rows
      requires failed < newcomer && rows[failed].status == Failed && rows[newcomer].status == Pending
      modifies this`rows, this`phase, this`history
      ensures Valid()
      ensures rows == old(rows)[newcomer := old(rows)[newcomer].(
                                  healingAttempts := old(rows)[failed].healingAttempts)]
    {
      CountedRow(cfg.limits, history, failed);
      Extend(cfg.limits, history, Replacing(failed, newcomer));
      history := Then(history, Replacing(failed, newcomer));
      rows := rows[newcomer := rows[newcomer].(healingAttempts := rows[failed].healingAttempts)];
      phase := Idle;
    }

    /** A query by status and release, oldest id first. */
    method Select(wanted: Instance -> bool) returns (ids: seq<nat>)
      requires Valid()
      ensures forall id :: id in ids <==> id in rows && wanted(rows[id])
      ensures forall i, j | 0 <= i < j < |ids| :: ids[i] != ids[j]
    {
      ids := [];
      for id := 0 to nextId
        invariant forall k | k in ids :: k < id && k in rows && wanted(rows[k])
        invariant forall k | k < id && k in rows && wanted(rows[k]) :: k in ids
        invariant forall i, j | 0 <= i < j < |ids| :: ids[i] != ids[j]
      {
        if id in rows && wanted(rows[id]) {
          ids := ids + [id];
        }
      }
      forall k | k in rows ensures k < nextId {
        IdBelowNext(cfg.limits, history, k);
      }
    }

    /** `sync_gateway`: /reload is atomic, but its reply may be lost. */
    method SyncGateway(why: Why) returns (ok: bool)
      requires Valid()
      modifies this`installed, this`foreign, this`now, this`history, this`calls, this`reloads
      ensures Valid() && calls == old(calls) + 1 && ok == Good(world, old(calls))
      ensures now == Later(old(now), At(world, old(calls)).clock)
      ensures foreign == Unclaimed(rows, At(world, old(calls)).others)
      ensures reloads == old(reloads) + [Notice(why, old(calls))]
      ensures installed == if !Heard(world, old(calls)) then old(installed) else Routing(cfg, rows, active)
      ensures Tracked(cfg, world, old(Snap()), Snap())
    {
      if Heard(world, calls) {
        installed := Routing(cfg, rows, active);
      }
      reloads := reloads + [Notice(why, calls)];
      ok := Call();
      assert reloads[|old(reloads)|] == Notice(why, old(calls));
    }

    /** A best-effort sync after a status change, if there is a domain. */
    method Publish()
      requires Valid()
      modifies this`installed, this`foreign, this`now, this`history, this`calls, this`reloads
      ensures Valid() && calls == old(calls) + if cfg.hasDomain then 1 else 0
      ensures now == if cfg.hasDomain then Later(old(now), At(world, old(calls)).clock) else old(now)
      ensures foreign == if cfg.hasDomain then Unclaimed(rows, At(world, old(calls)).others) else old(foreign)
      ensures OnlyRoutine(old(reloads), reloads)
      ensures installed == if !cfg.hasDomain || !Heard(world, old(calls)) then old(installed)
                           else Routing(cfg, rows, active)
      ensures reloads == if cfg.hasDomain then old(reloads) + [Notice(Routine, old(calls))] else old(reloads)
      ensures Tracked(cfg, world, old(Snap()), Snap())
      ensures Agrees(rows, active, old(installed)) ==> Agrees(rows, active, installed)
    {
      if cfg.hasDomain {
        var ok := SyncGateway(Routine);
      }
    }
  }

  /** How starting one instance ended; a `Sick` one failed its health gate. */
  datatype Start = NoPort | Broken | Up | Sick

  /** What the outside makes of a start that begins with call k. */
  function Brought(w: Outside, k: nat, gated: bool): Start {
    if !Good(w, k) then Broken else if gated && !Good(w, k + 1) then Sick else Up
  }

  function Used(o: Start, gated: bool): nat {
    if o == Broken || !gated then 1 else 2
  }

  function StatusOf(o: Start): InstanceStatus {
    if o == Up then Running else if o == Broken then Failed else Starting
  }

  /** start_instance and the health gate, for a row that is STARTING. */
  method Bring(f: Fleet, id: nat, gated: bool) returns (o: Start)
    requires f.Valid() && id in f.rows && f.rows[id].status == Starting
    modifies f`rows, f`foreign, f`now, f`history, f`calls
    ensures f.Valid() && o == Brought(f.world, old(f.calls), gated) && f.now >= old(f.now)
    ensures f.calls == old(f.calls) + Used(o, gated) && f.foreign <= At(f.world, f.calls - 1).others
    ensures f.rows == old(f.rows)[id := old(f.rows)[id].(status := StatusOf(o))]
  {
    var startOk := f.Call();
    if !startOk {
      var ok := f.Move(id, Failed);
      return Broken;
    }
    if gated {
      var healthy := f.Call();
      if !healthy {
        return Sick;
      }
    }
    var ok := f.Move(id, Running);
    return Up;
  }

  /** A transition, and the gateway told if there is a domain. */
  method MoveAndSync(f: Fleet, id: nat, target: InstanceStatus) returns (ok: bool)
    requires f.Valid() && id in f.rows && target != Starting
    modifies f`rows, f`foreign, f`now, f`history, f`installed, f`calls, f`reloads
    ensures f.Valid() && OnlyRoutine(old(f.reloads), f.reloads)
    ensures ok <==> CanMoveInstance(old(f.rows)[id].status, target)
    ensures f.calls == old(f.calls) + if ok && f.cfg.hasDomain then 1 else 0
    ensures f.rows == if ok then old(f.rows)[id := old(f.rows)[id].(status := target)] else old(f.rows)
    ensures f.reloads == if ok && f.cfg.hasDomain then old(f.reloads) + [Notice(Routine, old(f.calls))]
                         else old(f.reloads)
    ensures Tracked(f.cfg, f.world, old(f.Snap()), f.Snap())
    ensures Agrees(old(f.rows), f.active, old(f.installed)) ==> Agrees(f.rows, f.active, f.installed)
  {
    ok := f.Move(id, target);
    if ok {
      f.Publish();
    }
  }

  /** The next of r allocations. */
  method AllocateNext(f: Fleet, release: nat, server: nat, lo: int, hi: int, ghost r: nat) returns (id: Option<nat>)
    requires f.Valid() && r > 0
    modifies f`rows, f`nextId, f`history
    ensures f.Valid()
    ensures var ports := Allocations(HeldPorts(old(f.rows), f.foreign, server, lo, hi), lo, hi, r);
            if id.None? then ports == [] && f.rows == old(f.rows) && f.nextId == old(f.nextId)
            else
              && id.value == old(f.nextId) && f.nextId == id.value + 1 && id.value !in old(f.rows)
              && id.value in f.rows && f.rows == old(f.rows)[id.value := f.rows[id.value]]
              && f.rows[id.value].slot.server == server
              && ports == [f.rows[id.value].slot.port]
                          + Allocations(HeldPorts(f.rows, f.foreign, server, lo, hi), lo, hi, r - 1)
  {
    id := f.Allocate(release, server, lo, hi);
    if id.None? {
      AllocationsEnd(f.rows, f.foreign, server, lo, hi, r);
    } else {
      AllocationsStep(old(f.rows), f.foreign, id.value, f.rows[id.value], lo, hi, r);
    }
  }

  /** The rows from `first` on hold the ports, in order. */
  ghost predicate OnPorts(rows: Rows, server: nat, first: nat, ports: seq<int>) {
    forall id: nat | first <= id < first + |ports| :: id in rows && rows[id].slot == Slot(server, ports[id - first])
  }

  lemma OneMoreOnPort(rows: Rows, server: nat, first: nat, ports: seq<int>, row: Instance)
    requires OnPorts(rows, server, first, ports) && row.slot.server == server
    ensures OnPorts(rows[first + |ports| := row], server, first, ports + [row.slot.port])
  {
  }

  lemma OneMorePort(done: seq<int>, p: int, rest: seq<int>)
    ensures done + ([p] + rest) == (done + [p]) + rest
  {
  }

  /** Up to r allocations with no await between them hand out `Allocations` of
      the ports: all r succeed exactly when r ports of the range are free. */
  method AllocateUpTo(f: Fleet, release: nat, server: nat, lo: int, hi: int, r: nat) returns (n: nat)
    requires f.Valid()
    modifies f`rows, f`nextId, f`history
    ensures f.Valid() && f.nextId == old(f.nextId) + n
    ensures var held := HeldPorts(old(f.rows), f.foreign, server, lo, hi);
            var ports := Allocations(held, lo, hi, r);
            && n == |ports| && (n == r <==> r <= |FreePorts(held, lo, hi)|)
            && OnPorts(f.rows, server, old(f.nextId), ports)
  {
    ghost var ports := Allocations(HeldPorts(f.rows, f.foreign, server, lo, hi), lo, hi, r);
    ghost var done: seq<int> := [];
    n := 0;
    while n < r
      invariant f.Valid() && n == |done| <= r && f.nextId == old(f.nextId) + n
      invariant ports == done + Allocations(HeldPorts(f.rows, f.foreign, server, lo, hi), lo, hi, r - n)
      invariant OnPorts(f.rows, server, old(f.nextId), done)
    {
      ghost var rows := f.rows;
      var id := AllocateNext(f, release, server, lo, hi, r - n);
      if id.None? {
        break;
      }
      ghost var p := f.rows[id.value].slot.port;
      OneMoreOnPort(rows, server, old(f.nextId), done, f.rows[id.value]);
      OneMorePort(done, p, Allocations(HeldPorts(f.rows, f.foreign, server, lo, hi), lo, hi, r - n - 1));
      done, n := done + [p], n + 1;
    }
    assert ports == done;
    AllocationsCount(HeldPorts(old(f.rows), f.foreign, server, lo, hi), lo, hi, r);
  }

  /** The unique index holds of every valid fleet. */
  lemma NoSharedSlot(f: Fleet)
    requires f.Valid()
    ensures SlotsDistinct(f.rows, f.foreign)
  {
    RunIsSound(f.cfg.limits, f.history, |f.history.states| - 1);
  }
}
