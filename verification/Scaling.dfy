/** Manual scaling: start missing replicas one by one, or drain and stop the
    newest ones. */
module Scaling {
  import opened Common
  import opened StateMachines
  import opened Instances
  import opened History
  import opened Fleets
  import opened Starts
  import opened Releases

  /** Counts toward the replica target. */
  predicate IsLive(row: Instance) {
    row.status in {Pending, Starting, Running, Unhealthy}
  }

  function LiveIds(rows: Rows): set<nat> {
    set id | id in rows && IsLive(rows[id])
  }

  // ---- Newest first -----------------------------------------------------

  function Place(rows: Rows, x: nat, ids: seq<nat>): seq<nat>
    requires x in rows && forall id | id in ids :: id in rows
  {
    if ids == [] || rows[ids[0]].createdAt <= rows[x].createdAt then [x] + ids
    else [ids[0]] + Place(rows, x, ids[1..])
  }

  /** sorted(..., key=created_at, reverse=True), which is stable. */
  function NewestFirst(rows: Rows, ids: seq<nat>): (r: seq<nat>)
    requires forall id | id in ids :: id in rows
    ensures multiset(r) == multiset(ids)
    ensures forall id :: id in r <==> id in ids
  {
    if ids == [] then []
    else
      var rest := NewestFirst(rows, ids[1..]);
      PlaceKeeps(rows, ids[0], rest);
      assert ids == [ids[0]] + ids[1..];
      var r := Place(rows, ids[0], rest);
      MembersAgree(r, ids);
      r
  }

  lemma MembersAgree(a: seq<nat>, b: seq<nat>)
    requires multiset(a) == multiset(b)
    ensures forall id :: id in a <==> id in b
  {
    forall id ensures id in a <==> id in b {
      assert id in a <==> id in multiset(a);
      assert id in b <==> id in multiset(b);
    }
  }

  lemma {:induction false} PlaceKeeps(rows: Rows, x: nat, ids: seq<nat>)
    requires x in rows && forall id | id in ids :: id in rows
    ensures multiset(Place(rows, x, ids)) == multiset(ids) + multiset{x}
  {
    if ids == [] || rows[ids[0]].createdAt <= rows[x].createdAt {
    } else {
      PlaceKeeps(rows, x, ids[1..]);
      assert ids == [ids[0]] + ids[1..];
    }
  }

  ghost predicate Descending(rows: Rows, ids: seq<nat>)
    requires forall id | id in ids :: id in rows
  {
    forall i, j | 0 <= i < j < |ids| :: rows[ids[i]].createdAt >= rows[ids[j]].createdAt
  }

  lemma PlaceMembers(rows: Rows, x: nat, ids: seq<nat>)
    requires x in rows && forall id | id in ids :: id in rows
    ensures forall id | id in Place(rows, x, ids) :: id == x || id in ids
  {
    PlaceKeeps(rows, x, ids);
    forall id | id in Place(rows, x, ids) ensures id == x || id in ids {
      assert id in multiset(Place(rows, x, ids));
    }
  }

  lemma {:induction false} PlaceKeepsOrder(rows: Rows, x: nat, ids: seq<nat>)
    requires x in rows && (forall id | id in ids :: id in rows) && Descending(rows, ids)
    ensures forall id | id in Place(rows, x, ids) :: id in rows
    ensures Descending(rows, Place(rows, x, ids))
  {
    PlaceMembers(rows, x, ids);
    if ids == [] || rows[ids[0]].createdAt <= rows[x].createdAt {
    } else {
      PlaceKeepsOrder(rows, x, ids[1..]);
      PlaceMembers(rows, x, ids[1..]);
      var rest := Place(rows, x, ids[1..]);
      forall j | 0 <= j < |rest| ensures rows[ids[0]].createdAt >= rows[rest[j]].createdAt {
        assert rest[j] in rest;
      }
    }
  }

  lemma {:induction false} NewestFirstIsDescending(rows: Rows, ids: seq<nat>)
    requires forall id | id in ids :: id in rows
    ensures Descending(rows, NewestFirst(rows, ids))
  {
    if ids == [] {
    } else {
      NewestFirstIsDescending(rows, ids[1..]);
      PlaceKeepsOrder(rows, ids[0], NewestFirst(rows, ids[1..]));
    }
  }

  lemma NoRepeatsByCount(a: seq<nat>, b: seq<nat>)
    requires multiset(a) == multiset(b) && NoRepeats(a)
    ensures NoRepeats(b)
  {
    forall i, j | 0 <= i < j < |b| ensures b[i] != b[j] {
      if b[i] == b[j] {
        assert b == b[..i] + [b[i]] + b[i + 1..j] + [b[j]] + b[j + 1..];
        assert multiset(a)[b[i]] >= 2;
        OnceEach(a, b[i]);
        assert false;
      }
    }
  }

  lemma {:induction false} OnceEach(a: seq<nat>, x: nat)
    requires NoRepeats(a)
    ensures multiset(a)[x] <= 1
  {
    if a == [] {
    } else {
      var init := a[..|a| - 1];
      assert a == init + [a[|a| - 1]];
      OnceEach(init, x);
      if x == a[|a| - 1] {
        assert x !in init;
      }
    }
  }

  // ---- Scale up ---------------------------------------------------------

  /** STARTING -> UNHEALTHY is not in the table. */
  method AskUnhealthy(f: Fleet, id: nat)
    requires f.Valid() && id in f.rows && f.rows[id].status == Starting
    modifies f`rows, f`history
    ensures f.Valid() && f.Snap() == old(f.Snap())
  {
    var ok := f.Move(id, Unhealthy);
  }

  /** One replica; one that fails its gate asks STARTING -> UNHEALTHY in vain. */
  method AddReplica(f: Fleet, g: Growth, ghost s: Snapshot) returns (o: Start)
    requires f.Valid() && Growing(f.world, s, f.Snap(), g) && f.nextId < s.nextId + g.count
    modifies f`rows, f`nextId, f`foreign, f`now, f`history, f`calls
    ensures f.Valid() && Stepped(f.world, s, old(f.Snap()), f.Snap(), g, o)
  {
    o := GrowStep(f, g, s);
    if o == Sick {
      AskUnhealthy(f, f.nextId - 1);
    }
  }

  /** The loop: it ends early when there is no port, or a replica is sick. */
  method AddReplicas(f: Fleet, g: Growth) returns (allOk: bool, raised: bool)
    requires f.Valid()
    modifies f`rows, f`nextId, f`foreign, f`now, f`history, f`calls
    ensures f.Valid() && Grown(f.world, old(f.Snap()), f.Snap(), g)
    ensures raised <==> EndsSick(old(f.Snap()), f.Snap())
    ensures allOk && !raised <==> f.nextId == old(f.nextId) + g.count && AllUp(old(f.Snap()), f.Snap())
    ensures allOk && !raised ==> Growing(f.world, old(f.Snap()), f.Snap(), g)
  {
    ghost var s := f.Snap();
    allOk := true;
    for i := 0 to g.count
      invariant f.Valid() && f.nextId == s.nextId + i && Growing(f.world, s, f.Snap(), g)
      invariant allOk <==> AllUp(s, f.Snap())
    {
      var o := AddReplica(f, g, s);
      if o == NoPort {
        return false, false;
      }
      if o == Sick {
        return allOk, true;
      }
      allOk := allOk && o == Up;
    }
    return allOk, false;
  }

  /** `_scale_up`.  A replica that fails its gate asks STARTING -> UNHEALTHY,
      which the table refuses: the exception leaves it STARTING. */
  method ScaleUp(f: Fleet, g: Growth) returns (allOk: bool, raised: bool)
    requires f.Valid()
    modifies f`rows, f`nextId, f`foreign, f`now, f`history, f`calls
    ensures f.Valid() && Grown(f.world, old(f.Snap()), f.Snap(), g)
    ensures SickAsMade(f.world, old(f.Snap()), f.Snap(), g, raised)
    ensures allOk && !raised <==> f.nextId == old(f.nextId) + g.count && AllUp(old(f.Snap()), f.Snap())
    ensures allOk && !raised ==> f.calls == old(f.calls) + Steps(g.count, g.gated)
  {
    ghost var s := f.Snap();
    allOk, raised := AddReplicas(f, g);
    GrownSickAsMade(f.world, s, f.Snap(), g);
    if allOk && !raised {
      AllInService(f.world, s, f.Snap(), g);
    }
  }

  // ---- Scale down -------------------------------------------------------

  /** `drained` are the newest `count` of the live rows. */
  ghost predicate NewestOf(rows: Rows, drained: seq<nat>, count: nat) {
    && |drained| == count && NoRepeats(drained)
    && (forall id | id in drained :: id in LiveIds(rows))
    && (forall d, s | d in drained && s in LiveIds(rows) && s !in drained && d in rows ::
          rows[d].createdAt >= rows[s].createdAt)
  }

  lemma PrefixIsNewest(rows: Rows, live: seq<nat>, count: nat)
    requires NoRepeats(live) && count <= |live| && forall id :: id in live <==> id in LiveIds(rows)
    ensures |NewestFirst(rows, live)| == |live|
    ensures NewestOf(rows, NewestFirst(rows, live)[..count], count)
  {
    var sorted := NewestFirst(rows, live);
    assert |sorted| == |multiset(sorted)| == |multiset(live)| == |live|;
    NoRepeatsByCount(live, sorted);
    NewestFirstIsDescending(rows, live);
    var drained := sorted[..count];
    assert forall k | 0 <= k < count :: sorted[k] == drained[k];
    forall d, s | d in drained && s in LiveIds(rows) && s !in drained
      ensures rows[d].createdAt >= rows[s].createdAt
    {
      var i :| 0 <= i < count && sorted[i] == d;
      assert s in sorted;
      var j :| 0 <= j < |sorted| && sorted[j] == s;
    }
  }

  predicate MarkedOrNot(before: Instance, after: Instance) {
    after == before || (CanDrain(before) && after == before.(status := Draining))
  }

  /** The selected rows marked, stopped or, if one may not drain, none stopped. */
  ghost predicate Withdrawn(cfg: Settings, w: Outside, s: Snapshot, t: Snapshot,
                            drained: seq<nat>, ok: bool, raised: bool)
    requires forall id | id in drained :: id in s.rows
  {
    && t.rows.Keys == s.rows.Keys
    && (forall id | id in s.rows && id !in drained :: t.rows[id] == s.rows[id])
    && (raised <==> exists id | id in drained :: !CanDrain(s.rows[id]))
    && (raised ==> !ok && forall id | id in drained :: MarkedOrNot(s.rows[id], t.rows[id]))
    && (!raised ==> forall id | id in drained :: Retired(s.rows[id], t.rows[id]))
    && (ok <==> forall id | id in drained :: t.rows[id].status == Stopped)
    && (!raised ==> (ok <==> AllGood(w, StopCall(cfg, s.calls), StopCall(cfg, s.calls) + |drained|)))
  }

  lemma WithdrawnMarks(cfg: Settings, w: Outside, s: Snapshot, t: Snapshot, drained: seq<nat>)
    requires t.rows.Keys == s.rows.Keys && (forall id | id in drained :: id in s.rows)
    requires forall id | id in s.rows && id !in drained :: t.rows[id] == s.rows[id]
    requires exists id | id in drained :: !CanDrain(s.rows[id])
    requires exists id | id in drained :: t.rows[id].status != Stopped
    requires forall id | id in drained :: MarkedOrNot(s.rows[id], t.rows[id])
    ensures Withdrawn(cfg, w, s, t, drained, false, true)
  {
  }

  lemma WithdrawnStops(cfg: Settings, w: Outside, s: Snapshot, m: Snapshot, t: Snapshot, drained: seq<nat>, ok: bool)
    requires forall id | id in drained :: id in s.rows && CanDrain(s.rows[id])
    requires m.rows.Keys == s.rows.Keys && m.calls == s.calls && t.rows.Keys == s.rows.Keys
    requires forall id | id in s.rows && id !in drained :: m.rows[id] == s.rows[id] && t.rows[id] == m.rows[id]
    requires forall id | id in drained :: m.rows[id] == s.rows[id].(status := Draining)
    requires forall id | id in drained :: Retired(m.rows[id], t.rows[id])
    requires ok <==> forall id | id in drained :: t.rows[id].status == Stopped
    requires ok <==> AllGood(w, StopCall(cfg, m.calls), StopCall(cfg, m.calls) + |drained|)
    ensures Withdrawn(cfg, w, s, t, drained, ok, false)
  {
  }

  /** The second half, once all the selected rows are marked. */
  method StopMarked(f: Fleet, drained: seq<nat>, ghost s: Snapshot) returns (allOk: bool)
    requires f.Valid() && NoRepeats(drained) && f.rows.Keys == s.rows.Keys && f.calls == s.calls
    requires f.active == s.active && f.installed == s.installed && f.reloads == s.reloads
    requires forall id | id in drained ::
               id in s.rows && CanDrain(s.rows[id]) && f.rows[id] == s.rows[id].(status := Draining)
    requires forall id | id in s.rows && id !in drained :: f.rows[id] == s.rows[id]
    modifies f`rows, f`foreign, f`now, f`history, f`installed, f`calls, f`reloads
    ensures f.Valid() && Withdrawn(f.cfg, f.world, s, f.Snap(), drained, allOk, false)
    ensures OnlyRoutine(s.reloads, f.reloads) && Tracked(f.cfg, f.world, s, f.Snap())
    ensures ReleasesKept(s.rows, f.rows)
  {
    ghost var m := f.Snap();
    allOk := SyncAndStop(f, drained);
    assert Tracked(f.cfg, f.world, s, f.Snap()) by {
      TrackedThen(f.cfg, f.world, s, m, f.Snap());
    }
    assert Withdrawn(f.cfg, f.world, s, f.Snap(), drained, allOk, false) by {
      WithdrawnStops(f.cfg, f.world, s, m, f.Snap(), drained, allOk);
    }
  }

  /** Marks the selected rows, takes them out of the upstream, waits, and stops
      them; raises at the first that may not drain. */
  method DrainAndStop(f: Fleet, drained: seq<nat>) returns (allOk: bool, raised: bool)
    requires f.Valid() && NoRepeats(drained)
    requires forall id | id in drained :: id in f.rows && IsLive(f.rows[id])
    modifies f`rows, f`foreign, f`now, f`history, f`installed, f`calls, f`reloads
    ensures f.Valid() && Withdrawn(f.cfg, f.world, old(f.Snap()), f.Snap(), drained, allOk, raised)
    ensures OnlyRoutine(old(f.reloads), f.reloads)
    ensures Tracked(f.cfg, f.world, old(f.Snap()), f.Snap())
    ensures ReleasesKept(old(f.rows), f.rows)
  {
    raised := MarkSelected(f, drained);
    if raised {
      return false, true;
    }
    allOk := StopMarked(f, drained, old(f.Snap()));
  }

  /** The number of the first stop: after the reload, if any, and the wait. */
  function StopCall(cfg: Settings, k: nat): nat {
    k + (if cfg.hasDomain then 2 else 1)
  }

  method MarkSelected(f: Fleet, drained: seq<nat>) returns (raised: bool)
    requires f.Valid() && NoRepeats(drained)
    requires forall id | id in drained :: id in f.rows && IsLive(f.rows[id])
    modifies f`rows, f`history
    ensures f.Valid() && f.rows.Keys == old(f.rows).Keys
    ensures ReleasesKept(old(f.rows), f.rows)
    ensures forall id | id in f.rows && id !in drained :: f.rows[id] == old(f.rows)[id]
    ensures if raised then Withdrawn(f.cfg, f.world, old(f.Snap()), f.Snap(), drained, false, true)
            else forall id | id in drained ::
                   CanDrain(old(f.rows)[id]) && f.rows[id] == old(f.rows)[id].(status := Draining)
  {
    DrainRunIs(f.rows, drained, 0);
    assert forall k | 0 <= k < |drained| :: drained[k] in drained;
    var marked;
    raised, marked := MarkDraining(f, drained);
    MarkedRows(old(f.rows), drained, marked);
    if raised {
      assert f.rows[drained[marked]].status != Stopped;
      WithdrawnMarks(f.cfg, f.world, old(f.Snap()), f.Snap(), drained);
    }
  }

  lemma MarkedRows(rows: Rows, ids: seq<nat>, n: nat)
    requires n <= |ids| && NoRepeats(ids) && forall id | id in ids :: id in rows
    requires forall k | 0 <= k < n :: CanDrain(rows[ids[k]])
    ensures var rows' := AssignAll(rows, ids, n, Draining);
            && (forall id | id in ids :: MarkedOrNot(rows[id], rows'[id]))
            && (n == |ids| ==> forall id | id in ids :: rows'[id] == rows[id].(status := Draining))
            && (forall id | id in rows && id !in ids :: rows'[id] == rows[id])
            && ReleasesKept(rows, rows')
  {
    AssignAllIs(rows, ids, n, Draining);
    forall id | id in ids ensures MarkedOrNot(rows[id], AssignAll(rows, ids, n, Draining)[id]) {
      var i :| 0 <= i < |ids| && ids[i] == id;
    }
  }

  /** Stopping DRAINING rows does not touch the routing. */
  lemma RetiredPayload(rows: Rows, rows': Rows, ids: seq<nat>, active: Option<nat>)
    requires rows'.Keys == rows.Keys && forall id | id in rows && id !in ids :: rows'[id] == rows[id]
    requires forall id | id in ids :: id in rows && rows[id].status == Draining && Retired(rows[id], rows'[id])
    ensures Payload(rows', active) == Payload(rows, active)
  {
  }

  method SyncAndStop(f: Fleet, drained: seq<nat>) returns (allOk: bool)
    requires f.Valid() && NoRepeats(drained)
    requires forall id | id in drained :: id in f.rows && f.rows[id].status == Draining
    modifies f`rows, f`foreign, f`now, f`history, f`installed, f`calls, f`reloads
    ensures f.Valid() && f.rows.Keys == old(f.rows).Keys && OnlyRoutine(old(f.reloads), f.reloads)
    ensures forall id | id in f.rows && id !in drained :: f.rows[id] == old(f.rows)[id]
    ensures forall id | id in drained :: Retired(old(f.rows)[id], f.rows[id])
    ensures allOk <==> forall id | id in drained :: f.rows[id].status == Stopped
    ensures allOk <==> AllGood(f.world, StopCall(f.cfg, old(f.calls)), StopCall(f.cfg, old(f.calls)) + |drained|)
    ensures Tracked(f.cfg, f.world, old(f.Snap()), f.Snap())
    ensures ReleasesKept(old(f.rows), f.rows)
  {
    f.Publish();
    ghost var m := f.Snap();
    allOk := WaitAndStop(f, drained);
    assert Tracked(f.cfg, f.world, old(f.Snap()), f.Snap()) by {
      RetiredPayload(m.rows, f.rows, drained, f.active);
      TrackedThen(f.cfg, f.world, old(f.Snap()), m, f.Snap());
    }
  }

  /** The newest `count` live rows drained and stopped, and no other touched.  A
      selected row that is PENDING or STARTING may not drain: the exception leaves
      the rows marked so far DRAINING and stops none. */
  ghost predicate Shrunk(cfg: Settings, w: Outside, s: Snapshot, t: Snapshot,
                         drained: seq<nat>, count: nat, ok: bool, raised: bool) {
    && NewestOf(s.rows, drained, count) && t.nextId == s.nextId
    && Withdrawn(cfg, w, s, t, drained, ok, raised)
  }

  /** `_scale_down`. */
  method ScaleDown(f: Fleet, live: seq<nat>, count: nat)
    returns (allOk: bool, raised: bool, drained: seq<nat>)
    requires f.Valid() && NoRepeats(live) && count <= |live|
    requires forall id :: id in live <==> id in LiveIds(f.rows)
    modifies f`rows, f`foreign, f`now, f`history, f`installed, f`calls, f`reloads
    ensures f.Valid() && Shrunk(f.cfg, f.world, old(f.Snap()), f.Snap(), drained, count, allOk, raised)
    ensures OnlyRoutine(old(f.reloads), f.reloads)
    ensures Tracked(f.cfg, f.world, old(f.Snap()), f.Snap())
    ensures ReleasesKept(old(f.rows), f.rows)
  {
    PrefixIsNewest(f.rows, live, count);
    drained := NewestFirst(f.rows, live)[..count];
    allOk, raised := DrainAndStop(f, drained);
  }

  // ---- The whole run ----------------------------------------------------

  datatype ScaleRequest = ScaleRequest(release: nat, target: nat, gated: bool, agentFound: bool)

  /** The replicas missing, to be started on the configured ports. */
  function Missing(cfg: Settings, q: ScaleRequest, current: nat): Growth
    requires Ready(cfg, q.agentFound) && current <= q.target
  {
    Growth(q.release, q.target - current, cfg.server.value, cfg.portStart.value, cfg.portEnd.value, q.gated)
  }

  /** What a scale run does to the rows, and how its deployment ends: IN_PROGRESS
      exactly when a replica failed its gate or a selected row could not drain. */
  ghost predicate Rescaled(cfg: Settings, w: Outside, s: Snapshot, t: Snapshot, q: ScaleRequest,
                           drained: seq<nat>, status: DeploymentStatus) {
    var current := |LiveIds(s.rows)|;
    && status in {DSucceeded, DFailed, DInProgress}
    && if !Ready(cfg, q.agentFound) then status == DFailed && t.rows == s.rows && t.nextId == s.nextId
       else if q.target >= current then
         && Grown(w, s, t, Missing(cfg, q, current))
         && SickAsMade(w, s, t, Missing(cfg, q, current), status == DInProgress)
         && (status == DSucceeded <==> t.nextId == s.nextId + (q.target - current) && AllUp(s, t))
       else
         Shrunk(cfg, w, s, t, drained, current - q.target, status == DSucceeded, status == DInProgress)
  }

  method Rescale(f: Fleet, q: ScaleRequest) returns (ok: bool, raised: bool, drained: seq<nat>)
    requires f.Valid() && Ready(f.cfg, q.agentFound)
    modifies f`rows, f`nextId, f`foreign, f`now, f`history, f`installed, f`calls, f`reloads
    ensures f.Valid() && OnlyRoutine(old(f.reloads), f.reloads) && (raised ==> !ok)
    ensures Rescaled(f.cfg, f.world, old(f.Snap()), f.Snap(), q, drained,
                     if raised then DInProgress else if ok then DSucceeded else DFailed)
    ensures ok && q.target >= |LiveIds(old(f.rows))| ==>
              f.calls == old(f.calls) + Steps(q.target - |LiveIds(old(f.rows))|, q.gated)
    ensures Tracked(f.cfg, f.world, old(f.Snap()), f.Snap())
    ensures ReleasesKept(old(f.rows), f.rows)
  {
    var live := f.Select(IsLive);
    var current := |live|;
    CountsItsMembers(live, LiveIds(f.rows));
    drained := [];
    if q.target >= current {
      ok, raised := ScaleUp(f, Missing(f.cfg, q, current));
      ok := ok && !raised;
    } else {
      ok, raised, drained := ScaleDown(f, live, current - q.target);
    }
  }

  /** Only the rows matter to that. */
  lemma AddedFrame(w: Outside, s: Snapshot, m: Snapshot, t: Snapshot, g: Growth)
    requires Added(w, s, m, g) && t.rows == m.rows && t.nextId == m.nextId
    ensures Added(w, s, t, g)
  {
    assert AsMade(w, s, t, g) && SickLast(s, t);
  }

  lemma StatusFrame(s: Snapshot, m: Snapshot, t: Snapshot)
    requires t.rows == m.rows && t.nextId == m.nextId
    ensures (EndsSick(s, t) <==> EndsSick(s, m)) && (AllUp(s, t) <==> AllUp(s, m))
  {
  }

  lemma GrownFrame(w: Outside, s: Snapshot, m: Snapshot, t: Snapshot, g: Growth, sick: bool)
    requires Grown(w, s, m, g) && SickAsMade(w, s, m, g, sick) && t.rows == m.rows && t.nextId == m.nextId
    ensures Grown(w, s, t, g) && SickAsMade(w, s, t, g, sick) && (AllUp(s, t) <==> AllUp(s, m))
  {
    AddedFrame(w, s, m, t, g);
    StatusFrame(s, m, t);
  }

  lemma RescaledFrame(cfg: Settings, w: Outside, s: Snapshot, m: Snapshot, t: Snapshot, q: ScaleRequest,
                      drained: seq<nat>, status: DeploymentStatus)
    requires Rescaled(cfg, w, s, m, q, drained, status) && t.rows == m.rows && t.nextId == m.nextId
    ensures Rescaled(cfg, w, s, t, q, drained, status)
  {
    if Ready(cfg, q.agentFound) && q.target >= |LiveIds(s.rows)| {
      GrownFrame(w, s, m, t, Missing(cfg, q, |LiveIds(s.rows)|), status == DInProgress);
    }
  }

  /** The last call told the gateway about the rows. */
  ghost predicate Announced(cfg: Settings, w: Outside, t: Snapshot) {
    && t.calls > 0 && t.foreign <= At(w, t.calls - 1).others
    && (Heard(w, t.calls - 1) ==> t.installed == if cfg.certified then Payload(t.rows, t.active) else {})
  }

  method Announce(f: Fleet)
    requires f.Valid()
    modifies f`installed, f`foreign, f`now, f`history, f`calls, f`reloads
    ensures f.Valid() && OnlyRoutine(old(f.reloads), f.reloads)
    ensures f.calls == old(f.calls) + if f.cfg.hasDomain then 1 else 0
    ensures f.cfg.hasDomain ==> Announced(f.cfg, f.world, f.Snap())
    ensures Tracked(f.cfg, f.world, old(f.Snap()), f.Snap())
  {
    f.Publish();
  }

  /** The rows as scaled, and the gateway told of them. */
  method AnnounceScaled(f: Fleet, q: ScaleRequest, drained: seq<nat>, ghost s: Snapshot)
    requires f.Valid() && Rescaled(f.cfg, f.world, s, f.Snap(), q, drained, DSucceeded)
    requires OnlyRoutine(s.reloads, f.reloads) && Tracked(f.cfg, f.world, s, f.Snap())
    modifies f`installed, f`foreign, f`now, f`history, f`calls, f`reloads
    ensures f.Valid() && OnlyRoutine(s.reloads, f.reloads) && Tracked(f.cfg, f.world, s, f.Snap())
    ensures Rescaled(f.cfg, f.world, s, f.Snap(), q, drained, DSucceeded)
    ensures f.cfg.hasDomain ==> Announced(f.cfg, f.world, f.Snap())
    ensures f.calls == old(f.calls) + if f.cfg.hasDomain then 1 else 0
  {
    ghost var m := f.Snap();
    Announce(f);
    assert Tracked(f.cfg, f.world, s, f.Snap()) by {
      TrackedThen(f.cfg, f.world, s, m, f.Snap());
    }
    assert Rescaled(f.cfg, f.world, s, f.Snap(), q, drained, DSucceeded) by {
      RescaledFrame(f.cfg, f.world, s, m, f.Snap(), q, drained, DSucceeded);
    }
  }

  /** Scales, and then tells the gateway. */
  method RescaleAndAnnounce(f: Fleet, q: ScaleRequest) returns (status: DeploymentStatus, drained: seq<nat>)
    requires f.Valid()
    modifies f`rows, f`nextId, f`foreign, f`now, f`history, f`installed, f`calls, f`reloads
    ensures f.Valid() && OnlyRoutine(old(f.reloads), f.reloads) && ReleasesKept(old(f.rows), f.rows)
    ensures Rescaled(f.cfg, f.world, old(f.Snap()), f.Snap(), q, drained, status)
    ensures status == DSucceeded && f.cfg.hasDomain ==> Announced(f.cfg, f.world, f.Snap())
    ensures status == DSucceeded && q.target >= |LiveIds(old(f.rows))| ==>
              f.calls == old(f.calls) + Steps(q.target - |LiveIds(old(f.rows))|, q.gated)
                         + if f.cfg.hasDomain then 1 else 0
    ensures Tracked(f.cfg, f.world, old(f.Snap()), f.Snap())
  {
    if f.cfg.server.None? || f.cfg.portStart.None? || f.cfg.portEnd.None? || !q.agentFound {
      return DFailed, [];
    }
    var ok, raised;
    ok, raised, drained := Rescale(f, q);
    if !ok {
      return if raised then DInProgress else DFailed, drained;
    }
    AnnounceScaled(f, q, drained, old(f.Snap()));
    return DSucceeded, drained;
  }

  // ---- What success means -----------------------------------------------

  /** The rows of a scaled application: missing replicas in service on distinct
      ports of the range, or the newest surplus ones stopped. */
  ghost predicate Scaled(s: Snapshot, t: Snapshot, g: Growth, target: nat) {
    var current := |LiveIds(s.rows)|;
    if target >= current then
      && Extends(s.rows, s.nextId, t.rows, t.nextId) && t.nextId == s.nextId + (target - current)
      && (forall id | s.nextId <= id < t.nextId :: InService(t.rows[id], g.release, g.server, g.lo, g.hi))
      && (forall i, j | s.nextId <= i < j < t.nextId :: t.rows[i].slot != t.rows[j].slot)
    else
      && t.rows.Keys == s.rows.Keys && t.nextId == s.nextId
      && exists drained: set<nat> ::
           && drained <= LiveIds(s.rows) && |drained| == current - target
           && (forall id | id in s.rows :: if id in drained
                 then t.rows[id] == s.rows[id].(status := Stopped) else t.rows[id] == s.rows[id])
           && (forall d, k | d in drained && k in LiveIds(s.rows) - drained ::
                 s.rows[d].createdAt >= s.rows[k].createdAt)
  }

  lemma LiveGrows(rows: Rows, next: nat, rows': Rows, next': nat)
    requires Extends(rows, next, rows', next') && forall id | id in rows :: id < next
    requires forall id | next <= id < next' :: id in rows' && IsLive(rows'[id])
    ensures |LiveIds(rows')| == |LiveIds(rows)| + (next' - next)
  {
    assert LiveIds(rows') == LiveIds(rows) + Span(next, next');
  }

  lemma GrownIsScaled(w: Outside, s: Snapshot, t: Snapshot, g: Growth)
    requires Grown(w, s, t, g) && t.nextId == s.nextId + g.count && AllUp(s, t)
    requires SlotsDistinct(t.rows, t.foreign) && (forall id | id in s.rows :: id < s.nextId)
    ensures Scaled(s, t, g, |LiveIds(s.rows)| + g.count)
    ensures |LiveIds(t.rows)| == |LiveIds(s.rows)| + g.count
  {
    LiveGrows(s.rows, s.nextId, t.rows, t.nextId);
    forall i, j | s.nextId <= i < j < t.nextId ensures t.rows[i].slot != t.rows[j].slot {
      assert Occupies(t.rows, i) && Occupies(t.rows, j);
    }
  }

  lemma StoppedIsScaled(s: Snapshot, t: Snapshot, g: Growth, target: nat, drained: seq<nat>)
    requires target < |LiveIds(s.rows)| && t.rows.Keys == s.rows.Keys && t.nextId == s.nextId
    requires NewestOf(s.rows, drained, |LiveIds(s.rows)| - target)
    requires forall id | id in s.rows ::
               t.rows[id] == if id in drained then s.rows[id].(status := Stopped) else s.rows[id]
    ensures Scaled(s, t, g, target) && |LiveIds(t.rows)| == target
  {
    var gone := set id | id in drained;
    CountsItsMembers(drained, gone);
    assert LiveIds(t.rows) == LiveIds(s.rows) - gone;
    assert gone <= LiveIds(s.rows);
    forall d, k | d in gone && k in LiveIds(s.rows) - gone ensures s.rows[d].createdAt >= s.rows[k].createdAt {
      assert d in drained && k !in drained;
    }
  }

  lemma UnstoppedIsNotScaled(s: Snapshot, t: Snapshot, g: Growth, target: nat, drained: seq<nat>)
    requires target < |LiveIds(s.rows)| && t.rows.Keys == s.rows.Keys
    requires NewestOf(s.rows, drained, |LiveIds(s.rows)| - target)
    requires forall id | id in s.rows && id !in drained :: t.rows[id] == s.rows[id]
    requires exists id | id in drained :: t.rows[id].status != Stopped
    ensures !Scaled(s, t, g, target)
  {
    var gone := set id | id in drained;
    CountsItsMembers(drained, gone);
    forall x: set<nat> | x <= LiveIds(s.rows) && |x| == |gone| && x != gone
      ensures exists id | id in x :: t.rows[id] == s.rows[id]
    {
      if x <= gone {
        ProperSubsetIsSmaller(x, gone);
      } else {
        var id :| id in x && id !in gone;
      }
    }
  }

  lemma ProperSubsetIsSmaller(a: set<nat>, b: set<nat>)
    requires a <= b && a != b
    ensures |a| < |b|
  {
    var x :| x in b && x !in a;
    assert a <= b - {x};
    SubsetIsSmaller(a, b - {x});
  }

  /** A run ends SUCCEEDED exactly when it scaled, and then exactly `target` rows
      are live. */
  lemma SucceededIsScaled(cfg: Settings, w: Outside, s: Snapshot, t: Snapshot, q: ScaleRequest,
                          drained: seq<nat>, status: DeploymentStatus)
    requires Ready(cfg, q.agentFound) && Rescaled(cfg, w, s, t, q, drained, status)
    requires SlotsDistinct(t.rows, t.foreign) && (forall id | id in s.rows :: id < s.nextId)
    ensures var g := Growth(q.release, 0, cfg.server.value, cfg.portStart.value, cfg.portEnd.value, q.gated);
            status == DSucceeded <==> Scaled(s, t, g, q.target)
    ensures status == DSucceeded ==> |LiveIds(t.rows)| == q.target
  {
    var current := |LiveIds(s.rows)|;
    if q.target >= current {
      if status == DSucceeded {
        GrownIsScaled(w, s, t, Missing(cfg, q, current));
      }
    } else {
      var g := Growth(q.release, 0, cfg.server.value, cfg.portStart.value, cfg.portEnd.value, q.gated);
      if status == DSucceeded {
        StoppedIsScaled(s, t, g, q.target, drained);
      } else {
        UnstoppedIsNotScaled(s, t, g, q.target, drained);
      }
    }
  }

  /** A run up or down does succeed when every row it selects may drain, every
      call is answered well, and the range has room. */
  lemma UnhinderedSucceeds(cfg: Settings, w: Outside, s: Snapshot, t: Snapshot, q: ScaleRequest,
                           drained: seq<nat>, status: DeploymentStatus)
    requires Ready(cfg, q.agentFound) && Rescaled(cfg, w, s, t, q, drained, status)
    requires if q.target >= |LiveIds(s.rows)| then Hopeful(w, s, Missing(cfg, q, |LiveIds(s.rows)|))
             else (forall id | id in LiveIds(s.rows) :: CanDrain(s.rows[id]))
                  && AllGood(w, StopCall(cfg, s.calls), StopCall(cfg, s.calls) + (|LiveIds(s.rows)| - q.target))
    ensures status == DSucceeded
  {
    var current := |LiveIds(s.rows)|;
    if q.target >= current && status != DSucceeded {
      ShortIsHopeless(w, s, t, Missing(cfg, q, current));
    }
  }

  /** What SUCCEEDED means: scaled, with `target` rows live. */
  ghost predicate ScaledTo(cfg: Settings, s: Snapshot, t: Snapshot, q: ScaleRequest, status: DeploymentStatus)
    requires Ready(cfg, q.agentFound)
  {
    var g := Growth(q.release, 0, cfg.server.value, cfg.portStart.value, cfg.portEnd.value, q.gated);
    && (status == DSucceeded <==> Scaled(s, t, g, q.target))
    && (status == DSucceeded ==> |LiveIds(t.rows)| == q.target)
  }

  /** `run_scale`; the rows it selected for draining are returned with the status. */
  method RunScale(f: Fleet, q: ScaleRequest) returns (status: DeploymentStatus, drained: seq<nat>)
    requires f.Valid()
    modifies f`rows, f`nextId, f`foreign, f`now, f`history, f`installed, f`calls, f`reloads
    ensures f.Valid() && OnlyRoutine(old(f.reloads), f.reloads)
    ensures Rescaled(f.cfg, f.world, old(f.Snap()), f.Snap(), q, drained, status)
    ensures if Ready(f.cfg, q.agentFound) then ScaledTo(f.cfg, old(f.Snap()), f.Snap(), q, status)
            else status == DFailed
    ensures status == DSucceeded && f.cfg.hasDomain ==> Announced(f.cfg, f.world, f.Snap())
    ensures status == DSucceeded && q.target >= |LiveIds(old(f.rows))| ==>
              f.calls == old(f.calls) + Steps(q.target - |LiveIds(old(f.rows))|, q.gated)
                         + if f.cfg.hasDomain then 1 else 0
    ensures Tracked(f.cfg, f.world, old(f.Snap()), f.Snap())
    ensures Agrees(old(f.rows), f.active, old(f.installed)) ==> Agrees(f.rows, f.active, f.installed)
  {
    forall id | id in f.rows ensures id < f.nextId {
      IdBelowNext(f.cfg.limits, f.history, id);
    }
    status, drained := RescaleAndAnnounce(f, q);
    NoSharedSlot(f);
    TrackedAgrees(f.cfg, f.world, old(f.Snap()), f.Snap());
    if Ready(f.cfg, q.agentFound) {
      SucceededIsScaled(f.cfg, f.world, old(f.Snap()), f.Snap(), q, drained, status);
    }
  }
}
