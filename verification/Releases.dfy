/** Blue-green release switch and rollback: start and health-gate every new
    instance, move `active_release_id`, switch the gateway, drain the old release. */
module Releases {
  import opened Common
  import opened StateMachines
  import opened Instances
  import opened History
  import opened Fleets
  import opened Starts

  predicate NoRepeats(ids: seq<nat>) {
    forall i, j | 0 <= i < j < |ids| :: ids[i] != ids[j]
  }

  lemma {:induction false} CountsItsMembers(ids: seq<nat>, s: set<nat>)
    requires NoRepeats(ids) && forall id :: id in ids <==> id in s
    ensures |s| == |ids|
    decreases |ids|
  {
    if ids == [] {
    } else {
      var init, x := ids[..|ids| - 1], ids[|ids| - 1];
      assert ids == init + [x];
      CountsItsMembers(init, s - {x});
    }
  }

  /** The first n of the rows `ids`, given status `s`. */
  function AssignAll(rows: Rows, ids: seq<nat>, n: nat, s: InstanceStatus): (r: Rows)
    requires n <= |ids| && forall id | id in ids :: id in rows
    ensures r.Keys == rows.Keys
  {
    if n == 0 then rows
    else AssignAll(rows, ids, n - 1, s)[ids[n - 1] := rows[ids[n - 1]].(status := s)]
  }

  lemma {:induction false} AssignAllIs(rows: Rows, ids: seq<nat>, n: nat, s: InstanceStatus)
    requires n <= |ids| && NoRepeats(ids) && (forall id | id in ids :: id in rows)
    ensures forall k | 0 <= k < |ids| ::
              AssignAll(rows, ids, n, s)[ids[k]] == if k < n then rows[ids[k]].(status := s) else rows[ids[k]]
    ensures forall id | id in rows && id !in ids :: AssignAll(rows, ids, n, s)[id] == rows[id]
  {
    if n == 0 {
    } else {
      AssignAllIs(rows, ids, n - 1, s);
    }
  }

  lemma AssignAllNext(rows: Rows, ids: seq<nat>, n: nat, s: InstanceStatus)
    requires n < |ids| && NoRepeats(ids) && forall id | id in ids :: id in rows
    ensures AssignAll(rows, ids, n, s)[ids[n]] == rows[ids[n]]
  {
    AssignAllIs(rows, ids, n, s);
  }

  /** The first n of the rows `ids`, stopped by the calls from k on, or FAILED. */
  function Halted(w: Outside, k: nat, rows: Rows, ids: seq<nat>, n: nat): (r: Rows)
    requires n <= |ids| && forall id | id in ids :: id in rows
    ensures r.Keys == rows.Keys
    decreases n
  {
    if n == 0 then rows
    else Halted(w, k, rows, ids, n - 1)[
           ids[n - 1] := rows[ids[n - 1]].(status := if Good(w, k + n - 1) then Stopped else Failed)]
  }

  lemma {:induction false} HaltedIs(w: Outside, k: nat, rows: Rows, ids: seq<nat>, n: nat)
    requires n <= |ids| && NoRepeats(ids) && (forall id | id in ids :: id in rows)
    ensures forall i | 0 <= i < |ids| ::
              Halted(w, k, rows, ids, n)[ids[i]] ==
                if i >= n then rows[ids[i]]
                else rows[ids[i]].(status := if Good(w, k + i) then Stopped else Failed)
    ensures forall id | id in rows && id !in ids :: Halted(w, k, rows, ids, n)[id] == rows[id]
    decreases n
  {
    if n == 0 {
    } else {
      HaltedIs(w, k, rows, ids, n - 1);
    }
  }

  lemma HaltedNext(w: Outside, k: nat, rows: Rows, ids: seq<nat>, n: nat)
    requires n < |ids| && NoRepeats(ids) && forall id | id in ids :: id in rows
    ensures Halted(w, k, rows, ids, n)[ids[n]] == rows[ids[n]]
  {
    HaltedIs(w, k, rows, ids, n);
  }

  // ---- Stopping ---------------------------------------------------------

  /** Stops a RUNNING row; a failed stop asks RUNNING -> FAILED and is refused. */
  method StopRunning(f: Fleet, id: nat) returns (ok: bool)
    requires f.Valid() && id in f.rows && f.rows[id].status == Running
    modifies f`rows, f`foreign, f`now, f`history, f`calls
    ensures f.Valid() && f.calls == old(f.calls) + 1 && ok == Good(f.world, old(f.calls))
    ensures f.rows == if ok then old(f.rows)[id := old(f.rows)[id].(status := Stopped)] else old(f.rows)
  {
    var stopOk := f.Call();
    ok := f.Move(id, if stopOk then Stopped else Failed);
  }

  /** `_stop_instances`.  A failed stop asks RUNNING -> FAILED, which the table
      refuses: the exception leaves this instance and the rest RUNNING. */
  method StopInstances(f: Fleet, ids: seq<nat>) returns (raised: bool, stopped: nat)
    requires f.Valid() && NoRepeats(ids)
    requires forall id | id in ids :: id in f.rows && f.rows[id].status == Running
    modifies f`rows, f`foreign, f`now, f`history, f`calls
    ensures f.Valid() && stopped == GoodRun(f.world, old(f.calls), |ids|) && (raised <==> stopped < |ids|)
    ensures f.calls == old(f.calls) + stopped + if raised then 1 else 0
    ensures f.rows == AssignAll(old(f.rows), ids, stopped, Stopped)
  {
    stopped := 0;
    while stopped < |ids|
      invariant f.Valid() && stopped <= |ids| && f.rows == AssignAll(old(f.rows), ids, stopped, Stopped)
      invariant f.calls == old(f.calls) + stopped
      invariant GoodRun(f.world, old(f.calls), |ids|) == stopped + GoodRun(f.world, f.calls, |ids| - stopped)
    {
      AssignAllNext(old(f.rows), ids, stopped, Stopped);
      var ok := StopRunning(f, ids[stopped]);
      if !ok {
        return true, stopped;
      }
      stopped := stopped + 1;
    }
    return false, stopped;
  }

  /** The instances a failed gate leaves behind: all terminal, unless a stop
      raised, and then some are still RUNNING. */
  ghost predicate CleanedUp(rows: Rows, first: nat, last: nat, raised: bool) {
    && (!raised ==> forall id: nat | first <= id < last && id in rows :: Terminal(rows[id].status))
    && (raised ==> exists id: nat :: first <= id < last && id in rows && rows[id].status == Running)
  }

  /** `started` is the run of ids from `first`. */
  predicate Consecutive(started: seq<nat>, first: nat) {
    forall k | 0 <= k < |started| :: started[k] == first + k
  }

  ghost predicate SameReleases(rows: Rows, rows': Rows) {
    rows'.Keys == rows.Keys && forall id | id in rows :: rows'[id].release == rows[id].release
  }

  /** Stopping what was started, after the last one failed by itself. */
  method Abort(f: Fleet, started: seq<nat>, ghost first: nat, ghost rows0: Rows) returns (raised: bool)
    requires f.Valid() && Consecutive(started, first) && Extends(rows0, first, f.rows, f.nextId)
    requires forall id | id in rows0 :: id < first
    requires first + |started| <= f.nextId
    requires forall id | first <= id < f.nextId ::
               if id < first + |started| then f.rows[id].status == Running
               else Terminal(f.rows[id].status)
    modifies f`rows, f`foreign, f`now, f`history, f`calls
    ensures f.Valid() && Extends(rows0, first, f.rows, f.nextId)
    ensures CleanedUp(f.rows, first, f.nextId, raised)
    ensures raised <==> !AllGood(f.world, old(f.calls), old(f.calls) + |started|)
    ensures SameReleases(old(f.rows), f.rows)
  {
    var stopped;
    raised, stopped := StopInstances(f, started);
    GoodRunIsAll(f.world, old(f.calls), |started|);
    AssignAllIs(old(f.rows), started, stopped, Stopped);
    forall id | first <= id < f.nextId && !raised ensures Terminal(f.rows[id].status) {
      if id < first + |started| {
        assert started[id - first] == id;
      }
    }
    if raised {
      assert f.rows[started[stopped]].status == Running;
    }
    forall id | id in f.rows ensures f.rows[id].release == old(f.rows)[id].release {
      assert id in started ==> exists k :: 0 <= k < |started| && started[k] == id;
    }
  }

  // ---- Starting ---------------------------------------------------------

  ghost predicate OfRelease(rows: Rows, first: nat, last: nat, release: nat) {
    forall id: nat | first <= id < last && id in rows :: rows[id].release == Some(release)
  }

  /** The first n starts succeeded; the next, if n is not all, ended as `o`. */
  ghost predicate Batched(w: Outside, s: Snapshot, t: Snapshot, g: Growth, n: nat, o: Start) {
    && n <= g.count && (o == Up <==> n == g.count) && Added(w, s, t, g)
    && t.nextId == s.nextId + n + (if o in {Broken, Sick} then 1 else 0)
    && (forall id: nat | s.nextId <= id < s.nextId + n && id in t.rows :: t.rows[id].status == Running)
    && (o in {Broken, Sick} ==> t.nextId - 1 in t.rows && t.rows[t.nextId - 1].status == StatusOf(o))
    && (o in {Broken, Sick} ==> o == Outcome(w, s.calls, g.gated, n)) && t.calls == EndOfBatch(w, s, g, n, o)
    && (o == Up ==> Growing(w, s, t, g) && AllUp(s, t))
    && (o == NoPort ==> Grown(w, s, t, g))
  }

  /** Calls made by then. */
  function EndOfBatch(w: Outside, s: Snapshot, g: Growth, n: nat, o: Start): nat {
    CallAt(w, s.calls, g.gated, n) + if o in {Broken, Sick} then Used(o, g.gated) else 0
  }

  /** A run of starts that ended, as `o`, after n had succeeded, and was taken
      back; that raised exactly if one of the n stops was not answered well. */
  ghost predicate FellShortAt(w: Outside, s: Snapshot, t: Snapshot, g: Growth, n: nat, o: Start, raised: bool) {
    && n < g.count && o != Up && t.nextId == s.nextId + n + (if o == NoPort then 0 else 1)
    && (forall i | 0 <= i < n :: Outcome(w, s.calls, g.gated, i) == Up)
    && (if o == NoPort then !Room(s.rows, s.foreign, w, s.calls, g.server, g.lo, g.hi, g.count)
        else o == Outcome(w, s.calls, g.gated, n))
    && (raised <==> !AllGood(w, EndOfBatch(w, s, g, n, o), EndOfBatch(w, s, g, n, o) + n))
  }

  ghost predicate FellShort(w: Outside, s: Snapshot, t: Snapshot, g: Growth, raised: bool) {
    exists n: nat, o: Start :: FellShortAt(w, s, t, g, n, o, raised)
  }

  lemma BatchUp(w: Outside, s: Snapshot, m: Snapshot, g: Growth, n: nat)
    requires AsMade(w, s, m, g) && s.nextId + n <= m.nextId && Extends(s.rows, s.nextId, m.rows, m.nextId)
    requires forall id: nat | s.nextId <= id < s.nextId + n && id in m.rows :: m.rows[id].status == Running
    ensures forall i | 0 <= i < n :: Outcome(w, s.calls, g.gated, i) == Up
  {
    forall i | 0 <= i < n ensures Outcome(w, s.calls, g.gated, i) == Up {
      assert s.nextId + i in m.rows && m.rows[s.nextId + i].status == Running;
    }
  }

  lemma FullHasNoRoom(w: Outside, s: Snapshot, m: Snapshot, g: Growth, n: nat)
    requires Grown(w, s, m, g) && m.nextId == s.nextId + n && n < g.count
    requires forall id: nat | s.nextId <= id < s.nextId + n && id in m.rows :: m.rows[id].status == Running
    ensures !Room(s.rows, s.foreign, w, s.calls, g.server, g.lo, g.hi, g.count)
  {
    assert n > 0 ==> m.nextId - 1 == s.nextId + (n - 1);
  }

  lemma BatchFellShort(w: Outside, s: Snapshot, m: Snapshot, t: Snapshot, g: Growth, n: nat, o: Start, raised: bool)
    requires Batched(w, s, m, g, n, o) && o != Up && t.nextId == m.nextId
    requires raised <==> !AllGood(w, m.calls, m.calls + n)
    ensures FellShort(w, s, t, g, raised)
  {
    BatchUp(w, s, m, g, n);
    if o == NoPort {
      FullHasNoRoom(w, s, m, g, n);
    }
    assert FellShortAt(w, s, t, g, n, o, raised);
  }

  lemma BatchStatuses(w: Outside, s: Snapshot, m: Snapshot, t: Snapshot, g: Growth, n: nat, o: Start)
    requires AllUp(s, m) && m.nextId == s.nextId + n && Next(w, m, t, g, o)
    ensures forall id: nat | s.nextId <= id < s.nextId + n && id in t.rows :: t.rows[id].status == Running
    ensures t.nextId - 1 in t.rows && t.rows[t.nextId - 1].status == StatusOf(o)
  {
    assert t.nextId - 1 == m.nextId;
  }

  lemma BatchCalls(w: Outside, s: Snapshot, m: Snapshot, t: Snapshot, g: Growth, n: nat, o: Start)
    requires m.calls == CallAt(w, s.calls, g.gated, n) && Next(w, m, t, g, o) && o in {Broken, Sick}
    ensures o == Outcome(w, s.calls, g.gated, n) && t.calls == EndOfBatch(w, s, g, n, o)
  {
  }

  lemma BatchIsFull(w: Outside, s: Snapshot, m: Snapshot, g: Growth, n: nat)
    requires Grown(w, s, m, g) && AllUp(s, m) && m.nextId == s.nextId + n && n < g.count
    requires m.calls == CallAt(w, s.calls, g.gated, n)
    ensures Batched(w, s, m, g, n, NoPort)
  {
  }

  lemma BatchIsDown(w: Outside, s: Snapshot, m: Snapshot, t: Snapshot, g: Growth, n: nat, o: Start)
    requires Added(w, s, t, g) && AllUp(s, m) && m.nextId == s.nextId + n && n < g.count
    requires m.calls == CallAt(w, s.calls, g.gated, n) && Next(w, m, t, g, o) && o in {Broken, Sick}
    ensures Batched(w, s, t, g, n, o)
  {
    BatchStatuses(w, s, m, t, g, n, o);
    BatchCalls(w, s, m, t, g, n, o);
  }

  lemma BatchEnds(w: Outside, s: Snapshot, m: Snapshot, t: Snapshot, g: Growth, n: nat, o: Start)
    requires m.calls == CallAt(w, s.calls, g.gated, n) && AllUp(s, m) && m.nextId == s.nextId + n && n < g.count
    requires Stepped(w, s, m, t, g, o) && (o != NoPort ==> Next(w, m, t, g, o)) && o != Up
    ensures Batched(w, s, t, g, n, o)
  {
    if o == NoPort {
      BatchIsFull(w, s, m, g, n);
    } else {
      BatchIsDown(w, s, m, t, g, n, o);
    }
  }

  lemma ShortBatch(w: Outside, s: Snapshot, t: Snapshot, g: Growth, n: nat, o: Start)
    requires Batched(w, s, t, g, n, o) && o != Up
    ensures !Hopeful(w, s, g)
  {
    if o != NoPort {
      assert t.rows[t.nextId - 1].status != Running;
    }
    ShortIsHopeless(w, s, t, g);
  }

  /** Starts instances up to the first that is not in service, `o` being how
      that one ended. */
  method StartBatch(f: Fleet, g: Growth) returns (ids: seq<nat>, o: Start)
    requires f.Valid()
    modifies f`rows, f`nextId, f`foreign, f`now, f`history, f`calls
    ensures f.Valid() && Consecutive(ids, old(f.nextId)) && Batched(f.world, old(f.Snap()), f.Snap(), g, |ids|, o)
  {
    ghost var s := f.Snap();
    ids, o := [], Up;
    while |ids| < g.count
      invariant f.Valid() && o == Up && |ids| <= g.count && Consecutive(ids, s.nextId)
      invariant f.nextId == s.nextId + |ids| && Growing(f.world, s, f.Snap(), g) && AllUp(s, f.Snap())
    {
      var id := f.nextId;
      ghost var m := f.Snap();
      o := GrowStep(f, g, s);
      if o != Up {
        BatchEnds(f.world, s, m, f.Snap(), g, |ids|, o);
        return;
      }
      ids := ids + [id];
    }
  }

  /** `_start_and_health_gate`: every instance in service, or none kept.  All
      calls answered well and room in the range are enough. */
  method StartAndGate(f: Fleet, g: Growth) returns (started: Option<seq<nat>>, raised: bool)
    requires f.Valid()
    modifies f`rows, f`nextId, f`foreign, f`now, f`history, f`calls
    ensures f.Valid() && Extends(old(f.rows), old(f.nextId), f.rows, f.nextId)
    ensures OfRelease(f.rows, old(f.nextId), f.nextId, g.release)
    ensures started.Some? ==>
              && !raised && f.nextId == old(f.nextId) + g.count
              && |started.value| == g.count && Consecutive(started.value, old(f.nextId))
              && f.calls == old(f.calls) + Steps(g.count, g.gated) && AllGood(f.world, old(f.calls), f.calls)
              && forall id | old(f.nextId) <= id < f.nextId ::
                   InService(f.rows[id], g.release, g.server, g.lo, g.hi)
    ensures started.None? ==>
              && CleanedUp(f.rows, old(f.nextId), f.nextId, raised)
              && FellShort(f.world, old(f.Snap()), f.Snap(), g, raised)
    ensures Hopeful(f.world, old(f.Snap()), g) ==> started.Some?
  {
    forall id | id in f.rows ensures id < f.nextId {
      IdBelowNext(f.cfg.limits, f.history, id);
    }
    var ids, o := StartBatch(f, g);
    if o == Up {
      AllInService(f.world, old(f.Snap()), f.Snap(), g);
      return Some(ids), false;
    }
    ShortBatch(f.world, old(f.Snap()), f.Snap(), g, |ids|, o);
    ghost var m := f.Snap();
    raised := GiveBack(f, ids, o, g, old(f.Snap()));
    BatchFellShort(f.world, old(f.Snap()), m, f.Snap(), g, |ids|, o, raised);
    return None, raised;
  }

  /** A batch that fell short: the sick row FAILED, the others stopped. */
  method GiveBack(f: Fleet, ids: seq<nat>, o: Start, ghost g: Growth, ghost s: Snapshot) returns (raised: bool)
    requires f.Valid() && o != Up && Consecutive(ids, s.nextId) && (forall id | id in s.rows :: id < s.nextId)
    requires Extends(s.rows, s.nextId, f.rows, f.nextId) && OfRelease(f.rows, s.nextId, f.nextId, g.release)
    requires f.nextId == s.nextId + |ids| + if o in {Broken, Sick} then 1 else 0
    requires forall id | s.nextId <= id < f.nextId ::
               f.rows[id].status == if id < s.nextId + |ids| then Running else StatusOf(o)
    modifies f`rows, f`foreign, f`now, f`history, f`calls
    ensures f.Valid() && Extends(s.rows, s.nextId, f.rows, f.nextId)
    ensures OfRelease(f.rows, s.nextId, f.nextId, g.release) && CleanedUp(f.rows, s.nextId, f.nextId, raised)
    ensures raised <==> !AllGood(f.world, old(f.calls), old(f.calls) + |ids|)
  {
    if o == Sick {
      var ok := f.Move(f.nextId - 1, Failed);
    }
    raised := Abort(f, ids, s.nextId, s.rows);
  }

  // ---- Draining ---------------------------------------------------------

  predicate ServesFor(row: Instance, release: nat) {
    row.release == Some(release) && row.status == Running
  }

  predicate CanDrain(row: Instance) {
    CanMoveInstance(row.status, Draining)
  }

  /** How many of `ids`, from index i on, come before one that may not drain. */
  function DrainRun(rows: Rows, ids: seq<nat>, i: nat): (n: nat)
    requires i <= |ids| && forall id | id in ids :: id in rows
    ensures i <= n <= |ids|
    decreases |ids| - i
  {
    if i == |ids| || !CanDrain(rows[ids[i]]) then i else DrainRun(rows, ids, i + 1)
  }

  lemma {:induction false} DrainRunIs(rows: Rows, ids: seq<nat>, i: nat)
    requires i <= |ids| && forall id | id in ids :: id in rows
    ensures DrainRun(rows, ids, i) == |ids| <==> forall k | i <= k < |ids| :: CanDrain(rows[ids[k]])
    ensures forall k | i <= k < DrainRun(rows, ids, i) :: CanDrain(rows[ids[k]])
    decreases |ids| - i
  {
    if i == |ids| {
    } else {
      DrainRunIs(rows, ids, i + 1);
    }
  }

  /** Marks rows DRAINING, up to the first that may not drain. */
  method MarkDraining(f: Fleet, ids: seq<nat>) returns (raised: bool, marked: nat)
    requires f.Valid() && NoRepeats(ids)
    requires forall id | id in ids :: id in f.rows
    modifies f`rows, f`history
    ensures f.Valid() && marked == DrainRun(old(f.rows), ids, 0) && (raised <==> marked < |ids|)
    ensures f.rows == AssignAll(old(f.rows), ids, marked, Draining)
  {
    marked := 0;
    while marked < |ids|
      invariant f.Valid() && marked <= |ids| && f.rows == AssignAll(old(f.rows), ids, marked, Draining)
      invariant DrainRun(old(f.rows), ids, 0) == DrainRun(old(f.rows), ids, marked)
    {
      AssignAllNext(old(f.rows), ids, marked, Draining);
      var ok := f.Move(ids[marked], Draining);
      if !ok {
        return true, marked;
      }
      marked := marked + 1;
    }
    return false, marked;
  }

  /** The row after its drain: stopped or, if that failed, FAILED. */
  predicate Retired(before: Instance, after: Instance) {
    Terminal(after.status) && after == before.(status := after.status)
  }

  method StopOne(f: Fleet, id: nat) returns (stopOk: bool)
    requires f.Valid() && id in f.rows && f.rows[id].status == Draining
    modifies f`rows, f`foreign, f`now, f`history, f`calls
    ensures f.Valid() && f.calls == old(f.calls) + 1 && stopOk == Good(f.world, old(f.calls))
    ensures f.rows == old(f.rows)[id := old(f.rows)[id].(status := if stopOk then Stopped else Failed)]
  {
    stopOk := f.Call();
    var ok := f.Move(id, if stopOk then Stopped else Failed);
    assert ok;
  }

  lemma HaltedRetires(w: Outside, k: nat, rows: Rows, ids: seq<nat>)
    requires NoRepeats(ids) && forall id | id in ids :: id in rows
    ensures forall id | id in ids :: Retired(rows[id], Halted(w, k, rows, ids, |ids|)[id])
    ensures forall id | id in rows && id !in ids :: Halted(w, k, rows, ids, |ids|)[id] == rows[id]
  {
    HaltedIs(w, k, rows, ids, |ids|);
    forall id | id in ids ensures Retired(rows[id], Halted(w, k, rows, ids, |ids|)[id]) {
      var i :| 0 <= i < |ids| && ids[i] == id;
    }
  }

  lemma StoppedWhenGood(w: Outside, k: nat, rows: Rows, ids: seq<nat>)
    requires NoRepeats(ids) && forall id | id in ids :: id in rows
    ensures AllGood(w, k, k + |ids|) <==>
            forall id | id in ids :: Halted(w, k, rows, ids, |ids|)[id].status == Stopped
  {
    HaltedIs(w, k, rows, ids, |ids|);
    if AllGood(w, k, k + |ids|) {
    } else {
      var j: nat :| k <= j < k + |ids| && !Good(w, j);
      assert Halted(w, k, rows, ids, |ids|)[ids[j - k]].status == Failed;
    }
  }

  lemma AllDraining(rows: Rows, ids: seq<nat>)
    requires NoRepeats(ids) && forall id | id in ids :: id in rows
    ensures forall id | id in ids ::
              AssignAll(rows, ids, |ids|, Draining)[id] == rows[id].(status := Draining)
    ensures forall id | id in rows && id !in ids :: AssignAll(rows, ids, |ids|, Draining)[id] == rows[id]
  {
    AssignAllIs(rows, ids, |ids|, Draining);
  }

  method StopDrained(f: Fleet, ids: seq<nat>) returns (allOk: bool)
    requires f.Valid() && NoRepeats(ids)
    requires forall id | id in ids :: id in f.rows && f.rows[id].status == Draining
    modifies f`rows, f`foreign, f`now, f`history, f`calls
    ensures f.Valid() && f.calls == old(f.calls) + |ids|
    ensures f.rows == Halted(f.world, old(f.calls), old(f.rows), ids, |ids|)
    ensures allOk <==> AllGood(f.world, old(f.calls), f.calls)
  {
    allOk := true;
    for i := 0 to |ids|
      invariant f.Valid() && f.calls == old(f.calls) + i
      invariant f.rows == Halted(f.world, old(f.calls), old(f.rows), ids, i)
      invariant allOk <==> AllGood(f.world, old(f.calls), f.calls)
    {
      HaltedNext(f.world, old(f.calls), old(f.rows), ids, i);
      var stopOk := StopOne(f, ids[i]);
      allOk := allOk && stopOk;
    }
  }

  method MarkDrainable(f: Fleet, ids: seq<nat>)
    requires f.Valid() && NoRepeats(ids)
    requires forall id | id in ids :: id in f.rows && CanDrain(f.rows[id])
    modifies f`rows, f`history
    ensures f.Valid() && f.rows.Keys == old(f.rows).Keys
    ensures forall id | id in ids :: f.rows[id] == old(f.rows)[id].(status := Draining)
    ensures forall id | id in f.rows && id !in ids :: f.rows[id] == old(f.rows)[id]
  {
    DrainRunIs(f.rows, ids, 0);
    var raised, marked := MarkDraining(f, ids);
    AllDraining(old(f.rows), ids);
  }

  method WaitAndStop(f: Fleet, ids: seq<nat>) returns (allOk: bool)
    requires f.Valid() && NoRepeats(ids)
    requires forall id | id in ids :: id in f.rows && f.rows[id].status == Draining
    modifies f`rows, f`foreign, f`now, f`history, f`calls
    ensures f.Valid() && f.rows.Keys == old(f.rows).Keys
    ensures forall id | id in ids :: Retired(old(f.rows)[id], f.rows[id])
    ensures forall id | id in f.rows && id !in ids :: f.rows[id] == old(f.rows)[id]
    ensures allOk <==> AllGood(f.world, old(f.calls) + 1, old(f.calls) + 1 + |ids|)
    ensures allOk <==> forall id | id in ids :: f.rows[id].status == Stopped
  {
    f.Await();
    allOk := StopDrained(f, ids);
    HaltedRetires(f.world, old(f.calls) + 1, old(f.rows), ids);
    StoppedWhenGood(f.world, old(f.calls) + 1, old(f.rows), ids);
  }

  /** `_drain_old_release`: only rows that are RUNNING when the drain begins. */
  method DrainOldRelease(f: Fleet, oldRelease: nat)
    requires f.Valid()
    modifies f`rows, f`foreign, f`now, f`history, f`calls
    ensures f.Valid() && f.rows.Keys == old(f.rows).Keys
    ensures forall id | id in f.rows ::
              if ServesFor(old(f.rows)[id], oldRelease) then Retired(old(f.rows)[id], f.rows[id])
              else f.rows[id] == old(f.rows)[id]
  {
    var ids := f.Select(row => ServesFor(row, oldRelease));
    if ids != [] {
      MarkDrainable(f, ids);
      var allOk := WaitAndStop(f, ids);
    }
  }

  // ---- The whole switch -------------------------------------------------

  /** A completed switch: `count` new rows in service, every old-release row that
      was RUNNING retired, and no other row touched. */
  ghost predicate SwitchedOver(
    rows: Rows, next: nat, rows': Rows, next': nat, oldRelease: nat,
    release: nat, count: nat, server: nat, lo: int, hi: int)
  {
    && next' == next + count
    && (forall id | id in rows :: id in rows'
          && if ServesFor(rows[id], oldRelease) then Retired(rows[id], rows'[id])
             else rows'[id] == rows[id])
    && (forall id: nat | next <= id < next' :: id in rows' && InService(rows'[id], release, server, lo, hi))
    && (forall id | id in rows' && id !in rows :: next <= id < next')
  }

  /** A request to switch to `release`: a new one, or a rollback target that the
      setup has checked. */
  datatype Request = Request(release: nat, count: nat, rebuild: bool, gated: bool, agentFound: bool)

  predicate Ready(cfg: Settings, agentFound: bool) {
    cfg.server.Some? && cfg.portStart.Some? && cfg.portEnd.Some? && agentFound
  }

  /** The number of the call that tells the gateway, if it comes to that. */
  function CutoverCall(s: Snapshot, q: Request): nat {
    s.calls + (if q.rebuild then 1 else 0) + Steps(q.count, q.gated)
  }

  /** What the reload installs: the new rows, and any of that release already up. */
  function NewRouting(cfg: Settings, s: Snapshot, q: Request): set<nat> {
    if cfg.certified then Payload(s.rows, Some(q.release)) + Span(s.nextId, s.nextId + q.count) else {}
  }

  function GrowthOf(cfg: Settings, q: Request): Growth
    requires Ready(cfg, q.agentFound)
  {
    Growth(q.release, q.count, cfg.server.value, cfg.portStart.value, cfg.portEnd.value, q.gated)
  }

  /** Nothing gets in the way of starting the new rows. */
  ghost predicate Startable(cfg: Settings, w: Outside, s: Snapshot, q: Request) {
    && Ready(cfg, q.agentFound) && AllGood(w, s.calls, CutoverCall(s, q))
    && Room(s.rows, s.foreign, w, s.calls, cfg.server.value, cfg.portStart.value, cfg.portEnd.value, q.count)
  }

  ghost predicate Completed(cfg: Settings, w: Outside, s: Snapshot, t: Snapshot, q: Request)
    requires s.active.Some?
  {
    && Ready(cfg, q.agentFound) && t.active == Some(q.release)
    && AllGood(w, s.calls, CutoverCall(s, q)) && (cfg.hasDomain ==> Good(w, CutoverCall(s, q)))
    && SwitchedOver(s.rows, s.nextId, t.rows, t.nextId, s.active.value, q.release, q.count,
                    cfg.server.value, cfg.portStart.value, cfg.portEnd.value)
  }

  ghost predicate Reverted(s: Snapshot, t: Snapshot, q: Request, raised: bool) {
    && t.active == s.active && Extends(s.rows, s.nextId, t.rows, t.nextId)
    && CleanedUp(t.rows, s.nextId, t.nextId, raised)
    && OfRelease(t.rows, s.nextId, t.nextId, q.release)
  }

  /** The gateway was not told, or it was told once, when everything before that
      had gone well, and its answer decided the switch. */
  ghost predicate Rerouted(cfg: Settings, w: Outside, s: Snapshot, t: Snapshot, q: Request, done: bool) {
    var at := CutoverCall(s, q);
    || (t.reloads == s.reloads && t.installed == s.installed && (done ==> !cfg.hasDomain))
    || (&& cfg.hasDomain && t.reloads == s.reloads + [Notice(Cutover, at)]
        && AllGood(w, s.calls, at) && (done <==> Good(w, at)) && t.nextId == s.nextId + q.count
        && t.installed == if Heard(w, at) then NewRouting(cfg, s, q) else s.installed)
  }

  /** The rows when the build, if any, is done. */
  function Built(w: Outside, s: Snapshot, q: Request): Snapshot {
    if q.rebuild then s.(calls := s.calls + 1, foreign := Unclaimed(s.rows, At(w, s.calls).others)) else s
  }

  /** When taking everything back raised: exactly if a stop was not answered well. */
  ghost predicate Undone(cfg: Settings, w: Outside, s: Snapshot, t: Snapshot, q: Request, raised: bool) {
    var at := CutoverCall(s, q);
    if t.reloads != s.reloads then raised <==> !AllGood(w, at + 1, at + 1 + q.count)
    else if !Ready(cfg, q.agentFound) || (q.rebuild && !Good(w, s.calls)) then !raised && t.nextId == s.nextId
    else FellShort(w, Built(w, s, q), t, GrowthOf(cfg, q), raised)
  }

  /** All or nothing.  Unless the switch succeeds, the active release and every
      row it did not create are as before, and none of its own rows is left live
      unless a stop raised; then the deployment stays IN_PROGRESS.  With all its
      rows started, it is the gateway that decides. */
  ghost predicate Switched(cfg: Settings, w: Outside, s: Snapshot, t: Snapshot, q: Request, status: DeploymentStatus)
    requires s.active.Some?
  {
    && status in {DSucceeded, DFailed, DInProgress}
    && (status == DSucceeded ==> Completed(cfg, w, s, t, q))
    && (status != DSucceeded ==>
          && Reverted(s, t, q, status == DInProgress) && Undone(cfg, w, s, t, q, status == DInProgress))
    && Rerouted(cfg, w, s, t, q, status == DSucceeded)
    && (Startable(cfg, w, s, q) ==>
          if cfg.hasDomain then t.reloads != s.reloads else status == DSucceeded)
  }

  lemma PayloadGrows(rows: Rows, next: nat, rows': Rows, next': nat, release: nat)
    requires Extends(rows, next, rows', next') && forall id | id in rows :: id < next
    requires forall id | next <= id < next' :: Routed(rows'[id], Some(release))
    ensures Payload(rows', Some(release)) == Payload(rows, Some(release)) + Span(next, next')
  {
  }

  /** Draining the old release, once the new one is in service. */
  method Complete(f: Fleet, oldRelease: nat, release: nat, count: nat, server: nat, lo: int, hi: int,
                  ghost first: nat, ghost rows0: Rows)
    requires f.Valid() && oldRelease != release
    requires Extends(rows0, first, f.rows, f.nextId) && (forall id | id in rows0 :: id < first)
    requires f.nextId == first + count
    requires forall id | first <= id < f.nextId :: InService(f.rows[id], release, server, lo, hi)
    modifies f`rows, f`foreign, f`now, f`history, f`calls
    ensures f.Valid()
    ensures SwitchedOver(rows0, first, f.rows, f.nextId, oldRelease, release, count, server, lo, hi)
  {
    DrainOldRelease(f, oldRelease);
  }

  /** Where the switch stands once the new rows are in service. */
  ghost predicate Staged(cfg: Settings, w: Outside, s: Snapshot, t: Snapshot, q: Request) {
    && Ready(cfg, q.agentFound) && s.active.Some? && s.active != Some(q.release) && q.count >= 1
    && t.active == s.active && t.installed == s.installed && t.reloads == s.reloads
    && t.calls == CutoverCall(s, q) && AllGood(w, s.calls, t.calls)
    && t.nextId == s.nextId + q.count && Extends(s.rows, s.nextId, t.rows, t.nextId)
    && (forall id | id in s.rows :: id < s.nextId)
    && (forall id | s.nextId <= id < t.nextId ::
          InService(t.rows[id], q.release, cfg.server.value, cfg.portStart.value, cfg.portEnd.value))
  }

  method TakeBack(f: Fleet, q: Request, started: seq<nat>, oldRelease: Option<nat>, ghost s: Snapshot)
    returns (raised: bool)
    requires f.Valid() && |started| == q.count && Consecutive(started, s.nextId) && oldRelease == s.active
    requires Extends(s.rows, s.nextId, f.rows, f.nextId) && f.nextId == s.nextId + q.count
    requires forall id | id in s.rows :: id < s.nextId
    requires forall id | s.nextId <= id < f.nextId ::
               f.rows[id].status == Running && f.rows[id].release == Some(q.release)
    modifies f`rows, f`foreign, f`now, f`history, f`active, f`calls
    ensures f.Valid() && Reverted(s, f.Snap(), q, raised)
    ensures raised <==> !AllGood(f.world, old(f.calls), old(f.calls) + q.count)
  {
    f.active := oldRelease;
    raised := Abort(f, started, s.nextId, s.rows);
  }

  /** Moves the active release and tells the gateway, if there is a domain. */
  method TellGateway(f: Fleet, release: nat) returns (ok: bool)
    requires f.Valid()
    modifies f`foreign, f`now, f`history, f`active, f`installed, f`calls, f`reloads
    ensures f.Valid() && f.active == Some(release)
    ensures f.calls == old(f.calls) + if f.cfg.hasDomain then 1 else 0
    ensures ok <==> !f.cfg.hasDomain || Good(f.world, old(f.calls))
    ensures f.reloads == if f.cfg.hasDomain then old(f.reloads) + [Notice(Cutover, old(f.calls))] else old(f.reloads)
    ensures f.installed == if !f.cfg.hasDomain || !Heard(f.world, old(f.calls)) then old(f.installed)
                           else Routing(f.cfg, f.rows, Some(release))
  {
    f.active := Some(release);
    ok := true;
    if f.cfg.hasDomain {
      ok := f.SyncGateway(Cutover);
    }
  }

  lemma StagedPayload(cfg: Settings, w: Outside, s: Snapshot, m: Snapshot, q: Request)
    requires Staged(cfg, w, s, m, q)
    ensures Routing(cfg, m.rows, Some(q.release)) == NewRouting(cfg, s, q)
  {
    PayloadGrows(s.rows, s.nextId, m.rows, m.nextId, q.release);
  }

  lemma StagedRouting(cfg: Settings, w: Outside, s: Snapshot, m: Snapshot, t: Snapshot, q: Request, done: bool)
    requires Staged(cfg, w, s, m, q) && (done <==> !cfg.hasDomain || Good(w, m.calls)) && t.nextId == m.nextId
    requires t.reloads == if cfg.hasDomain then s.reloads + [Notice(Cutover, m.calls)] else s.reloads
    requires t.installed == if !cfg.hasDomain || !Heard(w, m.calls) then s.installed
                            else Routing(cfg, m.rows, Some(q.release))
    ensures Rerouted(cfg, w, s, t, q, done)
  {
    StagedPayload(cfg, w, s, m, q);
    if cfg.hasDomain {
      assert t.reloads == s.reloads + [Notice(Cutover, CutoverCall(s, q))];
    }
  }

  /** What became of a staged switch is a switch. */
  lemma Assembled(cfg: Settings, w: Outside, s: Snapshot, m: Snapshot, t: Snapshot, q: Request,
                  status: DeploymentStatus)
    requires Staged(cfg, w, s, m, q) && status in {DSucceeded, DFailed, DInProgress}
    requires Rerouted(cfg, w, s, t, q, status == DSucceeded)
    requires status == DSucceeded ==> !cfg.hasDomain || Good(w, m.calls)
    requires status != DSucceeded || cfg.hasDomain ==> t.reloads != s.reloads
    requires status == DSucceeded ==>
               && t.active == Some(q.release)
               && SwitchedOver(s.rows, s.nextId, t.rows, t.nextId, s.active.value, q.release, q.count,
                               cfg.server.value, cfg.portStart.value, cfg.portEnd.value)
    requires status != DSucceeded ==> Reverted(s, t, q, status == DInProgress)
    requires status != DSucceeded ==> (status == DInProgress <==> !AllGood(w, m.calls + 1, m.calls + 1 + q.count))
    ensures Switched(cfg, w, s, t, q, status)
  {
  }

  /** The second half: move the active release, tell the gateway, then drain, or
      take everything back. */
  method CutOver(f: Fleet, q: Request, started: seq<nat>, ghost s: Snapshot) returns (status: DeploymentStatus)
    requires f.Valid() && Staged(f.cfg, f.world, s, f.Snap(), q)
    requires |started| == q.count && Consecutive(started, s.nextId)
    modifies f`rows, f`foreign, f`now, f`history, f`active, f`installed, f`calls, f`reloads
    ensures f.Valid() && Switched(f.cfg, f.world, s, f.Snap(), q, status)
  {
    var oldRelease := f.active;
    var ok := TellGateway(f, q.release);
    if !ok {
      var raised := TakeBack(f, q, started, oldRelease, s);
      status := if raised then DInProgress else DFailed;
    } else {
      Complete(f, oldRelease.value, q.release, q.count, f.cfg.server.value, f.cfg.portStart.value,
               f.cfg.portEnd.value, s.nextId, s.rows);
      status := DSucceeded;
    }
    StagedRouting(f.cfg, f.world, s, old(f.Snap()), f.Snap(), q, status == DSucceeded);
    Assembled(f.cfg, f.world, s, old(f.Snap()), f.Snap(), q, status);
  }

  /** Startable before the build is hopeful after it. */
  lemma StartableAfterBuild(cfg: Settings, w: Outside, s: Snapshot, q: Request)
    requires Startable(cfg, w, s, q)
    ensures Hopeful(w, Built(w, s, q), GrowthOf(cfg, q))
  {
    if q.rebuild {
      RoomLater(s.rows, s.foreign, w, s.calls, Built(w, s, q).foreign, s.calls, cfg.server.value,
                cfg.portStart.value, cfg.portEnd.value, q.count);
    }
  }

  lemma FellShortFrame(w: Outside, s: Snapshot, s': Snapshot, t: Snapshot, g: Growth, raised: bool)
    requires FellShort(w, s, t, g, raised)
    requires s'.rows == s.rows && s'.nextId == s.nextId && s'.foreign == s.foreign && s'.calls == s.calls
    ensures FellShort(w, s', t, g, raised)
  {
    var n: nat, o: Start :| FellShortAt(w, s, t, g, n, o, raised);
    assert FellShortAt(w, s', t, g, n, o, raised);
  }

  /** `run_release_switch`, for a release other than the active one. */
  method RunReleaseSwitch(f: Fleet, q: Request) returns (status: DeploymentStatus)
    requires f.Valid() && q.count >= 1 && f.active.Some? && f.active != Some(q.release)
    modifies f`rows, f`nextId, f`foreign, f`now, f`history, f`active, f`installed, f`calls, f`reloads
    ensures f.Valid() && Switched(f.cfg, f.world, old(f.Snap()), f.Snap(), q, status)
  {
    ghost var s := f.Snap();
    forall id | id in f.rows ensures id < f.nextId {
      IdBelowNext(f.cfg.limits, f.history, id);
    }
    if f.cfg.server.None? || f.cfg.portStart.None? || f.cfg.portEnd.None? || !q.agentFound {
      return DFailed;
    }
    if q.rebuild {
      var built := f.Call();
      if !built {
        return DFailed;
      }
    }
    ghost var m := f.Snap();
    var started, raised := StartAndGate(f, GrowthOf(f.cfg, q));
    if started.None? {
      if Startable(f.cfg, f.world, s, q) {
        StartableAfterBuild(f.cfg, f.world, s, q);
      }
      FellShortFrame(f.world, m, Built(f.world, s, q), f.Snap(), GrowthOf(f.cfg, q), raised);
      return if raised then DInProgress else DFailed;
    }
    status := CutOver(f, q, started.value, s);
  }

  /** Of an application that routes only its active release, a switch keeps that
      so, whatever else happens - except that a certified gateway whose reload
      was applied and its reply lost is left on the release that was taken back. */
  lemma SwitchAgreement(cfg: Settings, w: Outside, s: Snapshot, t: Snapshot, q: Request, status: DeploymentStatus)
    requires s.active.Some? && s.active != Some(q.release) && q.count >= 1 && cfg.hasDomain
    requires Switched(cfg, w, s, t, q, status) && Agrees(s.rows, s.active, s.installed)
    ensures Agrees(t.rows, t.active, t.installed) <==>
            !(cfg.certified && t.reloads != s.reloads && Heard(w, CutoverCall(s, q)) && !Good(w, CutoverCall(s, q)))
  {
    if status == DSucceeded {
      CompletedAgrees(cfg, w, s, t, q);
    } else if cfg.certified && t.reloads != s.reloads && Heard(w, CutoverCall(s, q)) {
      assert s.nextId in t.installed && t.rows[s.nextId].release == Some(q.release);
    } else {
      assert t.installed == s.installed || t.installed == {};
    }
  }

  lemma CompletedAgrees(cfg: Settings, w: Outside, s: Snapshot, t: Snapshot, q: Request)
    requires s.active.Some? && cfg.hasDomain
    requires Completed(cfg, w, s, t, q) && Rerouted(cfg, w, s, t, q, true)
    ensures Agrees(t.rows, t.active, t.installed)
  {
  }
}
