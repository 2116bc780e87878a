/** The per-application operation lock: one conditional UPDATE to acquire, a
    fencing token (the acquisition time) to release, and takeover of a lock
    older than twenty minutes.  Times are microseconds. */
module OperationLock {
  import opened Common

  const STALE_AFTER: int := 20 * 60 * 1_000_000

  /** `operation_lock` and `operation_lock_acquired_at` of one row. */
  datatype LockRow = LockRow(operation: Option<string>, acquiredAt: Option<int>)

  const FREE := LockRow(None, None)

  /** The WHERE clause of the acquiring UPDATE; a NULL time compares as not older. */
  predicate Acquirable(row: LockRow, now: int) {
    row.operation.None? || (row.acquiredAt.Some? && row.acquiredAt.value < now - STALE_AFTER)
  }

  function Acquired(operation: string, now: int): LockRow {
    LockRow(Some(operation), Some(now))
  }

  function Released(row: LockRow, token: int): LockRow {
    if row.acquiredAt == Some(token) then FREE else row
  }

  class ApplicationLock {
    var operation: Option<string>
    var acquiredAt: Option<int>

    function Row(): LockRow
      reads this
    {
      LockRow(operation, acquiredAt)
    }

    constructor ()
      ensures Row() == FREE
    {
      operation := None;
      acquiredAt := None;
    }

    /** None stands for OperationLockHeldError. */
    method Acquire(op: string, now: int) returns (token: Option<int>)
      modifies this
      ensures token.Some? <==> Acquirable(old(Row()), now)
      ensures token.Some? ==> token.value == now && Row() == Acquired(op, now)
      ensures token.None? ==> Row() == old(Row())
    {
      if operation.None? || (acquiredAt.Some? && acquiredAt.value < now - STALE_AFTER) {
        operation, acquiredAt := Some(op), Some(now);
        token := Some(now);
      } else {
        token := None;
      }
    }

    method Release(token: int)
      modifies this
      ensures Row() == Released(old(Row()), token)
    {
      if acquiredAt == Some(token) {
        operation, acquiredAt := None, None;
      }
    }

    method ForceRelease()
      modifies this
      ensures Row() == FREE
    {
      operation, acquiredAt := None, None;
    }
  }

  /** Every interleaving: operations (identified by number) that hold a token
      they have not yet handed back, the row, and a clock that never runs
      backwards.  A crashed operation is one that never takes its Release step. */
  datatype World = World(row: LockRow, clock: int, holders: map<nat, int>, next: nat)

  datatype Event =
    | Wait(now: int)
    | Take(operation: string)
    | Give(holder: nat)
    | Restart  // control-plane restart: every operation is gone, the lock is forced free

  predicate Enabled(w: World, e: Event) {
    match e
    case Wait(now) => w.clock <= now
    case Take(_) => true
    case Give(h) => h in w.holders
    case Restart => true
  }

  function Step(w: World, e: Event): World
    requires Enabled(w, e)
  {
    match e
    case Wait(now) => w.(clock := now)
    case Take(op) =>
      if Acquirable(w.row, w.clock) then
        World(Acquired(op, w.clock), w.clock, w.holders[w.next := w.clock], w.next + 1)
      else w
    case Give(h) => w.(row := Released(w.row, w.holders[h]), holders := w.holders - {h})
    case Restart => w.(row := FREE, holders := map[])
  }

  const START := World(FREE, 0, map[], 0)

  ghost predicate IsRun(events: seq<Event>, worlds: seq<World>) {
    && |worlds| == |events| + 1
    && worlds[0] == START
    && forall i | 0 <= i < |events| ::
         Enabled(worlds[i], events[i]) && worlds[i + 1] == Step(worlds[i], events[i])
  }

  /** The holder whose token is in the row. */
  predicate Current(w: World, h: nat) {
    h in w.holders && w.row.acquiredAt == Some(w.holders[h])
  }

  /** Two unreleased tokens differ by more than the stale limit, and every one
      that is not in the row is older than the limit.  A token in the row is one
      that its operation has yet to hand back. */
  ghost predicate Inv(w: World) {
    && (w.row.operation.None? <==> w.row.acquiredAt.None?)
    && (w.row.acquiredAt.Some? ==> exists h :: Current(w, h))
    && (w.row.acquiredAt.Some? ==> w.row.acquiredAt.value <= w.clock)
    && (forall h | h in w.holders :: h < w.next)
    && (forall h | h in w.holders && !Current(w, h) :: w.holders[h] < w.clock - STALE_AFTER)
    && (forall h | h in w.holders && !Current(w, h) && w.row.acquiredAt.Some? ::
          w.holders[h] < w.row.acquiredAt.value - STALE_AFTER)
    && (forall h, k | h in w.holders && k in w.holders && h < k ::
          w.holders[h] < w.holders[k] - STALE_AFTER)
  }

  lemma TakeKeepsInv(w: World, e: Event)
    requires Inv(w) && e.Take? && Acquirable(w.row, w.clock)
    ensures Inv(Step(w, e))
  {
    forall h | h in w.holders ensures w.holders[h] < w.clock - STALE_AFTER {
      assert Current(w, h) || !Current(w, h);
    }
    assert Current(Step(w, e), w.next);
  }

  lemma GiveKeepsInv(w: World, e: Event)
    requires Inv(w) && Enabled(w, e) && e.Give?
    ensures Inv(Step(w, e))
  {
    var w' := Step(w, e);
    forall k | k in w'.holders
      ensures !Current(w', k) ==> w.holders[k] < w.clock - STALE_AFTER
      ensures Current(w', k) ==> Current(w, k)
    {
      assert Current(w, k) ==> w.holders[k] == w.row.acquiredAt.value;
    }
    if w'.row.acquiredAt.Some? {
      var k :| Current(w, k);
      assert Current(w', k);
    }
  }

  lemma WaitKeepsInv(w: World, e: Event)
    requires Inv(w) && Enabled(w, e) && e.Wait?
    ensures Inv(Step(w, e))
  {
    assert forall h :: Current(Step(w, e), h) <==> Current(w, h);
  }

  lemma StepKeepsInv(w: World, e: Event)
    requires Inv(w) && Enabled(w, e)
    ensures Inv(Step(w, e))
  {
    match e {
      case Take(_) =>
        if Acquirable(w.row, w.clock) {
          TakeKeepsInv(w, e);
        }
      case Give(_) => GiveKeepsInv(w, e);
      case Wait(_) => WaitKeepsInv(w, e);
      case Restart =>
    }
  }

  lemma {:induction false} RunKeepsInv(events: seq<Event>, worlds: seq<World>, n: nat)
    requires IsRun(events, worlds) && n < |worlds|
    ensures Inv(worlds[n])
  {
    if n == 0 {
    } else {
      RunKeepsInv(events, worlds, n - 1);
      StepKeepsInv(worlds[n - 1], events[n - 1]);
    }
  }

  /** Fencing: in every run, an operation handing back its token leaves a row
      that holds any other operation's token exactly as it was, and frees the
      lock when the token is its own. */
  lemma ReleaseNeverClearsAnotherLock(events: seq<Event>, worlds: seq<World>, n: nat)
    requires IsRun(events, worlds) && n < |events| && events[n].Give?
    ensures forall k | k != events[n].holder && Current(worlds[n], k) ::
              worlds[n + 1].row == worlds[n].row && Current(worlds[n + 1], k)
    ensures Current(worlds[n], events[n].holder) <==> worlds[n + 1].row != worlds[n].row
  {
    RunKeepsInv(events, worlds, n);
    assert worlds[n + 1] == Step(worlds[n], events[n]);
    var w, h := worlds[n], events[n].holder;
    forall k | k != h && Current(w, k) ensures w.holders[k] != w.holders[h] {
      assert h < k || k < h;
    }
  }

  /** Two operations that overlap: the earlier is past the stale limit, measured
      both from the clock and from the later one's start.  At most one operation
      younger than the limit runs at any time. */
  lemma OverlapOnlyWhenStale(events: seq<Event>, worlds: seq<World>, n: nat, h: nat, k: nat)
    requires IsRun(events, worlds) && n < |worlds|
    requires h in worlds[n].holders && k in worlds[n].holders && h < k
    ensures worlds[n].holders[h] < worlds[n].clock - STALE_AFTER
    ensures worlds[n].holders[h] < worlds[n].holders[k] - STALE_AFTER
  {
    RunKeepsInv(events, worlds, n);
    var w := worlds[n];
    assert Current(w, h) ==> !Current(w, k);
  }

  /** A lock in the row always refuses a second operation until it is stale. */
  lemma LiveLockRefuses(events: seq<Event>, worlds: seq<World>, n: nat, h: nat)
    requires IsRun(events, worlds) && n < |events| && events[n].Take?
    requires h in worlds[n].holders && worlds[n].clock - STALE_AFTER <= worlds[n].holders[h]
    ensures worlds[n + 1] == worlds[n]
  {
    RunKeepsInv(events, worlds, n);
    assert worlds[n + 1] == Step(worlds[n], events[n]);
    assert Current(worlds[n], h);
  }

  /** Exactly when an operation may start, in every run: once each operation that
      has not handed its token back is past the stale limit, and then it overlaps
      all of them. */
  lemma GrantedIffAllStale(events: seq<Event>, worlds: seq<World>, n: nat)
    requires IsRun(events, worlds) && n < |events| && events[n].Take?
    ensures var w, w' := worlds[n], worlds[n + 1];
            var stale := forall h | h in w.holders :: w.holders[h] < w.clock - STALE_AFTER;
            && (stale ==> w'.holders == w.holders[w.next := w.clock] && w.next !in w.holders && Current(w', w.next))
            && (!stale ==> w' == w)
  {
    RunKeepsInv(events, worlds, n);
    var w := worlds[n];
    assert worlds[n + 1] == Step(w, events[n]);
    if Acquirable(w.row, w.clock) {
      forall h | h in w.holders ensures w.holders[h] < w.clock - STALE_AFTER {
        assert Current(w, h) || !Current(w, h);
      }
    } else {
      var h :| Current(w, h);
    }
  }

  /** One microsecond past the limit, two operations do overlap. */
  lemma OverlapHappens()
    ensures exists events: seq<Event>, worlds: seq<World> :: IsRun(events, worlds) && |worlds[|events|].holders| == 2
  {
    var events := [Take("deploy"), Wait(STALE_AFTER + 1), Take("heal")];
    var w1 := Step(START, events[0]);
    var w2 := Step(w1, events[1]);
    var w3 := Step(w2, events[2]);
    var worlds := [START, w1, w2, w3];
    assert w3.holders == map[0 := 0, 1 := STALE_AFTER + 1];
    assert w3.holders.Keys == {0, 1};
    assert forall i | 0 <= i < |events| ::
        Enabled(worlds[i], events[i]) && worlds[i + 1] == Step(worlds[i], events[i]);
    assert IsRun(events, worlds);
  }
}
