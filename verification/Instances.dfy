/** Instance rows, the partial unique index on (server, port), and port choice. */
module Instances {
  import opened Common
  import opened StateMachines

  datatype Slot = Slot(server: nat, port: int)

  datatype Instance = Instance(
    release: Option<nat>, slot: Slot, status: InstanceStatus, createdAt: int,
    healingAttempts: nat, lastHealingAt: Option<int>)

  type Rows = map<nat, Instance>

  function NewRow(release: nat, slot: Slot, now: int): Instance {
    Instance(Some(release), slot, Pending, now, 0, None)
  }

  /** Row `id` occupies its port. */
  predicate Occupies(rows: Rows, id: nat) {
    id in rows && !Terminal(rows[id].status)
  }

  predicate Held(rows: Rows, foreign: set<Slot>, slot: Slot) {
    slot in foreign || exists id | id in rows :: Occupies(rows, id) && rows[id].slot == slot
  }

  /** The unique index: no two non-terminal rows, of this or any other
      application, share a server and port. */
  ghost predicate SlotsDistinct(rows: Rows, foreign: set<Slot>) {
    && (forall i, j | Occupies(rows, i) && Occupies(rows, j) && rows[i].slot == rows[j].slot :: i == j)
    && (forall i | Occupies(rows, i) :: rows[i].slot !in foreign)
  }

  lemma InsertKeepsSlots(rows: Rows, foreign: set<Slot>, id: nat, row: Instance)
    requires SlotsDistinct(rows, foreign) && id !in rows && !Held(rows, foreign, row.slot)
    ensures SlotsDistinct(rows[id := row], foreign)
  {
    var rows' := rows[id := row];
    forall i | Occupies(rows, i) ensures rows[i].slot != row.slot {
    }
    assert forall i | i != id :: Occupies(rows', i) <==> Occupies(rows, i);
  }

  /** A status change that does not revive a terminal row cannot collide. */
  lemma MoveKeepsSlots(rows: Rows, foreign: set<Slot>, id: nat, row: Instance)
    requires SlotsDistinct(rows, foreign) && id in rows && row.slot == rows[id].slot
    requires Terminal(rows[id].status) ==> Terminal(row.status)
    ensures SlotsDistinct(rows[id := row], foreign)
  {
    var rows' := rows[id := row];
    assert forall i | Occupies(rows', i) :: Occupies(rows, i) && rows'[i].slot == rows[i].slot;
  }

  /** The ids from a up to b. */
  function Span(a: nat, b: nat): (r: set<nat>)
    ensures forall id: nat :: id in r <==> a <= id < b
    ensures a <= b ==> |r| == b - a
    decreases b
  {
    if a < b then Span(a, b - 1) + {b - 1} else {}
  }

  // ---- Port choice ------------------------------------------------------

  /** The ports of [lo, hi] nobody holds. */
  function FreePorts(held: set<int>, lo: int, hi: int): set<int> {
    set p | lo <= p <= hi && p !in held
  }

  /** `r` allocations in a row from the same range, each taking the least free
      port: the ports handed out until the range runs dry. */
  function Allocations(held: set<int>, lo: int, hi: int, r: nat): (ports: seq<int>)
    decreases r
  {
    if r == 0 then []
    else match LeastFree(held, lo, hi)
      case None => []
      case Some(p) => [p] + Allocations(held + {p}, lo, hi, r - 1)
  }

  function LeastFree(held: set<int>, lo: int, hi: int): (r: Option<int>)
    ensures r.Some? ==> lo <= r.value <= hi && r.value !in held
                        && forall p | lo <= p < r.value :: p in held
    ensures r.None? <==> FreePorts(held, lo, hi) == {}
    decreases hi - lo
  {
    if lo > hi then assert FreePorts(held, lo, hi) == {}; None
    else if lo !in held then assert lo in FreePorts(held, lo, hi); Some(lo)
    else
      assert FreePorts(held, lo, hi) == FreePorts(held, lo + 1, hi);
      LeastFree(held, lo + 1, hi)
  }

  /** Pigeonhole: r allocations all succeed exactly when r ports are free; they
      hand out distinct free ports, and stop only when none is left. */
  lemma {:induction false} AllocationsCount(held: set<int>, lo: int, hi: int, r: nat)
    ensures var ports := Allocations(held, lo, hi, r);
            && (|ports| == r <==> r <= |FreePorts(held, lo, hi)|)
            && |ports| <= |FreePorts(held, lo, hi)|
            && (forall i | 0 <= i < |ports| :: ports[i] in FreePorts(held, lo, hi))
            && (forall i, j | 0 <= i < j < |ports| :: ports[i] < ports[j])
    decreases r
  {
    if r == 0 || LeastFree(held, lo, hi).None? {
    } else {
      var p := LeastFree(held, lo, hi).value;
      AllocationsCount(held + {p}, lo, hi, r - 1);
      TakingTheLeast(held, lo, hi);
    }
  }

  lemma TakingTheLeast(held: set<int>, lo: int, hi: int)
    requires LeastFree(held, lo, hi).Some?
    ensures var p, free := LeastFree(held, lo, hi).value, FreePorts(held, lo, hi);
            && p in free && FreePorts(held + {p}, lo, hi) == free - {p}
            && forall q | q in free - {p} :: p < q
  {
  }

  /** The ports of [lo, hi] on a server that some row or application holds. */
  function HeldPorts(rows: Rows, foreign: set<Slot>, server: nat, lo: int, hi: int): set<int> {
    set p | lo <= p <= hi && Held(rows, foreign, Slot(server, p))
  }

  function FreeOn(rows: Rows, foreign: set<Slot>, server: nat, lo: int, hi: int): set<int> {
    FreePorts(HeldPorts(rows, foreign, server, lo, hi), lo, hi)
  }

  /** The allocator's success takes the least free port, and the row it inserts
      holds that port and no other. */
  lemma AllocatorIsLeastFree(rows: Rows, foreign: set<Slot>, id: nat, row: Instance, lo: int, hi: int)
    requires id !in rows && !Terminal(row.status) && lo <= row.slot.port <= hi
    requires !Held(rows, foreign, row.slot)
    requires forall p | lo <= p < row.slot.port :: Held(rows, foreign, Slot(row.slot.server, p))
    ensures LeastFree(HeldPorts(rows, foreign, row.slot.server, lo, hi), lo, hi) == Some(row.slot.port)
    ensures HeldPorts(rows[id := row], foreign, row.slot.server, lo, hi) ==
              HeldPorts(rows, foreign, row.slot.server, lo, hi) + {row.slot.port}
  {
    var server, rows' := row.slot.server, rows[id := row];
    assert row.slot.port in FreePorts(HeldPorts(rows, foreign, server, lo, hi), lo, hi);
    forall p | lo <= p <= hi
      ensures Held(rows', foreign, Slot(server, p)) <==> Held(rows, foreign, Slot(server, p)) || p == row.slot.port
    {
      if Held(rows, foreign, Slot(server, p)) && Slot(server, p) !in foreign {
        var i :| i in rows && Occupies(rows, i) && rows[i].slot == Slot(server, p);
        assert Occupies(rows', i) && rows'[i].slot == Slot(server, p);
      }
      if Held(rows', foreign, Slot(server, p)) && Slot(server, p) !in foreign {
        var i :| i in rows' && Occupies(rows', i) && rows'[i].slot == Slot(server, p);
        assert i != id ==> Occupies(rows, i);
      }
      assert Occupies(rows', id) && rows'[id].slot == Slot(server, row.slot.port);
    }
  }

  lemma AllocationsStep(rows: Rows, foreign: set<Slot>, id: nat, row: Instance, lo: int, hi: int, r: nat)
    requires id !in rows && !Terminal(row.status) && lo <= row.slot.port <= hi && r > 0
    requires !Held(rows, foreign, row.slot)
    requires forall p | lo <= p < row.slot.port :: Held(rows, foreign, Slot(row.slot.server, p))
    ensures Allocations(HeldPorts(rows, foreign, row.slot.server, lo, hi), lo, hi, r) ==
            [row.slot.port] + Allocations(HeldPorts(rows[id := row], foreign, row.slot.server, lo, hi), lo, hi, r - 1)
  {
    AllocatorIsLeastFree(rows, foreign, id, row, lo, hi);
  }

  lemma AllocationsEnd(rows: Rows, foreign: set<Slot>, server: nat, lo: int, hi: int, r: nat)
    requires forall p | lo <= p <= hi :: Held(rows, foreign, Slot(server, p))
    ensures Allocations(HeldPorts(rows, foreign, server, lo, hi), lo, hi, r) == []
  {
    assert FreePorts(HeldPorts(rows, foreign, server, lo, hi), lo, hi) == {};
  }
}
