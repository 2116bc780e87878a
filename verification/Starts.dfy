/** Starting instances one after another: each is allocated a port, started and
    gated.  What becomes of a run of starts is a function of the outside. */
module Starts {
  import opened Common
  import opened StateMachines
  import opened Instances
  import opened History
  import opened Fleets

  /** Old rows are as they were; the new ones are numbered from `next` on. */
  ghost predicate Extends(rows: Rows, next: nat, rows': Rows, next': nat) {
    && next <= next'
    && (forall id | id in rows :: id in rows' && rows'[id] == rows[id])
    && (forall id | id in rows' && id !in rows :: next <= id < next')
    && (forall id: nat | next <= id < next' :: id in rows')
  }

  /** A row of the new release, in service on a port of the range. */
  predicate InService(row: Instance, release: nat, server: nat, lo: int, hi: int) {
    && row.status == Running && row.release == Some(release)
    && row.slot.server == server && lo <= row.slot.port <= hi
  }

  // ---- Room in the port range -------------------------------------------

  /** Calls made by `count` starts that all succeed. */
  function Steps(count: nat, gated: bool): nat {
    if gated then 2 * count else count
  }

  /** Whatever other applications hold from call `from` on, `count` ports of the
      range are free of them and of `rows`. */
  ghost predicate Room(rows: Rows, foreign: set<Slot>, w: Outside, from: nat,
                       server: nat, lo: int, hi: int, count: nat) {
    && count <= |FreeOn(rows, foreign, server, lo, hi)|
    && forall k: nat | from <= k :: count <= |FreeOn(rows, At(w, k).others, server, lo, hi)|
  }

  function NewPorts(rows: Rows, first: nat, n: nat): (r: set<int>)
    requires forall id: nat | first <= id < first + n :: id in rows
    ensures |r| <= n && forall id: nat | first <= id < first + n :: rows[id].slot.port in r
  {
    if n == 0 then {} else NewPorts(rows, first, n - 1) + {rows[first + n - 1].slot.port}
  }

  lemma RoomLater(rows: Rows, foreign: set<Slot>, w: Outside, from: nat, foreign': set<Slot>, k: nat,
                  server: nat, lo: int, hi: int, count: nat)
    requires Room(rows, foreign, w, from, server, lo, hi, count)
    requires from <= k && foreign' <= At(w, k).others
    ensures Room(rows, foreign', w, k + 1, server, lo, hi, count)
  {
    SubsetIsSmaller(FreeOn(rows, At(w, k).others, server, lo, hi), FreeOn(rows, foreign', server, lo, hi));
  }

  /** Fewer than `count` new rows cannot fill a range with room for `count`. */
  lemma Crowded(rows0: Rows, first: nat, rows: Rows, next: nat, foreign: set<Slot>, others: set<Slot>,
                server: nat, lo: int, hi: int)
    requires Extends(rows0, first, rows, next) && foreign <= others
    requires forall p | lo <= p <= hi :: Held(rows, foreign, Slot(server, p))
    ensures |FreeOn(rows0, others, server, lo, hi)| <= next - first
  {
    var free, taken := FreeOn(rows0, others, server, lo, hi), NewPorts(rows, first, next - first);
    forall p | p in free ensures p in taken {
      assert !Held(rows0, others, Slot(server, p));
      var id :| id in rows && Occupies(rows, id) && rows[id].slot == Slot(server, p);
      assert forall i | i in rows0 :: Occupies(rows, i) ==> Occupies(rows0, i) && rows0[i].slot == rows[i].slot;
    }
    SubsetIsSmaller(free, taken);
  }

  lemma {:induction false} SubsetIsSmaller<T>(a: set<T>, b: set<T>)
    requires a <= b
    ensures |a| <= |b|
  {
    if a == {} {
    } else {
      var x :| x in a;
      SubsetIsSmaller(a - {x}, b - {x});
    }
  }

  // ---- Runs of starts ---------------------------------------------------

  predicate Started(row: Instance, release: nat, server: nat, lo: int, hi: int, o: Start) {
    && row.status == StatusOf(o) && row.release == Some(release)
    && row.slot.server == server && lo <= row.slot.port <= hi
  }

  /** The number of the call that begins start number i of a run of starts. */
  function CallAt(w: Outside, k: nat, gated: bool, i: nat): nat {
    if i == 0 then k
    else
      var before := CallAt(w, k, gated, i - 1);
      before + Used(Brought(w, before, gated), gated)
  }

  /** What the outside makes of start number i. */
  function Outcome(w: Outside, k: nat, gated: bool, i: nat): Start {
    Brought(w, CallAt(w, k, gated, i), gated)
  }

  datatype Growth = Growth(release: nat, count: nat, server: nat, lo: int, hi: int, gated: bool)

  /** The rows added are exactly what the outside made of them, in order. */
  ghost predicate AsMade(w: Outside, s: Snapshot, t: Snapshot, g: Growth) {
    forall id: nat | s.nextId <= id < t.nextId && id in t.rows ::
      && Started(t.rows[id], g.release, g.server, g.lo, g.hi, Outcome(w, s.calls, g.gated, id - s.nextId))
      && t.rows[id].createdAt >= s.now
  }

  /** Only the last may have failed its gate. */
  ghost predicate SickLast(s: Snapshot, t: Snapshot) {
    forall id: nat | s.nextId <= id < t.nextId - 1 && id in t.rows :: t.rows[id].status != Starting
  }

  ghost predicate Added(w: Outside, s: Snapshot, t: Snapshot, g: Growth) {
    && Extends(s.rows, s.nextId, t.rows, t.nextId) && t.nextId <= s.nextId + g.count
    && AsMade(w, s, t, g) && SickLast(s, t)
  }

  /** The last row added failed its gate. */
  ghost predicate EndsSick(s: Snapshot, t: Snapshot) {
    t.nextId > s.nextId && t.nextId - 1 in t.rows && t.rows[t.nextId - 1].status == Starting
  }

  ghost predicate AllUp(s: Snapshot, t: Snapshot) {
    forall id: nat | s.nextId <= id < t.nextId && id in t.rows :: t.rows[id].status == Running
  }

  /** A sick replica is the last; otherwise there are fewer than `count` only if
      the range had no room. */
  ghost predicate Grown(w: Outside, s: Snapshot, t: Snapshot, g: Growth) {
    && Added(w, s, t, g)
    && (t.nextId < s.nextId + g.count && !EndsSick(s, t) ==>
          !Room(s.rows, s.foreign, w, s.calls, g.server, g.lo, g.hi, g.count))
  }

  /** Between two starts. */
  ghost predicate Growing(w: Outside, s: Snapshot, t: Snapshot, g: Growth) {
    && Added(w, s, t, g) && !EndsSick(s, t)
    && t.calls == CallAt(w, s.calls, g.gated, t.nextId - s.nextId) && t.calls >= s.calls && t.now >= s.now
    && (t.foreign == s.foreign || (t.calls > s.calls && t.foreign <= At(w, t.calls - 1).others))
  }

  /** One more start. */
  ghost predicate Next(w: Outside, m: Snapshot, t: Snapshot, g: Growth, o: Start) {
    && o == Brought(w, m.calls, g.gated) && t.calls == m.calls + Used(o, g.gated)
    && t.foreign <= At(w, t.calls - 1).others
    && t.nextId == m.nextId + 1 && m.nextId !in m.rows && m.nextId in t.rows
    && t.rows == m.rows[m.nextId := t.rows[m.nextId]]
    && Started(t.rows[m.nextId], g.release, g.server, g.lo, g.hi, o)
    && t.rows[m.nextId].createdAt == m.now <= t.now
  }

  lemma ExtendsOneMore(w: Outside, s: Snapshot, m: Snapshot, t: Snapshot, g: Growth, o: Start)
    requires Extends(s.rows, s.nextId, m.rows, m.nextId) && Next(w, m, t, g, o)
    ensures Extends(s.rows, s.nextId, t.rows, t.nextId)
  {
  }

  lemma MadeOneMore(w: Outside, s: Snapshot, m: Snapshot, t: Snapshot, g: Growth, o: Start)
    requires s.nextId <= m.nextId && AsMade(w, s, m, g) && Next(w, m, t, g, o)
    requires m.calls == CallAt(w, s.calls, g.gated, m.nextId - s.nextId) && s.now <= m.now
    ensures AsMade(w, s, t, g)
  {
  }

  lemma SickLastOneMore(w: Outside, s: Snapshot, m: Snapshot, t: Snapshot, g: Growth, o: Start)
    requires SickLast(s, m) && !EndsSick(s, m) && Next(w, m, t, g, o)
    ensures SickLast(s, t)
  {
  }

  lemma CallOneMore(w: Outside, s: Snapshot, m: Snapshot, t: Snapshot, g: Growth, o: Start)
    requires s.nextId <= m.nextId && m.calls == CallAt(w, s.calls, g.gated, m.nextId - s.nextId)
    requires Next(w, m, t, g, o)
    ensures t.calls == CallAt(w, s.calls, g.gated, t.nextId - s.nextId)
  {
  }

  lemma SickOneMore(w: Outside, s: Snapshot, m: Snapshot, t: Snapshot, g: Growth, o: Start)
    requires s.nextId <= m.nextId && Next(w, m, t, g, o)
    ensures EndsSick(s, t) <==> o == Sick
  {
    assert t.nextId - 1 == m.nextId;
  }

  lemma UpOneMore(w: Outside, s: Snapshot, m: Snapshot, t: Snapshot, g: Growth, o: Start)
    requires s.nextId <= m.nextId && Next(w, m, t, g, o)
    ensures AllUp(s, t) <==> AllUp(s, m) && o == Up
  {
    if AllUp(s, t) {
      assert t.rows[m.nextId].status == Running;
      forall id: nat | s.nextId <= id < m.nextId && id in m.rows ensures m.rows[id].status == Running {
        assert t.rows[id] == m.rows[id];
      }
    }
  }

  lemma GrowByOne(w: Outside, s: Snapshot, m: Snapshot, t: Snapshot, g: Growth, o: Start)
    requires Growing(w, s, m, g) && m.nextId < s.nextId + g.count && Next(w, m, t, g, o)
    ensures Added(w, s, t, g) && (EndsSick(s, t) <==> o == Sick)
    ensures o != Sick ==> Growing(w, s, t, g)
    ensures AllUp(s, t) <==> AllUp(s, m) && o == Up
  {
    ExtendsOneMore(w, s, m, t, g, o);
    MadeOneMore(w, s, m, t, g, o);
    SickLastOneMore(w, s, m, t, g, o);
    CallOneMore(w, s, m, t, g, o);
    SickOneMore(w, s, m, t, g, o);
    UpOneMore(w, s, m, t, g, o);
  }

  lemma NoMoreRoom(w: Outside, s: Snapshot, m: Snapshot, g: Growth)
    requires Growing(w, s, m, g) && m.nextId < s.nextId + g.count
    requires forall p | g.lo <= p <= g.hi :: Held(m.rows, m.foreign, Slot(g.server, p))
    ensures Grown(w, s, m, g)
  {
    Crowded(s.rows, s.nextId, m.rows, m.nextId, m.foreign,
            if m.foreign == s.foreign then s.foreign else At(w, m.calls - 1).others, g.server, g.lo, g.hi);
  }

  /** One instance: allocated, started and gated. */
  method StartOne(f: Fleet, g: Growth) returns (o: Start)
    requires f.Valid()
    modifies f`rows, f`nextId, f`foreign, f`now, f`history, f`calls
    ensures f.Valid()
    ensures o == NoPort <==>
              forall p | g.lo <= p <= g.hi :: Held(old(f.rows), old(f.foreign), Slot(g.server, p))
    ensures o == NoPort ==> f.Snap() == old(f.Snap())
    ensures o != NoPort ==> Next(f.world, old(f.Snap()), f.Snap(), g, o)
  {
    var r := f.Allocate(g.release, g.server, g.lo, g.hi);
    if r.None? {
      return NoPort;
    }
    var ok := f.Move(r.value, Starting);
    o := Bring(f, r.value, g.gated);
  }

  /** A start added to a run of starts: it found no port and changed nothing, or
      the run is longer by one. */
  ghost predicate Stepped(w: Outside, s: Snapshot, m: Snapshot, t: Snapshot, g: Growth, o: Start) {
    if o == NoPort then t == m && Grown(w, s, t, g)
    else
      && t.nextId == m.nextId + 1 && Added(w, s, t, g) && (EndsSick(s, t) <==> o == Sick)
      && (o != Sick ==> Growing(w, s, t, g)) && (AllUp(s, t) <==> AllUp(s, m) && o == Up)
  }

  method GrowStep(f: Fleet, g: Growth, ghost s: Snapshot) returns (o: Start)
    requires f.Valid() && Growing(f.world, s, f.Snap(), g) && f.nextId < s.nextId + g.count
    modifies f`rows, f`nextId, f`foreign, f`now, f`history, f`calls
    ensures f.Valid() && Stepped(f.world, s, old(f.Snap()), f.Snap(), g, o)
    ensures o != NoPort ==> Next(f.world, old(f.Snap()), f.Snap(), g, o)
  {
    o := StartOne(f, g);
    if o == NoPort {
      NoMoreRoom(f.world, s, old(f.Snap()), g);
    } else {
      GrowByOne(f.world, s, old(f.Snap()), f.Snap(), g, o);
    }
  }

  // ---- What the outside decides -----------------------------------------

  /** One of the first n starts comes up and fails its gate. */
  ghost predicate SomeSick(w: Outside, k: nat, gated: bool, n: nat) {
    exists i: nat :: i < n && Outcome(w, k, gated, i) == Sick
  }

  /** The last row is STARTING exactly if the outside made one of the starts sick;
      of as many starts as asked for, if there is room for them. */
  ghost predicate SickAsMade(w: Outside, s: Snapshot, t: Snapshot, g: Growth, sick: bool) {
    && (sick <==> EndsSick(s, t))
    && t.nextId >= s.nextId && (sick <==> SomeSick(w, s.calls, g.gated, t.nextId - s.nextId))
    && (Room(s.rows, s.foreign, w, s.calls, g.server, g.lo, g.hi, g.count) ==>
          (sick <==> SomeSick(w, s.calls, g.gated, g.count)))
  }

  lemma SickIsMade(w: Outside, s: Snapshot, t: Snapshot, g: Growth)
    requires Added(w, s, t, g)
    ensures EndsSick(s, t) <==> SomeSick(w, s.calls, g.gated, t.nextId - s.nextId)
  {
    if EndsSick(s, t) {
      assert Outcome(w, s.calls, g.gated, t.nextId - 1 - s.nextId) == Sick;
    }
    if i: nat :| i < t.nextId - s.nextId && Outcome(w, s.calls, g.gated, i) == Sick {
      assert s.nextId + i in t.rows && t.rows[s.nextId + i].status == Starting;
    }
  }

  lemma GrownSickAsMade(w: Outside, s: Snapshot, t: Snapshot, g: Growth)
    requires Grown(w, s, t, g)
    ensures SickAsMade(w, s, t, g, EndsSick(s, t))
  {
    SickIsMade(w, s, t, g);
    if i: nat :| i < g.count && Outcome(w, s.calls, g.gated, i) == Sick {
      assert t.nextId == s.nextId + g.count ==> SomeSick(w, s.calls, g.gated, t.nextId - s.nextId);
    }
  }

  /** A run of starts all succeed exactly when every call is answered well. */
  lemma {:induction false} UpMeansGood(w: Outside, k: nat, gated: bool, n: nat)
    ensures (forall i | 0 <= i < n :: Outcome(w, k, gated, i) == Up) <==> AllGood(w, k, k + Steps(n, gated))
    ensures AllGood(w, k, k + Steps(n, gated)) ==> CallAt(w, k, gated, n) == k + Steps(n, gated)
  {
    if n == 0 {
    } else {
      UpMeansGood(w, k, gated, n - 1);
      if AllGood(w, k, k + Steps(n - 1, gated)) {
        var c := k + Steps(n - 1, gated);
        assert Outcome(w, k, gated, n - 1) == Up <==> Good(w, c) && (gated ==> Good(w, c + 1));
      } else {
        assert !AllGood(w, k, k + Steps(n, gated));
      }
    }
  }

  /** Every call answered well, and room in the range. */
  ghost predicate Hopeful(w: Outside, s: Snapshot, g: Growth) {
    && AllGood(w, s.calls, s.calls + Steps(g.count, g.gated))
    && Room(s.rows, s.foreign, w, s.calls, g.server, g.lo, g.hi, g.count)
  }

  /** A run of starts falls short only for want of a good answer or of room. */
  lemma ShortIsHopeless(w: Outside, s: Snapshot, t: Snapshot, g: Growth)
    requires Added(w, s, t, g) && (AllUp(s, t) ==> Grown(w, s, t, g) && t.nextId < s.nextId + g.count)
    ensures !Hopeful(w, s, g)
  {
    UpMeansGood(w, s.calls, g.gated, g.count);
    if AllGood(w, s.calls, s.calls + Steps(g.count, g.gated)) {
      forall id: nat | s.nextId <= id < t.nextId && id in t.rows ensures t.rows[id].status == Running {
        assert Outcome(w, s.calls, g.gated, id - s.nextId) == Up;
      }
    }
  }

  /** A full run of starts that all succeeded. */
  lemma AllInService(w: Outside, s: Snapshot, t: Snapshot, g: Growth)
    requires Growing(w, s, t, g) && t.nextId == s.nextId + g.count && AllUp(s, t)
    ensures t.calls == s.calls + Steps(g.count, g.gated) && AllGood(w, s.calls, t.calls)
    ensures forall id | s.nextId <= id < t.nextId ::
              id in t.rows && InService(t.rows[id], g.release, g.server, g.lo, g.hi)
  {
    forall i | 0 <= i < g.count ensures Outcome(w, s.calls, g.gated, i) == Up {
      assert s.nextId + i in t.rows && t.rows[s.nextId + i].status == Running;
    }
    UpMeansGood(w, s.calls, g.gated, g.count);
  }
}
