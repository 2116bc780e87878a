/** Runs in which a promise one might expect of the pipelines is not kept, each
    from an empty application, step by step. */
module Traces {
  import opened Common
  import opened StateMachines
  import opened Instances
  import opened History
  import opened Lineage
  import opened Fleets
  import opened Starts
  import opened Releases
  import opened Scaling
  import opened Healing
  import opened Deployments

  const LIMITS := Limits(3, 0)

  function Setting(domain: bool): Settings {
    Settings(Some(1), Some(8000), Some(8002), domain, domain, LIMITS)
  }

  function Yes(clock: int): Return { Return(true, true, {}, clock) }

  function No(clock: int): Return { Return(false, false, {}, clock) }

  /** Nobody else on the server, now or later. */
  ghost predicate Alone(w: Outside) {
    forall k | 0 <= k < |w| :: w[k].others == {}
  }

  /** Beside at most one row there is room for two more. */
  lemma RoomForTwo(w: Outside, rows: Rows, foreign: set<Slot>, from: nat, id: nat)
    requires Alone(w) && foreign == {} && forall i | i in rows :: Occupies(rows, i) ==> i == id
    ensures Room(rows, foreign, w, from, 1, 8000, 8002, 1)
    ensures Room(rows, foreign, w, from, 1, 8000, 8002, 2)
  {
    var taken := if id in rows then rows[id].slot.port else 0;
    var p, q := if taken == 8000 then 8001 else 8000, if taken == 8002 then 8001 else 8002;
    var two := {p, q};
    assert !Held(rows, {}, Slot(1, p)) && !Held(rows, {}, Slot(1, q));
    assert two <= FreeOn(rows, {}, 1, 8000, 8002);
    SubsetIsSmaller(two, FreeOn(rows, {}, 1, 8000, 8002));
  }

  /** A first deployment of release 1, whose start ends as the outside says. */
  method FirstDeployment(world: Outside, domain: bool) returns (f: Fleet)
    requires Alone(world) && |world| >= 3 && world[0].ok && (world[1].ok && domain ==> world[2].ok)
    ensures fresh(f) && f.Valid() && f.cfg == Setting(domain) && f.world == world
    ensures f.rows.Keys == {0} && f.rows[0].slot.server == 1
    ensures f.rows[0] == NewRow(1, f.rows[0].slot, 0).(status := if world[1].ok then Running else Failed)
    ensures f.nextId == 1 && f.active == (if world[1].ok then Some(1) else None) && f.foreign == {}
    ensures f.calls == if domain && world[1].ok then 3 else 2
    ensures f.installed == (if domain && world[1].ok then {0} else {}) && f.now >= world[0].clock
  {
    f := new Fleet(Setting(domain), world);
    assert !Held(map[], {}, Slot(1, 8000));
    assert Good(world, 0) && (Good(world, 1) <==> world[1].ok) && (Heard(world, 2) <== world[2].ok);
    var status := RunDeployment(f, DeployRequest(1, true));
    assert f.rows.Keys == {0};
  }

  /** The reload of a switch is applied, its reply lost: the switch takes release 1
      back, and the gateway stays on release 2. */
  method LostReply() returns (f: Fleet)
    ensures fresh(f) && f.Valid() && f.active == Some(1) && !Agrees(f.rows, f.active, f.installed)
  {
    var world := [Yes(0), Yes(0), Yes(0), Yes(0), Return(false, true, {}, 0), Yes(0)];
    f := FirstDeployment(world, true);
    var q := Request(2, 1, false, false, true);
    ghost var s := f.Snap();
    RoomForTwo(world, f.rows, f.foreign, f.calls, 0);
    assert Good(world, 3) && !Good(world, 4) && Heard(world, 4);
    assert Startable(f.cfg, f.world, s, q);
    var status := RunReleaseSwitch(f, q);
    SwitchAgreement(f.cfg, world, s, f.Snap(), q, status);
  }

  /** The second instance of a switch does not start, and stopping the first
      fails: one stays RUNNING, and the deployment IN_PROGRESS. */
  method FailedAbortStop() returns (f: Fleet, status: DeploymentStatus)
    ensures fresh(f) && f.Valid() && status == DInProgress && f.active == Some(1)
    ensures exists id :: id in f.rows && f.rows[id].status == Running && f.rows[id].release == Some(2)
  {
    var world := [Yes(0), Yes(0), Yes(0), No(0), No(0)];
    f := FirstDeployment(world, false);
    var q := Request(2, 2, false, false, true);
    ghost var s := f.Snap();
    RoomForTwo(world, f.rows, f.foreign, f.calls, 0);
    assert Good(world, 2) && !Good(world, 3) && !Good(world, 4);
    status := RunReleaseSwitch(f, q);
    ghost var g := GrowthOf(f.cfg, q);
    assert Outcome(world, 2, false, 0) == Up && Outcome(world, 2, false, 1) == Broken;
    ghost var n: nat, o: Start :| FellShortAt(world, s, f.Snap(), g, n, o, status == DInProgress);
  }

  /** A replica fails its gate: the run raises and leaves it STARTING. */
  method SickReplica() returns (f: Fleet, status: DeploymentStatus)
    ensures fresh(f) && f.Valid() && f.cfg == Setting(false) && status == DInProgress
    ensures f.rows.Keys == {0, 1} && f.rows[0].status == Running && f.rows[1].status == Starting
    ensures f.rows[1].createdAt > f.rows[0].createdAt
  {
    var world := [Yes(1), Yes(1), Yes(1), No(1)];
    f := FirstDeployment(world, false);
    var q := ScaleRequest(1, 2, true, true);
    ghost var s := f.Snap();
    RoomForTwo(world, f.rows, f.foreign, f.calls, 0);
    var drained;
    status, drained := RunScale(f, q);
    StaysSick(world, s, f.Snap(), q, drained, status);
  }

  lemma StaysSick(w: Outside, s: Snapshot, t: Snapshot, q: ScaleRequest, drained: seq<nat>, status: DeploymentStatus)
    requires w == [Yes(1), Yes(1), Yes(1), No(1)] && q == ScaleRequest(1, 2, true, true)
    requires s.calls == 2 && s.nextId == 1 && s.now >= 1
    requires s.rows.Keys == {0} && s.rows[0] == NewRow(1, s.rows[0].slot, 0).(status := Running)
    requires Room(s.rows, s.foreign, w, s.calls, 1, 8000, 8002, 1)
    requires Rescaled(Setting(false), w, s, t, q, drained, status)
    ensures status == DInProgress && t.rows.Keys == {0, 1} && t.rows[0] == s.rows[0]
    ensures t.rows[1].status == Starting && t.rows[1].createdAt >= 1
  {
    assert LiveIds(s.rows) == {0};
    assert Outcome(w, 2, true, 0) == Sick;
    assert Grown(w, s, t, Missing(Setting(false), q, 1));
  }

  /** Scaling that down again selects the STARTING row, which may not drain: the
      run raises and nothing changes. */
  method DrainsAStartingRow() returns (f: Fleet, status: DeploymentStatus)
    ensures fresh(f) && f.Valid() && status == DInProgress
    ensures f.rows.Keys == {0, 1} && f.rows[0].status == Running && f.rows[1].status == Starting
  {
    f, status := SickReplica();
    ghost var s := f.Snap();
    var drained;
    var q := ScaleRequest(1, 1, true, true);
    status, drained := RunScale(f, q);
    WillNotDrain(f.world, s, f.Snap(), q, drained, status);
  }

  lemma WillNotDrain(w: Outside, s: Snapshot, t: Snapshot, q: ScaleRequest, drained: seq<nat>, status: DeploymentStatus)
    requires q == ScaleRequest(1, 1, true, true) && Rescaled(Setting(false), w, s, t, q, drained, status)
    requires s.rows.Keys == {0, 1} && s.rows[0].status == Running && s.rows[1].status == Starting
    requires s.rows[1].createdAt > s.rows[0].createdAt
    ensures status == DInProgress && t.rows.Keys == {0, 1}
    ensures t.rows[0] == s.rows[0] && t.rows[1] == s.rows[1]
  {
    assert LiveIds(s.rows) == {0, 1};
    SelectsTheNewest(s.rows, drained);
    assert 1 in drained && !CanDrain(s.rows[1]) && 0 !in drained;
  }

  lemma SelectsTheNewest(rows: Rows, drained: seq<nat>)
    requires rows.Keys == {0, 1} && LiveIds(rows) == {0, 1} && NewestOf(rows, drained, 1)
    requires rows[1].createdAt > rows[0].createdAt
    ensures drained == [1]
  {
    assert drained == [drained[0]] && drained[0] in drained;
    assert drained[0] == 0 ==> 1 !in drained;
  }

  /** A restart does not help and the replacement fails its gate: the call raises
      and leaves the replacement STARTING. */
  method SickReplacement() returns (f: Fleet, v: Verdict)
    ensures fresh(f) && f.Valid() && v == Raised
    ensures f.rows.Keys == {0, 1} && f.rows[0].status == Failed && f.rows[1].status == Starting
  {
    var world := [Yes(0), Yes(0), No(0), Yes(0), No(0)];
    f := FirstDeployment(world, false);
    ghost var s := f.Snap();
    v := HandleUnhealthy(f, HealRequest(0, true, true));
    HealsInVain(world, s, f.Snap(), v);
  }

  lemma HealsInVain(w: Outside, s: Snapshot, t: Snapshot, v: Verdict)
    requires w == [Yes(0), Yes(0), No(0), Yes(0), No(0)] && s.calls == 2 && s.nextId == 1
    requires s.rows.Keys == {0} && s.rows[0] == NewRow(1, s.rows[0].slot, 0).(status := Running)
    requires s.rows[0].slot.server == 1
    requires Healed(Setting(false), w, s, t, HealRequest(0, true, true), v)
    ensures v == Raised && t.rows.Keys == {0, 1} && t.rows[0].status == Failed && t.rows[1].status == Starting
  {
    var cfg, m := Setting(false), TakenOut(Setting(false), w, s, 0);
    var c := m.(rows := m.rows[0 := Attempted(m.rows[0], m.now)]);
    var u := Unhelped(w, c, 0);
    assert Restarted(cfg, w, c, t, 0, v) && Brought(w, 2, true) == Broken && Brought(w, 3, true) == Sick;
    assert u.foreign == {} && u.rows.Keys == {0} && u.rows[0].status == Failed;
    assert !Held(u.rows, u.foreign, Slot(1, 8000));
    assert !NoPlace(cfg, u.rows, u.foreign, u.rows[0]);
  }

  /** The first release does not start, but is built: scaling routes it. */
  method RoutedButInactive(world: Outside) returns (f: Fleet)
    requires world == [Yes(0), No(0), Yes(0), Yes(0), Yes(0), Yes(0), No(0)]
    ensures fresh(f) && f.Valid() && f.cfg == Setting(true) && f.world == world && f.active == None
    ensures f.rows.Keys == {0, 1} && f.rows[0].status == Failed && f.rows[1].status == Running && f.nextId == 2
    ensures f.rows[0].release == f.rows[1].release == Some(1) && f.installed == {1}
    ensures f.foreign == {} && f.calls == 4
  {
    f := FirstDeployment(world, true);
    RoomForTwo(world, f.rows, f.foreign, f.calls, 0);
    ghost var s := f.Snap();
    var q := ScaleRequest(1, 1, false, true);
    var status, drained := RunScale(f, q);
    RoutesUnactivated(world, s, f.Snap(), q, drained, status);
    assert Payload(f.rows, None) == {1};
  }

  /** The next first deployment cannot tell the gateway, which keeps routing the
      release that never became active. */
  method UntoldDeployment() returns (f: Fleet)
    ensures fresh(f) && f.Valid() && f.active == Some(2) && !Agrees(f.rows, f.active, f.installed)
  {
    var world := [Yes(0), No(0), Yes(0), Yes(0), Yes(0), Yes(0), No(0)];
    f := RoutedButInactive(world);
    ghost var m := f.Snap();
    var d := DeployRequest(2, true);
    assert !Held(f.rows, {}, Slot(1, 8000)) || !Held(f.rows, {}, Slot(1, 8001));
    assert Good(world, 4) && Good(world, 5) && !Heard(world, 6);
    var deployed := RunDeployment(f, d);
    DeployAgreement(f.cfg, world, m, f.Snap(), d, deployed);
  }

  lemma RoutesUnactivated(w: Outside, s: Snapshot, t: Snapshot, q: ScaleRequest, drained: seq<nat>,
                          status: DeploymentStatus)
    requires w == [Yes(0), No(0), Yes(0), Yes(0), Yes(0), Yes(0), No(0)] && q == ScaleRequest(1, 1, false, true)
    requires s.calls == 2 && s.nextId == 1 && s.rows.Keys == {0} && s.rows[0].status == Failed
    requires s.rows[0].release == Some(1) && Room(s.rows, s.foreign, w, s.calls, 1, 8000, 8002, 1)
    requires Rescaled(Setting(true), w, s, t, q, drained, status)
    ensures |LiveIds(s.rows)| == 0 && status == DSucceeded && t.rows.Keys == {0, 1} && t.nextId == 2
    ensures t.rows[0] == s.rows[0] && t.rows[1].status == Running && t.rows[1].release == Some(1)
  {
    assert LiveIds(s.rows) == {};
    assert Outcome(w, 2, false, 0) == Up;
    assert Grown(w, s, t, Missing(Setting(true), q, 0));
  }
}
