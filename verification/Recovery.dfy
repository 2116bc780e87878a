/** Recovery at control-plane start: what a vanished process left in progress is
    failed, and its application unlocked. */
module Recovery {
  import opened Common
  import opened StateMachines
  import opened Instances
  import opened History
  import opened Fleets
  import opened Releases

  datatype Deployment = Deployment(application: nat, status: DeploymentStatus)

  type Table = map<nat, Deployment>
  type Locks = map<nat, Option<int>>   // by application: when the lock was taken, if held

  function Stuck(deployments: Table): set<nat> {
    set id | id in deployments && deployments[id].status == DInProgress
  }

  function Failing(deployments: Table, ids: set<nat>): Table {
    map id | id in deployments ::
      if id in ids then deployments[id].(status := DFailed) else deployments[id]
  }

  /** Locks, with those of the applications of `ids` cleared. */
  function Unlocking(deployments: Table, locks: Locks, ids: set<nat>): Locks {
    map a | a in locks ::
      if exists id | id in ids :: id in deployments && deployments[id].application == a then None else locks[a]
  }

  lemma OneMore(deployments: Table, locks: Locks, done: set<nat>, id: nat)
    requires id in deployments
    ensures var a, k := deployments[id].application, Unlocking(deployments, locks, done);
            && Failing(deployments, done + {id}) ==
                 Failing(deployments, done)[id := deployments[id].(status := DFailed)]
            && Unlocking(deployments, locks, done + {id}) == if a in k then k[a := None] else k
  {
    var k := Unlocking(deployments, locks, done + {id});
    assert deployments[id].application in k ==> k[deployments[id].application] == None by {
      assert id in done + {id};
    }
  }

  class Database {
    var deployments: Table
    var locks: Locks

    /** `transition_deployment`; false is InvalidTransition. */
    method Transition(id: nat, target: DeploymentStatus) returns (ok: bool)
      requires id in deployments
      modifies this`deployments
      ensures ok <==> CanMoveDeployment(old(deployments)[id].status, target)
      ensures deployments == if ok then old(deployments)[id := old(deployments)[id].(status := target)]
                             else old(deployments)
    {
      ok := CanMoveDeployment(deployments[id].status, target);
      if ok {
        deployments := deployments[id := deployments[id].(status := target)];
      }
    }

    /** `reconcile_stuck_deployments`, in whatever order the query returns them. */
    method ReconcileStuckDeployments() returns (count: nat)
      modifies this
      ensures count == |Stuck(old(deployments))|
      ensures deployments == Failing(old(deployments), Stuck(old(deployments)))
      ensures locks == Unlocking(old(deployments), old(locks), Stuck(old(deployments)))
    {
      var stuck := Stuck(deployments);
      var todo, done := stuck, {};
      while todo != {}
        invariant todo !! done && todo + done == stuck == Stuck(old(deployments))
        invariant deployments == Failing(old(deployments), done)
        invariant locks == Unlocking(old(deployments), old(locks), done)
        decreases todo
      {
        var id :| id in todo;
        OneMore(old(deployments), old(locks), done, id);
        var ok := Transition(id, DFailed);
        assert ok;
        var a := deployments[id].application;
        if a in locks {
          locks := locks[a := None];
        }
        todo, done := todo - {id}, done + {id};
      }
      count := |stuck|;
    }
  }

  predicate Transient(row: Instance) {
    row.status in {Starting, Restarting, Draining}
  }

  function InTransit(rows: Rows): set<nat> {
    set id | id in rows && Transient(rows[id])
  }

  function Settled(rows: Rows): Rows {
    map id | id in rows :: if Transient(rows[id]) then rows[id].(status := Failed) else rows[id]
  }

  /** `reconcile_stuck_instances`, for one application's rows. */
  method ReconcileStuckInstances(f: Fleet) returns (count: nat)
    requires f.Valid()
    modifies f`rows, f`history
    ensures f.Valid() && f.rows == Settled(old(f.rows))
    ensures count == |InTransit(old(f.rows))|
  {
    var stuck := f.Select(Transient);
    FailAll(f, stuck);
    AssignSettles(old(f.rows), stuck);
    CountsItsMembers(stuck, InTransit(old(f.rows)));
    count := |stuck|;
  }

  method FailAll(f: Fleet, stuck: seq<nat>)
    requires f.Valid() && NoRepeats(stuck)
    requires forall id | id in stuck :: id in f.rows && Transient(f.rows[id])
    modifies f`rows, f`history
    ensures f.Valid() && f.rows == AssignAll(old(f.rows), stuck, |stuck|, Failed)
  {
    for i := 0 to |stuck|
      invariant f.Valid() && f.rows == AssignAll(old(f.rows), stuck, i, Failed)
    {
      AssignAllNext(old(f.rows), stuck, i, Failed);
      var ok := f.Move(stuck[i], Failed);
      assert ok;
    }
  }

  lemma AssignSettles(rows: Rows, stuck: seq<nat>)
    requires NoRepeats(stuck) && forall id :: id in stuck <==> id in rows && Transient(rows[id])
    ensures AssignAll(rows, stuck, |stuck|, Failed) == Settled(rows)
  {
    AssignAllIs(rows, stuck, |stuck|, Failed);
  }

  /** `reconcile_on_startup`. */
  method ReconcileOnStartup(db: Database, f: Fleet) returns (count: nat)
    requires f.Valid()
    modifies db, f`rows, f`history
    ensures count == |Stuck(old(db.deployments))| + |InTransit(old(f.rows))|
    ensures f.Valid() && f.rows == Settled(old(f.rows))
    ensures db.deployments == Failing(old(db.deployments), Stuck(old(db.deployments)))
    ensures db.locks == Unlocking(old(db.deployments), old(db.locks), Stuck(old(db.deployments)))
  {
    var d := db.ReconcileStuckDeployments();
    var i := ReconcileStuckInstances(f);
    count := d + i;
  }

  /** From any state: nothing stays in progress or in transit, every application
      with a stuck deployment is unlocked and no other lock is touched, every
      change is a legal move, and a second recovery changes nothing. */
  lemma RecoveryIsComplete(deployments: Table, locks: Locks, rows: Rows)
    ensures var d, k, r := Failing(deployments, Stuck(deployments)),
                           Unlocking(deployments, locks, Stuck(deployments)), Settled(rows);
            && Stuck(d) == {} && InTransit(r) == {}
            && (forall id | id in deployments :: d[id] != deployments[id] ==>
                  CanMoveDeployment(deployments[id].status, d[id].status))
            && (forall id | id in rows :: r[id] != rows[id] ==>
                  CanMoveInstance(rows[id].status, r[id].status))
            && (forall a | a in locks ::
                  if exists id | id in deployments ::
                       deployments[id].application == a && deployments[id].status == DInProgress
                  then k[a] == None else k[a] == locks[a])
            && Failing(d, Stuck(d)) == d && Unlocking(d, k, Stuck(d)) == k && Settled(r) == r
  {
    forall a | a in locks && exists id | id in deployments ::
                 deployments[id].application == a && deployments[id].status == DInProgress
      ensures Unlocking(deployments, locks, Stuck(deployments))[a] == None
    {
      var id :| id in deployments && deployments[id].application == a && deployments[id].status == DInProgress;
      assert id in Stuck(deployments);
    }
  }
}
