/** The healing history of an application: every automatic restart and every
    replacement, by lineage - an original instance and all its replacements. */
module Lineage {
  import opened Common
  import opened StateMachines
  import opened Instances

  datatype Heal =
    | Restart(root: nat, id: nat, at: int)
    | Replace(root: nat, id: nat, replacement: nat)

  function Restarts(heals: seq<Heal>, r: nat): nat {
    if heals == [] then 0
    else
      var h := heals[|heals| - 1];
      Restarts(heals[..|heals| - 1], r) + if h.Restart? && h.root == r then 1 else 0
  }

  function Replacements(heals: seq<Heal>, r: nat): nat {
    if heals == [] then 0
    else
      var h := heals[|heals| - 1];
      Replacements(heals[..|heals| - 1], r) + if h.Replace? && h.root == r then 1 else 0
  }

  lemma CountAppend(heals: seq<Heal>, h: Heal, r: nat)
    ensures Restarts(heals + [h], r) == Restarts(heals, r) + if h.Restart? && h.root == r then 1 else 0
    ensures Replacements(heals + [h], r)
         == Replacements(heals, r) + if h.Replace? && h.root == r then 1 else 0
  {
    assert (heals + [h])[..|heals|] == heals;
  }

  lemma {:induction false} NoHealsForNewRoot(heals: seq<Heal>, r: nat)
    requires forall k | 0 <= k < |heals| :: heals[k].root != r
    ensures Restarts(heals, r) == Replacements(heals, r) == 0
  {
    if heals == [] {
    } else {
      NoHealsForNewRoot(heals[..|heals| - 1], r);
    }
  }

  /** A negative limit allows no attempt at all. */
  function Bound(maxAttempts: int): nat {
    if maxAttempts < 0 then 0 else maxAttempts
  }

  type Roots = map<nat, nat>

  /** Limits of the application's health check. */
  datatype Limits = Limits(maxAttempts: int, cooldown: int)

  /** The rows, the next id, the lineage of each row, the healing so far and the clock. */
  datatype Ledger = Ledger(rows: Rows, next: nat, root: Roots, heals: seq<Heal>, now: int)

  /** Every row belongs to a lineage, named after its first and oldest member. */
  ghost predicate Rooted(rows: Rows, next: nat, root: Roots, heals: seq<Heal>) {
    && root.Keys == rows.Keys
    && (forall i | i in rows :: root[i] <= i < next)
    && (forall k | 0 <= k < |heals| :: heals[k].root < next)
  }

  predicate Alive(rows: Rows, i: nat) {
    i in rows && rows[i].status != Failed
  }

  /** At most one member of a lineage is not FAILED. */
  ghost predicate OneAlive(rows: Rows, root: Roots)
    requires rows.Keys <= root.Keys
  {
    forall i, j | Alive(rows, i) && Alive(rows, j) && root[i] == root[j] :: i == j
  }

  /** The member still alive has used up at least the lineage's restarts, and
      each replacement followed a restart; no lineage exceeds the bound. */
  ghost predicate Bounded(rows: Rows, root: Roots, heals: seq<Heal>, bound: nat)
    requires rows.Keys <= root.Keys
  {
    && (forall i | i in rows :: rows[i].healingAttempts <= bound)
    && (forall i | Alive(rows, i) ::
          Replacements(heals, root[i]) <= Restarts(heals, root[i]) <= rows[i].healingAttempts)
    && (forall r :: Restarts(heals, r) <= bound && Replacements(heals, r) <= bound)
  }

  /** Two restarts of one instance are at least the cooldown apart, and the last
      is no later than the row's own record of it. */
  ghost predicate Cooled(rows: Rows, heals: seq<Heal>, cooldown: int, now: int) {
    && (forall k, l | 0 <= k < l < |heals| && heals[k].Restart? && heals[l].Restart?
          && heals[k].id == heals[l].id :: heals[l].at - heals[k].at >= cooldown)
    && (forall k | 0 <= k < |heals| && heals[k].Restart? ::
          && heals[k].id in rows && rows[heals[k].id].lastHealingAt.Some?
          && heals[k].at <= rows[heals[k].id].lastHealingAt.value <= now)
  }

  ghost predicate Ok(l: Limits, b: Ledger) {
    && Rooted(b.rows, b.next, b.root, b.heals)
    && OneAlive(b.rows, b.root)
    && Bounded(b.rows, b.root, b.heals, Bound(l.maxAttempts))
    && Cooled(b.rows, b.heals, l.cooldown, b.now)
  }

  /** A fresh row starts a lineage of its own. */
  lemma InsertKeeps(l: Limits, b: Ledger, id: nat, row: Instance)
    requires Ok(l, b) && id >= b.next && row.healingAttempts == 0
    ensures Ok(l, b.(rows := b.rows[id := row], next := id + 1, root := b.root[id := id]))
  {
    InsertOneAlive(b.rows, b.next, b.root, id, row);
    InsertBounded(b.rows, b.next, b.root, b.heals, Bound(l.maxAttempts), id, row);
    assert Cooled(b.rows[id := row], b.heals, l.cooldown, b.now);
  }

  lemma InsertOneAlive(rows: Rows, next: nat, root: Roots, id: nat, row: Instance)
    requires Rooted(rows, next, root, []) && OneAlive(rows, root) && id >= next
    ensures OneAlive(rows[id := row], root[id := id])
  {
    var rows' := rows[id := row];
    assert forall i | i != id :: Alive(rows', i) <==> Alive(rows, i);
  }

  lemma InsertBounded(
    rows: Rows, next: nat, root: Roots, heals: seq<Heal>, bound: nat, id: nat, row: Instance)
    requires Rooted(rows, next, root, heals) && Bounded(rows, root, heals, bound)
    requires id >= next && row.healingAttempts == 0
    ensures Bounded(rows[id := row], root[id := id], heals, bound)
  {
    NoHealsForNewRoot(heals, id);
    var rows', root' := rows[id := row], root[id := id];
    forall i | Alive(rows', i)
      ensures Replacements(heals, root'[i]) <= Restarts(heals, root'[i]) <= rows'[i].healingAttempts
    {
      assert i != id ==> Alive(rows, i) && root'[i] == root[i];
    }
  }

  /** A row that is not brought back from FAILED, keeps its count or has it
      raised within the limit, and keeps its restart time or has it raised. */
  lemma UpdateKeeps(l: Limits, b: Ledger, id: nat, row: Instance)
    requires Ok(l, b) && id in b.rows && (b.rows[id].status == Failed ==> row.status == Failed)
    requires b.rows[id].healingAttempts <= row.healingAttempts <= Bound(l.maxAttempts)
    requires row.lastHealingAt == b.rows[id].lastHealingAt || row.lastHealingAt == Some(b.now)
    ensures Ok(l, b.(rows := b.rows[id := row]))
  {
    var rows' := b.rows[id := row];
    assert forall i | Alive(rows', i) :: Alive(b.rows, i);
    UpdateBounded(b.rows, b.root, b.heals, Bound(l.maxAttempts), id, row);
    assert OneAlive(rows', b.root);
    assert Cooled(rows', b.heals, l.cooldown, b.now);
  }

  lemma UpdateBounded(
    rows: Rows, root: Roots, heals: seq<Heal>, bound: nat, id: nat, row: Instance)
    requires rows.Keys == root.Keys && Bounded(rows, root, heals, bound)
    requires id in rows && (rows[id].status == Failed ==> row.status == Failed)
    requires rows[id].healingAttempts <= row.healingAttempts <= bound
    ensures Bounded(rows[id := row], root, heals, bound)
  {
    var rows' := rows[id := row];
    forall i | Alive(rows', i)
      ensures Replacements(heals, root[i]) <= Restarts(heals, root[i]) <= rows'[i].healingAttempts
    {
      assert Alive(rows, i);
    }
  }

  lemma TimePasses(l: Limits, b: Ledger, now: int)
    requires Ok(l, b) && b.now <= now
    ensures Ok(l, b.(now := now))
  {
  }

  /** The row's last restart, if any, is at least the cooldown before `at`. */
  ghost predicate Rested(heals: seq<Heal>, id: nat, cooldown: int, at: int) {
    forall k | 0 <= k < |heals| && heals[k].Restart? && heals[k].id == id :: at - heals[k].at >= cooldown
  }

  lemma RestartKeeps(l: Limits, b: Ledger, id: nat)
    requires Ok(l, b) && Alive(b.rows, id)
    requires b.rows[id].lastHealingAt.Some? && b.rows[id].lastHealingAt.value <= b.now
    requires Restarts(b.heals, b.root[id]) < b.rows[id].healingAttempts
    requires Rested(b.heals, id, l.cooldown, b.rows[id].lastHealingAt.value)
    ensures Ok(l, b.(heals := b.heals + [Restart(b.root[id], id, b.rows[id].lastHealingAt.value)]))
  {
    var h := Restart(b.root[id], id, b.rows[id].lastHealingAt.value);
    RestartBounded(b.rows, b.root, b.heals, Bound(l.maxAttempts), id, h.at);
    assert Rooted(b.rows, b.next, b.root, b.heals + [h]);
    assert Cooled(b.rows, b.heals + [h], l.cooldown, b.now);
  }

  lemma RestartBounded(rows: Rows, root: Roots, heals: seq<Heal>, bound: nat, id: nat, at: int)
    requires rows.Keys == root.Keys && OneAlive(rows, root) && Bounded(rows, root, heals, bound)
    requires Alive(rows, id) && Restarts(heals, root[id]) < rows[id].healingAttempts
    ensures Bounded(rows, root, heals + [Restart(root[id], id, at)], bound)
  {
    var heals' := heals + [Restart(root[id], id, at)];
    forall r
      ensures Restarts(heals', r) == Restarts(heals, r) + (if r == root[id] then 1 else 0)
      ensures Replacements(heals', r) == Replacements(heals, r)
    {
      CountAppend(heals, Restart(root[id], id, at), r);
    }
    forall i | Alive(rows, i)
      ensures Replacements(heals', root[i]) <= Restarts(heals', root[i]) <= rows[i].healingAttempts
    {
      assert root[i] == root[id] ==> i == id;
    }
  }

  /** The replacement joins the lineage of an instance whose members have all
      failed, carrying its count forward. */
  lemma ReplaceKeeps(l: Limits, b: Ledger, failed: nat, newcomer: nat)
    requires Ok(l, b) && failed in b.rows && newcomer in b.rows && failed < newcomer
    requires forall i | i in b.rows && b.root[i] == b.root[failed] :: b.rows[i].status == Failed
    requires Replacements(b.heals, b.root[failed]) < Restarts(b.heals, b.root[failed])
          <= b.rows[failed].healingAttempts
    ensures Ok(l, b.(rows := b.rows[newcomer :=
                       b.rows[newcomer].(healingAttempts := b.rows[failed].healingAttempts)],
                     root := b.root[newcomer := b.root[failed]],
                     heals := b.heals + [Replace(b.root[failed], failed, newcomer)]))
  {
    var heals' := b.heals + [Replace(b.root[failed], failed, newcomer)];
    var row' := b.rows[newcomer].(healingAttempts := b.rows[failed].healingAttempts);
    var rows', root' := b.rows[newcomer := row'], b.root[newcomer := b.root[failed]];
    assert forall i :: Alive(rows', i) <==> Alive(b.rows, i);
    assert OneAlive(rows', root') by {
      forall i, j | Alive(rows', i) && Alive(rows', j) && root'[i] == root'[j] ensures i == j {
        assert Alive(b.rows, i) && Alive(b.rows, j);
      }
    }
    ReplaceBounded(b.rows, b.root, b.heals, Bound(l.maxAttempts), failed, newcomer);
    assert Rooted(rows', b.next, root', heals');
    assert Cooled(rows', heals', l.cooldown, b.now);
  }

  lemma ReplaceBounded(
    rows: Rows, root: Roots, heals: seq<Heal>, bound: nat, failed: nat, newcomer: nat)
    requires rows.Keys == root.Keys && Bounded(rows, root, heals, bound)
    requires failed in rows && newcomer in rows
    requires forall i | i in rows && root[i] == root[failed] :: rows[i].status == Failed
    requires Replacements(heals, root[failed]) < Restarts(heals, root[failed]) <= rows[failed].healingAttempts
    ensures Bounded(rows[newcomer := rows[newcomer].(healingAttempts := rows[failed].healingAttempts)],
                    root[newcomer := root[failed]],
                    heals + [Replace(root[failed], failed, newcomer)], bound)
  {
    var heals' := heals + [Replace(root[failed], failed, newcomer)];
    var rows' := rows[newcomer := rows[newcomer].(healingAttempts := rows[failed].healingAttempts)];
    var root' := root[newcomer := root[failed]];
    forall r
      ensures Restarts(heals', r) == Restarts(heals, r)
      ensures Replacements(heals', r) == Replacements(heals, r) + (if r == root[failed] then 1 else 0)
    {
      CountAppend(heals, Replace(root[failed], failed, newcomer), r);
    }
    forall i | Alive(rows', i)
      ensures Replacements(heals', root'[i]) <= Restarts(heals', root'[i]) <= rows'[i].healingAttempts
    {
      assert Alive(rows, i);
    }
  }
}
