/** Everything that can happen to one application's instance rows, as a step
    relation.  The pipelines are methods that extend such a history by what they
    do; the theorems here hold of every history, hence at every await of every
    pipeline and wherever a crash cuts one short. */
module History {
  import opened Common
  import opened StateMachines
  import opened Instances
  import opened Lineage

  /** How far the healing attempt under way has got. */
  datatype Phase = Idle | Counted(id: nat) | Retrying(id: nat)

  datatype State = State(
    rows: Rows, next: nat, foreign: set<Slot>, now: int,
    phase: Phase, root: Roots, heals: seq<Heal>)

  function LedgerOf(s: State): Ledger {
    Ledger(s.rows, s.next, s.root, s.heals, s.now)
  }

  datatype Event =
    | Inserted(release: nat, slot: Slot)
    | Moved(id: nat, target: InstanceStatus)
    | CountedAttempt(id: nat)              // healing_attempts and last_healing_attempt_at
    | Retried(id: nat)                     // RESTARTING, and the restart logged
    | Replacing(failed: nat, newcomer: nat)
    | Elsewhere(foreign: set<Slot>, now: int)

  const NOTHING := State(map[], 0, {}, 0, Idle, map[], [])

  predicate Enabled(l: Limits, s: State, e: Event) {
    match e
    case Inserted(_, slot) => !Held(s.rows, s.foreign, slot)
    case Moved(id, target) =>
      && id in s.rows && CanMoveInstance(s.rows[id].status, target)
      && (target == Starting ==> s.rows[id].status == Pending)
    case CountedAttempt(id) =>
      && id in s.rows && s.rows[id].healingAttempts < l.maxAttempts
      && (s.rows[id].lastHealingAt.Some? ==> s.now - s.rows[id].lastHealingAt.value >= l.cooldown)
    case Retried(id) =>
      s.phase == Counted(id) && id in s.rows && CanMoveInstance(s.rows[id].status, Restarting)
    case Replacing(failed, newcomer) =>
      && s.phase == Retrying(failed) && failed in s.rows && newcomer in s.rows
      && failed < newcomer && s.rows[failed].status == Failed && s.rows[newcomer].status == Pending
    case Elsewhere(foreign, now) =>
      s.now <= now && forall i | i in s.rows :: Occupies(s.rows, i) ==> s.rows[i].slot !in foreign
  }

  function Attempted(row: Instance, now: int): Instance {
    row.(healingAttempts := row.healingAttempts + 1, lastHealingAt := Some(now))
  }

  function Step(s: State, e: Event): State {
    match e
    case Inserted(release, slot) =>
      s.(rows := s.rows[s.next := NewRow(release, slot, s.now)],
         root := s.root[s.next := s.next], next := s.next + 1)
    case Moved(id, target) =>
      if id in s.rows then s.(rows := s.rows[id := s.rows[id].(status := target)]) else s
    case CountedAttempt(id) =>
      if id in s.rows then
        s.(rows := s.rows[id := Attempted(s.rows[id], s.now)], phase := Counted(id))
      else s
    case Retried(id) =>
      if id in s.rows && id in s.root && s.rows[id].lastHealingAt.Some? then
        s.(rows := s.rows[id := s.rows[id].(status := Restarting)],
           heals := s.heals + [Restart(s.root[id], id, s.rows[id].lastHealingAt.value)],
           phase := Retrying(id))
      else s
    case Replacing(failed, newcomer) =>
      if failed in s.rows && newcomer in s.rows && failed in s.root then
        s.(rows := s.rows[newcomer := s.rows[newcomer].(
                     healingAttempts := s.rows[failed].healingAttempts)],
           root := s.root[newcomer := s.root[failed]],
           heals := s.heals + [Replace(s.root[failed], failed, newcomer)],
           phase := Idle)
      else s
    case Elsewhere(foreign, now) => s.(foreign := foreign, now := now)
  }

  /** A run: the events and the states around them. */
  datatype Run = Run(events: seq<Event>, states: seq<State>)

  predicate StepAt(l: Limits, h: Run, n: nat) {
    && n < |h.events| && n + 1 < |h.states|
    && Enabled(l, h.states[n], h.events[n]) && h.states[n + 1] == Step(h.states[n], h.events[n])
  }

  ghost predicate Legal(l: Limits, h: Run) {
    && |h.states| == |h.events| + 1 && h.states[0] == NOTHING
    && forall n: nat {:trigger StepAt(l, h, n)} | n < |h.events| :: StepAt(l, h, n)
  }

  function Last(h: Run): State {
    if h.states == [] then NOTHING else h.states[|h.states| - 1]
  }

  const START := Run([], [NOTHING])

  function Then(h: Run, e: Event): Run {
    Run(h.events + [e], h.states + [Step(Last(h), e)])
  }

  lemma Extend(l: Limits, h: Run, e: Event)
    requires Legal(l, h) && Enabled(l, Last(h), e)
    ensures Legal(l, Then(h, e)) && Last(Then(h, e)) == Step(Last(h), e)
  {
    var h' := Then(h, e);
    forall n: nat | n < |h'.events| ensures StepAt(l, h', n) {
      assert n < |h.events| ==> StepAt(l, h, n);
    }
  }

  /** What the current healing attempt may rely on. */
  ghost predicate PhaseOk(l: Limits, s: State)
    requires s.rows.Keys == s.root.Keys
  {
    match s.phase
    case Idle => true
    case Counted(id) =>
      && id in s.rows && s.rows[id].lastHealingAt.Some? && s.rows[id].lastHealingAt.value <= s.now
      && Rested(s.heals, id, l.cooldown, s.rows[id].lastHealingAt.value)
      && (Alive(s.rows, id) ==> Restarts(s.heals, s.root[id]) < s.rows[id].healingAttempts)
    case Retrying(id) =>
      && id in s.rows
      && Replacements(s.heals, s.root[id]) < Restarts(s.heals, s.root[id]) <= s.rows[id].healingAttempts
      && (forall i | i in s.rows && s.root[i] == s.root[id] && i != id :: s.rows[i].status == Failed)
  }

  ghost predicate Sound(l: Limits, s: State) {
    && SlotsDistinct(s.rows, s.foreign)
    && Lineage.Ok(l, LedgerOf(s))
    && PhaseOk(l, s)
  }

  lemma InsertSound(l: Limits, s: State, e: Event)
    requires Sound(l, s) && Enabled(l, s, e) && e.Inserted?
    ensures Sound(l, Step(s, e))
  {
    var row := NewRow(e.release, e.slot, s.now);
    InsertKeepsSlots(s.rows, s.foreign, s.next, row);
    InsertKeeps(l, LedgerOf(s), s.next, row);
    InsertKeepsPhase(l, s, row);
  }

  lemma InsertKeepsPhase(l: Limits, s: State, row: Instance)
    requires Rooted(s.rows, s.next, s.root, s.heals) && PhaseOk(l, s)
    ensures PhaseOk(l, s.(rows := s.rows[s.next := row], root := s.root[s.next := s.next],
                          next := s.next + 1))
  {
    if s.phase.Retrying? {
      assert s.root[s.phase.id] <= s.phase.id < s.next;
    }
  }

  lemma StatusKeepsRows(l: Limits, s: State, id: nat, target: InstanceStatus)
    requires SlotsDistinct(s.rows, s.foreign) && id in s.rows
    requires Lineage.Ok(l, LedgerOf(s))
    requires Terminal(s.rows[id].status) ==> target == s.rows[id].status
    ensures SlotsDistinct(s.rows[id := s.rows[id].(status := target)], s.foreign)
    ensures Lineage.Ok(l, LedgerOf(s.(rows := s.rows[id := s.rows[id].(status := target)])))
  {
    var row := s.rows[id].(status := target);
    assert row.healingAttempts <= Bound(l.maxAttempts);
    MoveKeepsSlots(s.rows, s.foreign, id, row);
    UpdateKeeps(l, LedgerOf(s), id, row);
  }

  lemma StatusKeepsPhase(l: Limits, s: State, id: nat, target: InstanceStatus)
    requires s.rows.Keys == s.root.Keys && PhaseOk(l, s) && id in s.rows
    requires s.rows[id].status == Failed ==> target == Failed
    ensures PhaseOk(l, s.(rows := s.rows[id := s.rows[id].(status := target)]))
  {
  }

  lemma MoveSound(l: Limits, s: State, e: Event)
    requires Sound(l, s) && Enabled(l, s, e) && e.Moved?
    ensures Sound(l, Step(s, e))
  {
    StatusKeepsRows(l, s, e.id, e.target);
    StatusKeepsPhase(l, s, e.id, e.target);
  }

  lemma CountSound(l: Limits, s: State, e: Event)
    requires Sound(l, s) && Enabled(l, s, e) && e.CountedAttempt?
    ensures Sound(l, Step(s, e))
  {
    CountKeepsRows(l, s, e.id);
    CountRested(l, s, e.id);
    CountKeepsBound(s, e.id, Bound(l.maxAttempts));
  }

  lemma CountKeepsBound(s: State, id: nat, bound: nat)
    requires s.rows.Keys == s.root.Keys && Bounded(s.rows, s.root, s.heals, bound) && id in s.rows
    ensures s.rows[id].status != Failed ==> Restarts(s.heals, s.root[id]) <= s.rows[id].healingAttempts
  {
    assert s.rows[id].status != Failed ==> Alive(s.rows, id);
  }

  lemma CountKeepsRows(l: Limits, s: State, id: nat)
    requires SlotsDistinct(s.rows, s.foreign) && id in s.rows
    requires Lineage.Ok(l, LedgerOf(s))
    requires s.rows[id].healingAttempts + 1 <= Bound(l.maxAttempts)
    ensures SlotsDistinct(s.rows[id := Attempted(s.rows[id], s.now)], s.foreign)
    ensures Lineage.Ok(l, LedgerOf(s.(rows := s.rows[id := Attempted(s.rows[id], s.now)])))
  {
    MoveKeepsSlots(s.rows, s.foreign, id, Attempted(s.rows[id], s.now));
    UpdateKeeps(l, LedgerOf(s), id,
                Attempted(s.rows[id], s.now));
  }

  lemma CountRested(l: Limits, s: State, id: nat)
    requires Cooled(s.rows, s.heals, l.cooldown, s.now) && id in s.rows
    requires s.rows[id].lastHealingAt.Some? ==> s.now - s.rows[id].lastHealingAt.value >= l.cooldown
    ensures Rested(s.heals, id, l.cooldown, s.now)
  {
  }

  lemma RestartSound(l: Limits, s: State, e: Event)
    requires Sound(l, s) && Enabled(l, s, e) && e.Retried?
    ensures Sound(l, Step(s, e))
  {
    var id := e.id;
    assert Alive(s.rows, id);
    StatusKeepsRows(l, s, id, Restarting);
    StatusKeepsPhase(l, s, id, Restarting);
    RestartFromCounted(l, s.(rows := s.rows[id := s.rows[id].(status := Restarting)]), id);
  }

  lemma RestartFromCounted(l: Limits, s: State, id: nat)
    requires Lineage.Ok(l, LedgerOf(s))
    requires s.phase == Counted(id) && PhaseOk(l, s) && Alive(s.rows, id)
    ensures var heals := s.heals + [Restart(s.root[id], id, s.rows[id].lastHealingAt.value)];
            && Lineage.Ok(l, LedgerOf(s.(heals := heals)))
            && PhaseOk(l, s.(heals := heals, phase := Retrying(id)))
  {
    RestartKeeps(l, LedgerOf(s), id);
    CountAppend(s.heals, Restart(s.root[id], id, s.rows[id].lastHealingAt.value), s.root[id]);
    forall i | i in s.rows && s.root[i] == s.root[id] && i != id ensures s.rows[i].status == Failed {
      assert Alive(s.rows, i) ==> i == id;
    }
  }

  lemma ReplaceSound(l: Limits, s: State, e: Event)
    requires Sound(l, s) && Enabled(l, s, e) && e.Replacing?
    ensures Sound(l, Step(s, e))
  {
    var newcomer := s.rows[e.newcomer].(healingAttempts := s.rows[e.failed].healingAttempts);
    MoveKeepsSlots(s.rows, s.foreign, e.newcomer, newcomer);
    ReplaceKeeps(l, LedgerOf(s), e.failed, e.newcomer);
  }

  lemma ElsewhereSound(l: Limits, s: State, e: Event)
    requires Sound(l, s) && Enabled(l, s, e) && e.Elsewhere?
    ensures Sound(l, Step(s, e))
  {
    TimePasses(l, LedgerOf(s), e.now);
  }

  lemma StepSound(l: Limits, s: State, e: Event)
    requires Sound(l, s) && Enabled(l, s, e)
    ensures Sound(l, Step(s, e))
  {
    match e {
      case Inserted(_, _) => InsertSound(l, s, e);
      case Moved(_, _) => MoveSound(l, s, e);
      case CountedAttempt(_) => CountSound(l, s, e);
      case Retried(_) => RestartSound(l, s, e);
      case Replacing(_, _) => ReplaceSound(l, s, e);
      case Elsewhere(_, _) => ElsewhereSound(l, s, e);
    }
  }

  /** Every state of every legal run is sound. */
  lemma {:induction false} RunIsSound(l: Limits, h: Run, n: nat)
    requires Legal(l, h) && n < |h.states|
    ensures Sound(l, h.states[n])
  {
    if n == 0 {
      assert forall r :: Restarts([], r) == 0 && Replacements([], r) == 0;
    } else {
      RunIsSound(l, h, n - 1);
      assert StepAt(l, h, n - 1);
      StepSound(l, h.states[n - 1], h.events[n - 1]);
    }
  }

  /** Over every run - any pipelines, any interference, any crash - no two
      non-terminal instances share a server and port. */
  lemma PortsNeverShared(l: Limits, h: Run, n: nat, i: nat, j: nat)
    requires Legal(l, h) && n < |h.states|
    requires Occupies(h.states[n].rows, i) && Occupies(h.states[n].rows, j) && i != j
    ensures h.states[n].rows[i].slot != h.states[n].rows[j].slot
    ensures h.states[n].rows[i].slot !in h.states[n].foreign
  {
    RunIsSound(l, h, n);
  }

  /** Healing is bounded: a lineage receives at most the configured number of
      restarts and of replacements, at most one member is not FAILED, and two
      restarts of one instance are at least the cooldown apart. */
  lemma HealingIsBounded(l: Limits, h: Run, n: nat, r: nat)
    requires Legal(l, h) && n < |h.states|
    ensures var s := h.states[n];
            && Restarts(s.heals, r) <= Bound(l.maxAttempts)
            && Replacements(s.heals, r) <= Bound(l.maxAttempts)
            && s.rows.Keys == s.root.Keys
            && (forall i, j | Alive(s.rows, i) && Alive(s.rows, j) && s.root[i] == s.root[j] :: i == j)
            && (forall k, m | 0 <= k < m < |s.heals| && s.heals[k].Restart? && s.heals[m].Restart?
                  && s.heals[k].id == s.heals[m].id :: s.heals[m].at - s.heals[k].at >= l.cooldown)
  {
    RunIsSound(l, h, n);
  }

  lemma IdBelowNext(l: Limits, h: Run, id: nat)
    requires Legal(l, h)
    ensures id in Last(h).rows ==> id < Last(h).next
    ensures Last(h).next !in Last(h).rows
  {
    RunIsSound(l, h, |h.states| - 1);
  }

  lemma CountedRow(l: Limits, h: Run, id: nat)
    requires Legal(l, h) && id in Last(h).rows
    ensures id in Last(h).root
    ensures Last(h).phase == Counted(id) ==> Last(h).rows[id].lastHealingAt.Some?
  {
    RunIsSound(l, h, |h.states| - 1);
  }

  lemma StepKeepsTerminal(l: Limits, s: State, e: Event, id: nat)
    requires Enabled(l, s, e) && id in s.rows && id < s.next && Terminal(s.rows[id].status)
    ensures id in Step(s, e).rows && Step(s, e).rows[id].status == s.rows[id].status
  {
  }

  /** FAILED and STOPPED are for good: no run brings an instance back. */
  lemma {:induction false} TerminalIsForGood(l: Limits, h: Run, n: nat, m: nat, id: nat)
    requires Legal(l, h) && n <= m < |h.states|
    requires id in h.states[n].rows && Terminal(h.states[n].rows[id].status)
    ensures id in h.states[m].rows && h.states[m].rows[id].status == h.states[n].rows[id].status
  {
    if n == m {
    } else {
      TerminalIsForGood(l, h, n, m - 1, id);
      RunIsSound(l, h, m - 1);
      assert StepAt(l, h, m - 1);
      assert id < h.states[m - 1].next;
      StepKeepsTerminal(l, h.states[m - 1], h.events[m - 1], id);
    }
  }
}
