/** The control plane's command table: submission by idempotency key, delivery,
    agent reports checked against the status table, and the expiry sweep. */
module Commands {
  import opened Common
  import opened StateMachines

  datatype Detail = NoDetail | ResultDetail(result: string) | ErrorDetail(error: string)

  datatype Event = Event(status: CommandStatus, detail: Detail, occurredAt: int)

  datatype Command = Command(
    agent: nat, key: string, status: CommandStatus, expiresAt: Option<int>,
    result: Option<string>, error: Option<string>, events: seq<Event>)

  /** What one agent.command_event carries. */
  datatype Report = Report(
    status: CommandStatus, result: Option<string>, error: Option<string>, occurredAt: int)

  type Table = map<nat, Command>

  function DetailOf(r: Report): Detail {
    if r.result.Some? then ResultDetail(r.result.value)
    else if r.error.Some? && r.error.value != "" then ErrorDetail(r.error.value)
    else NoDetail
  }

  /** `record_event` on a row the table lets move. */
  function Recorded(c: Command, r: Report): Command {
    c.(status := r.status,
       result := if r.result.Some? then r.result else c.result,
       error := if r.error.Some? then r.error else c.error,
       events := c.events + [Event(r.status, DetailOf(r), r.occurredAt)])
  }

  /** Not yet terminal and past its deadline. */
  predicate Overdue(c: Command, now: int) {
    && c.status in {CPending, CSent, CAcknowledged, CRunning}
    && c.expiresAt.Some? && c.expiresAt.value < now
  }

  function SweepTarget(c: Command): CommandStatus {
    if c.status == CPending then CExpired else CTimedOut
  }

  function SweptRow(c: Command, now: int): Command {
    if Overdue(c, now) then
      c.(status := SweepTarget(c), events := c.events + [Event(SweepTarget(c), NoDetail, now)])
    else c
  }

  function Swept(t: Table, now: int): Table {
    map id | id in t :: SweptRow(t[id], now)
  }

  function OverdueBelow(t: Table, now: int, n: nat): set<nat> {
    set id | id in t && id < n && Overdue(t[id], now)
  }

  lemma OverdueBelowStep(t: Table, now: int, n: nat)
    ensures |OverdueBelow(t, now, n + 1)| ==
            |OverdueBelow(t, now, n)| + if n in t && Overdue(t[n], now) then 1 else 0
  {
    var step := if n in t && Overdue(t[n], now) then {n} else {};
    assert OverdueBelow(t, now, n + 1) == OverdueBelow(t, now, n) + step;
  }

  lemma SweepKeepsKeys(t: Table, now: int)
    requires KeysUnique(t)
    ensures KeysUnique(Swept(t, now))
  {
    assert forall id | id in t :: Swept(t, now)[id].key == t[id].key;
  }

  predicate PendingFor(c: Command, agent: nat) {
    c.agent == agent && c.status == CPending
  }

  /** SENT written to every row that was PENDING for the agent when `listed`. */
  function Delivered(t: Table, listed: Table, agent: nat): Table {
    map id | id in t :: DeliveredRow(t, listed, agent, id)
  }

  function DeliveredRow(t: Table, listed: Table, agent: nat, id: nat): Command
    requires id in t
  {
    if id in listed && PendingFor(listed[id], agent) then t[id].(status := CSent) else t[id]
  }

  ghost predicate KeysUnique(t: Table) {
    forall i, j | i in t && j in t && t[i].key == t[j].key :: i == j
  }

  lemma DeliveredKeepsKeys(s: State, listed: Table, agent: nat)
    requires Ok(s)
    ensures Ok(s.(commands := Delivered(s.commands, listed, agent)))
  {
  }

  /** The rows with smaller ids delivered, the others as they were. */
  ghost predicate DeliveredBelow(t: Table, t': Table, listed: Table, agent: nat, n: nat) {
    && t'.Keys == t.Keys
    && forall i | i in t :: t'[i] == if i < n then DeliveredRow(t, listed, agent, i) else t[i]
  }

  function NewCommand(agent: nat, key: string, expiresAt: int): Command {
    Command(agent, key, CPending, Some(expiresAt), None, None, [])
  }

  class CommandTable {
    var commands: Table
    var nextId: nat

    ghost predicate Valid()
      reads this
    {
      KeysUnique(commands) && IdsBelow()
    }

    ghost predicate IdsBelow()
      reads this
    {
      forall id | id in commands :: id < nextId
    }

    constructor ()
      ensures Valid() && commands == map[]
    {
      commands, nextId := map[], 0;
    }

    method FindByKey(key: string) returns (r: Option<nat>)
      requires Valid()
      ensures r.Some? ==> r.value in commands && commands[r.value].key == key
      ensures r.None? ==> forall id | id in commands :: commands[id].key != key
    {
      for id := 0 to nextId
        invariant forall i | 0 <= i < id && i in commands :: commands[i].key != key
      {
        if id in commands && commands[id].key == key {
          return Some(id);
        }
      }
      return None;
    }

    /** The table as the step relation sees it. */
    function Value(): State
      reads this
    {
      State(commands, nextId)
    }

    /** Resubmitting a key changes nothing and answers with the existing row.  A new
        row is committed, loaded again for the envelope, and sent.  SENT is checked
        on that copy: it raises exactly if another session moved the row `before` it
        was loaded, and overwrites whatever others committed `during` the send. */
    method Submit(agent: nat, key: string, now: int, ttl: int, connected: bool, before: seq<Op>, during: seq<Op>)
      returns (id: nat, raised: bool)
      requires Valid()
      modifies this
      ensures Valid() && id in commands && commands[id].key == key
      ensures (exists i :: i in old(commands) && old(commands)[i].key == key) ==>
                id in old(commands) && Value() == old(Value()) && !raised
      ensures (forall i | i in old(commands) :: old(commands)[i].key != key) ==>
                var created := ApplyOp(old(Value()), Create(agent, key, now + ttl));
                var loaded := Run(created, before);
                && id == old(nextId) && id !in old(commands) && id in loaded.commands
                && (raised <==> connected && loaded.commands[id].status != CPending)
                && Value() == if !connected then created
                              else ApplyOp(Run(loaded, during), MarkSent(id, loaded.commands[id].status))
    {
      var existing := FindByKey(key);
      if existing.Some? {
        return existing.value, false;
      }
      id, raised := nextId, false;
      var created := ApplyOp(Value(), Create(agent, key, now + ttl));
      StepKeepsKeys(Value(), Create(agent, key, now + ttl));
      RunKeepsKeys(created, before);
      commands, nextId := created.commands, created.next;
      if connected {
        raised := Send(id, Run(created, before), during);
      }
    }

    /** The send and the move to SENT, of a row loaded in state `loaded`. */
    method Send(id: nat, loaded: State, during: seq<Op>) returns (raised: bool)
      requires Ok(loaded) && id in loaded.commands
      modifies this
      ensures Valid() && id in commands && commands[id].key == loaded.commands[id].key
      ensures raised <==> loaded.commands[id].status != CPending
      ensures Value() == ApplyOp(Run(loaded, during), MarkSent(id, loaded.commands[id].status))
    {
      var copy := loaded.commands[id];
      RunKeepsKeys(loaded, during);
      var sent := Run(loaded, during);
      StepKeepsKeys(sent, MarkSent(id, copy.status));
      commands, nextId := sent.commands, sent.next;
      raised := !CanMoveCommand(copy.status, CSent);
      if !raised {
        commands := commands[id := commands[id].(status := CSent)];
      }
    }

    /** Every row listed as PENDING is sent, and SENT on the one commit after that,
        whatever other sessions committed `during` the sends. */
    method DeliverPending(agent: nat, connected: bool, during: seq<Op>)
      requires Valid()
      modifies this
      ensures Valid()
      ensures if !connected then Value() == old(Value())
              else var sent := Run(old(Value()), during);
                && commands == Delivered(sent.commands, old(commands), agent) && nextId == sent.next
    {
      if !connected {
        return;
      }
      RunKeepsKeys(Value(), during);
      var listed := commands;
      var sent := Run(Value(), during);
      DeliveredKeepsKeys(sent, listed, agent);
      commands, nextId := sent.commands, sent.next;
      for id := 0 to nextId
        invariant nextId == sent.next && DeliveredBelow(sent.commands, commands, listed, agent, id)
      {
        if id in commands && id in listed && PendingFor(listed[id], agent) {
          commands := commands[id := commands[id].(status := CSent)];
        }
      }
      assert commands == Delivered(sent.commands, listed, agent);
    }

    /** False is InvalidTransition: nothing is written. */
    method RecordEvent(id: nat, r: Report) returns (ok: bool)
      requires Valid() && id in commands
      modifies this`commands
      ensures Valid()
      ensures ok <==> CanMoveCommand(old(commands)[id].status, r.status)
      ensures commands == if ok then old(commands)[id := Recorded(old(commands)[id], r)]
                          else old(commands)
      ensures Value() == ApplyOp(old(Value()), Receive(id, r, old(commands)[id].status))
    {
      var c := commands[id];
      if !CanMoveCommand(c.status, r.status) {
        return false;
      }
      c := c.(status := r.status);
      if r.result.Some? {
        c := c.(result := r.result);
      }
      if r.error.Some? {
        c := c.(error := r.error);
      }
      c := c.(events := c.events + [Event(r.status, DetailOf(r), r.occurredAt)]);
      commands := commands[id := c];
      return true;
    }

    method SweepRows(now: int) returns (count: nat, refused: bool)
      requires IdsBelow()
      modifies this`commands
      ensures !refused
      ensures commands == Swept(old(commands), now)
      ensures count == |OverdueBelow(old(commands), now, nextId)|
    {
      ghost var before := commands;
      count, refused := 0, false;
      for id := 0 to nextId
        invariant !refused && commands.Keys == before.Keys
        invariant forall i | i in before ::
            commands[i] == if i < id then SweptRow(before[i], now) else before[i]
        invariant count == |OverdueBelow(before, now, id)|
      {
        OverdueBelowStep(before, now, id);
        if id in commands && Overdue(commands[id], now) {
          var c := commands[id];
          if !CanMoveCommand(c.status, SweepTarget(c)) {
            refused := true;
            return;
          }
          commands := commands[id := SweptRow(c, now)];
          count := count + 1;
        }
      }
      assert commands == Swept(before, now);
    }

    /** The sweep; `refused` would be an InvalidTransition and never happens. */
    method ExpireOverdue(now: int) returns (count: nat, refused: bool)
      requires Valid()
      modifies this`commands
      ensures Valid() && !refused
      ensures commands == Swept(old(commands), now)
      ensures Value() == ApplyOp(old(Value()), Sweep(now, old(commands)))
      ensures count == |OverdueBelow(old(commands), now, nextId)|
    {
      PromptSweep(commands, now);
      SweepKeepsKeys(commands, now);
      count, refused := SweepRows(now);
    }
  }

  // ---- Whole runs -------------------------------------------------------

  /** One committed step of the table.  A write is checked on the copy its session
      has `seen` and lands on the row as it is by then: no session locks or
      refreshes a row it has loaded. */
  datatype Op =
    | Create(agent: nat, key: string, expiresAt: int)
    | MarkSent(id: nat, seen: CommandStatus)
    | Receive(id: nat, report: Report, seen: CommandStatus)
    | Sweep(now: int, listed: Table)

  datatype State = State(commands: Table, next: nat)

  /** The sweep's writes, of the rows that were overdue when listed. */
  function SweptBy(t: Table, listed: Table, now: int): Table {
    map id | id in t ::
      if id in listed && Overdue(listed[id], now) then
        t[id].(status := SweepTarget(listed[id]),
               events := t[id].events + [Event(SweepTarget(listed[id]), NoDetail, now)])
      else t[id]
  }

  lemma PromptSweep(t: Table, now: int)
    ensures SweptBy(t, t, now) == Swept(t, now)
  {
  }

  function ApplyOp(s: State, op: Op): State {
    match op
    case Create(agent, key, expiresAt) =>
      if exists id | id in s.commands :: s.commands[id].key == key then s
      else State(s.commands[s.next := NewCommand(agent, key, expiresAt)], s.next + 1)
    case MarkSent(id, seen) =>
      if id in s.commands && CanMoveCommand(seen, CSent)
      then s.(commands := s.commands[id := s.commands[id].(status := CSent)]) else s
    case Receive(id, r, seen) =>
      if id in s.commands && CanMoveCommand(seen, r.status)
      then s.(commands := s.commands[id := Recorded(s.commands[id], r)]) else s
    case Sweep(now, listed) => s.(commands := SweptBy(s.commands, listed, now))
  }

  function Run(s: State, ops: seq<Op>): State
    decreases |ops|
  {
    if ops == [] then s else Run(ApplyOp(s, ops[0]), ops[1..])
  }

  ghost predicate Ok(s: State) {
    KeysUnique(s.commands) && forall id | id in s.commands :: id < s.next
  }

  /** Keys stay unique and identities stable. */
  lemma StepKeepsKeys(s: State, op: Op)
    requires Ok(s)
    ensures Ok(ApplyOp(s, op))
    ensures forall id | id in s.commands ::
              id in ApplyOp(s, op).commands && ApplyOp(s, op).commands[id].key == s.commands[id].key
    ensures op.Create? ==> exists id | id in ApplyOp(s, op).commands ::
              ApplyOp(s, op).commands[id].key == op.key
  {
    match op {
      case Create(agent, key, expiresAt) =>
        if forall id | id in s.commands :: s.commands[id].key != key {
          assert s.next in ApplyOp(s, op).commands;
          assert ApplyOp(s, op).commands[s.next].key == key;
        }
      case _ =>
    }
  }

  lemma {:induction false} RunKeepsKeys(s: State, ops: seq<Op>)
    requires Ok(s)
    ensures Ok(Run(s, ops))
    ensures forall id | id in s.commands ::
              id in Run(s, ops).commands && Run(s, ops).commands[id].key == s.commands[id].key
    decreases |ops|
  {
    if ops == [] {
    } else {
      StepKeepsKeys(s, ops[0]);
      RunKeepsKeys(ApplyOp(s, ops[0]), ops[1..]);
    }
  }

  /** Resubmitting a key after any run is a no-op. */
  lemma ResubmitIsIdempotent(s: State, op: Op, ops: seq<Op>, again: Op)
    requires Ok(s) && op.Create? && again.Create? && again.key == op.key
    ensures var t := Run(ApplyOp(s, op), ops); ApplyOp(t, again) == t
  {
    StepKeepsKeys(s, op);
    var s' := ApplyOp(s, op);
    var id :| id in s'.commands && s'.commands[id].key == op.key;
    RunKeepsKeys(s', ops);
  }

  // ---- Terminal rows ----------------------------------------------------

  /** The copy the operation's session loaded is the row as it was in state s. */
  predicate SeenIn(op: Op, s: State) {
    match op
    case Create(_, _, _) => true
    case MarkSent(id, seen) => id in s.commands && s.commands[id].status == seen
    case Receive(id, _, seen) => id in s.commands && s.commands[id].status == seen
    case Sweep(_, listed) => listed == s.commands
  }

  /** Operation k was committed after state k, by a session that had loaded its
      rows in state `loads[k]`. */
  predicate StepAt(ops: seq<Op>, loads: seq<nat>, states: seq<State>, k: nat) {
    && k < |ops| && k < |loads| && k + 1 < |states| && loads[k] <= k
    && SeenIn(ops[k], states[loads[k]]) && states[k + 1] == ApplyOp(states[k], ops[k])
  }

  ghost predicate IsRun(ops: seq<Op>, loads: seq<nat>, states: seq<State>) {
    && |loads| == |ops| && |states| == |ops| + 1
    && forall k: nat {:trigger StepAt(ops, loads, states, k)} | k < |ops| :: StepAt(ops, loads, states, k)
  }

  /** What its session has seen lets the operation write row id. */
  predicate Writes(op: Op, id: nat) {
    match op
    case Create(_, _, _) => false
    case MarkSent(i, seen) => i == id && CanMoveCommand(seen, CSent)
    case Receive(i, r, seen) => i == id && CanMoveCommand(seen, r.status)
    case Sweep(now, listed) => id in listed && Overdue(listed[id], now)
  }

  /** To a terminal row every write is a change. */
  lemma WriteChanges(s: State, op: Op, id: nat)
    requires id in s.commands && CommandTerminal(s.commands[id].status) && Ok(s)
    ensures id in ApplyOp(s, op).commands
    ensures ApplyOp(s, op).commands[id] == s.commands[id] <==> !Writes(op, id)
  {
    var c := s.commands[id];
    assert forall e :: |c.events + [e]| == |c.events| + 1;
  }

  predicate KeptAt(states: seq<State>, n: nat, j: nat, id: nat) {
    && n < |states| && j < |states| && id in states[n].commands && id in states[j].commands
    && states[j].commands[id] == states[n].commands[id]
  }

  lemma LoadedTerminal(op: Op, s: State, id: nat)
    requires id in s.commands && CommandTerminal(s.commands[id].status) && SeenIn(op, s)
    ensures !Writes(op, id)
  {
  }

  lemma {:induction false} RunStaysOk(ops: seq<Op>, loads: seq<nat>, states: seq<State>, n: nat)
    requires IsRun(ops, loads, states) && Ok(states[0]) && n < |states|
    ensures Ok(states[n])
  {
    if n == 0 {
    } else {
      RunStaysOk(ops, loads, states, n - 1);
      assert StepAt(ops, loads, states, n - 1);
      StepKeepsKeys(states[n - 1], ops[n - 1]);
    }
  }

  /** Exactly when a terminal command keeps status, result, error and events, over
      every run from moment n to moment m: when no session that loaded the row
      before it turned terminal writes it afterwards. */
  lemma {:induction false} TerminalIsFinal(
    ops: seq<Op>, loads: seq<nat>, states: seq<State>, n: nat, m: nat, id: nat)
    requires IsRun(ops, loads, states) && Ok(states[0]) && n <= m < |states|
    requires id in states[n].commands && CommandTerminal(states[n].commands[id].status)
    ensures (forall j: nat | n <= j <= m :: KeptAt(states, n, j, id)) <==>
            (forall k: nat | n <= k < m && loads[k] < n :: !Writes(ops[k], id))
  {
    if n == m {
      assert KeptAt(states, n, n, id);
    } else {
      TerminalIsFinal(ops, loads, states, n, m - 1, id);
      if forall j: nat | n <= j <= m - 1 :: KeptAt(states, n, j, id) {
        assert StepAt(ops, loads, states, m - 1) && KeptAt(states, n, m - 1, id);
        RunStaysOk(ops, loads, states, m - 1);
        WriteChanges(states[m - 1], ops[m - 1], id);
        if loads[m - 1] >= n {
          assert KeptAt(states, n, loads[m - 1], id);
          LoadedTerminal(ops[m - 1], states[loads[m - 1]], id);
        }
        assert KeptAt(states, n, m, id) <==> !Writes(ops[m - 1], id);
      }
    }
  }

  /** A command whose deadline passes while it is being sent: the sweep expires it,
      and SENT, checked on the copy loaded before, brings it back. */
  lemma ExpiredIsSentAgain()
    ensures exists ops: seq<Op>, loads: seq<nat>, states: seq<State> ::
              && IsRun(ops, loads, states) && states[0] == State(map[], 0) && |states| == 4
              && 0 in states[2].commands && states[2].commands[0].status == CExpired
              && 0 in states[3].commands && states[3].commands[0].status == CSent
  {
    var s0, c := State(map[], 0), NewCommand(1, "deploy", 0);
    var s1 := State(map[0 := c], 1);
    var ops := [Create(1, "deploy", 0), Sweep(1, s1.commands), MarkSent(0, CPending)];
    var loads, states := [0, 1, 1], [s0, s1, ApplyOp(s1, ops[1]), ApplyOp(ApplyOp(s1, ops[1]), ops[2])];
    assert ApplyOp(s0, ops[0]) == s1;
    assert StepAt(ops, loads, states, 0) && StepAt(ops, loads, states, 1) && StepAt(ops, loads, states, 2);
    assert IsRun(ops, loads, states);
  }

  /** Every status the sweep requests is in the table, a second sweep at the
      same time finds nothing, and it leaves no overdue command behind. */
  lemma SweepIsLegalAndIdempotent(t: Table, now: int)
    ensures Swept(t, now).Keys == t.Keys
    ensures forall id | id in t && Swept(t, now)[id] != t[id] ::
              CanMoveCommand(t[id].status, Swept(t, now)[id].status)
    ensures forall id | id in t :: !Overdue(Swept(t, now)[id], now)
    ensures Swept(Swept(t, now), now) == Swept(t, now)
  {
    assert forall id | id in t :: SweptRow(SweptRow(t[id], now), now) == SweptRow(t[id], now);
  }

  // ---- The agent's emission order --------------------------------------

  /** Some initial part of acknowledged, running, one final status. */
  predicate EmissionPrefix(ss: seq<CommandStatus>) {
    && |ss| <= 3
    && (|ss| > 0 ==> ss[0] == CAcknowledged)
    && (|ss| > 1 ==> ss[1] == CRunning)
    && (|ss| > 2 ==> IsFinal(ss[2]))
  }

  predicate Accepts(from: CommandStatus, ss: seq<CommandStatus>)
    decreases |ss|
  {
    ss == [] || (CanMoveCommand(from, ss[0]) && Accepts(ss[0], ss[1..]))
  }

  lemma AcceptedFromRunning(ss: seq<CommandStatus>)
    ensures Accepts(CRunning, ss) <==> ss == [] || (|ss| == 1 && IsFinal(ss[0]))
  {
    assert |ss| > 1 && IsFinal(ss[0]) ==> !CanMoveCommand(ss[0], ss[1..][0]);
  }

  lemma AcceptedFromAcknowledged(ss: seq<CommandStatus>)
    ensures Accepts(CAcknowledged, ss) <==>
            || ss == []
            || (ss[0] == CRunning && (|ss| == 1 || (|ss| == 2 && IsFinal(ss[1]))))
            || (|ss| == 1 && ss[0] in {CFailed, CTimedOut})
  {
    if ss != [] {
      AcceptedFromRunning(ss[1..]);
      assert |ss| > 1 && IsFinal(ss[0]) ==> !CanMoveCommand(ss[0], ss[1..][0]);
    }
  }

  /** From SENT the table accepts exactly the agent's emission order, cut short
      anywhere, plus an early failure or timeout before running is reported. */
  lemma AcceptedFromSent(ss: seq<CommandStatus>)
    ensures Accepts(CSent, ss) <==>
            || EmissionPrefix(ss)
            || (|ss| == 1 && ss[0] in {CFailed, CTimedOut})
            || (|ss| == 2 && ss[0] == CAcknowledged && ss[1] in {CFailed, CTimedOut})
  {
    if ss != [] {
      AcceptedFromAcknowledged(ss[1..]);
      assert |ss| > 1 && IsFinal(ss[0]) ==> !CanMoveCommand(ss[0], ss[1..][0]);
    }
  }

  /** What reaches one command, in order. */
  datatype Arrival = Reported(r: Report) | SweptAt(now: int)

  /** The row after all of it; a refused report changes nothing. */
  function After(c: Command, xs: seq<Arrival>): Command
    decreases |xs|
  {
    if xs == [] then c
    else match xs[0]
      case Reported(r) => After(if CanMoveCommand(c.status, r.status) then Recorded(c, r) else c, xs[1..])
      case SweptAt(now) => After(SweptRow(c, now), xs[1..])
  }

  function Statuses(xs: seq<Arrival>): seq<CommandStatus>
    decreases |xs|
  {
    if xs == [] then []
    else (if xs[0].Reported? then [xs[0].r.status] else []) + Statuses(xs[1..])
  }

  /** No report in the list is refused. */
  predicate AllAccepted(c: Command, xs: seq<Arrival>)
    decreases |xs|
  {
    if xs == [] then true
    else match xs[0]
      case Reported(r) => CanMoveCommand(c.status, r.status) && AllAccepted(Recorded(c, r), xs[1..])
      case SweptAt(now) => AllAccepted(SweptRow(c, now), xs[1..])
  }

  predicate Late(expiresAt: Option<int>, now: int) {
    expiresAt.Some? && expiresAt.value < now
  }

  /** A sweep past the deadline comes before some report. */
  predicate SweepIntervenes(expiresAt: Option<int>, xs: seq<Arrival>)
    decreases |xs|
  {
    && xs != []
    && (|| (xs[0].SweptAt? && Late(expiresAt, xs[0].now) && Statuses(xs[1..]) != [])
        || SweepIntervenes(expiresAt, xs[1..]))
  }

  function EmittedStatus(k: nat): CommandStatus
    requires k <= 2
  {
    if k == 0 then CSent else if k == 1 then CAcknowledged else CRunning
  }

  /** `ss` is what may still follow the first k reports. */
  predicate Continues(k: nat, ss: seq<CommandStatus>) {
    if k == 0 then EmissionPrefix(ss)
    else if k == 1 then |ss| <= 2 && (|ss| > 0 ==> ss[0] == CRunning) && (|ss| > 1 ==> IsFinal(ss[1]))
    else if k == 2 then |ss| <= 1 && (|ss| > 0 ==> IsFinal(ss[0]))
    else ss == []
  }

  lemma {:induction false} NoReportsNothingRefused(c: Command, xs: seq<Arrival>)
    requires Statuses(xs) == []
    ensures AllAccepted(c, xs)
    ensures !SweepIntervenes(c.expiresAt, xs)
    decreases |xs|
  {
    if xs == [] {
    } else {
      assert !xs[0].Reported?;
      NoReportsNothingRefused(SweptRow(c, xs[0].now), xs[1..]);
    }
  }

  lemma {:induction false} OverRefuses(c: Command, xs: seq<Arrival>)
    requires c.status in {CTimedOut, CExpired} && Statuses(xs) != []
    ensures !AllAccepted(c, xs)
    decreases |xs|
  {
    if xs == [] {
    } else if !xs[0].Reported? {
      OverRefuses(SweptRow(c, xs[0].now), xs[1..]);
    }
  }

  lemma {:induction false} EmissionAcceptedFrom(c: Command, k: nat, xs: seq<Arrival>)
    requires k <= 2 && c.status == EmittedStatus(k) && Continues(k, Statuses(xs))
    ensures AllAccepted(c, xs) <==> !SweepIntervenes(c.expiresAt, xs)
    decreases |xs|
  {
    if xs == [] {
    } else if xs[0].Reported? {
      var r := xs[0].r;
      assert Statuses(xs)[1..] == Statuses(xs[1..]);
      if k < 2 {
        EmissionAcceptedFrom(Recorded(c, r), k + 1, xs[1..]);
      } else {
        NoReportsNothingRefused(Recorded(c, r), xs[1..]);
      }
    } else if Statuses(xs[1..]) == [] {
      NoReportsNothingRefused(SweptRow(c, xs[0].now), xs[1..]);
    } else if Overdue(c, xs[0].now) {
      OverRefuses(SweptRow(c, xs[0].now), xs[1..]);
    } else {
      EmissionAcceptedFrom(c, k, xs[1..]);
    }
  }

  /** A SENT command accepts the agent's reports, in emission order and however
      many of them arrive, exactly until a sweep past the deadline gets between. */
  lemma EmissionAcceptedUntilSweep(c: Command, xs: seq<Arrival>)
    requires c.status == CSent && EmissionPrefix(Statuses(xs))
    ensures AllAccepted(c, xs) <==> !SweepIntervenes(c.expiresAt, xs)
  {
    EmissionAcceptedFrom(c, 0, xs);
  }

  /** Some sweep in the list comes past the deadline. */
  predicate SweptLate(expiresAt: Option<int>, xs: seq<Arrival>) {
    exists i | 0 <= i < |xs| :: xs[i].SweptAt? && Late(expiresAt, xs[i].now)
  }

  lemma {:induction false} SweptUnsent(c: Command, xs: seq<Arrival>)
    requires c.status in {CPending, CExpired} && Statuses(xs) == []
    ensures After(c, xs).expiresAt == c.expiresAt
    ensures After(c, xs).status == if c.status == CPending && SweptLate(c.expiresAt, xs) then CExpired else c.status
    decreases |xs|
  {
    if xs == [] {
    } else {
      assert !xs[0].Reported?;
      SweptUnsent(SweptRow(c, xs[0].now), xs[1..]);
      assert forall i | 1 <= i < |xs| :: xs[i] == xs[1..][i - 1];
      assert SweptLate(c.expiresAt, xs) <==> Late(c.expiresAt, xs[0].now) || SweptLate(c.expiresAt, xs[1..]);
    }
  }

  lemma {:induction false} UnsentRefuses(c: Command, xs: seq<Arrival>)
    requires c.status in {CPending, CExpired} && Statuses(xs) != [] && Statuses(xs)[0] == CAcknowledged
    ensures !AllAccepted(c, xs)
    decreases |xs|
  {
    if xs[0].Reported? {
    } else {
      UnsentRefuses(SweptRow(c, xs[0].now), xs[1..]);
    }
  }

  /** The row once SENT is written, from a copy loaded as `loaded`. */
  function SentFrom(loaded: Command, c: Command): Command {
    if CanMoveCommand(loaded.status, CSent) then c.(status := CSent) else c
  }

  /** From PENDING to the reports: sweeps `before` the row is loaded for sending,
      arrivals while it is `waiting` for SENT to be committed, and arrivals `later`.
      Every report of the agent is accepted exactly if none comes before SENT, no
      sweep past the deadline comes before the load, and none between SENT and a
      report.  One that comes while waiting is overwritten. */
  lemma AcceptedFromPending(c: Command, before: seq<Arrival>, waiting: seq<Arrival>, later: seq<Arrival>)
    requires c.status == CPending && Statuses(before) == []
    requires EmissionPrefix(Statuses(waiting) + Statuses(later)) && Statuses(waiting) + Statuses(later) != []
    ensures var loaded := After(c, before);
            AllAccepted(loaded, waiting) && AllAccepted(SentFrom(loaded, After(loaded, waiting)), later) <==>
            && Statuses(waiting) == [] && !SweptLate(c.expiresAt, before)
            && !SweepIntervenes(c.expiresAt, later)
  {
    var loaded := After(c, before);
    SweptUnsent(c, before);
    if Statuses(waiting) != [] {
      UnsentRefuses(loaded, waiting);
    } else {
      NoReportsNothingRefused(loaded, waiting);
      SweptUnsent(loaded, waiting);
      assert Statuses(waiting) + Statuses(later) == Statuses(later);
      var sent := SentFrom(loaded, After(loaded, waiting));
      if SweptLate(c.expiresAt, before) {
        OverRefuses(sent, later);
      } else {
        EmissionAcceptedFrom(sent, 0, later);
      }
    }
  }

  /** The row is sent before SENT is committed.  An acknowledgement that beats the
      commit is refused, which also ends the connection it came on; whatever
      connection the later reports come on, the success can no longer be recorded. */
  lemma EarlyAcknowledgementLosesSuccess(c: Command, ack: Report, running: Report, done: Report)
    requires c.status == CPending && ack.status == CAcknowledged
    requires running.status == CRunning && done.status == CSucceeded
    ensures !CanMoveCommand(c.status, ack.status)
    ensures var s := State(map[0 := c], 1);
            var ops := [Receive(0, ack, CPending), MarkSent(0, CPending),
                        Receive(0, running, CSent), Receive(0, done, CSent)];
            var t := Run(s, ops);
            0 in t.commands && t.commands[0] == c.(status := CSent)
  {
    var s := State(map[0 := c], 1);
    var ops := [Receive(0, ack, CPending), MarkSent(0, CPending), Receive(0, running, CSent), Receive(0, done, CSent)];
    var s1 := ApplyOp(s, ops[0]);
    var s2 := ApplyOp(s1, ops[1]);
    var s3 := ApplyOp(s2, ops[2]);
    assert s1 == s && s3 == s2;
    assert ops[1..] == [MarkSent(0, CPending), Receive(0, running, CSent), Receive(0, done, CSent)];
    assert ops[1..][1..] == [Receive(0, running, CSent), Receive(0, done, CSent)];
    assert ops[1..][1..][1..] == [Receive(0, done, CSent)];
    assert Run(s, ops) == Run(s2, ops[1..][1..]);
    assert Run(s2, ops[1..][1..]) == Run(s3, [Receive(0, done, CSent)]);
    assert Run(s3, [Receive(0, done, CSent)]) == Run(ApplyOp(s3, Receive(0, done, CSent)), []);
  }
}
