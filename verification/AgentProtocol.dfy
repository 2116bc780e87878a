/** The command protocol as one step relation: the agent's message handlers and
    executions at the granularity of their critical sections, the journal on
    disk, process crashes and reopening, redelivery, a lossy FIFO wire back, and
    the control plane's status table. */
module AgentProtocol {
  import opened Common
  import opened StateMachines
  import opened Journal

  /** Where a delivery is between its critical sections. */
  datatype Pc =
    | Admit                         // passed the journal check, about to take the in-flight lock
    | RecordReceived | SendAck      // in the handler
    | RecordRunning | SendRunning | Dispatch
    | RecordCompleted(final: CommandStatus) | SendFinal(final: CommandStatus)
    | Leave(finished: bool)         // about to drop its id from the in-flight set

  datatype Thread = Thread(id: nat, pc: Pc)

  datatype Message = Message(id: nat, status: CommandStatus)

  /** The journal file: its complete lines, and what follows the last newline. */
  datatype Disk = Disk(base: seq<byte>, frag: seq<byte>) {
    function File(): seq<byte> {
      base + frag
    }

    function Append(data: seq<byte>): Disk {
      if data != [] && Terminated(data) then Disk(base + frag + data, []) else Disk(base, frag + data)
    }
  }

  datatype World = World(
    up: bool, inFlight: set<nat>, mem: Entries, threads: map<nat, Thread>,
    disk: Disk, wire: seq<Message>, status: map<nat, CommandStatus>,
    // history: Completed records that returned, admissions of an id the journal
    // already had as Completed, completions forgotten by a reopening, ids whose
    // Completed record failed, whether any record failed, and ids whose last whole
    // line, one written in full onto a terminated file, says Completed
    completions: multiset<nat>, raced: multiset<nat>, lost: multiset<nat>,
    unrecorded: set<nat>, failedWrite: bool, settled: set<nat>)

  const START := World(
    false, {}, map[], map[], Disk([], []), [], map[],
    multiset{}, multiset{}, multiset{}, {}, false, {})

  predicate Done(mem: Entries, id: nat) {
    id in mem && mem[id] == Completed
  }

  function JournalStatus(pc: Pc): Status
    requires Recording(pc)
  {
    match pc
    case RecordReceived => Received
    case RecordRunning => Journal.Status.Running
    case RecordCompleted(_) => Completed
  }

  predicate Recording(pc: Pc) {
    pc.RecordReceived? || pc.RecordRunning? || pc.RecordCompleted?
  }

  datatype Event =
    | Create(id: nat)                                   // control plane commits a PENDING row
    | MarkSent(id: nat, seen: CommandStatus)            // checked on a copy loaded as `seen`
    | Expire(id: nat, seen: CommandStatus)              // the sweep reaches this row
    | Deliver(t: nat, id: nat)                          // a (re)delivery starts handleMessage
    | TakeInFlight(t: nat)
    | Record(t: nat, at: nat, ok: bool, written: nat)   // one call of Journal.Record
    | Send(t: nat, ok: bool)
    | Run(t: nat, final: CommandStatus)                 // the handler's work
    | DropInFlight(t: nat)
    | LoseWire(keep: nat)                               // a connection dies with messages unread
    | Receive(seen: CommandStatus)                      // control plane handles the oldest message
    | Crash(t: nat, at: nat, written: nat)              // possibly inside thread t's Record
    | Reopen

  predicate Enabled(c: Codec, w: World, e: Event) {
    match e
    case Create(id) => id !in w.status
    case MarkSent(id, _) => id in w.status
    case Expire(id, _) => id in w.status
    case Deliver(t, id) => w.up && t !in w.threads && id in w.status
    case TakeInFlight(t) => t in w.threads && w.threads[t].pc.Admit?
    case Record(t, at, ok, written) =>
      t in w.threads && Recording(w.threads[t].pc) && written <= |RecordLine(c, w.threads[t], at)|
    case Send(t, ok) =>
      t in w.threads
      && (w.threads[t].pc.SendAck? || w.threads[t].pc.SendRunning? || w.threads[t].pc.SendFinal?)
    case Run(t, final) => t in w.threads && w.threads[t].pc.Dispatch? && IsFinal(final)
    case DropInFlight(t) => t in w.threads && w.threads[t].pc.Leave?
    case LoseWire(keep) => keep <= |w.wire|
    case Receive(_) => w.wire != []
    case Crash(t, at, written) =>
      && w.up
      && (written > 0 ==>
            && t in w.threads && Recording(w.threads[t].pc)
            && written <= |RecordLine(c, w.threads[t], at)|)
    case Reopen => !w.up && Replay(c, w.disk.File()).Some?
  }

  function RecordEntry(th: Thread, at: nat): Entry
    requires Recording(th.pc)
  {
    Entry(th.id, JournalStatus(th.pc), at)
  }

  function RecordLine(c: Codec, th: Thread, at: nat): seq<byte>
    requires Recording(th.pc)
  {
    Line(c, RecordEntry(th, at))
  }

  /** After Record: the handler gives up on an error, the execution ignores it. */
  function AfterRecord(pc: Pc, ok: bool): Pc
    requires Recording(pc)
  {
    match pc
    case RecordReceived => if ok then SendAck else Leave(false)
    case RecordRunning => SendRunning
    case RecordCompleted(final) => SendFinal(final)
  }

  function AfterSend(pc: Pc, ok: bool): Pc
    requires pc.SendAck? || pc.SendRunning? || pc.SendFinal?
  {
    match pc
    case SendAck => if ok then RecordRunning else Leave(false)
    case SendRunning => Dispatch
    case SendFinal(_) => Leave(true)
  }

  function Sent(th: Thread): Message
    requires th.pc.SendAck? || th.pc.SendRunning? || th.pc.SendFinal?
  {
    Message(th.id, match th.pc case SendAck => CAcknowledged case SendRunning => CRunning
                               case SendFinal(final) => final)
  }

  /** A write that the table allows of the copy `seen`, whatever the row is by now. */
  function Moved(status: map<nat, CommandStatus>, id: nat, seen: CommandStatus, to: CommandStatus)
    : map<nat, CommandStatus>
  {
    if id in status && CanMoveCommand(seen, to) then status[id := to] else status
  }

  /** Completions the old process knew and the reopened one does not. */
  function Forgotten(completions: multiset<nat>, before: Entries, after: Entries): set<nat> {
    set id | id in before && Done(before, id) && completions[id] > 0 && !Done(after, id)
  }

  /** The settled ids once entry e is appended, in full or not. */
  function Settling(settled: set<nat>, d: Disk, e: Entry, whole: bool): set<nat> {
    if !whole || d.frag != [] then settled
    else if e.status == Completed then settled + {e.id} else settled - {e.id}
  }

  function Step(c: Codec, w: World, e: Event): World
    requires Enabled(c, w, e)
  {
    match e
    case Create(id) => w.(status := w.status[id := CPending])
    case MarkSent(id, seen) => w.(status := Moved(w.status, id, seen, CSent))
    case Expire(id, seen) =>
      w.(status := Moved(w.status, id, seen, if seen == CPending then CExpired else CTimedOut))
    case Deliver(t, id) =>
      if Done(w.mem, id) then w else w.(threads := w.threads[t := Thread(id, Admit)])
    case TakeInFlight(t) =>
      var id := w.threads[t].id;
      if id in w.inFlight then w.(threads := w.threads - {t})
      else w.(inFlight := w.inFlight + {id},
              threads := w.threads[t := Thread(id, RecordReceived)],
              raced := if Done(w.mem, id) then w.raced + multiset{id} else w.raced)
    case Record(t, at, ok, written) =>
      var th := w.threads[t];
      var line := RecordLine(c, th, at);
      var completing := th.pc.RecordCompleted?;
      w.(disk := w.disk.Append(if ok then line else line[..written]),
         mem := if ok then w.mem[th.id := JournalStatus(th.pc)] else w.mem,
         threads := w.threads[t := Thread(th.id, AfterRecord(th.pc, ok))],
         completions := if ok && completing then w.completions + multiset{th.id} else w.completions,
         unrecorded := if !ok && completing then w.unrecorded + {th.id} else w.unrecorded,
         failedWrite := w.failedWrite || !ok,
         settled := Settling(w.settled, w.disk, RecordEntry(th, at), ok || written == |line|))
    case Send(t, ok) =>
      var th := w.threads[t];
      w.(wire := if ok then w.wire + [Sent(th)] else w.wire,
         threads := w.threads[t := Thread(th.id, AfterSend(th.pc, ok))])
    case Run(t, final) =>
      w.(threads := w.threads[t := Thread(w.threads[t].id, RecordCompleted(final))])
    case DropInFlight(t) =>
      w.(inFlight := w.inFlight - {w.threads[t].id}, threads := w.threads - {t})
    case LoseWire(keep) => w.(wire := w.wire[..keep])
    case Receive(seen) =>
      w.(status := Moved(w.status, w.wire[0].id, seen, w.wire[0].status), wire := w.wire[1..])
    case Crash(t, at, written) =>
      // `mem` stays, as the record of what the dead process knew
      w.(up := false, inFlight := {}, threads := map[],
         disk := if written > 0 then w.disk.Append(RecordLine(c, w.threads[t], at)[..written])
                 else w.disk,
         settled := if written > 0
                    then Settling(w.settled, w.disk, RecordEntry(w.threads[t], at),
                                  written == |RecordLine(c, w.threads[t], at)|)
                    else w.settled)
    case Reopen =>
      var mem := Replay(c, w.disk.File()).value;
      w.(up := true, mem := mem,
         lost := w.lost + multiset(Forgotten(w.completions, w.mem, mem)))
  }

  predicate StepAt(c: Codec, events: seq<Event>, worlds: seq<World>, i: nat) {
    && i < |events| && i + 1 < |worlds|
    && Enabled(c, worlds[i], events[i]) && worlds[i + 1] == Step(c, worlds[i], events[i])
  }

  ghost predicate IsPath(c: Codec, events: seq<Event>, worlds: seq<World>) {
    && |worlds| == |events| + 1
    && forall i: nat {:trigger StepAt(c, events, worlds, i)} | i < |events| :: StepAt(c, events, worlds, i)
  }

  ghost predicate IsRun(c: Codec, events: seq<Event>, worlds: seq<World>) {
    IsPath(c, events, worlds) && worlds[0] == START
  }

  // ---- One live execution per command ----------------------------------

  type Threads = map<nat, Thread>

  /** A delivery that has been admitted and has not yet left. */
  predicate Live(threads: Threads, t: nat) {
    t in threads && !threads[t].pc.Admit?
  }

  predicate LiveOn(threads: Threads, t: nat, id: nat) {
    Live(threads, t) && threads[t].id == id
  }

  /** The in-flight set is exactly the ids of the live executions, one each. */
  ghost predicate Exclusive(threads: Threads, inFlight: set<nat>) {
    && (forall t | Live(threads, t) :: threads[t].id in inFlight)
    && (forall t, u | Live(threads, t) && LiveOn(threads, u, threads[t].id) :: t == u)
    && (forall id | id in inFlight :: exists t :: LiveOn(threads, t, id))
  }

  lemma AdvanceKeepsExclusive(threads: Threads, inFlight: set<nat>, t: nat, pc: Pc)
    requires Exclusive(threads, inFlight) && Live(threads, t) && !pc.Admit?
    ensures Exclusive(threads[t := Thread(threads[t].id, pc)], inFlight)
  {
    var threads' := threads[t := Thread(threads[t].id, pc)];
    assert forall u, id :: LiveOn(threads', u, id) <==> LiveOn(threads, u, id);
    assert forall u :: Live(threads', u) <==> Live(threads, u);
  }

  lemma DeliverKeepsExclusive(threads: Threads, inFlight: set<nat>, t: nat, id: nat)
    requires Exclusive(threads, inFlight) && t !in threads
    ensures Exclusive(threads[t := Thread(id, Admit)], inFlight)
  {
    var threads' := threads[t := Thread(id, Admit)];
    assert forall u, i :: LiveOn(threads', u, i) <==> LiveOn(threads, u, i);
    assert forall u :: Live(threads', u) <==> Live(threads, u);
  }

  lemma RejectKeepsExclusive(threads: Threads, inFlight: set<nat>, t: nat)
    requires Exclusive(threads, inFlight) && t in threads && threads[t].pc.Admit?
    ensures Exclusive(threads - {t}, inFlight)
  {
    var threads' := threads - {t};
    assert forall u, i :: LiveOn(threads', u, i) <==> LiveOn(threads, u, i);
    assert forall u :: Live(threads', u) <==> Live(threads, u);
  }

  lemma TakeKeepsExclusive(threads: Threads, inFlight: set<nat>, t: nat)
    requires Exclusive(threads, inFlight) && t in threads && threads[t].pc.Admit?
    requires threads[t].id !in inFlight
    ensures Exclusive(threads[t := Thread(threads[t].id, RecordReceived)],
                      inFlight + {threads[t].id})
  {
    var id := threads[t].id;
    var threads' := threads[t := Thread(id, RecordReceived)];
    assert LiveOn(threads', t, id);
    assert forall u, i | u != t :: LiveOn(threads', u, i) <==> LiveOn(threads, u, i);
    assert forall u | u != t :: Live(threads', u) <==> Live(threads, u);
    forall i | i in inFlight ensures exists u :: LiveOn(threads', u, i) {
      var u :| LiveOn(threads, u, i);
      assert LiveOn(threads', u, i);
    }
  }

  lemma DropKeepsExclusive(threads: Threads, inFlight: set<nat>, t: nat)
    requires Exclusive(threads, inFlight) && Live(threads, t)
    ensures Exclusive(threads - {t}, inFlight - {threads[t].id})
  {
    var id := threads[t].id;
    var threads' := threads - {t};
    assert forall u, i | u != t :: LiveOn(threads', u, i) <==> LiveOn(threads, u, i);
    assert forall u | u != t :: Live(threads', u) <==> Live(threads, u);
    forall i | i in inFlight - {id} ensures exists u :: LiveOn(threads', u, i) {
      var u :| LiveOn(threads, u, i);
      assert LiveOn(threads', u, i);
    }
    forall u | Live(threads', u) ensures threads'[u].id in inFlight - {id} {
      assert LiveOn(threads, t, id);
    }
  }

  ghost predicate ExclusiveWorld(w: World) {
    Exclusive(w.threads, w.inFlight) && (!w.up ==> w.threads == map[] && w.inFlight == {})
  }

  lemma StepExclusive(c: Codec, w: World, e: Event)
    requires ExclusiveWorld(w) && Enabled(c, w, e)
    ensures ExclusiveWorld(Step(c, w, e))
  {
    match e {
      case Deliver(t, id) => DeliverKeepsExclusive(w.threads, w.inFlight, t, id);
      case TakeInFlight(t) =>
        if w.threads[t].id in w.inFlight {
          RejectKeepsExclusive(w.threads, w.inFlight, t);
        } else {
          TakeKeepsExclusive(w.threads, w.inFlight, t);
        }
      case Record(t, at, ok, written) =>
        AdvanceKeepsExclusive(w.threads, w.inFlight, t, AfterRecord(w.threads[t].pc, ok));
      case Send(t, ok) =>
        AdvanceKeepsExclusive(w.threads, w.inFlight, t, AfterSend(w.threads[t].pc, ok));
      case Run(t, final) => AdvanceKeepsExclusive(w.threads, w.inFlight, t, RecordCompleted(final));
      case DropInFlight(t) => DropKeepsExclusive(w.threads, w.inFlight, t);
      case _ =>
    }
  }

  // ---- Every completion is accounted for -------------------------------

  /** Between a successful Received and its Completed, memory says so. */
  predicate Underway(pc: Pc) {
    pc.SendAck? || pc.RecordRunning? || pc.SendRunning? || pc.Dispatch? || pc.RecordCompleted?
  }

  /** Each completion of an id is paid for: by a journal that says Completed, by
      an admission that raced past it, or by a reopening that forgot it. */
  predicate Paid(w: World, id: nat) {
    w.completions[id] <= w.raced[id] + w.lost[id] + if Done(w.mem, id) then 1 else 0
  }

  /** What an execution knows about the journal's entry for its id. */
  predicate Knows(w: World, th: Thread) {
    && (Underway(th.pc) ==> !Done(w.mem, th.id))
    && (th.pc.RecordReceived? ==>
          && w.completions[th.id] <= w.raced[th.id] + w.lost[th.id]
          && (Done(w.mem, th.id) ==> w.raced[th.id] > 0))
  }

  ghost predicate Accounted(w: World) {
    && (forall t | t in w.threads :: Knows(w, w.threads[t]))
    && (forall id :: Paid(w, id))
  }

  lemma RecordAccounted(c: Codec, w: World, e: Event)
    requires ExclusiveWorld(w) && Accounted(w) && Enabled(c, w, e) && e.Record?
    ensures Accounted(Step(c, w, e))
  {
    var w' := Step(c, w, e);
    var th := w.threads[e.t];
    assert Knows(w, th) && Paid(w, th.id);
    forall u | u in w'.threads ensures Knows(w', w'.threads[u]) {
      assert Knows(w, w.threads[u]);
      if u != e.t && Live(w.threads, u) {
        assert Live(w.threads, e.t) && !LiveOn(w.threads, u, th.id);
      }
    }
    forall id ensures Paid(w', id) {
      assert Paid(w, id);
    }
  }

  lemma ReopenAccounted(c: Codec, w: World)
    requires ExclusiveWorld(w) && Accounted(w) && Enabled(c, w, Reopen)
    ensures Accounted(Step(c, w, Reopen))
  {
    var w' := Step(c, w, Reopen);
    forall id ensures Paid(w', id) {
      assert Paid(w, id);
      assert Done(w.mem, id) && !Done(w'.mem, id) && w.completions[id] > 0 ==>
          id in Forgotten(w.completions, w.mem, w'.mem);
    }
  }

  lemma StepAccounted(c: Codec, w: World, e: Event)
    requires ExclusiveWorld(w) && Accounted(w) && Enabled(c, w, e)
    ensures Accounted(Step(c, w, e))
  {
    var w' := Step(c, w, e);
    if e.Record? {
      RecordAccounted(c, w, e);
    } else if e.Reopen? {
      ReopenAccounted(c, w);
    } else {
      forall u | u in w'.threads ensures Knows(w', w'.threads[u]) {
        assert u in w.threads ==> Knows(w, w.threads[u]) && Paid(w, w.threads[u].id);
        if e.TakeInFlight? && u == e.t {
          AdmitKnows(c, w, e, u);
        } else if e.TakeInFlight? {
          BystanderKnows(c, w, e, u);
        } else {
          QuietKnows(c, w, e, u);
        }
      }
      forall id ensures Paid(w', id) {
        QuietPaid(c, w, e, id);
      }
    }
  }

  lemma AdmitKnows(c: Codec, w: World, e: Event, u: nat)
    requires Enabled(c, w, e) && e.TakeInFlight? && u == e.t && u in Step(c, w, e).threads
    requires Paid(w, w.threads[u].id)
    ensures Knows(Step(c, w, e), Step(c, w, e).threads[u])
  {
  }

  lemma BystanderKnows(c: Codec, w: World, e: Event, u: nat)
    requires Enabled(c, w, e) && e.TakeInFlight? && u != e.t && u in Step(c, w, e).threads
    requires Knows(w, w.threads[u])
    ensures Knows(Step(c, w, e), Step(c, w, e).threads[u])
  {
  }

  lemma QuietKnows(c: Codec, w: World, e: Event, u: nat)
    requires Enabled(c, w, e) && !e.Record? && !e.Reopen? && !e.TakeInFlight? && u in Step(c, w, e).threads
    requires u in w.threads ==> Knows(w, w.threads[u])
    ensures Knows(Step(c, w, e), Step(c, w, e).threads[u])
  {
  }

  lemma QuietPaid(c: Codec, w: World, e: Event, id: nat)
    requires Paid(w, id) && Enabled(c, w, e) && !e.Record? && !e.Reopen?
    ensures Paid(Step(c, w, e), id)
  {
  }

  // ---- What the control plane can have been told -----------------------

  predicate Passed(w: World, id: nat) {
    w.completions[id] > 0 || id in w.unrecorded
  }

  predicate Shown(s: CommandStatus) {
    s == CSucceeded || s == CFailed
  }

  /** A final report exists only of an execution that got past its Completed record. */
  ghost predicate Reported(w: World) {
    && (forall t | t in w.threads && w.threads[t].pc.SendFinal? :: Passed(w, w.threads[t].id))
    && (forall t | t in w.threads :: EndsWell(w.threads[t].pc))
    && (forall m | m in w.wire && Shown(m.status) :: Passed(w, m.id))
    && (forall id | id in w.status && Shown(w.status[id]) :: Passed(w, id))
  }

  predicate EndsWell(pc: Pc) {
    (pc.RecordCompleted? ==> IsFinal(pc.final)) && (pc.SendFinal? ==> IsFinal(pc.final))
  }

  lemma SendReported(c: Codec, w: World, e: Event)
    requires Reported(w) && Enabled(c, w, e) && e.Send?
    ensures Reported(Step(c, w, e))
  {
    var w' := Step(c, w, e);
    assert forall id :: Passed(w', id) <==> Passed(w, id);
    forall m | m in w'.wire && Shown(m.status) ensures Passed(w', m.id) {
      assert m in w.wire || (w.threads[e.t].pc.SendFinal? && m.id == w.threads[e.t].id);
    }
  }

  lemma ReceiveReported(c: Codec, w: World, e: Event)
    requires Reported(w) && Enabled(c, w, e) && e.Receive?
    ensures Reported(Step(c, w, e))
  {
    var w' := Step(c, w, e);
    assert w.wire[0] in w.wire;
    assert forall id :: Passed(w', id) <==> Passed(w, id);
    forall id | id in w'.status && Shown(w'.status[id]) ensures Passed(w', id) {
      assert id in w.status;
      assert w'.status[id] == w.status[id] || id == w.wire[0].id;
    }
  }

  lemma RecordReported(c: Codec, w: World, e: Event)
    requires Reported(w) && Enabled(c, w, e) && e.Record?
    ensures Reported(Step(c, w, e))
  {
    var w' := Step(c, w, e);
    assert forall id | Passed(w, id) :: Passed(w', id);
  }

  /** A step that reports nothing new. */
  lemma QuietReported(w: World, w': World)
    requires Reported(w) && w'.completions == w.completions && w'.unrecorded == w.unrecorded
    requires forall m | m in w'.wire :: m in w.wire
    requires forall id | id in w'.status && Shown(w'.status[id]) ::
               id in w.status && w.status[id] == w'.status[id]
    requires forall t | t in w'.threads && w'.threads[t].pc.SendFinal? ::
               t in w.threads && w.threads[t] == w'.threads[t]
    requires forall t | t in w'.threads :: EndsWell(w'.threads[t].pc)
    ensures Reported(w')
  {
    assert forall id :: Passed(w', id) <==> Passed(w, id);
  }

  lemma ControlReported(c: Codec, w: World, e: Event)
    requires Reported(w) && Enabled(c, w, e) && (e.Create? || e.MarkSent? || e.Expire?)
    ensures Reported(Step(c, w, e))
  {
    QuietReported(w, Step(c, w, e));
  }

  lemma DeliverReported(c: Codec, w: World, e: Event)
    requires Reported(w) && Enabled(c, w, e) && e.Deliver?
    ensures Reported(Step(c, w, e))
  {
    QuietReported(w, Step(c, w, e));
  }

  lemma AdmitReported(c: Codec, w: World, e: Event)
    requires Reported(w) && Enabled(c, w, e) && e.TakeInFlight?
    ensures Reported(Step(c, w, e))
  {
    QuietReported(w, Step(c, w, e));
  }

  lemma LeaveReported(c: Codec, w: World, e: Event)
    requires Reported(w) && Enabled(c, w, e) && (e.Run? || e.DropInFlight?)
    ensures Reported(Step(c, w, e))
  {
    QuietReported(w, Step(c, w, e));
  }

  lemma ProcessReported(c: Codec, w: World, e: Event)
    requires Reported(w) && Enabled(c, w, e) && (e.LoseWire? || e.Crash? || e.Reopen?)
    ensures Reported(Step(c, w, e))
  {
    QuietReported(w, Step(c, w, e));
  }

  lemma StepReported(c: Codec, w: World, e: Event)
    requires Reported(w) && Enabled(c, w, e)
    ensures Reported(Step(c, w, e))
  {
    match e {
      case Send(_, _) => SendReported(c, w, e);
      case Receive(_) => ReceiveReported(c, w, e);
      case Record(_, _, _, _) => RecordReported(c, w, e);
      case Create(_) => ControlReported(c, w, e);
      case MarkSent(_, _) => ControlReported(c, w, e);
      case Expire(_, _) => ControlReported(c, w, e);
      case LoseWire(_) => ProcessReported(c, w, e);
      case Crash(_, _, _) => ProcessReported(c, w, e);
      case Reopen => ProcessReported(c, w, e);
      case Deliver(_, _) => DeliverReported(c, w, e);
      case TakeInFlight(_) => AdmitReported(c, w, e);
      case _ => LeaveReported(c, w, e);
    }
  }

  // ---- What a restart would still know ---------------------------------

  ghost predicate DiskOk(c: Codec, d: Disk) {
    Terminated(d.base) && exists k: nat :: Pieces(c, d.frag, k)
  }

  /** Every record so far succeeded, and no admission found its id completed. */
  predicate Clean(w: World) {
    !w.failedWrite && w.raced == multiset{}
  }

  /** The complete lines replay to a map in which `id` is Completed; if they do
      not replay at all (an over-long line), the agent cannot open again. */
  predicate Remembered(c: Codec, base: seq<byte>, id: nat) {
    Replay(c, base).Some? ==> Done(Replay(c, base).value, id)
  }

  ghost predicate Durable(c: Codec, w: World) {
    && (forall id | w.completions[id] > 0 :: Remembered(c, w.disk.base, id))
    && (w.up ==> forall id | w.completions[id] > 0 :: Done(w.mem, id))
    && (w.disk.frag != [] && c.unmarshal(w.disk.frag).Some? ==>
          w.completions[c.unmarshal(w.disk.frag).value.id] == 0)
    && (forall t | t in w.threads && Underway(w.threads[t].pc) :: w.disk.frag == [])
    && w.lost == multiset{}
  }

  /** Appending part of a line: a longer fragment, or one more complete line. */
  lemma AppendKeepsDisk(c: Codec, d: Disk, e: Entry, n: nat)
    requires Lawful(c) && DiskOk(c, d) && n <= |Line(c, e)|
    ensures var d' := d.Append(Line(c, e)[..n]);
            && DiskOk(c, d')
            && (n < |Line(c, e)| ==> d'.base == d.base)
            && (n == |Line(c, e)| ==> d' == Disk(d.base + d.frag + Line(c, e), []))
  {
    var k: nat :| Pieces(c, d.frag, k);
    var part := Line(c, e)[..n];
    if n == 0 {
      assert d.frag + part == d.frag;
    } else if n < |Line(c, e)| {
      assert part == c.marshal(e)[..n];
      assert part[n - 1] == c.marshal(e)[n - 1];
      AddPiece(c, d.frag, k, e, n);
    } else {
      assert part == Line(c, e);
      assert Pieces(c, [], 0);
    }
  }

  /** One more complete line forgets nothing but, at most, its own id. */
  lemma LineRemembers(c: Codec, d: Disk, e: Entry, id: nat)
    requires Lawful(c) && DiskOk(c, d)
    ensures id != e.id && Remembered(c, d.base, id) ==>
              Remembered(c, d.base + d.frag + Line(c, e), id)
    ensures d.frag == [] && e.status == Completed ==>
              Remembered(c, d.base + d.frag + Line(c, e), e.id)
  {
    var after := Replay(c, d.base + d.frag + Line(c, e));
    if after.Some? {
      ReplayAfterLine(c, d, e);
      assert d.frag == [] ==> after.value == Replay(c, d.base).value[e.id := e.status];
    }
  }

  lemma ReplayAfterLine(c: Codec, d: Disk, e: Entry)
    requires Lawful(c) && DiskOk(c, d) && Replay(c, d.base + d.frag + Line(c, e)).Some?
    ensures Replay(c, d.base).Some?
    ensures Replay(c, d.base + d.frag + Line(c, e)).value ==
            if d.frag == [] then Replay(c, d.base).value[e.id := e.status] else Replay(c, d.base).value
  {
    var k: nat :| Pieces(c, d.frag, k);
    var rest := d.frag + Line(c, e);
    assert d.base + d.frag + Line(c, e) == d.base + rest;
    ReplayAppend(c, d.base, rest, map[]);
    AppendAfterFragment(c, d.base, d.frag, k, e);
  }

  /** A fragment that still parses is the whole of the entry last begun. */
  lemma FragmentEntry(c: Codec, d: Disk, e: Entry, n: nat)
    requires Lawful(c) && DiskOk(c, d) && 0 < n < |Line(c, e)|
    ensures var frag := d.Append(Line(c, e)[..n]).frag;
            c.unmarshal(frag).Some? ==> c.unmarshal(frag).value == e
  {
    var k: nat :| Pieces(c, d.frag, k);
    var part := Line(c, e)[..n];
    assert part == c.marshal(e)[..n] && part[n - 1] == c.marshal(e)[n - 1];
    AddPiece(c, d.frag, k, e, n);
    if k == 0 {
      assert d.frag + part == part;
      assert n == |c.marshal(e)| ==> part == c.marshal(e);
    }
  }

  /** In a clean run, an execution that records has an id not yet completed. */
  lemma RecordingIsFresh(c: Codec, w: World, t: nat)
    requires ExclusiveWorld(w) && Accounted(w) && Durable(c, w) && Clean(w)
    requires t in w.threads && Recording(w.threads[t].pc)
    ensures w.completions[w.threads[t].id] == 0
  {
    assert Knows(w, w.threads[t]);
  }

  lemma RecordDurable(c: Codec, w: World, e: Event)
    requires Lawful(c) && ExclusiveWorld(w) && Accounted(w) && DiskOk(c, w.disk)
    requires Enabled(c, w, e) && e.Record? && e.ok
    requires Durable(c, w) && Clean(w)
    ensures Durable(c, Step(c, w, e))
  {
    var w' := Step(c, w, e);
    var th := w.threads[e.t];
    var entry := RecordEntry(th, e.at);
    var line := RecordLine(c, th, e.at);
    assert line == line[..|line|];
    AppendKeepsDisk(c, w.disk, entry, |line|);
    RecordingIsFresh(c, w, e.t);
    RecordRemembers(c, w, e);
  }

  lemma RecordRemembers(c: Codec, w: World, e: Event)
    requires Lawful(c) && DiskOk(c, w.disk) && Enabled(c, w, e) && e.Record? && e.ok
    requires Durable(c, w) && (w.threads[e.t].pc.RecordCompleted? ==> w.disk.frag == [])
    requires w.completions[w.threads[e.t].id] == 0
    ensures forall id | Step(c, w, e).completions[id] > 0 :: Remembered(c, Step(c, w, e).disk.base, id)
  {
    var w' := Step(c, w, e);
    var entry := RecordEntry(w.threads[e.t], e.at);
    forall id | w'.completions[id] > 0 ensures Remembered(c, w'.disk.base, id) {
      LineRemembers(c, w.disk, entry, id);
    }
  }

  lemma CrashDurable(c: Codec, w: World, e: Event)
    requires Lawful(c) && ExclusiveWorld(w) && Accounted(w) && DiskOk(c, w.disk)
    requires Enabled(c, w, e) && e.Crash? && e.written > 0
    requires Durable(c, w) && Clean(w)
    ensures Durable(c, Step(c, w, e))
  {
    var w' := Step(c, w, e);
    var entry := RecordEntry(w.threads[e.t], e.at);
    AppendKeepsDisk(c, w.disk, entry, e.written);
    RecordingIsFresh(c, w, e.t);
    if e.written < |Line(c, entry)| {
      FragmentEntry(c, w.disk, entry, e.written);
    } else {
      forall id | w'.completions[id] > 0 ensures Remembered(c, w'.disk.base, id) {
        LineRemembers(c, w.disk, entry, id);
      }
    }
  }

  lemma FileRemembers(c: Codec, w: World, id: nat)
    requires Lawful(c) && DiskOk(c, w.disk) && Durable(c, w) && w.completions[id] > 0
    ensures Remembered(c, w.disk.File(), id)
  {
    if Replay(c, w.disk.File()).Some? {
      var k: nat :| Pieces(c, w.disk.frag, k);
      ReplayAppend(c, w.disk.base, w.disk.frag, map[]);
      TornFragment(c, w.disk.base, w.disk.frag, k);
      PiecesAreClean(c, w.disk.frag, k);
      assert Remembered(c, w.disk.base, id);
    }
  }

  lemma ReopenDurable(c: Codec, w: World)
    requires Lawful(c) && ExclusiveWorld(w) && DiskOk(c, w.disk)
    requires Enabled(c, w, Reopen) && Durable(c, w)
    ensures Durable(c, Step(c, w, Reopen))
  {
    var w' := Step(c, w, Reopen);
    forall id | w.completions[id] > 0 ensures Done(w'.mem, id) {
      FileRemembers(c, w, id);
    }
    assert Forgotten(w.completions, w.mem, w'.mem) == {};
  }

  /** Steps that leave memory, disk, completions and losses alone. */
  lemma QuietKeepsFiles(c: Codec, w: World, e: Event)
    requires Enabled(c, w, e) && !e.Record? && !e.Reopen? && !(e.Crash? && e.written > 0)
    ensures var w' := Step(c, w, e);
            && w'.completions == w.completions && w'.disk == w.disk && w'.mem == w.mem && w'.lost == w.lost
            && (w'.up ==> w.up)
  {
  }

  lemma QuietUnderway(c: Codec, w: World, e: Event, t: nat)
    requires Enabled(c, w, e) && !e.Record? && !e.Reopen? && t in Step(c, w, e).threads
    requires Underway(Step(c, w, e).threads[t].pc)
    ensures t in w.threads && Underway(w.threads[t].pc)
  {
  }

  lemma QuietDurable(c: Codec, w: World, w': World)
    requires Durable(c, w) && (w'.up ==> w.up)
    requires w'.completions == w.completions && w'.disk == w.disk && w'.mem == w.mem && w'.lost == w.lost
    requires forall t | t in w'.threads && Underway(w'.threads[t].pc) :: t in w.threads && Underway(w.threads[t].pc)
    ensures Durable(c, w')
  {
  }

  lemma QuietStepDurable(c: Codec, w: World, e: Event)
    requires Enabled(c, w, e) && !e.Record? && !e.Reopen? && !(e.Crash? && e.written > 0)
    requires Durable(c, w)
    ensures Durable(c, Step(c, w, e))
  {
    var w' := Step(c, w, e);
    QuietKeepsFiles(c, w, e);
    forall t | t in w'.threads && Underway(w'.threads[t].pc) ensures t in w.threads && Underway(w.threads[t].pc) {
      QuietUnderway(c, w, e, t);
    }
    QuietDurable(c, w, w');
  }

  lemma StepDurable(c: Codec, w: World, e: Event)
    requires Lawful(c) && ExclusiveWorld(w) && Accounted(w) && DiskOk(c, w.disk)
    requires Enabled(c, w, e)
    requires Clean(w) ==> Durable(c, w)
    ensures DiskOk(c, Step(c, w, e).disk)
    ensures Clean(Step(c, w, e)) ==> Durable(c, Step(c, w, e))
  {
    var w' := Step(c, w, e);
    match e {
      case Record(t, at, ok, written) =>
        var line := RecordLine(c, w.threads[t], at);
        assert line[..|line|] == line;
        AppendKeepsDisk(c, w.disk, RecordEntry(w.threads[t], at), if ok then |line| else written);
        if Clean(w') {
          RecordDurable(c, w, e);
        }
      case Crash(t, at, written) =>
        if written > 0 {
          AppendKeepsDisk(c, w.disk, RecordEntry(w.threads[t], at), written);
          if Clean(w') {
            CrashDurable(c, w, e);
          }
        } else if Clean(w') {
          QuietStepDurable(c, w, e);
        }
      case Reopen =>
        if Clean(w') {
          ReopenDurable(c, w);
        }
      case _ =>
        if Clean(w') {
          QuietStepDurable(c, w, e);
        }
    }
  }

  // ---- What the file remembers, exactly --------------------------------

  /** The complete lines remember exactly the settled ids. */
  ghost predicate Exact(c: Codec, w: World) {
    Replay(c, w.disk.base).Some? ==> forall id :: Done(Replay(c, w.disk.base).value, id) <==> id in w.settled
  }

  /** One more line, or part of one. */
  lemma AppendExact(c: Codec, w: World, e: Entry, n: nat, w': World)
    requires Lawful(c) && DiskOk(c, w.disk) && Exact(c, w) && n <= |Line(c, e)|
    requires w'.disk == w.disk.Append(Line(c, e)[..n])
    requires w'.settled == Settling(w.settled, w.disk, e, n == |Line(c, e)|)
    ensures Exact(c, w')
  {
    AppendKeepsDisk(c, w.disk, e, n);
    if n == |Line(c, e)| && Replay(c, w'.disk.base).Some? {
      ReplayAfterLine(c, w.disk, e);
    }
  }

  lemma StepExact(c: Codec, w: World, e: Event)
    requires Lawful(c) && DiskOk(c, w.disk) && Exact(c, w) && Enabled(c, w, e)
    ensures Exact(c, Step(c, w, e))
  {
    var w' := Step(c, w, e);
    match e {
      case Record(t, at, ok, written) =>
        var line := RecordLine(c, w.threads[t], at);
        assert line[..|line|] == line;
        AppendExact(c, w, RecordEntry(w.threads[t], at), if ok then |line| else written, w');
      case Crash(t, at, written) =>
        if written > 0 {
          AppendExact(c, w, RecordEntry(w.threads[t], at), written, w');
        }
      case _ =>
    }
  }

  /** The id's Completed record is in the file: as a whole line, or as a fragment
      that lacks nothing but its newline. */
  predicate Landed(c: Codec, w: World, id: nat) {
    if w.disk.frag != [] && c.unmarshal(w.disk.frag).Some? && c.unmarshal(w.disk.frag).value.id == id
    then c.unmarshal(w.disk.frag).value.status == Completed
    else id in w.settled
  }

  lemma LandedIsRemembered(c: Codec, w: World, id: nat)
    requires Lawful(c) && DiskOk(c, w.disk) && Exact(c, w) && Replay(c, w.disk.File()).Some?
    ensures Done(Replay(c, w.disk.File()).value, id) <==> Landed(c, w, id)
  {
    var k: nat :| Pieces(c, w.disk.frag, k);
    ReplayAppend(c, w.disk.base, w.disk.frag, map[]);
    TornFragment(c, w.disk.base, w.disk.frag, k);
    PiecesAreClean(c, w.disk.frag, k);
  }

  /** A completion that only a racing admission could undo: the file and memory
      have it, and no execution of the id is left to write anything. */
  ghost predicate Firm(c: Codec, w: World, id: nat) {
    && id in w.settled && (w.up ==> Done(w.mem, id)) && !FragmentOf(c, w.disk, id)
    && forall t | t in w.threads && w.threads[t].id == id :: Idle(w.threads[t].pc)
  }

  predicate Idle(pc: Pc) {
    pc.Admit? || pc.SendFinal? || pc.Leave?
  }

  predicate FragmentOf(c: Codec, d: Disk, id: nat) {
    d.frag != [] && c.unmarshal(d.frag).Some? && c.unmarshal(d.frag).value.id == id
  }

  /** Another id's record leaves an id's place in the file alone. */
  lemma AppendLeavesOthers(c: Codec, d: Disk, e: Entry, n: nat, settled: set<nat>, id: nat)
    requires Lawful(c) && DiskOk(c, d) && n <= |Line(c, e)| && e.id != id
    ensures id in Settling(settled, d, e, n == |Line(c, e)|) <==> id in settled
    ensures !FragmentOf(c, d, id) ==> !FragmentOf(c, d.Append(Line(c, e)[..n]), id)
  {
    AppendKeepsDisk(c, d, e, n);
    if 0 < n < |Line(c, e)| {
      FragmentEntry(c, d, e, n);
    } else if n == 0 {
      assert d.Append(Line(c, e)[..n]) == Disk(d.base, d.frag + []);
      assert d.frag + [] == d.frag;
    }
  }

  lemma RecordKeepsFirm(c: Codec, w: World, e: Event, id: nat)
    requires Lawful(c) && DiskOk(c, w.disk) && Enabled(c, w, e) && e.Record? && Firm(c, w, id)
    ensures Firm(c, Step(c, w, e), id) && Step(c, w, e).completions[id] == w.completions[id]
  {
    var line := RecordLine(c, w.threads[e.t], e.at);
    assert line[..|line|] == line;
    AppendLeavesOthers(c, w.disk, RecordEntry(w.threads[e.t], e.at), if e.ok then |line| else e.written,
                       w.settled, id);
  }

  lemma CrashKeepsFirm(c: Codec, w: World, e: Event, id: nat)
    requires Lawful(c) && DiskOk(c, w.disk) && Enabled(c, w, e) && e.Crash? && Firm(c, w, id)
    ensures Firm(c, Step(c, w, e), id) && Step(c, w, e).completions[id] == w.completions[id]
  {
    if e.written > 0 {
      AppendLeavesOthers(c, w.disk, RecordEntry(w.threads[e.t], e.at), e.written, w.settled, id);
    }
  }

  lemma ReopenKeepsFirm(c: Codec, w: World, id: nat)
    requires Lawful(c) && DiskOk(c, w.disk) && Exact(c, w) && Enabled(c, w, Reopen) && Firm(c, w, id)
    ensures Firm(c, Step(c, w, Reopen), id) && Step(c, w, Reopen).completions[id] == w.completions[id]
  {
    LandedIsRemembered(c, w, id);
  }

  lemma QuietKeepsFirm(c: Codec, w: World, e: Event, id: nat)
    requires Enabled(c, w, e) && !e.Record? && !e.Crash? && !e.Reopen? && w.up && Firm(c, w, id)
    requires Step(c, w, e).raced[id] == w.raced[id]
    ensures Firm(c, Step(c, w, e), id) && Step(c, w, e).completions[id] == w.completions[id]
  {
    var w' := Step(c, w, e);
    forall t | t in w'.threads && w'.threads[t].id == id ensures Idle(w'.threads[t].pc) {
      assert t in w.threads ==> w.threads[t].id == id ==> Idle(w.threads[t].pc);
    }
  }

  lemma StepKeepsFirm(c: Codec, w: World, e: Event, id: nat)
    requires Lawful(c) && Inv(c, w) && Enabled(c, w, e) && Firm(c, w, id)
    requires Step(c, w, e).raced[id] == w.raced[id]
    ensures Firm(c, Step(c, w, e), id) && Step(c, w, e).completions[id] == w.completions[id]
  {
    match e {
      case Record(_, _, _, _) => RecordKeepsFirm(c, w, e, id);
      case Crash(_, _, _) => CrashKeepsFirm(c, w, e, id);
      case Reopen => ReopenKeepsFirm(c, w, id);
      case _ =>
        if w.up {
          QuietKeepsFirm(c, w, e, id);
        }
    }
  }

  /** A Completed record that succeeds on a terminated file is firm. */
  lemma RecordIsFirm(c: Codec, w: World, e: Event)
    requires ExclusiveWorld(w) && Enabled(c, w, e) && e.Record? && e.ok
    requires w.threads[e.t].pc.RecordCompleted? && w.disk.frag == []
    ensures Firm(c, Step(c, w, e), w.threads[e.t].id)
  {
    var w', id := Step(c, w, e), w.threads[e.t].id;
    assert Live(w.threads, e.t);
    forall t | t in w'.threads && w'.threads[t].id == id ensures Idle(w'.threads[t].pc) {
      assert LiveOn(w.threads, t, id) ==> t == e.t;
    }
    assert w.disk.Append(RecordLine(c, w.threads[e.t], e.at)).frag == [];
  }

  // ---- Whole runs ------------------------------------------------------

  ghost predicate Inv(c: Codec, w: World) {
    && ExclusiveWorld(w) && Accounted(w) && Reported(w) && DiskOk(c, w.disk)
    && (Clean(w) ==> Durable(c, w)) && Exact(c, w)
    && (w.unrecorded != {} ==> w.failedWrite)
  }

  lemma StepKeepsInv(c: Codec, w: World, e: Event)
    requires Lawful(c) && Inv(c, w) && Enabled(c, w, e)
    ensures Inv(c, Step(c, w, e))
  {
    StepExclusive(c, w, e);
    StepAccounted(c, w, e);
    StepReported(c, w, e);
    StepDurable(c, w, e);
    StepExact(c, w, e);
  }

  lemma {:induction false} RunKeepsInv(c: Codec, events: seq<Event>, worlds: seq<World>, n: nat)
    requires Lawful(c) && IsRun(c, events, worlds) && n < |worlds|
    ensures Inv(c, worlds[n])
  {
    if n == 0 {
      assert Pieces(c, START.disk.frag, 0);
    } else {
      RunKeepsInv(c, events, worlds, n - 1);
      assert StepAt(c, events, worlds, n - 1);
      StepKeepsInv(c, worlds[n - 1], events[n - 1]);
    }
  }

  /** In every run, each command id has at most one live execution, and the
      in-flight set is exactly the ids that have one. */
  lemma OneLiveExecution(c: Codec, events: seq<Event>, worlds: seq<World>, n: nat, t: nat, u: nat)
    requires Lawful(c) && IsRun(c, events, worlds) && n < |worlds|
    requires Live(worlds[n].threads, t)
    ensures worlds[n].threads[t].id in worlds[n].inFlight
    ensures LiveOn(worlds[n].threads, u, worlds[n].threads[t].id) ==> t == u
    ensures forall id | id in worlds[n].inFlight :: exists v :: LiveOn(worlds[n].threads, v, id)
  {
    RunKeepsInv(c, events, worlds, n);
  }

  /** Whatever writes fail and wherever crashes fall, an id is completed at most
      once more than the admissions that raced past its completion and the
      reopenings that forgot it. */
  lemma CompletionsBounded(c: Codec, events: seq<Event>, worlds: seq<World>, n: nat, id: nat)
    requires Lawful(c) && IsRun(c, events, worlds) && n < |worlds|
    ensures worlds[n].completions[id] <= 1 + worlds[n].raced[id] + worlds[n].lost[id]
  {
    RunKeepsInv(c, events, worlds, n);
    assert Paid(worlds[n], id);
  }

  /** While journal writes succeed and no completion falls between the two
      admission checks, no id is completed twice - through any crashes, torn
      lines included, reopenings, redeliveries and lost messages - and a command
      the control plane shows as succeeded or failed is one a restart right now
      would still refuse to run. */
  lemma CompletedOnceAndRemembered(
    c: Codec, events: seq<Event>, worlds: seq<World>, n: nat, id: nat)
    requires Lawful(c) && IsRun(c, events, worlds) && n < |worlds| && Clean(worlds[n])
    ensures worlds[n].completions[id] <= 1
    ensures id in worlds[n].status && Shown(worlds[n].status[id]) ==>
              && worlds[n].completions[id] == 1
              && Remembered(c, worlds[n].disk.File(), id)
  {
    RunKeepsInv(c, events, worlds, n);
    assert Paid(worlds[n], id);
    if worlds[n].completions[id] > 0 {
      FileRemembers(c, worlds[n], id);
    }
  }

  /** Exactly when a command is remembered, in every run, whatever failed, raced or
      crashed before: a file that still opens has it as Completed if and only if
      its Completed record landed. */
  lemma RememberedIffLanded(c: Codec, events: seq<Event>, worlds: seq<World>, n: nat, id: nat)
    requires Lawful(c) && IsRun(c, events, worlds) && n < |worlds|
    ensures Remembered(c, worlds[n].disk.File(), id) <==>
            Replay(c, worlds[n].disk.File()).None? || Landed(c, worlds[n], id)
  {
    RunKeepsInv(c, events, worlds, n);
    if Replay(c, worlds[n].disk.File()).Some? {
      LandedIsRemembered(c, worlds[n], id);
    }
  }

  lemma {:induction false} FirmUntil(c: Codec, events: seq<Event>, worlds: seq<World>, n: nat, m: nat, id: nat)
    requires Lawful(c) && IsRun(c, events, worlds) && n <= m < |worlds| && Firm(c, worlds[n], id)
    requires worlds[m].raced[id] == worlds[n].raced[id]
    ensures Firm(c, worlds[m], id) && worlds[m].completions[id] == worlds[n].completions[id]
  {
    if n == m {
    } else {
      RacesGrow(c, events, worlds, n, m - 1, id);
      RacesGrow(c, events, worlds, m - 1, m, id);
      FirmUntil(c, events, worlds, n, m - 1, id);
      RunKeepsInv(c, events, worlds, m - 1);
      assert StepAt(c, events, worlds, m - 1);
      StepKeepsFirm(c, worlds[m - 1], events[m - 1], id);
    }
  }

  lemma StepRaces(c: Codec, w: World, e: Event, id: nat)
    requires Enabled(c, w, e)
    ensures w.raced[id] <= Step(c, w, e).raced[id]
  {
  }

  lemma {:induction false} RacesGrow(c: Codec, events: seq<Event>, worlds: seq<World>, n: nat, m: nat, id: nat)
    requires IsRun(c, events, worlds) && n <= m < |worlds|
    ensures worlds[n].raced[id] <= worlds[m].raced[id]
  {
    if n == m {
    } else {
      RacesGrow(c, events, worlds, n, m - 1, id);
      assert StepAt(c, events, worlds, m - 1);
      StepRaces(c, worlds[m - 1], events[m - 1], id);
    }
  }

  /** One command at a time: a Completed record that succeeds on a terminated file
      is remembered ever after and the command never completes again, whatever
      other commands' records, crashes and reopenings do, until an admission of
      this very id races past it. */
  lemma CompletedForGood(c: Codec, events: seq<Event>, worlds: seq<World>, n: nat, m: nat)
    requires Lawful(c) && IsRun(c, events, worlds) && n < m < |worlds|
    requires StepAt(c, events, worlds, n) && events[n].Record? && events[n].ok && worlds[n].disk.frag == []
    requires worlds[n].threads[events[n].t].pc.RecordCompleted?
    requires var id := worlds[n].threads[events[n].t].id; worlds[m].raced[id] == worlds[n + 1].raced[id]
    ensures var id := worlds[n].threads[events[n].t].id;
            && Remembered(c, worlds[m].disk.File(), id)
            && worlds[m].completions[id] == worlds[n + 1].completions[id]
  {
    var id := worlds[n].threads[events[n].t].id;
    RunKeepsInv(c, events, worlds, n);
    RecordIsFirm(c, worlds[n], events[n]);
    assert StepAt(c, events, worlds, n);
    FirmUntil(c, events, worlds, n + 1, m, id);
    RememberedIffLanded(c, events, worlds, m, id);
  }

  /** Exactly which completions a reopening forgets. */
  lemma ForgottenIffNotLanded(c: Codec, events: seq<Event>, worlds: seq<World>, n: nat, id: nat)
    requires Lawful(c) && IsRun(c, events, worlds) && n < |events| && events[n] == Reopen
    ensures worlds[n + 1].lost[id] == worlds[n].lost[id] +
              if Done(worlds[n].mem, id) && worlds[n].completions[id] > 0 && !Landed(c, worlds[n], id) then 1 else 0
  {
    RunKeepsInv(c, events, worlds, n);
    assert StepAt(c, events, worlds, n);
    LandedIsRemembered(c, worlds[n], id);
  }

  // ---- Both conditions are needed --------------------------------------

  /** Some events lead from one world to another. */
  ghost predicate Leads(c: Codec, from: World, w: World) {
    exists events, worlds :: IsPath(c, events, worlds) && worlds[0] == from && worlds[|events|] == w
  }

  ghost predicate Reaches(c: Codec, w: World) {
    Leads(c, START, w)
  }

  lemma NothingLeads(c: Codec, w: World)
    ensures Leads(c, w, w)
  {
    assert IsPath(c, [], [w]);
  }

  lemma StepLeads(c: Codec, from: World, w: World, e: Event)
    requires Leads(c, from, w) && Enabled(c, w, e)
    ensures Leads(c, from, Step(c, w, e))
  {
    var events: seq<Event>, worlds: seq<World> :|
      IsPath(c, events, worlds) && worlds[0] == from && worlds[|events|] == w;
    var events', worlds' := events + [e], worlds + [Step(c, w, e)];
    forall i: nat | i < |events'| ensures StepAt(c, events', worlds', i) {
      if i < |events| {
        assert StepAt(c, events, worlds, i);
        assert worlds'[i] == worlds[i] && worlds'[i + 1] == worlds[i + 1] && events'[i] == events[i];
      }
    }
    assert IsPath(c, events', worlds');
  }

  lemma Opened(c: Codec)
    ensures Reaches(c, START.(up := true))
  {
    NothingLeads(c, START);
    assert START.disk.File() == [];
    StepLeads(c, START, START, Reopen);
    assert Forgotten(multiset{}, map[], map[]) == {};
    assert Step(c, START, Reopen) == START.(up := true);
  }

  lemma CreatedAndSent(c: Codec)
    ensures Reaches(c, START.(up := true, status := map[7 := CSent]))
  {
    Opened(c);
    var w := START.(up := true);
    StepLeads(c, START, w, Create(7));
    StepLeads(c, START, Step(c, w, Create(7)), MarkSent(7, CPending));
    assert Step(c, Step(c, w, Create(7)), MarkSent(7, CPending)) == w.(status := map[7 := CSent]);
  }

  /** An open agent that has just been delivered command 7. */
  lemma Admitted(c: Codec) returns (w: World)
    ensures Reaches(c, w)
    ensures w == START.(up := true, status := map[7 := CSent], inFlight := {7},
                        threads := map[0 := Thread(7, RecordReceived)])
  {
    CreatedAndSent(c);
    w := START.(up := true, status := map[7 := CSent]);
    StepLeads(c, START, w, Deliver(0, 7));
    w := Step(c, w, Deliver(0, 7));
    StepLeads(c, START, w, TakeInFlight(0));
    w := Step(c, w, TakeInFlight(0));
  }

  lemma RecordLeads(c: Codec, from: World, w: World, t: nat, ok: bool) returns (w': World)
    requires Leads(c, from, w) && t in w.threads && Recording(w.threads[t].pc)
    ensures Leads(c, from, w')
    ensures var th := w.threads[t];
            var line := RecordLine(c, th, 0);
            var completed := ok && th.pc.RecordCompleted?;
            && line != []
            && w' == w.(
              disk := w.disk.Append(if ok then line else line[..1]),
              mem := if ok then w.mem[th.id := JournalStatus(th.pc)] else w.mem,
              threads := w.threads[t := Thread(th.id, AfterRecord(th.pc, ok))],
              completions := if completed then w.completions + multiset{th.id} else w.completions,
              unrecorded := if !ok && th.pc.RecordCompleted? then w.unrecorded + {th.id} else w.unrecorded,
              failedWrite := w.failedWrite || !ok, settled := w'.settled)
  {
    StepLeads(c, from, w, Record(t, 0, ok, 1));
    w' := Step(c, w, Record(t, 0, ok, 1));
  }

  lemma SendLeads(c: Codec, from: World, w: World, t: nat) returns (w': World)
    requires Leads(c, from, w) && t in w.threads
    requires w.threads[t].pc.SendAck? || w.threads[t].pc.SendRunning? || w.threads[t].pc.SendFinal?
    ensures Leads(c, from, w')
    ensures w' == w.(wire := w.wire + [Sent(w.threads[t])],
                     threads := w.threads[t := Thread(w.threads[t].id, AfterSend(w.threads[t].pc, true))])
  {
    StepLeads(c, from, w, Send(t, true));
    w' := Step(c, w, Send(t, true));
  }

  /** An admitted delivery, up to its acknowledgement: `handleMessage` returns. */
  lemma Acknowledged(c: Codec, from: World, w: World, t: nat) returns (w': World)
    requires Leads(c, from, w) && t in w.threads && w.threads[t].pc.RecordReceived?
    ensures Leads(c, from, w')
    ensures var id := w.threads[t].id;
            w' == w.(
              threads := w.threads[t := Thread(id, RecordRunning)], mem := w.mem[id := Received],
              wire := w.wire + [Message(id, CAcknowledged)], settled := w'.settled,
              disk := w.disk.Append(Line(c, Entry(id, Received, 0))))
  {
    w' := RecordLeads(c, from, w, t, true);
    w' := SendLeads(c, from, w', t);
  }

  /** An acknowledged execution runs to its final report; RUNNING is recorded or not. */
  lemma Executed(c: Codec, from: World, w: World, t: nat, runningOk: bool) returns (w': World)
    requires Leads(c, from, w) && t in w.threads && w.threads[t].pc.RecordRunning?
    ensures Leads(c, from, w')
    ensures var id := w.threads[t].id;
            var line2 := Line(c, Entry(id, Journal.Status.Running, 0));
            var line3 := Line(c, Entry(id, Completed, 0));
            && line2 != []
            && w' == w.(
              threads := w.threads[t := Thread(id, SendFinal(CSucceeded))],
              mem := w'.mem, completions := w.completions + multiset{id},
              wire := w.wire + [Message(id, CRunning)], settled := w'.settled,
              failedWrite := w.failedWrite || !runningOk,
              disk := w.disk.Append(if runningOk then line2 else line2[..1]).Append(line3))
            && Done(w'.mem, id)
  {
    w' := RecordLeads(c, from, w, t, runningOk);
    w' := SendLeads(c, from, w', t);
    StepLeads(c, from, w', Run(t, CSucceeded));
    w' := Step(c, w', Run(t, CSucceeded));
    w' := RecordLeads(c, from, w', t, true);
  }

  /** The journal check and the in-flight check are two critical sections.  A
      redelivery that arrives once the first delivery is acknowledged, and passes
      the first check before the completion and the second after it, runs the
      command again, with every write succeeding. */
  lemma RaceCompletesTwice(c: Codec)
    ensures exists w ::
              Reaches(c, w) && !w.failedWrite && w.lost == multiset{} && w.completions[7] == 2
  {
    var w := Admitted(c);
    w := Acknowledged(c, START, w, 0);
    StepLeads(c, START, w, Deliver(1, 7));
    w := Step(c, w, Deliver(1, 7));
    w := Executed(c, START, w, 0, true);
    w := SendLeads(c, START, w, 0);
    StepLeads(c, START, w, DropInFlight(0));
    w := Step(c, w, DropInFlight(0));
    w := CompletesOnceMore(c, START, w, 1);
  }

  /** A delivery between the two checks, of an id not in flight, completes it. */
  lemma CompletesOnceMore(c: Codec, from: World, w: World, t: nat) returns (w': World)
    requires Leads(c, from, w) && t in w.threads && w.threads[t].pc.Admit? && w.threads[t].id !in w.inFlight
    ensures Leads(c, from, w') && w'.failedWrite == w.failedWrite && w'.lost == w.lost
    ensures w'.completions == w.completions + multiset{w.threads[t].id}
  {
    StepLeads(c, from, w, TakeInFlight(t));
    w' := Step(c, w, TakeInFlight(t));
    w' := Acknowledged(c, from, w', t);
    w' := Executed(c, from, w', t, true);
  }

  /** The execution in flight, if it only has to report and leave, leaves. */
  lemma Vacated(c: Codec, from: World, w: World, u: nat) returns (w': World)
    requires Leads(c, from, w) && u in w.threads && (w.threads[u].pc.SendFinal? || w.threads[u].pc.Leave?)
    ensures Leads(c, from, w') && w'.completions == w.completions && w'.inFlight == w.inFlight - {w.threads[u].id}
    ensures w'.threads == w.threads - {u}
  {
    w' := w;
    if w.threads[u].pc.SendFinal? {
      w' := SendLeads(c, from, w, u);
    }
    StepLeads(c, from, w', DropInFlight(u));
    w' := Step(c, w', DropInFlight(u));
  }

  /** A delivery of the id has passed the journal check and not the other. */
  predicate AtAdmit(w: World, t: nat, id: nat) {
    t in w.threads && w.threads[t].id == id && w.threads[t].pc.Admit?
  }

  lemma StepStaysOut(c: Codec, w: World, e: Event, id: nat)
    requires Lawful(c) && Inv(c, w) && Enabled(c, w, e) && Firm(c, w, id) && forall t :: !AtAdmit(w, t, id)
    ensures Firm(c, Step(c, w, e), id) && Step(c, w, e).completions[id] == w.completions[id]
    ensures forall t :: !AtAdmit(Step(c, w, e), t, id)
  {
    assert e.TakeInFlight? ==> !AtAdmit(w, e.t, id) && w.threads[e.t].id != id;
    StepKeepsFirm(c, w, e, id);
    forall t ensures !AtAdmit(Step(c, w, e), t, id) {
      NoNewAdmission(c, w, e, t, id);
    }
  }

  lemma NoNewAdmission(c: Codec, w: World, e: Event, t: nat, id: nat)
    requires Enabled(c, w, e) && Firm(c, w, id) && !AtAdmit(w, t, id)
    ensures !AtAdmit(Step(c, w, e), t, id)
  {
  }

  lemma {:induction false} PathStaysOut(c: Codec, events: seq<Event>, worlds: seq<World>, n: nat, id: nat)
    requires Lawful(c) && IsPath(c, events, worlds) && n < |worlds|
    requires Inv(c, worlds[0]) && Firm(c, worlds[0], id) && forall t :: !AtAdmit(worlds[0], t, id)
    ensures Inv(c, worlds[n]) && Firm(c, worlds[n], id) && (forall t :: !AtAdmit(worlds[n], t, id))
    ensures worlds[n].completions[id] == worlds[0].completions[id]
  {
    if n == 0 {
    } else {
      PathStaysOut(c, events, worlds, n - 1, id);
      assert StepAt(c, events, worlds, n - 1);
      StepStaysOut(c, worlds[n - 1], events[n - 1], id);
      StepKeepsInv(c, worlds[n - 1], events[n - 1]);
    }
  }

  lemma CompletesAgain(c: Codec, w: World, t: nat, id: nat) returns (w': World)
    requires Inv(c, w) && Firm(c, w, id) && AtAdmit(w, t, id)
    ensures Leads(c, w, w') && w'.completions[id] > w.completions[id]
  {
    NothingLeads(c, w);
    w' := w;
    if id in w.inFlight {
      var u :| LiveOn(w.threads, u, id);
      assert Idle(w.threads[u].pc);
      w' := Vacated(c, w, w, u);
    }
    w' := CompletesOnceMore(c, w, w', t);
  }

  /** Exactly when a command can complete again: of a completion that the file and
      memory hold, in any reachable world, some continuation of the run completes
      it once more if and only if a delivery of it stands between the two checks. */
  lemma CompletesAgainIff(c: Codec, w: World, id: nat)
    requires Lawful(c) && Reaches(c, w) && Firm(c, w, id)
    ensures (exists w' :: Leads(c, w, w') && w'.completions[id] > w.completions[id]) <==>
            (exists t :: AtAdmit(w, t, id))
  {
    var events: seq<Event>, worlds: seq<World> :|
      IsPath(c, events, worlds) && worlds[0] == START && worlds[|events|] == w;
    RunKeepsInv(c, events, worlds, |events|);
    if t :| AtAdmit(w, t, id) {
      var w' := CompletesAgain(c, w, t, id);
    }
    if w' :| Leads(c, w, w') && w'.completions[id] > w.completions[id] {
      var es: seq<Event>, ws: seq<World> :| IsPath(c, es, ws) && ws[0] == w && ws[|es|] == w';
      if forall t :: !AtAdmit(w, t, id) {
        PathStaysOut(c, es, ws, |es|, id);
      }
    }
  }

  /** `execute` ignores a failed RUNNING record.  The partial line it leaves
      swallows the Completed record, so the control plane shows success and a
      restarted agent would run the command again - without any race. */
  lemma FailedWriteForgetsCompletion(c: Codec)
    requires Lawful(c) && forall e: Entry | e.id == 7 && e.recordedAt == 0 :: |c.marshal(e)| < 1000
    ensures exists w ::
              && Reaches(c, w) && w.raced == multiset{} && 7 in w.status
              && w.status[7] == CSucceeded && !Remembered(c, w.disk.File(), 7)
  {
    var w := Admitted(c);
    w := Acknowledged(c, START, w, 0);
    w := Executed(c, START, w, 0, false);
    w := SendLeads(c, START, w, 0);
    assert w.wire == [Message(7, CAcknowledged), Message(7, CRunning), Message(7, CSucceeded)];
    w := AllReceived(c, w);
    SwallowedRecord(c, 7);
  }

  lemma AllReceived(c: Codec, w: World) returns (w': World)
    requires Reaches(c, w) && w.status == map[7 := CSent]
    requires w.wire == [Message(7, CAcknowledged), Message(7, CRunning), Message(7, CSucceeded)]
    ensures Reaches(c, w') && w' == w.(wire := [], status := map[7 := CSucceeded])
  {
    w' := ReceiveLeads(c, START, w);
    w' := ReceiveLeads(c, START, w');
    w' := ReceiveLeads(c, START, w');
  }

  lemma ReceiveLeads(c: Codec, from: World, w: World) returns (w': World)
    requires Leads(c, from, w) && w.wire != [] && w.wire[0].id in w.status
    ensures Leads(c, from, w')
    ensures var id := w.wire[0].id;
            w' == w.(status := Moved(w.status, id, w.status[id], w.wire[0].status), wire := w.wire[1..])
  {
    StepLeads(c, from, w, Receive(w.status[w.wire[0].id]));
    w' := Step(c, w, Receive(w.status[w.wire[0].id]));
  }

  lemma SwallowedRecord(c: Codec, id: nat)
    requires Lawful(c) && forall e: Entry | e.id == id && e.recordedAt == 0 :: |c.marshal(e)| < 1000
    ensures var line1 := Line(c, Entry(id, Received, 0));
            var line2 := Line(c, Entry(id, Journal.Status.Running, 0));
            var line3 := Line(c, Entry(id, Completed, 0));
            && line2 != []
            && Replay(c, Disk([], []).Append(line1).Append(line2[..1]).Append(line3).File())
               == Some(map[id := Received])
  {
    var e1, e2, e3 := Entry(id, Received, 0), Entry(id, Journal.Status.Running, 0), Entry(id, Completed, 0);
    var d0 := Disk([], []);
    assert Pieces(c, d0.frag, 0);
    var d1 := d0.Append(Line(c, e1));
    assert d1 == Disk([] + [] + Line(c, e1), []);
    AppendAfterFragment(c, [], [], 0, e1);
    var part := Line(c, e2)[..1];
    assert part == c.marshal(e2)[..1] && part[0] == c.marshal(e2)[0];
    AddPiece(c, [], 0, e2, 1);
    assert [] + part == part;
    var d2 := d1.Append(part);
    assert d2 == Disk(d1.base, part);
    AppendAfterFragment(c, d2.base, part, 1, e3);
    var d3 := d2.Append(Line(c, e3));
    assert d3.File() == d2.base + part + Line(c, e3);
  }
}
