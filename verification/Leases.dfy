/**
 Transaction leases over pooled connections: the dispatcher and pool of the plugin actor, and
 one reconnecting worker per connection slot. Each dispatcher message, each registry operation
 and each stage of a worker's job is one step; steps of all threads interleave in any order.
 */
module Leases {
  import opened ByteStrings
  import opened Results

  // ---- Handles ---------------------------------------------------------------------------------

  const INDEXES := 0x1_0000
  const GENERATIONS := 0x1_0000_0000

  datatype SlotId = SlotId(pool: nat, index: nat)

  /** A handle taken apart. */
  datatype Parts = Parts(slot: SlotId, generation: nat)

  function Encode(id: SlotId, generation: nat): nat { generation * GENERATIONS + id.pool * INDEXES + id.index }

  function Decode(token: nat): Parts { Parts(SlotId(token / INDEXES % INDEXES, token % INDEXES), token / GENERATIONS) }

  predicate Addressable(id: SlotId) { id.pool < INDEXES && id.index < INDEXES }

  // ---- Jobs and results ------------------------------------------------------------------------

  datatype Op = Query | Exec | Begin | Commit | Rollback

  datatype ErrorKind = NoError | SqlError | ConnectionUnavailable | ConnectionLost | TransactionLost | OutcomeUnknown

  datatype Outcome = Outcome(ok: bool, code: ErrorKind)

  predicate IsConnectionError(code: ErrorKind) { !code.NoError? && !code.SqlError? }

  /**
   `ticket` names the execution, `client` the request it answers; `original` is the failed COMMIT a cleanup stands
   for.
   */
  datatype Job = Job(ticket: nat, client: nat, op: Op, token: nat, original: Option<Outcome>)

  // ---- Slots -------------------------------------------------------------------------------------

  datatype Mode = Idle | Active | Closing

  datatype Stage =
    | Resting
    | Checked(job: Job)
    | Completing(job: Job, outcome: Outcome)

  /** What the native connection was asked to do, in order. */
  datatype Native =
    | Connected
    | Closed
    | Ran(job: Job, answer: Outcome)

  datatype Answer = Answer(op: Op, token: nat, outcome: Outcome)

  /** One connection slot: its lease, its queue, its worker, and the histories of its driver and its clients. */
  datatype Slot = Slot(
    mode: Mode, generation: nat, acquired: nat,
    running: bool, queue: seq<Job>, stage: Stage, connected: bool, active: nat,
    tickets: nat, history: seq<Native>, answers: map<nat, Answer>)

  const NEW_SLOT := Slot(Idle, 0, 0, true, [], Resting, false, 0, 0, [], map[])

  /** The generation counter wraps at 32 bits and skips zero. */
  function NextGeneration(g: nat): nat {
    var next := (g + 1) % GENERATIONS;
    if next == 0 then 1 else next
  }

  datatype Entry = Entry(slot: SlotId, generation: nat, key: Bytes)

  datatype State = State(slots: map<SlotId, Slot>, entries: map<nat, Entry>, keys: map<Bytes, nat>)

  function Start(ids: set<SlotId>): State { State(map id | id in ids :: NEW_SLOT, map[], map[]) }

  // ---- The registry --------------------------------------------------------------------------------

  /** Frees the slot if the entry is still there and its generation is still the slot's. */
  function Release(s: State, token: nat): State {
    if token !in s.entries then s
    else
      var e := s.entries[token];
      var slots := if e.slot in s.slots && s.slots[e.slot].generation == e.generation
                   then s.slots[e.slot := s.slots[e.slot].(mode := Idle)] else s.slots;
      State(slots, s.entries - {token}, if e.key != [] then s.keys - {e.key} else s.keys)
  }

  // ---- Completion callbacks --------------------------------------------------------------------------

  function Tell(s: State, id: SlotId, job: Job, outcome: Outcome): State
    requires id in s.slots
  {
    var slot := s.slots[id];
    var op := if job.original.Some? then Commit else job.op;
    s.(slots := s.slots[id := slot.(answers := slot.answers[job.client := Answer(op, job.token, outcome)])])
  }

  /** A job that must give the lease back when it ends like this. */
  predicate GivesBack(job: Job, outcome: Outcome) {
    && job.token != 0
    && match job.op
       case Begin => !outcome.ok
       case Commit => outcome.ok
       case Rollback => true
       case _ => !outcome.ok && IsConnectionError(outcome.code)
  }

  /** Only a COMMIT that failed is followed by a cleanup. */
  predicate NeedsCleanup(job: Job, outcome: Outcome) { job.op.Commit? && !outcome.ok }

  function Cleanup(slot: Slot, job: Job, outcome: Outcome): Job {
    Job(slot.tickets, job.client, Rollback, job.token, Some(outcome))
  }

  /** `done`, for every kind of job. */
  function Finish(s: State, id: SlotId, job: Job, outcome: Outcome): State
    requires id in s.slots
  {
    if NeedsCleanup(job, outcome) then
      var slot := s.slots[id];
      if slot.running then
        s.(slots := s.slots[id := slot.(queue := slot.queue + [Cleanup(slot, job, outcome)],
          tickets := slot.tickets + 1)])
      else Tell(Release(s, job.token), id, job, outcome)
    else
      var freed := if GivesBack(job, outcome) then Release(s, job.token) else s;
      Tell(freed, id, job, if job.original.Some? then job.original.value else outcome)
  }

  const STOPPED := Outcome(false, ConnectionUnavailable)

  /** Into the slot's queue, or failed at once when the slot has stopped. */
  function Enqueue(s: State, id: SlotId, op: Op, token: nat): State
    requires id in s.slots
  {
    var slot := s.slots[id];
    var job := Job(slot.tickets, slot.tickets, op, token, None);
    var counted := slot.(tickets := slot.tickets + 1);
    if slot.running then s.(slots := s.slots[id := counted.(queue := slot.queue + [job])])
    else Finish(s.(slots := s.slots[id := counted]), id, job, STOPPED)
  }

  // ---- Dispatcher ----------------------------------------------------------------------------------------

  /** A request without a handle goes to an idle slot. */
  function DispatchRegular(s: State, id: SlotId, op: Op): State {
    if id in s.slots && s.slots[id].running && s.slots[id].mode.Idle? then Enqueue(s, id, op, 0) else s
  }

  /** The pool leases an idle slot under a new handle and queues BEGIN on it. */
  function DispatchBegin(s: State, id: SlotId, key: Bytes): State {
    if id !in s.slots || (key != [] && key in s.keys) || id.pool >= INDEXES then s
    else
      var slot := s.slots[id];
      if !slot.running || !slot.mode.Idle? then s
      else
        var generation := NextGeneration(slot.generation);
        var leased := slot.(generation := generation, acquired := slot.acquired + 1);
        var token := Encode(id, generation);
        if id.index >= INDEXES || token in s.entries then s.(slots := s.slots[id := leased])
        else
          Enqueue(State(s.slots[id := leased.(mode := Active)], s.entries[token := Entry(id, generation, key)],
                        if key != [] then s.keys[key := token] else s.keys), id, Begin, token)
  }

  /** `route_transaction`: the slot a handle names, if it is that slot's current lease. */
  function Route(s: State, token: nat): Option<SlotId> {
    var parts := Decode(token);
    if parts.slot in s.slots && s.slots[parts.slot].generation == parts.generation then Some(parts.slot) else None
  }

  function DispatchTransaction(s: State, token: nat, op: Op): State {
    match Route(s, token)
    case None => s
    case Some(id) => if s.slots[id].mode.Active? then Enqueue(s, id, op, token) else s
  }

  function DispatchFinish(s: State, token: nat, op: Op): State {
    match Route(s, token)
    case None => s
    case Some(id) =>
      if s.slots[id].mode.Active? then Enqueue(s.(slots := s.slots[id := s.slots[id].(mode := Closing)]), id, op, token)
        else s
  }

  // ---- Worker ---------------------------------------------------------------------------------------------

  /** Pops a job and runs the checks in front of the driver. */
  function Take(slot: Slot): Slot {
    if slot.queue == [] || !slot.stage.Resting? then slot
    else
      var job := slot.queue[0];
      var rest := slot.(queue := slot.queue[1..]);
      if !slot.running then rest.(stage := Completing(job, STOPPED))
      else if job.token != 0 && !job.op.Begin? && job.token != slot.active
        then rest.(stage := Completing(job, Outcome(false, TransactionLost)))
      else rest.(stage := Checked(job))
  }

  /** The outcome of `reconnect` for a job waiting for a session. */
  function Connect(slot: Slot, outcome: Outcome): Slot {
    if !slot.stage.Checked? || slot.connected then slot
    else if outcome.ok then slot.(connected := true, history := slot.history + [Connected])
    else slot.(stage := Completing(slot.stage.job, outcome))
  }

  predicate Lost(outcome: Outcome) { !outcome.ok && IsConnectionError(outcome.code) }

  /** The code the worker reports for what the driver said. */
  function Reported(job: Job, outcome: Outcome): Outcome {
    if !outcome.ok && outcome.code.NoError? then Outcome(false, SqlError)
    else if Lost(outcome) && (job.op.Commit? || (job.token == 0 && job.op.Exec?)) then Outcome(false, OutcomeUnknown)
    else outcome
  }

  /** The driver runs the job; the session is closed when it is lost or a rollback failed. */
  function Execute(slot: Slot, outcome: Outcome): Slot {
    if !slot.stage.Checked? || !slot.connected then slot
    else
      var job := slot.stage.job;
      var ran := slot.(history := slot.history + [Ran(job, outcome)],
        stage := Completing(job, Reported(job, outcome)));
      if Lost(outcome) || (job.op.Rollback? && !outcome.ok) then
        ran.(history := ran.history + [Closed], connected := false, active := 0)
      else if outcome.ok && job.op.Begin? then ran.(active := job.token)
      else if outcome.ok && (job.op.Commit? || job.op.Rollback?) then ran.(active := 0)
      else ran
  }

  /** The completion callback, on the worker's thread. */
  function Complete(s: State, id: SlotId): State
    requires id in s.slots
  {
    var slot := s.slots[id];
    if slot.stage.Completing? then Finish(s.(slots := s.slots[id := slot.(stage := Resting)]), id, slot.stage.job,
      slot.stage.outcome) else s
  }

  /** A stopped worker with an empty queue closes its connection. */
  function Leave(slot: Slot): Slot {
    if !slot.running && slot.queue == [] && slot.stage.Resting? && slot.connected
    then slot.(connected := false, active := 0, history := slot.history + [Closed]) else slot
  }

  // ---- Runs -------------------------------------------------------------------------------------------------

  datatype Event =
    | Regular(slot: SlotId, op: Op)
    | BeginAt(slot: SlotId, key: Bytes)
    | InTransaction(token: nat, op: Op)
    | End(token: nat, op: Op)
    | Cancel(key: Bytes)
    | Stop(slot: SlotId)
    | TakeAt(slot: SlotId)
    | ConnectAt(slot: SlotId, outcome: Outcome)
    | ExecuteAt(slot: SlotId, outcome: Outcome)
    | CompleteAt(slot: SlotId)
    | LeaveAt(slot: SlotId)

  function On(s: State, id: SlotId, slot: Slot): State { s.(slots := s.slots[id := slot]) }

  function Next(s: State, e: Event): State {
    match e
    case Regular(id, op) => if op.Query? || op.Exec? then DispatchRegular(s, id, op) else s
    case BeginAt(id, key) => DispatchBegin(s, id, key)
    case InTransaction(token, op) => if op.Query? || op.Exec? then DispatchTransaction(s, token, op) else s
    case End(token, op) => if op.Commit? || op.Rollback? then DispatchFinish(s, token, op) else s
    case Cancel(key) => if key in s.keys then DispatchFinish(s, s.keys[key], Rollback) else s
    case Stop(id) => if id in s.slots then On(s, id, s.slots[id].(running := false)) else s
    case TakeAt(id) => if id in s.slots then On(s, id, Take(s.slots[id])) else s
    case ConnectAt(id, outcome) => if id in s.slots then On(s, id, Connect(s.slots[id], outcome)) else s
    case ExecuteAt(id, outcome) => if id in s.slots then On(s, id, Execute(s.slots[id], outcome)) else s
    case CompleteAt(id) => if id in s.slots then Complete(s, id) else s
    case LeaveAt(id) => if id in s.slots then On(s, id, Leave(s.slots[id])) else s
  }

  function Run(s: State, events: seq<Event>): State {
    if events == [] then s else Next(Run(s, events[..|events| - 1]), events[|events| - 1])
  }

  // ---- What the driver saw -------------------------------------------------------------------------------------

  /** The transaction open on the current physical session, by the driver's answers alone. */
  function OpenIn(history: seq<Native>): Option<nat> {
    if history == [] then None
    else
      var before := OpenIn(history[..|history| - 1]);
      match history[|history| - 1]
      case Connected => None
      case Closed => None
      case Ran(job, answer) =>
        if answer.ok && job.op.Begin? then Some(job.token)
        else if answer.ok && (job.op.Commit? || job.op.Rollback?) then None
        else before
  }

  /** Whether a physical session is up, by the history alone. */
  predicate SessionUp(history: seq<Native>) {
    history != [] &&
    match history[|history| - 1]
    case Connected => true
    case Closed => false
    case Ran(_, _) => SessionUp(history[..|history| - 1])
  }

  /** One driver call fits what is open: a job with a handle inside its own transaction, any other outside all. */
  predicate Fits(before: seq<Native>, native: Native) {
    native.Ran? ==>
      && SessionUp(before)
      && OpenIn(before) == if native.job.token != 0 && !native.job.op.Begin? then Some(native.job.token) else None
  }

  predicate Isolated(history: seq<Native>) {
    forall i | 0 <= i < |history| :: Fits(history[..i], history[i])
  }

  /** The request itself, not a cleanup on its behalf, was handed to the driver. */
  predicate Handed(history: seq<Native>, client: nat) {
    exists i | 0 <= i < |history| :: history[i].Ran? && history[i].job.original.None? && history[i].job.client == client
  }

  /** No job reached the driver twice. */
  predicate OnceEach(history: seq<Native>) {
    forall i, j | 0 <= i < j < |history| && history[i].Ran? && history[j].Ran? ::
      history[i].job.ticket != history[j].job.ticket
  }

  /** An answer by which the client may conclude that a write was not attempted. */
  predicate Disclaims(op: Op, token: nat, outcome: Outcome) {
    && (op.Commit? || (op.Exec? && token == 0))
    && !outcome.ok && (outcome.code.ConnectionUnavailable? || outcome.code.ConnectionLost?
      || outcome.code.TransactionLost?)
  }
}
