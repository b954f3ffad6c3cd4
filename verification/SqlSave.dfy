/**
 The save machine of the SQL entity store: each call runs attempts of BEGIN, reserve, apply,
 record, COMMIT against the database, restarts after connection trouble and replays what an
 earlier attempt recorded. Calls interleave in any order. A request that was sent may execute
 at once, late or never; its reply may be lost or be an error although it took effect; and the
 database may end any transaction at any time.
 */
module SqlSave {
  import opened ByteStrings
  import opened Results
  import opened Entities
  import opened SqlSignature
  import opened SqlDatabase

  // ---- One call -------------------------------------------------------------------------------

  datatype Phase =
    | Waiting(statement: Statement)
    | RollingBack(code: ErrorCode)
    | RollingBackReplay(replayed: seq<uint64>)
    | Delaying
    | Finished(result: SaveResult, exited: bool)

  /** The save context. `commitSent` is history: some attempt of the call sent COMMIT. */
  datatype Call = Call(
    request: SaveRequest, limit: nat, phase: Phase, attempt: nat, beginSent: bool, index: nat, versions: seq<uint64>,
    retryRequested: bool, commitUncertain: bool, commitSent: bool)

  /** What the clock says when a callback asks: is the deadline over, may another attempt still start. */
  datatype Clock = Clock(expired: bool, again: bool)

  function Failure(request: SaveRequest, code: ErrorCode): SaveResult { SaveResult(code, request.requestId, false, []) }

  function Committed(changes: seq<EntityPatch>, versions: seq<uint64>): seq<CommittedEntity>
  {
    var n := if |changes| < |versions| then |changes| else |versions|;
    seq(n, i requires 0 <= i < n => CommittedEntity(changes[i].target, versions[i], changes[i].operation))
  }

  function Granted(request: SaveRequest, versions: seq<uint64>): SaveResult {
    SaveResult(ResultCode.Success, request.requestId, true, Committed(request.changes, versions))
  }

  function RetryOrFinish(call: Call, code: ErrorCode, clock: Clock): Call {
    var answer: ErrorCode := if call.commitUncertain then CommitUnknown else code;
    if !call.retryRequested || call.attempt >= call.limit || !clock.again
    then call.(phase := Finished(Failure(call.request, answer), false))
    else call.(phase := Delaying)
  }

  function Rollback(call: Call, code: ErrorCode, clock: Clock): Call {
    if call.beginSent then call.(phase := RollingBack(code)) else RetryOrFinish(call, code, clock)
  }

  function FailDatabase(call: Call, connection: bool, fallback: ErrorCode, clock: Clock): Call {
    Rollback(call.(retryRequested := connection, commitUncertain := call.commitUncertain || fallback == CommitUnknown),
             if connection then Unavailable else fallback, clock)
  }

  function FailTransport(call: Call, fallback: ErrorCode, clock: Clock): Call {
    Rollback(call.(retryRequested := true, commitUncertain := call.commitUncertain || fallback == CommitUnknown),
      fallback, clock)
  }

  function StartSave(call: Call, clock: Clock): Call {
    var renewed :=
      call.(attempt := call.attempt + 1, beginSent := false, retryRequested := false, index := 0, versions := []);
    if clock.expired then Rollback(renewed, Unavailable, clock) else renewed.(phase := Waiting(CreateTable))
  }

  function BeginTransaction(call: Call, clock: Clock): Call {
    if clock.expired then Rollback(call, Unavailable, clock) else call.(beginSent := true, phase := Waiting(Begin))
  }

  function ReserveRequest(sql: Sql, call: Call, clock: Clock): Call {
    if clock.expired then Rollback(call, Unavailable, clock)
    else call.(phase := Waiting(Reserve(call.request.requestId, RequestSignature(sql.printer, call.request.changes))))
  }

  function ReplayRequest(sql: Sql, call: Call, record: Option<Record>, clock: Clock): Call {
    match record
    case None => FailDatabase(call, false, CommitUnknown, clock)
    case Some(found) =>
      if found.signature != RequestSignature(sql.printer, call.request.changes) then Rollback(call, Conflict, clock)
      else match DecodeVersions(found.data, |call.request.changes|)
        case None => Rollback(call, CommitUnknown, clock)
        case Some(versions) => call.(phase := RollingBackReplay(versions))
  }

  function ApplyNext(call: Call, clock: Clock): Call {
    if clock.expired then Rollback(call, Unavailable, clock)
    else if call.index >= |call.request.changes| then
      call.(phase := Waiting(Finish(call.request.requestId, EncodeVersions(call.versions))))
    else
      var change := call.request.changes[call.index];
      call.(phase := Waiting(if change.operation.Insert? then Statement.Insert(change) else Write(change)))
  }

  function Applied(call: Call, version: uint64, clock: Clock): Call {
    ApplyNext(call.(versions := call.versions + [version], index := call.index + 1), clock)
  }

  function SendCommit(call: Call, clock: Clock): Call {
    if clock.expired then Rollback(call, Unavailable, clock) else call.(commitSent := true, phase := Waiting(Commit))
  }

  /** The code a failed statement falls back to. */
  function Fallback(statement: Statement): ErrorCode {
    match statement
    case CreateTable => Unavailable
    case Begin => Unavailable
    case Lookup(_) => CommitUnknown
    case Insert(_) => Conflict
    case Commit => CommitUnknown
    case _ => InternalError
  }

  /** The success callback of the awaited statement. */
  function OnReply(sql: Sql, call: Call, statement: Statement, reply: Reply, clock: Clock): Call {
    if reply.Failed? then FailDatabase(call, reply.connection, Fallback(statement), clock)
    else match statement
      case CreateTable => BeginTransaction(call, clock)
      case Begin => ReserveRequest(sql, call, clock)
      case Reserve(id, _) =>
        if reply == Affected(0) then call.(phase := Waiting(Lookup(call.request.requestId))) else ApplyNext(call, clock)
      case Lookup(_) => ReplayRequest(sql, call, if reply.Found? then reply.record else None, clock)
      case Write(change) =>
        if reply.Affected? && reply.count > 0 then
          if change.operation.Delete? then Applied(call, 0, clock) else call.(phase := Waiting(Version(change)))
        else if MayCreate(change) then call.(phase := Waiting(Statement.Insert(change)))
        else call.(phase := Waiting(Exists(change)))
      case Insert(change) =>
        if reply.Affected? && reply.count > 0 then call.(phase := Waiting(Version(change)))
        else FailDatabase(call, false, Conflict, clock)
      case Exists(_) => Rollback(call, if reply.Current? && reply.version.Some? then Conflict else NotFound, clock)
      case Version(_) =>
        if reply.Current? && reply.version.Some? then Applied(call, reply.version.value, clock)
        else FailDatabase(call, false, InternalError, clock)
      case Finish(_, _) =>
        if reply == Affected(1) then SendCommit(call, clock) else FailDatabase(call, false, InternalError, clock)
      case Commit => call.(phase := Finished(Granted(call.request, call.versions), false))
  }

  /** The error callback: no answer in time, or no connection to the service. */
  function OnLoss(call: Call, statement: Statement, clock: Clock): Call {
    FailTransport(call, if statement.Commit? then CommitUnknown else Unavailable, clock)
  }

  function OnRolledBack(call: Call, clock: Clock): Call {
    match call.phase
    case RollingBack(code) => RetryOrFinish(call, code, clock)
    case RollingBackReplay(versions) => call.(phase := Finished(Granted(call.request, versions), false))
    case _ => call
  }

  function OnWake(call: Call, backend: bool, clock: Clock): Call {
    if backend then StartSave(call, clock) else RetryOrFinish(call.(attempt := call.attempt + 1), Unavailable, clock)
  }

  /** `on_exit`: what a caller still waiting is told. */
  function OnExit(call: Call): Call {
    if call.phase.Finished? then call
    else call.(phase := Finished(Failure(call.request, if call.beginSent then CommitUnknown else Unavailable), true))
  }

  // ---- The machine -----------------------------------------------------------------------------

  /** A transaction that took effect. */
  datatype Entry = Entry(key: TxKey, tx: Tx)

  datatype State = State(db: Database, calls: map<nat, Call>, wire: map<TxKey, Statement>, replies: map<TxKey, Reply>,
    log: seq<Entry>)

  datatype Event =
    | Submit(call: nat, request: SaveRequest, limit: nat, clock: Clock)
    | Run(key: TxKey)
    | Refuse(key: TxKey, connection: bool)
    | Drop(key: TxKey)
    | Garble(key: TxKey, connection: bool)
    | Abort(key: TxKey)
    | Receive(call: nat, clock: Clock)
    | Lose(call: nat, clock: Clock)
    | RolledBack(call: nat, clock: Clock)
    | Wake(call: nat, backend: bool, clock: Clock)
    | Exit(call: nat)

  function Start(rows: Rows): State { State(Database(rows, map[], map[]), map[], map[], map[], []) }

  function KeyOf(c: nat, call: Call): TxKey { TxKey(c, call.attempt) }

  /** Stores the call and sends the statement it now waits for. */
  function Move(s: State, c: nat, call: Call): State {
    s.(calls := s.calls[c := call],
       wire := if call.phase.Waiting? then s.wire[KeyOf(c, call) := call.phase.statement] else s.wire)
  }

  predicate Awaits(s: State, c: nat) { c in s.calls && s.calls[c].phase.Waiting? }

  function Ran(sql: Sql, s: State, k: TxKey): State
    requires k in s.wire
  {
    var statement := s.wire[k];
    match Execute(sql, s.db, k, statement)
    case Blocked => s
    case Ran(db, reply) =>
      var log := if statement.Commit? && k in s.db.open then s.log + [Entry(k, s.db.open[k])] else s.log;
      State(db, s.calls, s.wire - {k}, s.replies[k := reply], log)
  }

  /** One event. An event that does not fit the state does nothing. */
  function Next(sql: Sql, s: State, e: Event): State {
    match e
    case Submit(c, request, limit, clock) =>
      if c in s.calls then s
      else Move(s, c, StartSave(Call(request, limit, Delaying, 0, false, 0, [], false, false, false), clock))
    case Run(k) => if k in s.wire then Ran(sql, s, k) else s
    case Refuse(k, connection) =>
      if k in s.wire then s.(wire := s.wire - {k}, replies := s.replies[k := Failed(connection)]) else s
    case Drop(k) => s.(wire := s.wire - {k})
    case Garble(k, connection) => if k in s.replies then s.(replies := s.replies[k := Failed(connection)]) else s
    case Abort(k) => s.(db := s.db.(open := s.db.open - {k}))
    case Receive(c, clock) =>
      if Awaits(s, c) && KeyOf(c, s.calls[c]) in s.replies then
        var call := s.calls[c];
        var k := KeyOf(c, call);
        Move(s.(replies := s.replies - {k}), c, OnReply(sql, call, call.phase.statement, s.replies[k], clock))
      else s
    case Lose(c, clock) => if Awaits(s, c) then Move(s, c, OnLoss(s.calls[c], s.calls[c].phase.statement, clock)) else s
    case RolledBack(c, clock) => if c in s.calls then Settled(s, c, OnRolledBack(s.calls[c], clock)) else s
    case Wake(c, backend, clock) =>
      if c in s.calls && s.calls[c].phase.Delaying? then Move(s, c, OnWake(s.calls[c], backend, clock)) else s
    case Exit(c) => if c in s.calls then s.(calls := s.calls[c := OnExit(s.calls[c])]) else s
  }

  function Settled(s: State, c: nat, call: Call): State { s.(calls := s.calls[c := call]) }

  function Reach(sql: Sql, s: State, events: seq<Event>): State {
    if events == [] then s else Next(sql, Reach(sql, s, events[..|events| - 1]), events[|events| - 1])
  }

  // ---- What is true of one call and one transaction ------------------------------------------------

  function Signature(sql: Sql, request: SaveRequest): Bytes { RequestSignature(sql.printer, request.changes) }

  /** The transaction did all of the request and recorded it. */
  predicate Complete(sql: Sql, request: SaveRequest, tx: Tx) {
    && tx.reserved == Some(Reservation(request.requestId,
      Record(Signature(sql, request), EncodeVersions(Versions(tx.steps)))))
    && Changes(tx.steps) == request.changes
  }

  /** The transaction did the first `n` changes and holds the request id. */
  predicate Progress(sql: Sql, call: Call, tx: Tx, n: nat, data: Bytes) {
    && n <= |call.request.changes|
    && tx.reserved == Some(Reservation(call.request.requestId, Record(Signature(sql, call.request), data)))
    && Changes(tx.steps) == call.request.changes[..n]
    && |call.versions| == call.index <= n && Versions(tx.steps)[..call.index] == call.versions
  }

  /** The open transaction of a call when the statement it waits for has not executed. */
  predicate InTx(sql: Sql, call: Call, statement: Statement, tx: Tx) {
    match statement
    case CreateTable => false
    case Begin => false
    case Reserve(id, signature) =>
      tx == EMPTY_TX && call.index == 0 && call.versions == [] && id == call.request.requestId
        && signature == Signature(sql, call.request)
    case Lookup(_) => true
    case Write(change) =>
      Progress(sql, call, tx, call.index, []) && call.index < |call.request.changes|
        && change == call.request.changes[call.index]
    case Insert(change) =>
      Progress(sql, call, tx, call.index, []) && call.index < |call.request.changes|
        && change == call.request.changes[call.index]
    case Exists(_) => true
    case Version(change) =>
      call.index < |call.request.changes| && Progress(sql, call, tx, call.index + 1, [])
        && change == call.request.changes[call.index]
    case Finish(id, data) =>
      && Progress(sql, call, tx, call.index, []) && call.index == |call.request.changes|
      && id == call.request.requestId && data == EncodeVersions(call.versions)
    case Commit =>
      Progress(sql, call, tx, call.index, EncodeVersions(call.versions)) && call.index == |call.request.changes|
  }

  predicate Before(sql: Sql, call: Call, statement: Statement, tx: Option<Tx>) {
    tx.Some? ==> InTx(sql, call, statement, tx.value)
  }

  /** A transaction took effect under the request's id and signature, and recorded these versions. */
  predicate Recorded(sql: Sql, log: seq<Entry>, request: SaveRequest, versions: seq<uint64>) {
    exists e | e in log :: Answers(sql, request, versions, e.tx)
  }

  predicate Answers(sql: Sql, request: SaveRequest, versions: seq<uint64>, tx: Tx) {
    && tx.reserved == Some(Reservation(request.requestId, Record(Signature(sql, request), EncodeVersions(versions))))
    && Versions(tx.steps) == versions
  }

  predicate RecordInLog(log: seq<Entry>, id: Bytes, record: Record) {
    exists e | e in log :: e.tx.reserved == Some(Reservation(id, record))
  }

  const UNHURRIED := Clock(false, true)

  /** The awaited statement answered with success: what that says about the transaction and the log. */
  predicate After(sql: Sql, log: seq<Entry>, call: Call, statement: Statement, reply: Reply, tx: Option<Tx>) {
    match statement
    case Commit => Recorded(sql, log, call.request, call.versions)
    case Lookup(_) =>
      reply.Found? && (reply.record.Some? ==> RecordInLog(log, call.request.requestId, reply.record.value))
    case _ =>
      var next := OnReply(sql, call, statement, reply, UNHURRIED);
      next.phase.Waiting? ==> Before(sql, next, next.phase.statement, tx)
  }

  /** What the wire, the replies and the database may hold for one transaction key. */
  predicate KeyOk(sql: Sql, log: seq<Entry>, call: Call, k: TxKey, sent: Option<Statement>, reply: Option<Reply>,
      tx: Option<Tx>)
  {
    && 1 <= k.attempt <= call.attempt
    && (sent.Some? ==> reply.None? && Fits(sent.value))
    && (sent == Some(Begin) ==> tx.None?)
    && (sent == Some(Commit) ==> call.commitSent)
    && if call.phase.Waiting? && k.attempt == call.attempt then
         && (sent.Some? ==> sent.value == call.phase.statement && Before(sql, call, call.phase.statement, tx))
         && (reply.Some? && !reply.value.Failed? ==> After(sql, log, call, call.phase.statement, reply.value, tx))
       else
         sent == Some(Commit) && tx.Some? ==> Complete(sql, call.request, tx.value)
  }

  predicate Honest(code: ResultCode) { code.Success? || code.CommitUnknown? }

  /** What the bookkeeping of one call says, given the transactions that took effect. */
  ghost predicate CallOk(sql: Sql, log: seq<Entry>, call: Call) {
    && 1 <= call.attempt && (call.attempt == 1 || call.attempt <= call.limit)
    && (call.phase.Delaying? ==> call.attempt < call.limit)
    && (call.phase.Waiting? ==> Fits(call.phase.statement) && (call.beginSent <==> !call.phase.statement.CreateTable?))
    && (call.phase.Waiting? && (call.phase.statement.CreateTable? || call.phase.statement.Begin?) ==>
      call.index == 0 && call.versions == [])
    && (call.phase.Waiting? && call.phase.statement.Lookup? ==> call.phase.statement.id == call.request.requestId)
    && (call.phase.RollingBack? || call.phase.RollingBackReplay? ==> call.beginSent)
    && (call.phase.RollingBackReplay? ==> Recorded(sql, log, call.request, call.phase.replayed))
    && (call.phase.Finished? && call.phase.result.code.Success? ==>
          exists versions ::
            call.phase.result == Granted(call.request, versions) && Recorded(sql, log, call.request, versions))
    && (call.commitSent ==>
          || call.commitUncertain
          || call.phase == Waiting(Commit)
          || (call.phase.Finished? && (call.phase.exited || Honest(call.phase.result.code))))
    && (call.phase.Finished? && !call.phase.exited && call.commitUncertain ==> Honest(call.phase.result.code))
  }
}
