/** Every run of the SQL save machine: the invariant, event by event, and what follows from it. */
module SqlRuns {
  import opened ByteStrings
  import opened Results
  import opened Entities
  import opened SqlSignature
  import opened SqlDatabase
  import opened SqlSave

  function At<K, V>(m: map<K, V>, k: K): Option<V> { if k in m then Some(m[k]) else None }

  // ---- The invariant ---------------------------------------------------------------------------

  /** The committed transactions, one after another, each reporting the versions it recorded. */
  function Replayed(sql: Sql, rows: Rows, log: seq<Entry>): Option<Rows> {
    if log == [] then Some(rows)
    else
      var steps := log[|log| - 1].tx.steps;
      match Replayed(sql, rows, log[..|log| - 1])
      case None => None
      case Some(before) =>
        match Serially(sql, before, Changes(steps))
        case None => None
        case Some(done) => if done.versions == Versions(steps) then Some(done.rows) else None
  }

  predicate EntryOk(sql: Sql, calls: map<nat, Call>, e: Entry) {
    e.key.call in calls && calls[e.key.call].commitSent && Complete(sql, calls[e.key.call].request, e.tx)
  }

  predicate IdsOnce(log: seq<Entry>) {
    forall i, j | 0 <= i < j < |log| && log[i].tx.reserved.Some? && log[j].tx.reserved.Some? ::
      log[i].tx.reserved.value.id != log[j].tx.reserved.value.id
  }

  ghost predicate RecordsOk(log: seq<Entry>, records: map<Bytes, Record>) {
    && (forall id | id in records :: RecordInLog(log, id, records[id]))
    && (forall e | e in log && e.tx.reserved.Some? :: e.tx.reserved.value.id in records)
  }

  ghost predicate LogOk(sql: Sql, rows: Rows, s: State) {
    && (forall e | e in s.log :: EntryOk(sql, s.calls, e))
    && IdsOnce(s.log)
    && RecordsOk(s.log, s.db.records)
    && Replayed(sql, rows, s.log) == Some(s.db.rows)
  }

  ghost predicate CallsOk(sql: Sql, s: State) {
    forall c | c in s.calls :: CallOk(sql, s.log, s.calls[c])
  }

  predicate Used(s: State, k: TxKey) { k in s.wire || k in s.replies || k in s.db.open }

  predicate KeyFits(sql: Sql, s: State, k: TxKey) {
    && k.call in s.calls
    && KeyOk(sql, s.log, s.calls[k.call], k, At(s.wire, k), At(s.replies, k), At(s.db.open, k))
  }

  ghost predicate KeysOk(sql: Sql, s: State) {
    forall k | Used(s, k) :: KeyFits(sql, s, k)
  }

  ghost predicate Inv(sql: Sql, rows: Rows, s: State) {
    DbOk(sql, s.db) && LogOk(sql, rows, s) && CallsOk(sql, s) && KeysOk(sql, s)
  }

  lemma StartOk(sql: Sql, rows: Rows)
    ensures Inv(sql, rows, Start(rows))
  {
  }

  // ---- Calls on their own --------------------------------------------------------------------------

  /** A call between two phases: no COMMIT of it is awaited any more. */
  predicate Between(call: Call) {
    && 1 <= call.attempt && (call.attempt == 1 || call.attempt <= call.limit)
    && (call.commitSent ==> call.commitUncertain)
  }

  lemma RetryOrFinishOk(sql: Sql, log: seq<Entry>, call: Call, code: ErrorCode, clock: Clock)
    requires Between(call)
    ensures CallOk(sql, log, RetryOrFinish(call, code, clock))
  {
    hide Recorded, Granted;
  }

  lemma RollbackOk(sql: Sql, log: seq<Entry>, call: Call, code: ErrorCode, clock: Clock)
    requires Between(call)
    ensures CallOk(sql, log, Rollback(call, code, clock))
  {
    hide CallOk, RetryOrFinish;
    if call.beginSent { RollingOk(sql, log, call, code); } else { RetryOrFinishOk(sql, log, call, code, clock); }
  }

  lemma RollingOk(sql: Sql, log: seq<Entry>, call: Call, code: ErrorCode)
    requires Between(call) && call.beginSent
    ensures CallOk(sql, log, call.(phase := RollingBack(code)))
  {
    hide Recorded, Granted;
  }

  lemma StartSaveOk(sql: Sql, log: seq<Entry>, call: Call, clock: Clock)
    requires call.attempt == 0 || call.attempt < call.limit
    requires call.commitSent ==> call.commitUncertain
    ensures CallOk(sql, log, StartSave(call, clock)) && StartSave(call, clock).attempt == call.attempt + 1
    ensures StartSave(call, clock).request == call.request && StartSave(call, clock).commitSent == call.commitSent
  {
    hide Recorded, Granted, CallOk;
    var renewed :=
      call.(attempt := call.attempt + 1, beginSent := false, retryRequested := false, index := 0, versions := []);
    RollbackOk(sql, log, renewed, Unavailable, clock);
    SentOk(sql, log, renewed, CreateTable);
  }

  /** A call waiting for a statement other than COMMIT. */
  lemma SentOk(sql: Sql, log: seq<Entry>, call: Call, statement: Statement)
    requires Between(call) && Fits(statement) && (call.beginSent <==> !statement.CreateTable?)
    requires statement.Lookup? ==> statement.id == call.request.requestId
    requires statement.CreateTable? || statement.Begin? ==> call.index == 0 && call.versions == []
    ensures CallOk(sql, log, call.(phase := Waiting(statement)))
  {
    hide Recorded, Granted;
  }

  lemma CommitSentOk(sql: Sql, log: seq<Entry>, call: Call)
    requires Between(call) && call.beginSent
    ensures CallOk(sql, log, call.(commitSent := true, phase := Waiting(Commit)))
  {
    hide Recorded, Granted;
  }

  lemma AnsweredOk(sql: Sql, log: seq<Entry>, call: Call, versions: seq<uint64>)
    requires 1 <= call.attempt && (call.attempt == 1 || call.attempt <= call.limit)
    requires Recorded(sql, log, call.request, versions)
    ensures CallOk(sql, log, call.(phase := Finished(Granted(call.request, versions), false)))
  {
    hide Recorded;
    var result := Granted(call.request, versions);
    assert result == Granted(call.request, versions) && Recorded(sql, log, call.request, versions);
  }

  lemma WaitingIsBetween(sql: Sql, log: seq<Entry>, call: Call, fallback: ErrorCode)
    requires CallOk(sql, log, call) && call.phase.Waiting?
    requires call.phase.statement.Commit? ==> fallback == CommitUnknown
    ensures Between(call.(commitUncertain := call.commitUncertain || fallback == CommitUnknown))
    ensures !call.phase.statement.Commit? ==> Between(call)
  {
    hide Recorded, Granted;
  }

  /** A failure callback leaves a sound call that waits for nothing. */
  lemma OnFailureOk(sql: Sql, log: seq<Entry>, call: Call, retry: bool, code: ErrorCode, fallback: ErrorCode,
      clock: Clock)
    requires CallOk(sql, log, call) && call.phase.Waiting?
    requires call.phase.statement.Commit? ==> fallback == CommitUnknown
    ensures var next := Rollback(call.(retryRequested := retry,
      commitUncertain := call.commitUncertain || fallback == CommitUnknown), code, clock);
      CallOk(sql, log, next) && !next.phase.Waiting?
  {
    hide CallOk, Recorded, Granted;
    WaitingIsBetween(sql, log, call, fallback);
    RollbackOk(sql, log, call.(retryRequested := retry,
      commitUncertain := call.commitUncertain || fallback == CommitUnknown), code, clock);
  }

  lemma OnLossOk(sql: Sql, log: seq<Entry>, call: Call, clock: Clock)
    requires CallOk(sql, log, call) && call.phase.Waiting?
    ensures CallOk(sql, log, OnLoss(call, call.phase.statement, clock))
    ensures !OnLoss(call, call.phase.statement, clock).phase.Waiting?
  {
    hide CallOk, Rollback;
    var fallback: ErrorCode := if call.phase.statement.Commit? then CommitUnknown else Unavailable;
    OnFailureOk(sql, log, call, true, fallback, fallback, clock);
  }

  lemma OnRolledBackOk(sql: Sql, log: seq<Entry>, call: Call, clock: Clock)
    requires CallOk(sql, log, call)
    ensures CallOk(sql, log, OnRolledBack(call, clock))
    ensures OnRolledBack(call, clock) == call || !OnRolledBack(call, clock).phase.Waiting?
  {
    hide Recorded, Granted, RetryOrFinish;
    match call.phase
    case RollingBack(code) => RetryOrFinishOk(sql, log, call, code, clock); RetryNeverWaits(call, code, clock);
    case RollingBackReplay(versions) => AnsweredOk(sql, log, call, versions);
    case _ =>
  }

  lemma RetryNeverWaits(call: Call, code: ErrorCode, clock: Clock)
    ensures !RetryOrFinish(call, code, clock).phase.Waiting?
  {
  }

  lemma OnWakeOk(sql: Sql, log: seq<Entry>, call: Call, backend: bool, clock: Clock)
    requires CallOk(sql, log, call) && call.phase.Delaying?
    ensures var next := OnWake(call, backend, clock); CallOk(sql, log, next) && next.attempt == call.attempt + 1
  {
    hide Recorded, Granted, StartSave;
    if backend { StartSaveOk(sql, log, call, clock); }
    else { RetryOrFinishOk(sql, log, call.(attempt := call.attempt + 1), Unavailable, clock); }
  }

  lemma OnExitOk(sql: Sql, log: seq<Entry>, call: Call)
    requires CallOk(sql, log, call)
    ensures CallOk(sql, log, OnExit(call))
  {
    hide Recorded, Granted;
  }

  // ---- Success callbacks ------------------------------------------------------------------------------

  lemma ApplyNextOk(sql: Sql, log: seq<Entry>, call: Call, clock: Clock)
    requires Between(call) && call.beginSent
    ensures CallOk(sql, log, ApplyNext(call, clock))
  {
    hide CallOk, Rollback;
    RollbackOk(sql, log, call, Unavailable, clock);
    if call.index >= |call.request.changes| {
      SentOk(sql, log, call, Finish(call.request.requestId, EncodeVersions(call.versions)));
    } else {
      var change := call.request.changes[call.index];
      SentOk(sql, log, call, if change.operation.Insert? then Statement.Insert(change) else Write(change));
    }
  }

  /** A record found under the request's id and signature reads back as the versions of its transaction. */
  lemma ReplayOk(sql: Sql, log: seq<Entry>, calls: map<nat, Call>, call: Call, record: Record, clock: Clock)
    requires forall e | e in log :: EntryOk(sql, calls, e)
    requires RecordInLog(log, call.request.requestId, record)
    requires Between(call) && call.beginSent
    ensures CallOk(sql, log, ReplayRequest(sql, call, Some(record), clock))
  {
    hide CallOk, Rollback, DecodeVersions, EncodeVersions, RequestSignature, Changes, Versions;
    RollbackOk(sql, log, call, Conflict, clock);
    RollbackOk(sql, log, call, CommitUnknown, clock);
    var e :| e in log && e.tx.reserved == Some(Reservation(call.request.requestId, record));
    assert EntryOk(sql, calls, e);
    DecodeEncodeVersions(Versions(e.tx.steps), |call.request.changes|);
    if record.signature == Signature(sql, call.request) && DecodeVersions(record.data, |call.request.changes|).Some? {
      assert Answers(sql, call.request, Versions(e.tx.steps), e.tx);
      ReplayingOk(sql, log, call, e);
    }
  }

  lemma ReplayingOk(sql: Sql, log: seq<Entry>, call: Call, e: Entry)
    requires e in log && Answers(sql, call.request, Versions(e.tx.steps), e.tx) && Between(call) && call.beginSent
    ensures CallOk(sql, log, call.(phase := RollingBackReplay(Versions(e.tx.steps))))
  {
    hide Answers, Granted, Versions;
    assert Recorded(sql, log, call.request, Versions(e.tx.steps));
  }

  lemma OnReplyOk(sql: Sql, log: seq<Entry>, calls: map<nat, Call>, call: Call, reply: Reply, tx: Option<Tx>,
      clock: Clock)
    requires forall e | e in log :: EntryOk(sql, calls, e)
    requires CallOk(sql, log, call) && call.phase.Waiting?
    requires !reply.Failed? ==> After(sql, log, call, call.phase.statement, reply, tx)
    ensures CallOk(sql, log, OnReply(sql, call, call.phase.statement, reply, clock))
  {
    hide CallOk, Rollback, EntryOk, ReplayRequest, ApplyNext, Granted, Recorded, RecordInLog, Before, EncodeVersions;
    var statement := call.phase.statement;
    if reply.Failed? {
      FallbackOfCommit(statement);
      OnFailureOk(sql, log, call, reply.connection, if reply.connection then Unavailable
        else Fallback(statement), Fallback(statement), clock);
    } else {
      ReplyOk(sql, log, calls, call, reply, tx, clock);
    }
  }

  lemma FallbackOfCommit(statement: Statement)
    ensures statement.Commit? ==> Fallback(statement) == CommitUnknown
  {
  }

  lemma Attempts(sql: Sql, log: seq<Entry>, call: Call)
    requires CallOk(sql, log, call) && call.phase.Waiting?
    ensures 1 <= call.attempt && (call.attempt == 1 || call.attempt <= call.limit)
    ensures call.beginSent <==> !call.phase.statement.CreateTable?
    ensures Fits(call.phase.statement)
    ensures call.phase.statement.Lookup? ==> call.phase.statement.id == call.request.requestId
    ensures call.phase.statement.CreateTable? || call.phase.statement.Begin? ==> call.index == 0 && call.versions == []
  {
    hide Recorded, Granted;
  }

  lemma ReplyOk(sql: Sql, log: seq<Entry>, calls: map<nat, Call>, call: Call, reply: Reply, tx: Option<Tx>,
      clock: Clock)
    requires forall e | e in log :: EntryOk(sql, calls, e)
    requires CallOk(sql, log, call) && call.phase.Waiting? && !reply.Failed?
    requires After(sql, log, call, call.phase.statement, reply, tx)
    ensures CallOk(sql, log, OnReply(sql, call, call.phase.statement, reply, clock))
  {
    hide CallOk, Rollback, EntryOk, ReplayRequest, ApplyNext, Granted, Recorded, RecordInLog, Before;
    hide EncodeVersions, RequestSignature, FailDatabase;
    var statement := call.phase.statement;
    if statement.Commit? {
      Attempts(sql, log, call);
      AnsweredOk(sql, log, call, call.versions);
    } else if statement.CreateTable? || statement.Begin? || statement.Reserve? || statement.Lookup? {
      EarlyReplyOk(sql, log, calls, call, reply, tx, clock);
    } else {
      LateReplyOk(sql, log, call, reply, clock);
    }
  }

  lemma EarlyReplyOk(sql: Sql, log: seq<Entry>, calls: map<nat, Call>, call: Call, reply: Reply, tx: Option<Tx>,
      clock: Clock)
    requires forall e | e in log :: EntryOk(sql, calls, e)
    requires CallOk(sql, log, call) && call.phase.Waiting? && !reply.Failed?
    requires call.phase.statement.CreateTable? || call.phase.statement.Begin? || call.phase.statement.Reserve?
      || call.phase.statement.Lookup?
    requires After(sql, log, call, call.phase.statement, reply, tx)
    ensures CallOk(sql, log, OnReply(sql, call, call.phase.statement, reply, clock))
  {
    hide CallOk, Rollback, EntryOk, ReplayRequest, ApplyNext, RecordInLog, Before, RequestSignature;
    Attempts(sql, log, call);
    WaitingIsBetween(sql, log, call, Unavailable);
    RollbackOk(sql, log, call, Unavailable, clock);
    match call.phase.statement
    case CreateTable => SentOk(sql, log, call.(beginSent := true), Begin);
    case Begin =>
      SentOk(sql, log, call, Reserve(call.request.requestId, RequestSignature(sql.printer, call.request.changes)));
    case Reserve(id, _) => SentOk(sql, log, call, Lookup(call.request.requestId)); ApplyNextOk(sql, log, call, clock);
    case Lookup(id) =>
      if reply.record.Some? {
        ReplayOk(sql, log, calls, call, reply.record.value, clock);
      } else {
        EmptyReplayOk(sql, log, call, clock);
      }
  }

  lemma LateReplyOk(sql: Sql, log: seq<Entry>, call: Call, reply: Reply, clock: Clock)
    requires CallOk(sql, log, call) && call.phase.Waiting? && !reply.Failed?
    requires var st := call.phase.statement; st.Write? || st.Insert? || st.Exists? || st.Version? || st.Finish?
    ensures CallOk(sql, log, OnReply(sql, call, call.phase.statement, reply, clock))
  {
    hide CallOk, Rollback, ApplyNext, FailDatabase, MayCreate;
    Attempts(sql, log, call);
    WaitingIsBetween(sql, log, call, Unavailable);
    QuietOk(sql, log, call, clock);
    match call.phase.statement
    case Write(change) =>
      SentOk(sql, log, call, Version(change));
      SentOk(sql, log, call, Exists(change));
      if MayCreate(change) { SentOk(sql, log, call, Statement.Insert(change)); }
      ApplyNextOk(sql, log, call.(versions := call.versions + [0], index := call.index + 1), clock);
    case Insert(change) => SentOk(sql, log, call, Version(change));
    case Exists(_) =>
    case Version(_) =>
      if reply.Current? && reply.version.Some? {
        ApplyNextOk(sql, log, call.(versions := call.versions + [reply.version.value], index := call.index + 1), clock);
      }
    case Finish(_, _) => CommitSentOk(sql, log, call);
  }

  lemma EmptyReplayOk(sql: Sql, log: seq<Entry>, call: Call, clock: Clock)
    requires CallOk(sql, log, call) && call.phase.Waiting?
    ensures CallOk(sql, log, ReplayRequest(sql, call, None, clock))
  {
    hide CallOk, Rollback;
    OnFailureOk(sql, log, call, false, CommitUnknown, CommitUnknown, clock);
  }

  /** The plain rollbacks and failures of callbacks that got a well-formed answer. */
  lemma QuietOk(sql: Sql, log: seq<Entry>, call: Call, clock: Clock)
    requires CallOk(sql, log, call) && call.phase.Waiting? && !call.phase.statement.Commit?
    ensures CallOk(sql, log, Rollback(call, Unavailable, clock))
    ensures CallOk(sql, log, Rollback(call, Conflict, clock))
    ensures CallOk(sql, log, Rollback(call, NotFound, clock))
    ensures CallOk(sql, log, FailDatabase(call, false, Conflict, clock))
    ensures CallOk(sql, log, FailDatabase(call, false, InternalError, clock))
  {
    hide CallOk, Rollback;
    WaitingIsBetween(sql, log, call, Unavailable);
    RollbackOk(sql, log, call, Unavailable, clock);
    RollbackOk(sql, log, call, Conflict, clock);
    RollbackOk(sql, log, call, NotFound, clock);
    OnFailureOk(sql, log, call, false, Conflict, Conflict, clock);
    OnFailureOk(sql, log, call, false, InternalError, InternalError, clock);
  }

  // ---- One transaction key -----------------------------------------------------------------------------

  lemma CommitIsComplete(sql: Sql, call: Call, tx: Tx)
    requires InTx(sql, call, Commit, tx)
    ensures Complete(sql, call.request, tx) && Versions(tx.steps) == call.versions
  {
    hide Changes, Versions, EncodeVersions, Signature;
    assert Versions(tx.steps)[..call.index] == Versions(tx.steps);
    assert call.request.changes[..call.index] == call.request.changes;
  }

  /** The call no longer waits on this key. */
  lemma KeyLeft(sql: Sql, log: seq<Entry>, call: Call, next: Call, k: TxKey, sent: Option<Statement>,
      reply: Option<Reply>, tx: Option<Tx>)
    requires KeyOk(sql, log, call, k, sent, reply, tx)
    requires next.request == call.request && next.attempt >= call.attempt && (call.commitSent ==> next.commitSent)
    requires !(next.phase.Waiting? && k.attempt == next.attempt)
    ensures KeyOk(sql, log, next, k, sent, reply, tx)
  {
    hide InTx, Complete, After, Fits;
    if sent == Some(Commit) && tx.Some? && call.phase.Waiting? && k.attempt == call.attempt {
      CommitIsComplete(sql, call, tx.value);
    }
  }

  /** `next` follows `call` in the same attempt; `calm` is the same step without time pressure. */
  predicate Stays(call: Call, next: Call, calm: Call) {
    && next.request == call.request && next.attempt == call.attempt && (call.commitSent ==> next.commitSent)
    && (next.phase.Waiting? ==> next == calm)
    && (next.phase == Waiting(Commit) ==> next.commitSent)
  }

  predicate Quits(call: Call, next: Call) { Stays(call, next, call) && !next.phase.Waiting? }

  lemma RollbackStays(call: Call, code: ErrorCode, clock: Clock)
    ensures Quits(call, Rollback(call, code, clock))
  {
  }

  lemma FailureStays(call: Call, connection: bool, fallback: ErrorCode, clock: Clock)
    ensures Quits(call, FailDatabase(call, connection, fallback, clock))
  {
    hide Rollback;
    RollbackStays(call.(retryRequested := connection,
      commitUncertain := call.commitUncertain || fallback == CommitUnknown),
                  if connection then Unavailable else fallback, clock);
  }

  lemma ReplayStays(sql: Sql, call: Call, record: Option<Record>, clock: Clock)
    ensures Quits(call, ReplayRequest(sql, call, record, clock))
  {
    hide Rollback, FailDatabase, DecodeVersions, RequestSignature;
    RollbackStays(call, Conflict, clock);
    RollbackStays(call, CommitUnknown, clock);
    FailureStays(call, false, CommitUnknown, clock);
  }

  lemma ApplyNextStays(call: Call, clock: Clock)
    ensures Stays(call, ApplyNext(call, clock), ApplyNext(call, UNHURRIED))
  {
    hide Rollback, EncodeVersions;
    RollbackStays(call, Unavailable, clock);
  }

  lemma AppliedStays(call: Call, version: uint64, clock: Clock)
    ensures Stays(call, Applied(call, version, clock), Applied(call, version, UNHURRIED))
  {
    hide ApplyNext;
    ApplyNextStays(call.(versions := call.versions + [version], index := call.index + 1), clock);
  }

  /** A callback that sends something sends it whatever the clock says about the rest. */
  lemma OnReplyStays(sql: Sql, call: Call, statement: Statement, reply: Reply, clock: Clock)
    ensures Stays(call, OnReply(sql, call, statement, reply, clock), OnReply(sql, call, statement, reply, UNHURRIED))
    ensures reply.Failed? || statement.Lookup? || statement.Commit? ==>
      Quits(call, OnReply(sql, call, statement, reply, clock))
  {
    hide Rollback, FailDatabase, ReplayRequest, ApplyNext, Applied, RequestSignature, EncodeVersions, Granted;
    hide MayCreate, Fallback;
    if reply.Failed? {
      FailureStays(call, reply.connection, Fallback(statement), clock);
    } else {
      match statement
      case CreateTable => RollbackStays(call, Unavailable, clock);
      case Begin => RollbackStays(call, Unavailable, clock);
      case Reserve(_, _) => ApplyNextStays(call, clock);
      case Lookup(_) => ReplayStays(sql, call, if reply.Found? then reply.record else None, clock);
      case Write(change) => AppliedStays(call, 0, clock);
      case Insert(_) => FailureStays(call, false, Conflict, clock);
      case Exists(_) =>
        RollbackStays(call, if reply.Current? && reply.version.Some? then Conflict else NotFound, clock);
      case Version(_) =>
        FailureStays(call, false, InternalError, clock);
        if reply.Current? && reply.version.Some? { AppliedStays(call, reply.version.value, clock); }
      case Finish(_, _) => FailureStays(call, false, InternalError, clock); RollbackStays(call, Unavailable, clock);
      case Commit =>
    }
  }

  /** The reply was consumed and the next statement, if any, was sent on the same key. */
  lemma KeyReceived(sql: Sql, log: seq<Entry>, call: Call, k: TxKey, reply: Reply, tx: Option<Tx>, clock: Clock)
    requires KeyOk(sql, log, call, k, None, Some(reply), tx) && call.phase.Waiting? && k.attempt == call.attempt
    requires CallOk(sql, log, OnReply(sql, call, call.phase.statement, reply, clock))
    ensures var next := OnReply(sql, call, call.phase.statement, reply, clock);
      KeyOk(sql, log, next, k, if next.phase.Waiting? then Some(next.phase.statement) else None, None, tx)
  {
    hide OnReply, CallOk, InTx, Complete;
    var next := OnReply(sql, call, call.phase.statement, reply, clock);
    OnReplyStays(sql, call, call.phase.statement, reply, clock);
    if next.phase.Waiting? {
      Attempts(sql, log, next);
      BeginIsFirst(sql, next, tx);
    }
  }

  lemma BeginIsFirst(sql: Sql, call: Call, tx: Option<Tx>)
    requires call.phase.Waiting? && Before(sql, call, call.phase.statement, tx)
    ensures call.phase.statement.Begin? ==> tx.None?
  {
    hide Progress;
  }

  lemma KeyFresh(sql: Sql, log: seq<Entry>, call: Call, k: TxKey)
    requires call.phase == Waiting(CreateTable) && k.attempt == call.attempt >= 1
    ensures KeyOk(sql, log, call, k, Some(CreateTable), None, None)
  {
  }

  // ---- A statement executes -------------------------------------------------------------------------------

  /** One more step in the transaction, read back by the call. */
  lemma ProgressApplied(sql: Sql, call: Call, tx: Tx, v: uint64)
    requires call.index < |call.request.changes| && Progress(sql, call, tx, call.index + 1, [])
    requires tx.steps[call.index].version == v
    ensures Progress(sql, call.(versions := call.versions + [v], index := call.index + 1), tx, call.index + 1, [])
  {
    hide Signature, Changes;
    assert Versions(tx.steps)[..call.index + 1] == Versions(tx.steps)[..call.index] + [v];
  }

  /** What `apply_next_change` sends fits the transaction. */
  lemma ApplyNextBefore(sql: Sql, call: Call, tx: Tx)
    requires Progress(sql, call, tx, call.index, [])
    ensures var next := ApplyNext(call, UNHURRIED); next.phase.Waiting? && InTx(sql, next, next.phase.statement, tx)
  {
    hide Signature, Changes, Versions, EncodeVersions, Progress;
    ProgressAs(sql, call, tx, call.index, ApplyNext(call, UNHURRIED).phase);
  }

  lemma AppliedBefore(sql: Sql, call: Call, tx: Tx, v: uint64)
    requires call.index < |call.request.changes| && Progress(sql, call, tx, call.index + 1, [])
    requires tx.steps[call.index].version == v
    ensures var next := Applied(call, v, UNHURRIED); next.phase.Waiting? && InTx(sql, next, next.phase.statement, tx)
  {
    hide ApplyNext, InTx, Progress;
    ProgressApplied(sql, call, tx, v);
    ApplyNextBefore(sql, call.(versions := call.versions + [v], index := call.index + 1), tx);
  }

  lemma StepProgress(sql: Sql, call: Call, tx: Tx, next: Tx, step: Step)
    requires Progress(sql, call, tx, call.index, []) && call.index < |call.request.changes|
    requires step.change == call.request.changes[call.index] && next.reserved == tx.reserved
    requires next.steps == tx.steps + [step]
    ensures Progress(sql, call, next, call.index + 1, []) && next.steps[call.index] == step
  {
    hide Signature;
    var n := call.index;
    ChangesAppend(tx.steps, step);
    assert |tx.steps| == |Changes(tx.steps)| == n;
    assert Changes(next.steps) == Changes(next.steps)[..n] + [step.change];
    assert call.request.changes[..n + 1] == call.request.changes[..n] + [step.change];
    assert Versions(next.steps)[..n] == Versions(tx.steps);
  }

  /** A row statement of a live call, executed. */
  lemma MutateAfter(sql: Sql, log: seq<Entry>, db: Database, call: Call, k: TxKey, statement: Statement, effect: Effect)
    requires k in db.open && InTx(sql, call, statement, db.open[k]) && (statement.Write? || statement.Insert?)
    requires effect.Hit? ==> (statement.Write? && statement.change.operation.Delete? <==> effect.row.None?)
    ensures var Ran(next, reply) := Mutate(sql, db, k, statement.change, effect);
      !reply.Failed? ==> After(sql, log, call, statement, reply, At(next.open, k))
  {
    hide Signature, Changes, Versions, EncodeVersions, Progress, Applied, MayCreate;
    var tx := db.open[k];
    var change := statement.change;
    if effect.Hit? {
      var step := Step(change, VersionOf(effect.row));
      var next := Tx(tx.reserved, tx.steps + [step], tx.writes[sql.row(change.target) := effect.row]);
      StepProgress(sql, call, tx, next, step);
      if effect.row.None? {
        AppliedBefore(sql, call, next, 0);
      } else {
        ProgressAs(sql, call, next, call.index + 1, Waiting(Version(change)));
      }
    } else {
      ProgressAs(sql, call, tx, call.index, Waiting(Statement.Insert(change)));
    }
  }

  lemma ProgressAs(sql: Sql, call: Call, tx: Tx, n: nat, phase: Phase)
    requires Progress(sql, call, tx, n, [])
    ensures Progress(sql, call.(phase := phase), tx, n, []) && n <= |call.request.changes|
  {
  }

  lemma WriteAfter(sql: Sql, log: seq<Entry>, db: Database, call: Call, k: TxKey, change: EntityPatch)
    requires k in db.open && InTx(sql, call, Write(change), db.open[k])
    ensures var execution := Execute(sql, db, k, Write(change));
      execution.Ran? && !execution.reply.Failed? ==>
        After(sql, log, call, Write(change), execution.reply, At(execution.db.open, k))
  {
    hide InTx, After, Mutate, RowLocked;
    var effect := WriteEffect(sql, change, Seen(db, db.open[k], sql.row(change.target)));
    MutateAfter(sql, log, db, call, k, Write(change), effect);
  }

  lemma InsertAfter(sql: Sql, log: seq<Entry>, db: Database, call: Call, k: TxKey, change: EntityPatch)
    requires k in db.open && InTx(sql, call, Statement.Insert(change), db.open[k])
    ensures var execution := Execute(sql, db, k, Statement.Insert(change));
      execution.Ran? && !execution.reply.Failed? ==>
        After(sql, log, call, Statement.Insert(change), execution.reply, At(execution.db.open, k))
  {
    hide InTx, After, Mutate, RowLocked;
    var effect := InsertEffect(sql, change, Seen(db, db.open[k], sql.row(change.target)));
    MutateAfter(sql, log, db, call, k, Statement.Insert(change), effect);
  }

  lemma LastVersion(sql: Sql, rows: Rows, call: Call, tx: Tx, change: EntityPatch)
    requires TxOk(sql, rows, tx) && InTx(sql, call, Version(change), tx)
    ensures sql.row(change.target) in tx.writes
    ensures VersionOf(tx.writes[sql.row(change.target)]) == tx.steps[call.index].version
    ensures |tx.steps| == call.index + 1
  {
    hide Signature, Serially, Versions;
    var n := call.index;
    assert |tx.steps| == |Changes(tx.steps)| == n + 1;
    assert tx.steps[n].change == Changes(tx.steps)[n] == call.request.changes[n];
  }

  lemma VersionAfter(sql: Sql, log: seq<Entry>, db: Database, call: Call, k: TxKey, change: EntityPatch)
    requires DbOk(sql, db) && k in db.open && InTx(sql, call, Version(change), db.open[k])
    ensures var execution := Execute(sql, db, k, Version(change));
      execution.Ran? && After(sql, log, call, Version(change), execution.reply, At(execution.db.open, k))
  {
    hide TxOk, LocksOk, IdsOk, Signature, Changes, Versions, EncodeVersions, Progress, Applied, FailDatabase;
    var tx := db.open[k];
    assert TxOk(sql, db.rows, tx);
    LastVersion(sql, db.rows, call, tx, change);
    AppliedBefore(sql, call, tx, tx.steps[call.index].version);
    FailureStays(call, false, InternalError, UNHURRIED);
  }

  lemma ReserveAfter(sql: Sql, log: seq<Entry>, db: Database, call: Call, k: TxKey, id: Bytes, signature: Bytes)
    requires k in db.open && InTx(sql, call, Reserve(id, signature), db.open[k])
    ensures var execution := Execute(sql, db, k, Reserve(id, signature));
      execution.Ran? ==> After(sql, log, call, Reserve(id, signature), execution.reply, At(execution.db.open, k))
  {
    hide Signature, IdLocked, ApplyNext, Progress, EncodeVersions, Changes, Versions;
    var tx := db.open[k].(reserved := Some(Reservation(id, Record(signature, []))));
    ReservedProgress(sql, call, tx);
    ApplyNextBefore(sql, call, tx);
  }

  lemma ReservedProgress(sql: Sql, call: Call, tx: Tx)
    requires call.index == 0 && call.versions == [] && tx.steps == []
    requires tx.reserved == Some(Reservation(call.request.requestId, Record(Signature(sql, call.request), [])))
    ensures Progress(sql, call, tx, 0, [])
  {
    hide Signature;
  }

  lemma FinishAfter(sql: Sql, log: seq<Entry>, db: Database, call: Call, k: TxKey, id: Bytes, data: Bytes)
    requires k in db.open && InTx(sql, call, Finish(id, data), db.open[k])
    ensures var execution := Execute(sql, db, k, Finish(id, data));
      execution.Ran? && After(sql, log, call, Finish(id, data), execution.reply, At(execution.db.open, k))
  {
    hide Signature, EncodeVersions, Changes, Versions;
  }

  lemma ExistsAfter(sql: Sql, log: seq<Entry>, call: Call, change: EntityPatch, reply: Reply, tx: Option<Tx>)
    requires !reply.Failed?
    ensures After(sql, log, call, Exists(change), reply, tx)
  {
    hide Rollback;
    RollbackStays(call, if reply.Current? && reply.version.Some? then Conflict else NotFound, UNHURRIED);
  }

  lemma BeginAfter(sql: Sql, log: seq<Entry>, call: Call)
    requires call.index == 0 && call.versions == []
    ensures After(sql, log, call, Begin, Ready, Some(EMPTY_TX))
  {
    hide RequestSignature;
  }

  lemma CreateAfter(sql: Sql, log: seq<Entry>, call: Call)
    ensures After(sql, log, call, CreateTable, Ready, None)
  {
  }

  lemma CommitAfter(sql: Sql, log: seq<Entry>, call: Call, k: TxKey, tx: Tx, reply: Reply)
    requires InTx(sql, call, Commit, tx)
    ensures After(sql, log + [Entry(k, tx)], call, Commit, reply, None)
  {
    hide InTx, Signature, EncodeVersions, Changes, Versions;
    CommitIsComplete(sql, call, tx);
    assert Answers(sql, call.request, call.versions, tx);
    assert Entry(k, tx) in log + [Entry(k, tx)];
  }

  /** The awaited statement of a live call executes. */
  lemma StatementAfter(sql: Sql, log: seq<Entry>, db: Database, call: Call, k: TxKey, statement: Statement)
    requires DbOk(sql, db) && RecordsOk(log, db.records) && Before(sql, call, statement, At(db.open, k))
    requires statement.CreateTable? || statement.Begin? ==> k !in db.open
    requires statement.Begin? ==> call.index == 0 && call.versions == []
    requires statement.Lookup? ==> statement.id == call.request.requestId
    ensures var execution := Execute(sql, db, k, statement);
      var next := if statement.Commit? && k in db.open then log + [Entry(k, db.open[k])] else log;
      execution.Ran? && !execution.reply.Failed? ==>
        After(sql, next, call, statement, execution.reply, At(execution.db.open, k))
  {
    hide DbOk, InTx, After, RecordInLog, ExecuteIn;
    if statement.CreateTable? {
      CreateAfter(sql, log, call);
    } else if statement.Begin? {
      BeginAfter(sql, log, call);
    } else if k in db.open {
      match statement
      case Reserve(id, signature) => ReserveAfter(sql, log, db, call, k, id, signature);
      case Lookup(id) => LookupAfter(sql, log, db, call, k, id);
      case Write(change) => WriteAfter(sql, log, db, call, k, change);
      case Insert(change) => InsertAfter(sql, log, db, call, k, change);
      case Exists(change) => ExistsRuns(sql, log, db, call, k, change);
      case Version(change) => VersionAfter(sql, log, db, call, k, change);
      case Finish(id, data) => FinishAfter(sql, log, db, call, k, id, data);
      case Commit => CommitRuns(sql, db, k); CommitAfter(sql, log, call, k, db.open[k], Ready);
    }
  }

  lemma LookupAfter(sql: Sql, log: seq<Entry>, db: Database, call: Call, k: TxKey, id: Bytes)
    requires k in db.open && RecordsOk(log, db.records) && id == call.request.requestId
    ensures var execution := Execute(sql, db, k, Lookup(id));
      execution.Ran? && After(sql, log, call, Lookup(id), execution.reply, At(execution.db.open, k))
  {
    hide RecordInLog;
  }

  lemma ExistsRuns(sql: Sql, log: seq<Entry>, db: Database, call: Call, k: TxKey, change: EntityPatch)
    requires k in db.open
    ensures var execution := Execute(sql, db, k, Exists(change));
      execution.Ran? && After(sql, log, call, Exists(change), execution.reply, At(execution.db.open, k))
  {
    hide After;
    ExistsAfter(sql, log, call, change, Execute(sql, db, k, Exists(change)).reply, At(db.open, k));
  }

  lemma CommitRuns(sql: Sql, db: Database, k: TxKey)
    requires k in db.open
    ensures var execution := Execute(sql, db, k, Commit);
      execution == Execution.Ran(Publish(db, k), Ready) && k !in execution.db.open
  {
  }

  /** A statement touches the transaction of its own key only. */
  lemma ExecuteFrame(sql: Sql, db: Database, k: TxKey, statement: Statement, j: TxKey)
    requires j != k && Execute(sql, db, k, statement).Ran?
    ensures At(Execute(sql, db, k, statement).db.open, j) == At(db.open, j)
  {
    hide WriteEffect, InsertEffect, RowLocked, IdLocked, Overlay;
  }

  /** Only COMMIT changes rows and records. */
  lemma ExecuteKeeps(sql: Sql, db: Database, k: TxKey, statement: Statement)
    requires Execute(sql, db, k, statement).Ran? && !(statement.Commit? && k in db.open)
    ensures var next := Execute(sql, db, k, statement).db; next.rows == db.rows && next.records == db.records
  {
    hide WriteEffect, InsertEffect, RowLocked, IdLocked;
  }

  // ---- The log grows ---------------------------------------------------------------------------------------

  lemma RecordedGrows(sql: Sql, log: seq<Entry>, e: Entry, request: SaveRequest, versions: seq<uint64>)
    requires Recorded(sql, log, request, versions)
    ensures Recorded(sql, log + [e], request, versions)
  {
    hide Answers;
    var x :| x in log && Answers(sql, request, versions, x.tx);
    assert x in log + [e];
  }

  lemma RecordGrows(log: seq<Entry>, e: Entry, id: Bytes, record: Record)
    requires RecordInLog(log, id, record)
    ensures RecordInLog(log + [e], id, record)
  {
    var x :| x in log && x.tx.reserved == Some(Reservation(id, record));
    assert x in log + [e];
  }

  lemma CallGrows(sql: Sql, log: seq<Entry>, e: Entry, call: Call)
    requires CallOk(sql, log, call)
    ensures CallOk(sql, log + [e], call)
  {
    hide Recorded, Granted, Fits;
    if call.phase.RollingBackReplay? { RecordedGrows(sql, log, e, call.request, call.phase.replayed); }
    if call.phase.Finished? && call.phase.result.code.Success? {
      var versions :| call.phase.result == Granted(call.request, versions)
        && Recorded(sql, log, call.request, versions);
      RecordedGrows(sql, log, e, call.request, versions);
    }
  }

  lemma KeyGrows(sql: Sql, log: seq<Entry>, e: Entry, call: Call, k: TxKey, sent: Option<Statement>,
      reply: Option<Reply>, tx: Option<Tx>)
    requires KeyOk(sql, log, call, k, sent, reply, tx)
    ensures KeyOk(sql, log + [e], call, k, sent, reply, tx)
  {
    hide Recorded, RecordInLog, OnReply, Before, Complete, Fits;
    if call.phase.Waiting? && k.attempt == call.attempt && reply.Some? && !reply.value.Failed? {
      match call.phase.statement
      case Commit => RecordedGrows(sql, log, e, call.request, call.versions);
      case Lookup(_) =>
        if reply.value.record.Some? { RecordGrows(log, e, call.request.requestId, reply.value.record.value); }
      case _ =>
    }
  }

  // ---- Events ------------------------------------------------------------------------------------------------

  ghost predicate Focus(sql: Sql, s: State, k: TxKey) { Used(s, k) ==> KeyFits(sql, s, k) }

  lemma KeyAt(sql: Sql, s: State, k: TxKey)
    requires KeysOk(sql, s)
    ensures Focus(sql, s, k)
  {
  }

  lemma KeysFrom(sql: Sql, s: State)
    requires forall k :: Focus(sql, s, k)
    ensures KeysOk(sql, s)
  {
    hide KeyFits;
    forall k | Used(s, k) ensures KeyFits(sql, s, k) { assert Focus(sql, s, k); }
  }

  /** A call moves on without sending, or starts a new attempt. */
  predicate Moves(call: Call, next: Call) {
    && next.request == call.request && (call.commitSent ==> next.commitSent)
    && if next.phase.Waiting? then next.attempt > call.attempt && next.phase.statement.CreateTable?
      else next.attempt >= call.attempt
  }

  lemma LogCalls(sql: Sql, rows: Rows, s: State, calls: map<nat, Call>)
    requires LogOk(sql, rows, s)
    requires forall c | c in s.calls ::
      c in calls && calls[c].request == s.calls[c].request && (s.calls[c].commitSent ==> calls[c].commitSent)
    ensures forall wire, replies :: LogOk(sql, rows, State(s.db, calls, wire, replies, s.log))
  {
    hide Complete, RecordsOk, IdsOnce, Replayed;
  }

  lemma MoveKey(sql: Sql, s: State, c: nat, next: Call, k: TxKey)
    requires KeysOk(sql, s) && c in s.calls && Moves(s.calls[c], next) && CallOk(sql, s.log, next)
    ensures Focus(sql, Move(s, c, next), k)
  {
    hide KeyOk, CallOk;
    KeyAt(sql, s, k);
    var t := Move(s, c, next);
    if k.call == c && Used(t, k) {
      if Used(s, k) {
        KeyBelow(sql, s, k);
        KeyLeft(sql, s.log, s.calls[c], next, k, At(s.wire, k), At(s.replies, k), At(s.db.open, k));
      } else {
        Attempts(sql, s.log, next);
        KeyFresh(sql, s.log, next, k);
      }
    }
  }

  lemma KeyBelow(sql: Sql, s: State, k: TxKey)
    requires KeyFits(sql, s, k)
    ensures 1 <= k.attempt <= s.calls[k.call].attempt
  {
  }

  lemma MoveOk(sql: Sql, rows: Rows, s: State, c: nat, next: Call)
    requires Inv(sql, rows, s) && c in s.calls && Moves(s.calls[c], next) && CallOk(sql, s.log, next)
    ensures Inv(sql, rows, Move(s, c, next))
  {
    hide DbOk, LogOk, CallOk, KeyFits, KeysOk;
    var t := Move(s, c, next);
    LogCalls(sql, rows, s, t.calls);
    forall k ensures Focus(sql, t, k) { MoveKey(sql, s, c, next, k); }
    KeysFrom(sql, t);
  }

  lemma SubmitKey(sql: Sql, s: State, c: nat, next: Call, k: TxKey)
    requires KeysOk(sql, s) && c !in s.calls && CallOk(sql, s.log, next)
    requires next.phase.Waiting? ==> next.phase.statement.CreateTable?
    ensures Focus(sql, Move(s, c, next), k)
  {
    hide KeyOk, CallOk;
    KeyAt(sql, s, k);
    if k.call == c && Used(Move(s, c, next), k) {
      Attempts(sql, s.log, next);
      KeyFresh(sql, s.log, next, k);
    }
  }

  lemma SubmitOk(sql: Sql, rows: Rows, s: State, c: nat, next: Call)
    requires Inv(sql, rows, s) && c !in s.calls && CallOk(sql, s.log, next)
    requires next.phase.Waiting? ==> next.phase.statement.CreateTable?
    ensures Inv(sql, rows, Move(s, c, next))
  {
    hide DbOk, LogOk, CallOk, KeyFits, KeysOk;
    var t := Move(s, c, next);
    LogCalls(sql, rows, s, t.calls);
    forall k ensures Focus(sql, t, k) { SubmitKey(sql, s, c, next, k); }
    KeysFrom(sql, t);
  }

  lemma ReceiveKey(sql: Sql, s: State, c: nat, clock: Clock, k: TxKey)
    requires KeysOk(sql, s) && Awaits(s, c) && KeyOf(c, s.calls[c]) in s.replies
    requires CallOk(sql, s.log, OnReply(sql, s.calls[c], s.calls[c].phase.statement, s.replies[KeyOf(c, s.calls[c])],
      clock))
    ensures Focus(sql, Next(sql, s, Receive(c, clock)), k)
  {
    hide KeyOk, CallOk, OnReply;
    KeyAt(sql, s, k);
    var call := s.calls[c];
    var here := KeyOf(c, call);
    var reply := s.replies[here];
    var next := OnReply(sql, call, call.phase.statement, reply, clock);
    OnReplyStays(sql, call, call.phase.statement, reply, clock);
    if k == here {
      RepliedKey(sql, s, k);
      KeyReceived(sql, s.log, call, k, reply, At(s.db.open, k), clock);
    } else if k.call == c && Used(s, k) {
      KeyLeft(sql, s.log, call, next, k, At(s.wire, k), At(s.replies, k), At(s.db.open, k));
    }
  }

  lemma RepliedKey(sql: Sql, s: State, k: TxKey)
    requires KeyFits(sql, s, k) && k in s.replies
    ensures k !in s.wire
  {
  }

  lemma ReceiveOk(sql: Sql, rows: Rows, s: State, c: nat, clock: Clock)
    requires Inv(sql, rows, s) && Awaits(s, c) && KeyOf(c, s.calls[c]) in s.replies
    ensures Inv(sql, rows, Next(sql, s, Receive(c, clock)))
  {
    hide DbOk, CallOk, KeyFits, KeysOk, OnReply, EntryOk, IdsOnce, RecordsOk, Replayed;
    var call := s.calls[c];
    var k := KeyOf(c, call);
    var next := OnReply(sql, call, call.phase.statement, s.replies[k], clock);
    KeyAt(sql, s, k);
    RepliedAfter(sql, s, c);
    OnReplyOk(sql, s.log, s.calls, call, s.replies[k], At(s.db.open, k), clock);
    OnReplyStays(sql, call, call.phase.statement, s.replies[k], clock);
    var t := Next(sql, s, Receive(c, clock));
    ReceiveShape(sql, s, c, clock);
    LogCalls(sql, rows, s, t.calls);
    forall j ensures Focus(sql, t, j) { ReceiveKey(sql, s, c, clock, j); }
    KeysFrom(sql, t);
  }

  lemma ReceiveShape(sql: Sql, s: State, c: nat, clock: Clock)
    requires Awaits(s, c) && KeyOf(c, s.calls[c]) in s.replies
    ensures var t := Next(sql, s, Receive(c, clock));
      && t.db == s.db && t.log == s.log
      && t.calls == s.calls[c := OnReply(sql, s.calls[c], s.calls[c].phase.statement, s.replies[KeyOf(c, s.calls[c])],
        clock)]
  {
    hide OnReply;
  }

  lemma RepliedAfter(sql: Sql, s: State, c: nat)
    requires Awaits(s, c) && KeyOf(c, s.calls[c]) in s.replies && KeyFits(sql, s, KeyOf(c, s.calls[c]))
    ensures var k := KeyOf(c, s.calls[c]);
      !s.replies[k].Failed? ==>
        After(sql, s.log, s.calls[c], s.calls[c].phase.statement, s.replies[k], At(s.db.open, k))
  {
    hide After, Before, Complete;
  }

  lemma RunKey(sql: Sql, rows: Rows, s: State, k: TxKey, j: TxKey)
    requires Inv(sql, rows, s) && k in s.wire && Execute(sql, s.db, k, s.wire[k]).Ran?
    ensures Focus(sql, SqlSave.Ran(sql, s, k), j)
  {
    hide DbOk, KeyOk, CallOk, Execute, LogOk;
    KeyAt(sql, s, j);
    var t := SqlSave.Ran(sql, s, k);
    if j == k {
      RunHere(sql, rows, s, k);
    } else {
      ExecuteFrame(sql, s.db, k, s.wire[k], j);
      if Used(s, j) && t.log != s.log {
        KeyGrows(sql, s.log, Entry(k, s.db.open[k]), s.calls[j.call], j, At(s.wire, j), At(s.replies, j),
          At(s.db.open, j));
      }
    }
  }

  /** The key whose statement executes. */
  lemma RunHere(sql: Sql, rows: Rows, s: State, k: TxKey)
    requires Inv(sql, rows, s) && k in s.wire && Execute(sql, s.db, k, s.wire[k]).Ran?
    ensures KeyFits(sql, SqlSave.Ran(sql, s, k), k)
  {
    hide DbOk, CallOk, Execute, Before, After, Complete, Fits, EntryOk, IdsOnce, RecordsOk, Replayed;
    KeyAt(sql, s, k);
    var call := s.calls[k.call];
    assert CallOk(sql, s.log, call);
    if call.phase.Waiting? && k.attempt == call.attempt {
      Attempts(sql, s.log, call);
      BeginIsFirst(sql, call, At(s.db.open, k));
      CreateIsFirst(sql, call, At(s.db.open, k));
      StatementAfter(sql, s.log, s.db, call, k, s.wire[k]);
    }
  }

  lemma CreateIsFirst(sql: Sql, call: Call, tx: Option<Tx>)
    requires call.phase.Waiting? && Before(sql, call, call.phase.statement, tx)
    ensures call.phase.statement.CreateTable? ==> tx.None?
  {
    hide Progress;
  }

  /** A commit adds its transaction to the serial history. */
  lemma CommitLog(sql: Sql, rows: Rows, s: State, k: TxKey, t: State)
    requires Inv(sql, rows, s) && k in s.db.open && At(s.wire, k) == Some(Commit)
    requires t.db == Publish(s.db, k) && t.calls == s.calls && t.log == s.log + [Entry(k, s.db.open[k])]
    ensures LogOk(sql, rows, t)
  {
    hide DbOk, CallOk, Replayed, TxOk, Overlay, KeyOk, IdsOnce, RecordsOk, RecordInLog, Serially, Changes;
    hide Versions, EncodeVersions, Signature;
    var e := Entry(k, s.db.open[k]);
    KeyAt(sql, s, k);
    CommitEntry(sql, s, k);
    CommitIds(sql, s, k);
    PublishIsSerial(sql, s.db, k);
    ReplayedAppend(sql, rows, s.log, e, s.db.rows, t.db.rows);
    forall f | f in t.log ensures EntryOk(sql, t.calls, f) { if f != e { assert f in s.log; } }
    CommitRecords(s.log, s.db.records, e);
  }

  lemma CommitEntry(sql: Sql, s: State, k: TxKey)
    requires KeyFits(sql, s, k) && At(s.wire, k) == Some(Commit) && k in s.db.open
    ensures EntryOk(sql, s.calls, Entry(k, s.db.open[k]))
  {
    hide InTx, After, Complete;
    var call := s.calls[k.call];
    if call.phase.Waiting? && k.attempt == call.attempt { CommitIsComplete(sql, call, s.db.open[k]); }
  }

  lemma CommitIds(sql: Sql, s: State, k: TxKey)
    requires DbOk(sql, s.db) && IdsOnce(s.log) && RecordsOk(s.log, s.db.records) && k in s.db.open
    ensures IdsOnce(s.log + [Entry(k, s.db.open[k])])
  {
    hide TxOk, LocksOk;
    forall i | 0 <= i < |s.log| && s.log[i].tx.reserved.Some?
      ensures s.log[i].tx.reserved.value.id in s.db.records
    {
      assert s.log[i] in s.log;
    }
  }

  lemma CommitRecords(log: seq<Entry>, records: map<Bytes, Record>, e: Entry)
    requires RecordsOk(log, records) && e.tx.reserved.Some?
    ensures RecordsOk(log + [e], records[e.tx.reserved.value.id := e.tx.reserved.value.record])
  {
    var next := records[e.tx.reserved.value.id := e.tx.reserved.value.record];
    assert e in log + [e];
    forall id | id in next ensures RecordInLog(log + [e], id, next[id]) {
      if id != e.tx.reserved.value.id { RecordGrows(log, e, id, records[id]); }
    }
  }

  lemma ReplayedAppend(sql: Sql, rows: Rows, log: seq<Entry>, e: Entry, before: Rows, after: Rows)
    requires Replayed(sql, rows, log) == Some(before)
    requires Serially(sql, before, Changes(e.tx.steps)) == Some(Done(after, Versions(e.tx.steps)))
    ensures Replayed(sql, rows, log + [e]) == Some(after)
  {
    hide Serially, Changes, Versions;
    assert (log + [e])[..|log|] == log;
  }

  lemma RunOk(sql: Sql, rows: Rows, s: State, k: TxKey)
    requires Inv(sql, rows, s) && k in s.wire
    ensures Inv(sql, rows, SqlSave.Ran(sql, s, k))
  {
    hide DbOk, LogOk, CallOk, KeyFits, KeysOk, Execute, Publish;
    var t := SqlSave.Ran(sql, s, k);
    if Execute(sql, s.db, k, s.wire[k]).Ran? {
      RunDb(sql, s, k);
      RunCalls(sql, rows, s, k);
      RunLog(sql, rows, s, k);
      forall j ensures Focus(sql, t, j) { RunKey(sql, rows, s, k, j); }
      KeysFrom(sql, t);
    }
  }

  lemma RunDb(sql: Sql, s: State, k: TxKey)
    requires DbOk(sql, s.db) && KeysOk(sql, s) && k in s.wire && Execute(sql, s.db, k, s.wire[k]).Ran?
    ensures DbOk(sql, SqlSave.Ran(sql, s, k).db)
  {
    hide DbOk, Execute, Before, After, Complete, Fits;
    KeyAt(sql, s, k);
    ExecuteOk(sql, s.db, k, s.wire[k]);
  }

  lemma RunCalls(sql: Sql, rows: Rows, s: State, k: TxKey)
    requires CallsOk(sql, s) && k in s.wire && Execute(sql, s.db, k, s.wire[k]).Ran?
    ensures CallsOk(sql, SqlSave.Ran(sql, s, k))
  {
    hide CallOk, Execute;
    var t := SqlSave.Ran(sql, s, k);
    forall c | c in t.calls ensures CallOk(sql, t.log, t.calls[c]) {
      assert CallOk(sql, s.log, s.calls[c]);
      if t.log != s.log { CallGrows(sql, s.log, Entry(k, s.db.open[k]), s.calls[c]); }
    }
  }

  lemma RunLog(sql: Sql, rows: Rows, s: State, k: TxKey)
    requires Inv(sql, rows, s) && k in s.wire && Execute(sql, s.db, k, s.wire[k]).Ran?
    ensures LogOk(sql, rows, SqlSave.Ran(sql, s, k))
  {
    hide DbOk, CallOk, KeyFits, EntryOk, IdsOnce, RecordsOk, Replayed, Execute, Publish;
    var t := SqlSave.Ran(sql, s, k);
    if s.wire[k].Commit? && k in s.db.open {
      CommitRuns(sql, s.db, k);
      CommitLog(sql, rows, s, k, t);
    } else {
      ExecuteKeeps(sql, s.db, k, s.wire[k]);
    }
  }

  // ---- Loss and failure --------------------------------------------------------------------------------------

  /** A key may forget what was sent, answer with an error, or lose its transaction. */
  lemma KeyWeakens(sql: Sql, log: seq<Entry>, call: Call, k: TxKey, sent: Option<Statement>, reply: Option<Reply>,
      tx: Option<Tx>, connection: bool)
    requires KeyOk(sql, log, call, k, sent, reply, tx)
    ensures KeyOk(sql, log, call, k, None, reply, tx)
    ensures KeyOk(sql, log, call, k, None, Some(Failed(connection)), tx)
    ensures KeyOk(sql, log, call, k, sent, reply, None)
  {
    hide InTx, Complete, Fits, Recorded, RecordInLog, OnReply;
  }

  lemma QuietKeys(sql: Sql, s: State, t: State, k: TxKey, connection: bool)
    requires KeysOk(sql, s) && t.calls == s.calls && t.log == s.log
    requires forall j | j != k ::
      At(t.wire, j) == At(s.wire, j) && At(t.replies, j) == At(s.replies, j) && At(t.db.open, j) == At(s.db.open, j)
    requires
      || (At(t.wire, k) == None && At(t.replies, k) == At(s.replies, k) && At(t.db.open, k) == At(s.db.open, k))
      || (Used(s, k) && At(t.wire, k) == None && At(t.replies, k) == Some(Failed(connection))
        && At(t.db.open, k) == At(s.db.open, k))
      || (At(t.wire, k) == At(s.wire, k) && At(t.replies, k) == At(s.replies, k) && At(t.db.open, k) == None)
    ensures KeysOk(sql, t)
  {
    hide KeyOk;
    forall j ensures Focus(sql, t, j) {
      KeyAt(sql, s, j);
      if j != k {
        assert At(t.wire, j) == At(s.wire, j) && At(t.replies, j) == At(s.replies, j)
          && At(t.db.open, j) == At(s.db.open, j);
      } else if Used(s, k) {
        KeyWeakens(sql, s.log, s.calls[k.call], k, At(s.wire, k), At(s.replies, k), At(s.db.open, k), connection);
      }
    }
    KeysFrom(sql, t);
  }

  lemma QuietOkay(sql: Sql, rows: Rows, s: State, t: State)
    requires Inv(sql, rows, s) && t.calls == s.calls && t.log == s.log
    requires t.db.rows == s.db.rows && t.db.records == s.db.records && DbOk(sql, t.db) && KeysOk(sql, t)
    ensures Inv(sql, rows, t)
  {
    hide DbOk, CallOk, KeysOk, EntryOk, IdsOnce, RecordsOk, Replayed;
  }

  lemma LossOk(sql: Sql, rows: Rows, s: State, e: Event)
    requires Inv(sql, rows, s) && (e.Refuse? || e.Drop? || e.Garble? || e.Abort?)
    ensures Inv(sql, rows, Next(sql, s, e))
  {
    hide DbOk, LogOk, CallOk, KeyFits, KeysOk, CallsOk;
    var t := Next(sql, s, e);
    if t != s {
      AbortOk(sql, s.db, e.key);
      if e.Garble? { GarbledKey(sql, s, e.key); }
      QuietKeys(sql, s, t, e.key, if e.Refuse? || e.Garble? then e.connection else false);
      QuietOkay(sql, rows, s, t);
    }
  }

  lemma GarbledKey(sql: Sql, s: State, k: TxKey)
    requires KeysOk(sql, s) && k in s.replies
    ensures k !in s.wire
  {
    hide KeyOk;
    KeyAt(sql, s, k);
    RepliedKey(sql, s, k);
  }
}
