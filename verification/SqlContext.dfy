/** The save context as the actor's callbacks update it, field by field. */
module SqlContext {
  import opened ByteStrings
  import opened Results
  import opened Entities
  import opened SqlSignature
  import opened SqlDatabase
  import S = SqlSave
  import R = SqlRuns

  class SaveContext {
    const sql: Sql
    const request: SaveRequest
    const limit: nat
    var phase: S.Phase
    var attempt: nat
    var beginSent: bool
    var index: nat
    var versions: seq<uint64>
    var retryRequested: bool
    var commitUncertain: bool
    ghost var commitSent: bool

    ghost function View(): S.Call
      reads this
    {
      S.Call(request, limit, phase, attempt, beginSent, index, versions, retryRequested, commitUncertain, commitSent)
    }

    /** The bookkeeping is sound with respect to the transactions that took effect. */
    ghost predicate Sound(log: seq<S.Entry>)
      reads this
    {
      S.CallOk(sql, log, View())
    }

    /** An answer that neither grants nor leaves open denies only what was never asked to commit. */
    ghost predicate Honest()
      reads this
    {
      phase.Finished? ==> !phase.exited && (!S.Honest(phase.result.code) ==> !commitSent)
    }

    constructor (sql: Sql, request: SaveRequest, limit: nat)
      ensures this.sql == sql && View() == S.Call(request, limit, S.Delaying, 0, false, 0, [], false, false, false)
    {
      this.sql, this.request, this.limit, phase, attempt, beginSent := sql, request, limit, S.Delaying, 0, false;
      index, versions, retryRequested, commitUncertain, commitSent := 0, [], false, false, false;
    }

    method RetryOrFinish(code: ErrorCode, clock: S.Clock, ghost log: seq<S.Entry>)
      requires R.Between(View())
      modifies this
      ensures Sound(log) && Honest() && !phase.Waiting?
      ensures View() == S.RetryOrFinish(old(View()), code, clock)
    {
      hide S.Recorded, S.Granted;
      R.RetryOrFinishOk(sql, log, View(), code, clock);
      var answer: ErrorCode := code;
      if commitUncertain {
        answer := CommitUnknown;
      }
      if !retryRequested || attempt >= limit || !clock.again {
        phase := S.Finished(S.Failure(request, answer), false);
        return;
      }
      phase := S.Delaying;
    }

    method Rollback(code: ErrorCode, clock: S.Clock, ghost log: seq<S.Entry>)
      requires R.Between(View())
      modifies this
      ensures Sound(log) && Honest() && !phase.Waiting?
      ensures View() == S.Rollback(old(View()), code, clock)
    {
      hide S.CallOk, S.RetryOrFinish;
      R.RollbackOk(sql, log, View(), code, clock);
      if !beginSent {
        RetryOrFinish(code, clock, log);
        return;
      }
      phase := S.RollingBack(code);
    }

    method FailDatabase(connection: bool, fallback: ErrorCode, clock: S.Clock, ghost log: seq<S.Entry>)
      requires Sound(log) && phase.Waiting? && (phase.statement.Commit? ==> fallback == CommitUnknown)
      modifies this
      ensures Sound(log) && Honest() && !phase.Waiting?
      ensures View() == S.FailDatabase(old(View()), connection, fallback, clock)
    {
      hide S.CallOk, S.Rollback;
      R.WaitingIsBetween(sql, log, View(), fallback);
      retryRequested := connection;
      assert R.Between(View().(commitUncertain := commitUncertain || fallback == CommitUnknown));
      if fallback == CommitUnknown {
        commitUncertain := true;
      }
      Rollback(if retryRequested then Unavailable else fallback, clock, log);
    }

    method FailTransport(fallback: ErrorCode, clock: S.Clock, ghost log: seq<S.Entry>)
      requires Sound(log) && phase.Waiting? && (phase.statement.Commit? ==> fallback == CommitUnknown)
      modifies this
      ensures Sound(log) && Honest() && !phase.Waiting?
      ensures View() == S.FailTransport(old(View()), fallback, clock)
    {
      hide S.CallOk, S.Rollback;
      R.WaitingIsBetween(sql, log, View(), fallback);
      retryRequested := true;
      if fallback == CommitUnknown {
        commitUncertain := true;
      }
      Rollback(fallback, clock, log);
    }

    method StartSave(clock: S.Clock, ghost log: seq<S.Entry>)
      requires (attempt == 0 || attempt < limit) && (commitSent ==> commitUncertain)
      modifies this
      ensures Sound(log) && Honest()
      ensures View() == S.StartSave(old(View()), clock)
    {
      hide S.CallOk, S.Rollback;
      R.StartSaveOk(sql, log, View(), clock);
      attempt := attempt + 1;
      beginSent := false;
      retryRequested := false;
      index := 0;
      versions := [];
      if clock.expired {
        Rollback(Unavailable, clock, log);
        return;
      }
      phase := S.Waiting(CreateTable);
    }

    method BeginTransaction(clock: S.Clock, ghost log: seq<S.Entry>)
      requires Sound(log) && phase == S.Waiting(CreateTable)
      modifies this
      ensures Sound(log) && Honest()
      ensures View() == S.BeginTransaction(old(View()), clock)
    {
      hide S.CallOk, S.Rollback;
      R.Attempts(sql, log, View());
      R.WaitingIsBetween(sql, log, View(), Unavailable);
      R.SentOk(sql, log, View().(beginSent := true), Begin);
      if clock.expired {
        Rollback(Unavailable, clock, log);
        return;
      }
      beginSent := true;
      phase := S.Waiting(Begin);
    }

    method ReserveRequest(clock: S.Clock, ghost log: seq<S.Entry>)
      requires Sound(log) && phase == S.Waiting(Begin)
      modifies this
      ensures Sound(log) && Honest()
      ensures View() == S.ReserveRequest(sql, old(View()), clock)
    {
      hide S.CallOk, S.Rollback, RequestSignature;
      R.Attempts(sql, log, View());
      R.WaitingIsBetween(sql, log, View(), Unavailable);
      R.SentOk(sql, log, View(), Reserve(request.requestId, RequestSignature(sql.printer, request.changes)));
      if clock.expired {
        Rollback(Unavailable, clock, log);
        return;
      }
      var signature := Sign(sql.printer, request.changes);
      phase := S.Waiting(Reserve(request.requestId, signature));
    }

    method ReplayRequest(record: Option<Record>, clock: S.Clock, ghost log: seq<S.Entry>, ghost calls: map<nat, S.Call>)
      requires Sound(log) && phase.Waiting? && phase.statement.Lookup?
      requires forall e | e in log :: R.EntryOk(sql, calls, e)
      requires record.Some? ==> S.RecordInLog(log, request.requestId, record.value)
      modifies this
      ensures Sound(log) && Honest()
      ensures View() == S.ReplayRequest(sql, old(View()), record, clock)
    {
      hide S.CallOk, S.Rollback, RequestSignature, DecodeVersions, R.EntryOk, S.RecordInLog;
      R.Attempts(sql, log, View());
      R.WaitingIsBetween(sql, log, View(), Unavailable);
      if record.Some? { R.ReplayOk(sql, log, calls, View(), record.value, clock); }
      if record.None? {
        FailDatabase(false, CommitUnknown, clock, log);
        return;
      }
      var signature := Sign(sql.printer, request.changes);
      if record.value.signature != signature {
        Rollback(Conflict, clock, log);
        return;
      }
      var found := DecodeVersionList(record.value.data, |request.changes|);
      if found.None? {
        Rollback(CommitUnknown, clock, log);
        return;
      }
      phase := S.RollingBackReplay(found.value);
    }

    method ApplyNextChange(clock: S.Clock, ghost log: seq<S.Entry>)
      requires R.Between(View()) && beginSent
      modifies this
      ensures Sound(log) && Honest()
      ensures View() == S.ApplyNext(old(View()), clock)
    {
      hide S.CallOk, S.Rollback, EncodeVersions;
      R.ApplyNextOk(sql, log, View(), clock);
      if clock.expired {
        Rollback(Unavailable, clock, log);
        return;
      }
      if index >= |request.changes| {
        var data := EncodeVersionList(versions);
        phase := S.Waiting(Finish(request.requestId, data));
        return;
      }
      var change := request.changes[index];
      if change.operation.Insert? {
        phase := S.Waiting(Statement.Insert(change));
      } else {
        phase := S.Waiting(Write(change));
      }
    }

    method Applied(version: uint64, clock: S.Clock, ghost log: seq<S.Entry>)
      requires R.Between(View()) && beginSent
      modifies this
      ensures Sound(log) && Honest()
      ensures View() == S.Applied(old(View()), version, clock)
    {
      hide S.CallOk, S.ApplyNext;
      versions := versions + [version];
      index := index + 1;
      ApplyNextChange(clock, log);
    }

    method Commit(clock: S.Clock, ghost log: seq<S.Entry>)
      requires R.Between(View()) && beginSent
      modifies this
      ensures Sound(log) && Honest()
      ensures View() == S.SendCommit(old(View()), clock)
    {
      hide S.CallOk, S.Rollback;
      R.CommitSentOk(sql, log, View());
      if clock.expired {
        Rollback(Unavailable, clock, log);
        return;
      }
      commitSent := true;
      phase := S.Waiting(Statement.Commit);
    }

    /** The success callback of the awaited statement. */
    method OnReply(reply: Reply, clock: S.Clock, ghost log: seq<S.Entry>, ghost calls: map<nat, S.Call>,
        ghost tx: Option<Tx>)
      requires Sound(log) && phase.Waiting? && forall e | e in log :: R.EntryOk(sql, calls, e)
      requires !reply.Failed? ==> S.After(sql, log, View(), phase.statement, reply, tx)
      modifies this
      ensures Sound(log) && Honest()
      ensures View() == S.OnReply(sql, old(View()), old(phase).statement, reply, clock)
    {
      hide S.CallOk, S.Recorded, S.RecordInLog, S.ReplayRequest, S.ApplyNext, S.Applied, S.FailDatabase, S.Rollback;
      hide S.BeginTransaction, S.ReserveRequest, S.SendCommit, S.Fallback, R.EntryOk, S.Before;
      R.OnReplyOk(sql, log, calls, View(), reply, tx, clock);
      R.Attempts(sql, log, View());
      R.WaitingIsBetween(sql, log, View(), CommitUnknown);
      R.FallbackOfCommit(phase.statement);
      var statement := phase.statement;
      if reply.Failed? {
        FailDatabase(reply.connection, S.Fallback(statement), clock, log);
        return;
      }
      match statement
      case CreateTable => BeginTransaction(clock, log);
      case Begin => ReserveRequest(clock, log);
      case Reserve(_, _) =>
        if reply == Affected(0) { phase := S.Waiting(Lookup(request.requestId)); } else { ApplyNextChange(clock, log); }
      case Lookup(_) => ReplayRequest(if reply.Found? then reply.record else None, clock, log, calls);
      case Write(change) =>
        if reply.Affected? && reply.count > 0 {
          if change.operation.Delete? { Applied(0, clock, log); } else { phase := S.Waiting(Version(change)); }
        } else if MayCreate(change) {
          phase := S.Waiting(Statement.Insert(change));
        } else {
          phase := S.Waiting(Exists(change));
        }
      case Insert(change) =>
        if reply.Affected? && reply.count > 0 {
          phase := S.Waiting(Version(change));
        } else {
          FailDatabase(false, Conflict, clock, log);
        }
      case Exists(_) => Rollback(if reply.Current? && reply.version.Some? then Conflict else NotFound, clock, log);
      case Version(_) =>
        if reply.Current? && reply.version.Some? {
          Applied(reply.version.value, clock, log);
        } else {
          FailDatabase(false, InternalError, clock, log);
        }
      case Finish(_, _) =>
        if reply == Affected(1) { Commit(clock, log); } else { FailDatabase(false, InternalError, clock, log); }
      case Commit => phase := S.Finished(S.Granted(request, versions), false);
    }
  }
}
