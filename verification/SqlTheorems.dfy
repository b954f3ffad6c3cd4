/** What every run of the SQL save machine guarantees, and where `on_exit` falls short of it. */
module SqlTheorems {
  import opened ByteStrings
  import opened Results
  import opened Entities
  import opened SqlSignature
  import opened SqlDatabase
  import opened SqlSave
  import opened SqlRuns

  // ---- Every event, every run ------------------------------------------------------------------

  lemma StartSaveWaits(call: Call, clock: Clock)
    ensures StartSave(call, clock).phase.Waiting? ==> StartSave(call, clock).phase.statement.CreateTable?
  {
  }

  lemma LossMoves(call: Call, statement: Statement, clock: Clock)
    ensures Moves(call, OnLoss(call, statement, clock))
  {
    hide Rollback;
    var fallback: ErrorCode := if statement.Commit? then CommitUnknown else Unavailable;
    RollbackStays(call.(retryRequested := true, commitUncertain := call.commitUncertain || fallback == CommitUnknown),
      fallback, clock);
  }

  lemma RolledBackMoves(call: Call, clock: Clock)
    ensures Moves(call, OnRolledBack(call, clock)) || OnRolledBack(call, clock) == call
  {
    hide Granted;
  }

  lemma WakeMoves(call: Call, backend: bool, clock: Clock)
    ensures Moves(call, OnWake(call, backend, clock))
  {
    hide Rollback;
    if backend {
      StartSaveWaits(call, clock);
      RollbackStays(call.(attempt := call.attempt + 1, beginSent := false, retryRequested := false, index := 0,
        versions := []), Unavailable, clock);
    }
  }

  lemma CallAt(sql: Sql, s: State, c: nat)
    requires CallsOk(sql, s) && c in s.calls
    ensures CallOk(sql, s.log, s.calls[c])
  {
    hide CallOk;
  }

  lemma RolledBackOk(sql: Sql, rows: Rows, s: State, c: nat, clock: Clock)
    requires Inv(sql, rows, s) && c in s.calls
    ensures Inv(sql, rows, Settled(s, c, OnRolledBack(s.calls[c], clock)))
  {
    hide DbOk, LogOk, CallOk, CallsOk, KeysOk, OnRolledBack, Moves;
    var next := OnRolledBack(s.calls[c], clock);
    CallAt(sql, s, c);
    OnRolledBackOk(sql, s.log, s.calls[c], clock);
    RolledBackMoves(s.calls[c], clock);
    if next == s.calls[c] {
      assert s.calls[c := next] == s.calls;
    } else {
      MoveOk(sql, rows, s, c, next);
      assert Settled(s, c, next) == Move(s, c, next);
    }
  }

  lemma ExitOk(sql: Sql, rows: Rows, s: State, c: nat)
    requires Inv(sql, rows, s) && c in s.calls
    ensures Inv(sql, rows, s.(calls := s.calls[c := OnExit(s.calls[c])]))
  {
    hide DbOk, LogOk, CallOk, CallsOk, KeysOk;
    var next := OnExit(s.calls[c]);
    CallAt(sql, s, c);
    OnExitOk(sql, s.log, s.calls[c]);
    MoveOk(sql, rows, s, c, next);
    assert s.(calls := s.calls[c := next]) == Move(s, c, next);
  }

  lemma SubmitEventOk(sql: Sql, rows: Rows, s: State, c: nat, request: SaveRequest, limit: nat, clock: Clock)
    requires Inv(sql, rows, s) && c !in s.calls
    ensures Inv(sql, rows, Next(sql, s, Submit(c, request, limit, clock)))
  {
    hide Inv, CallOk, StartSave, Move;
    var call := Call(request, limit, Delaying, 0, false, 0, [], false, false, false);
    StartSaveOk(sql, s.log, call, clock);
    StartSaveWaits(call, clock);
    SubmitOk(sql, rows, s, c, StartSave(call, clock));
  }

  lemma LoseOk(sql: Sql, rows: Rows, s: State, c: nat, clock: Clock)
    requires Inv(sql, rows, s) && Awaits(s, c)
    ensures Inv(sql, rows, Move(s, c, OnLoss(s.calls[c], s.calls[c].phase.statement, clock)))
  {
    hide DbOk, LogOk, CallOk, CallsOk, KeysOk, OnLoss, Moves;
    CallAt(sql, s, c);
    OnLossOk(sql, s.log, s.calls[c], clock);
    LossMoves(s.calls[c], s.calls[c].phase.statement, clock);
    MoveOk(sql, rows, s, c, OnLoss(s.calls[c], s.calls[c].phase.statement, clock));
  }

  lemma WakeOk(sql: Sql, rows: Rows, s: State, c: nat, backend: bool, clock: Clock)
    requires Inv(sql, rows, s) && c in s.calls && s.calls[c].phase.Delaying?
    ensures Inv(sql, rows, Move(s, c, OnWake(s.calls[c], backend, clock)))
  {
    hide DbOk, LogOk, CallOk, CallsOk, KeysOk, OnWake, Moves;
    CallAt(sql, s, c);
    OnWakeOk(sql, s.log, s.calls[c], backend, clock);
    WakeMoves(s.calls[c], backend, clock);
    MoveOk(sql, rows, s, c, OnWake(s.calls[c], backend, clock));
  }

  /** Every event keeps the invariant. */
  lemma NextOk(sql: Sql, rows: Rows, s: State, e: Event)
    requires Inv(sql, rows, s)
    ensures Inv(sql, rows, Next(sql, s, e))
  {
    hide Inv, Move, OnLoss, OnWake, OnRolledBack, OnReply, OnExit, SqlSave.Ran, StartSave;
    match e
    case Submit(c, request, limit, clock) => if c !in s.calls { SubmitEventOk(sql, rows, s, c, request, limit, clock); }
    case Run(k) => if k in s.wire { RunOk(sql, rows, s, k); }
    case Receive(c, clock) =>
      if Awaits(s, c) && KeyOf(c, s.calls[c]) in s.replies { ReceiveOk(sql, rows, s, c, clock); }
    case Lose(c, clock) => if Awaits(s, c) { LoseOk(sql, rows, s, c, clock); }
    case RolledBack(c, clock) => if c in s.calls { RolledBackOk(sql, rows, s, c, clock); }
    case Wake(c, backend, clock) =>
      if c in s.calls && s.calls[c].phase.Delaying? { WakeOk(sql, rows, s, c, backend, clock); }
    case Exit(c) => if c in s.calls { ExitOk(sql, rows, s, c); }
    case _ => LossOk(sql, rows, s, e);
  }

  lemma {:induction false} ReachOk(sql: Sql, rows: Rows, events: seq<Event>)
    ensures Inv(sql, rows, Reach(sql, Start(rows), events))
  {
    hide Inv, Next;
    if events == [] {
      StartOk(sql, rows);
    } else {
      ReachOk(sql, rows, events[..|events| - 1]);
      NextOk(sql, rows, Reach(sql, Start(rows), events[..|events| - 1]), events[|events| - 1]);
    }
  }

  lemma {:induction false} ReachOn(sql: Sql, s: State, first: seq<Event>, more: seq<Event>)
    ensures Reach(sql, s, first + more) == Reach(sql, Reach(sql, s, first), more)
    decreases |more|
  {
    hide Next;
    if more == [] {
      assert first + more == first;
    } else {
      ReachOn(sql, s, first, more[..|more| - 1]);
      assert (first + more)[..|first + more| - 1] == first + more[..|more| - 1];
    }
  }

  // ---- Theorems ----------------------------------------------------------------------------------

  /** No request id takes effect twice. */
  lemma AtMostOnce(sql: Sql, rows: Rows, events: seq<Event>, i: nat, j: nat)
    requires var log := Reach(sql, Start(rows), events).log; i < j < |log|
    ensures var log := Reach(sql, Start(rows), events).log;
      log[i].tx.reserved.Some? && log[j].tx.reserved.Some? && log[i].tx.reserved.value.id != log[j].tx.reserved.value.id
  {
    hide DbOk, CallsOk, KeysOk, Reach, RecordsOk, Replayed;
    ReachOk(sql, rows, events);
    var s := Reach(sql, Start(rows), events);
    assert s.log[i] in s.log && s.log[j] in s.log;
    assert EntryOk(sql, s.calls, s.log[i]) && EntryOk(sql, s.calls, s.log[j]);
  }

  /** The rows are those of the committed requests run one at a time, whole, in commit order. */
  lemma Serializable(sql: Sql, rows: Rows, events: seq<Event>)
    ensures var s := Reach(sql, Start(rows), events);
      && Replayed(sql, rows, s.log) == Some(s.db.rows)
      && forall e | e in s.log :: e.key.call in s.calls && Changes(e.tx.steps) == s.calls[e.key.call].request.changes
  {
    hide DbOk, CallsOk, KeysOk, Reach, RecordsOk, Replayed, IdsOnce;
    ReachOk(sql, rows, events);
    var s := Reach(sql, Start(rows), events);
    forall e | e in s.log ensures e.key.call in s.calls && Changes(e.tx.steps) == s.calls[e.key.call].request.changes {
      assert EntryOk(sql, s.calls, e);
    }
  }

  /** A committed transaction and the entry's own call, whose request it is. */
  lemma EntryAnswers(sql: Sql, rows: Rows, s: State, request: SaveRequest, versions: seq<uint64>, e: Entry)
    requires LogOk(sql, rows, s) && e in s.log && Answers(sql, request, versions, e.tx)
    ensures SameChanges(sql.printer, Changes(e.tx.steps), request.changes)
  {
    hide Replayed, IdsOnce, RecordsOk, Changes, Versions, RequestSignature, EncodeVersions, SameChanges;
    assert EntryOk(sql, s.calls, e);
    SignatureExact(sql.printer, s.calls[e.key.call].request.changes, request.changes);
  }

  /**
   `ok` means that the request is in the history, under its id and with the reported versions.
   What took effect is the request itself, but for doubles that print alike.
   */
  lemma OkIsCommitted(sql: Sql, rows: Rows, events: seq<Event>, c: nat)
    requires var s := Reach(sql, Start(rows), events);
      c in s.calls && s.calls[c].phase.Finished? && s.calls[c].phase.result.code.Success?
    ensures var s := Reach(sql, Start(rows), events); var call := s.calls[c];
      exists e | e in s.log ::
        && e.tx.reserved.Some? && e.tx.reserved.value.id == call.request.requestId
        && SameChanges(sql.printer, Changes(e.tx.steps), call.request.changes)
        && call.phase.result == Granted(call.request, Versions(e.tx.steps))
  {
    hide DbOk, LogOk, KeysOk, Reach, Granted, Changes, Versions, Signature, EncodeVersions, SameChanges;
    ReachOk(sql, rows, events);
    var s := Reach(sql, Start(rows), events);
    var call := s.calls[c];
    assert CallOk(sql, s.log, call);
    var versions :| call.phase.result == Granted(call.request, versions)
      && Recorded(sql, s.log, call.request, versions);
    var e :| e in s.log && Answers(sql, call.request, versions, e.tx);
    EntryAnswers(sql, rows, s, call.request, versions, e);
  }

  /** Without a NaN in the request, exactly the request took effect. */
  lemma OkIsExact(sql: Sql, rows: Rows, events: seq<Event>, c: nat)
    requires var s := Reach(sql, Start(rows), events);
      && c in s.calls && s.calls[c].phase.Finished? && s.calls[c].phase.result.code.Success?
      && Faithful(sql.printer) && FreeOfNan(s.calls[c].request.changes)
    ensures var s := Reach(sql, Start(rows), events); var call := s.calls[c];
      exists e | e in s.log ::
        && e.tx.reserved.Some? && e.tx.reserved.value.id == call.request.requestId
        && Changes(e.tx.steps) == call.request.changes
        && call.phase.result == Granted(call.request, Versions(e.tx.steps))
  {
    hide Reach, Granted, Changes, Versions, SameChanges, Faithful, FreeOfNan;
    OkIsCommitted(sql, rows, events, c);
    var s := Reach(sql, Start(rows), events);
    var call := s.calls[c];
    var e :| && e in s.log && e.tx.reserved.Some? && e.tx.reserved.value.id == call.request.requestId
             && SameChanges(sql.printer, Changes(e.tx.steps), call.request.changes)
             && call.phase.result == Granted(call.request, Versions(e.tx.steps));
    SameTurned(sql.printer, Changes(e.tx.steps), call.request.changes);
    SameIsEqual(sql.printer, call.request.changes, Changes(e.tx.steps));
  }

  lemma SameTurned(printer: Printer, a: seq<EntityPatch>, b: seq<EntityPatch>)
    requires SameChanges(printer, a, b)
    ensures SameChanges(printer, b, a)
  {
    hide RequestSignature, SameChanges;
    SignatureExact(printer, a, b);
    SignatureExact(printer, b, a);
  }

  /** A committed request answers for another under its id exactly when the two print alike. */
  lemma ReplayExact(sql: Sql, first: SaveRequest, tx: Tx, call: Call, clock: Clock)
    requires Complete(sql, first, tx)
    ensures var next := ReplayRequest(sql, call, Some(tx.reserved.value.record), clock);
      next.phase == RollingBackReplay(Versions(tx.steps))
      <==> SameChanges(sql.printer, first.changes, call.request.changes) && call.request.changes != []
  {
    hide RequestSignature, EncodeVersions, DecodeVersions, SameChanges;
    SignatureExact(sql.printer, first.changes, call.request.changes);
    DecodeEncodeVersions(Versions(tx.steps), |call.request.changes|);
    if SameChanges(sql.printer, first.changes, call.request.changes) {
      SameLength(sql.printer, first.changes, call.request.changes);
    }
  }

  lemma SameLength(printer: Printer, a: seq<EntityPatch>, b: seq<EntityPatch>)
    requires SameChanges(printer, a, b)
    ensures |a| == |b|
  {
  }

  /** A call that was never asked to commit is not in the history, and a finished call is asked nothing more. */
  ghost predicate Silent(s: State, c: nat) {
    && c in s.calls && s.calls[c].phase.Finished? && !s.calls[c].commitSent
  }

  lemma SilentStays(sql: Sql, s: State, e: Event, c: nat)
    requires Silent(s, c)
    ensures Silent(Next(sql, s, e), c)
  {
    hide StartSave, OnReply, OnLoss, OnWake, Execute;
  }

  lemma {:induction false} SilentForever(sql: Sql, s: State, events: seq<Event>, c: nat)
    requires Silent(s, c)
    ensures Silent(Reach(sql, s, events), c)
  {
    hide Silent, Next;
    if events != [] {
      SilentForever(sql, s, events[..|events| - 1], c);
      SilentStays(sql, Reach(sql, s, events[..|events| - 1]), events[|events| - 1], c);
    }
  }

  lemma SilentNotInLog(sql: Sql, rows: Rows, s: State, c: nat, e: Entry)
    requires Inv(sql, rows, s) && Silent(s, c) && e in s.log
    ensures e.key.call != c
  {
    hide DbOk, CallsOk, KeysOk, RecordsOk, Replayed, IdsOnce, Complete;
    assert EntryOk(sql, s.calls, e);
  }

  /**
   An answer through `finish_save` other than ok and commit_unknown: COMMIT was never sent, so nothing of the call is
   ever committed.
   */
  lemma FailureIsHonest(sql: Sql, rows: Rows, events: seq<Event>, c: nat, more: seq<Event>)
    requires var s := Reach(sql, Start(rows), events);
      && c in s.calls && s.calls[c].phase.Finished? && !s.calls[c].phase.exited
      && !s.calls[c].phase.result.code.Success? && !s.calls[c].phase.result.code.CommitUnknown?
    ensures !Reach(sql, Start(rows), events).calls[c].commitSent
    ensures forall e | e in Reach(sql, Start(rows), events + more).log :: e.key.call != c
  {
    hide DbOk, LogOk, KeysOk, Reach, Granted, Recorded;
    ReachOk(sql, rows, events);
    var s := Reach(sql, Start(rows), events);
    assert CallOk(sql, s.log, s.calls[c]);
    assert Silent(s, c);
    HonestLater(sql, rows, events, c, more);
  }

  lemma HonestLater(sql: Sql, rows: Rows, events: seq<Event>, c: nat, more: seq<Event>)
    requires Silent(Reach(sql, Start(rows), events), c)
    ensures forall e | e in Reach(sql, Start(rows), events + more).log :: e.key.call != c
  {
    hide Inv, Reach, Silent;
    ReachOn(sql, Start(rows), events, more);
    ReachOk(sql, rows, events + more);
    var t := Reach(sql, Start(rows), events + more);
    SilentForever(sql, Reach(sql, Start(rows), events), more, c);
    forall e | e in t.log ensures e.key.call != c { SilentNotInLog(sql, rows, t, c, e); }
  }

  /** A call makes one attempt, or as many as configured. */
  lemma AttemptsBounded(sql: Sql, rows: Rows, events: seq<Event>, c: nat)
    requires c in Reach(sql, Start(rows), events).calls
    ensures var call := Reach(sql, Start(rows), events).calls[c];
      1 <= call.attempt && (call.attempt == 1 || call.attempt <= call.limit)
  {
    hide DbOk, LogOk, KeysOk, Reach, Granted, Recorded;
    ReachOk(sql, rows, events);
    var s := Reach(sql, Start(rows), events);
    assert CallOk(sql, s.log, s.calls[c]);
  }

  // ---- on_exit --------------------------------------------------------------------------------------

  /** The answer given on exit denies a commit that was asked for. */
  predicate Denies(call: Call) {
    call.phase.Finished? && call.phase.exited && call.phase.result.code.Unavailable? && call.commitSent
  }

  /**
   Exit denies exactly when COMMIT was sent by an earlier attempt and the current one has not
   sent BEGIN. `commitUncertain` is then still set: reporting it would have been enough.
   */
  lemma ExitDenies(sql: Sql, rows: Rows, events: seq<Event>, c: nat)
    requires var s := Reach(sql, Start(rows), events); c in s.calls && !s.calls[c].phase.Finished?
    ensures var s := Reach(sql, Start(rows), events); var t := Next(sql, s, Exit(c)); var call := s.calls[c];
      && c in t.calls
      && (Denies(t.calls[c]) <==> call.commitSent && !call.beginSent)
      && (call.commitSent && !call.beginSent ==> call.commitUncertain)
  {
    hide DbOk, LogOk, KeysOk, Reach, Granted, Recorded;
    ReachOk(sql, rows, events);
    var s := Reach(sql, Start(rows), events);
    assert CallOk(sql, s.log, s.calls[c]);
  }
}
