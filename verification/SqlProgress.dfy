/**
 What one undisturbed call of the SQL store achieves: it commits exactly the serial effect of its
 changes, or answers why a change cannot be made; and what a caller can be told of it on exit.
 */
module SqlProgress {
  import opened ByteStrings
  import opened Results
  import opened Entities
  import opened SqlSignature
  import opened SqlDatabase
  import opened SqlSave
  import opened SqlRuns
  import T = SqlTheorems

  // ---- A call among others -----------------------------------------------------------------------

  /** No transaction is open, and nothing of the call's attempt is under way. `b` is the call in that attempt. */
  predicate Quiet(s: State, c: nat, b: Call) {
    s.db.open == map[] && KeyOf(c, b) !in s.wire && KeyOf(c, b) !in s.replies
  }

  /** The state with the call in it, waiting for what it has just sent. */
  function Amid(s: State, c: nat, db: Database, call: Call): State
    requires call.phase.Waiting?
  {
    State(db, s.calls[c := call], s.wire[KeyOf(c, call) := call.phase.statement], s.replies, s.log)
  }

  /** The state with the call in it, waiting for no statement. */
  function Rest(s: State, c: nat, db: Database, call: Call): State {
    State(db, s.calls[c := call], s.wire, s.replies, s.log)
  }

  function Turn(c: nat, b: Call): seq<Event> { [Run(KeyOf(c, b)), Receive(c, UNHURRIED)] }

  /** A step of the call itself, in time: it is taken up, its statement runs, the answer comes, its rollback ends. */
  predicate OwnStep(c: nat, e: Event) {
    match e
    case Submit(d, _, _, clock) => d == c && clock == UNHURRIED
    case Run(k) => k.call == c
    case Abort(k) => k.call == c
    case Receive(d, clock) => d == c && clock == UNHURRIED
    case RolledBack(d, clock) => d == c && clock == UNHURRIED
    case Wake(d, backend, clock) => d == c && backend && clock == UNHURRIED
    case _ => false
  }

  /** The call is left alone: nothing is refused, lost or late, and no other call moves. */
  ghost predicate Calm(c: nat, events: seq<Event>) { forall e | e in events :: OwnStep(c, e) }

  lemma TurnCalm(c: nat, b: Call)
    ensures Calm(c, Turn(c, b)) && Calm(c, Turn(c, b) + Turn(c, b))
  {
  }

  lemma JoinCalm(c: nat, first: seq<Event>, more: seq<Event>)
    requires Calm(c, first) && Calm(c, more)
    ensures Calm(c, first + more)
  {
    hide OwnStep;
  }

  lemma TwoSteps(sql: Sql, s: State, a: Event, b: Event)
    ensures Reach(sql, s, [a, b]) == Next(sql, Next(sql, s, a), b)
  {
    hide Next;
    assert [a, b][..1] == [a] && [a][..0] == [];
    assert Reach(sql, s, [a]) == Next(sql, Reach(sql, s, []), a);
  }

  lemma OneStep(sql: Sql, s: State, e: Event)
    ensures Reach(sql, s, [e]) == Next(sql, s, e)
  {
    hide Next;
    assert [e][..0] == [];
    assert Reach(sql, s, []) == s;
  }

  /** The statement executes and its answer arrives. */
  lemma TurnIs(sql: Sql, s: State, c: nat, b: Call, db: Database, call: Call, after: Database, reply: Reply)
    requires Quiet(s, c, b) && call.phase.Waiting? && call.attempt == b.attempt && !call.phase.statement.Commit?
    requires Execute(sql, db, KeyOf(c, b), call.phase.statement) == Execution.Ran(after, reply)
    ensures var next := OnReply(sql, call, call.phase.statement, reply, UNHURRIED);
      next.attempt == b.attempt ==>
        Reach(sql, Amid(s, c, db, call), Turn(c, b))
        == if next.phase.Waiting? then Amid(s, c, after, next) else Rest(s, c, after, next)
  {
    hide Execute, OnReply;
    var k := KeyOf(c, b);
    TwoSteps(sql, Amid(s, c, db, call), Run(k), Receive(c, UNHURRIED));
    var ran := State(after, s.calls[c := call], s.wire, s.replies[k := reply], s.log);
    assert Next(sql, Amid(s, c, db, call), Run(k)) == ran by {
      assert s.wire[k := call.phase.statement] - {k} == s.wire;
    }
    assert ran.replies - {k} == s.replies;
    var next := OnReply(sql, call, call.phase.statement, reply, UNHURRIED);
    assert s.calls[c := call][c := next] == s.calls[c := next];
  }

  // ---- Up to the first change -------------------------------------------------------------------------

  function Holding(s: State, c: nat, b: Call, tx: Tx): Database { s.db.(open := map[KeyOf(c, b) := tx]) }

  /** The call at the start of its attempt. */
  function Creating(b: Call): Call {
    b.(phase := Waiting(CreateTable), beginSent := false, retryRequested := false, index := 0, versions := [])
  }

  /** The call in its attempt, after as many changes as there are versions. */
  function Between(b: Call, versions: seq<uint64>): Call {
    b.(phase := Delaying, beginSent := true, retryRequested := false, index := |versions|, versions := versions)
  }

  function At(b: Call, versions: seq<uint64>): (r: Call)
    ensures r.phase.Waiting?
  {
    ApplyNext(Between(b, versions), UNHURRIED)
  }

  function Waits(b: Call, versions: seq<uint64>, statement: Statement): Call {
    Between(b, versions).(phase := Waiting(statement))
  }

  function Reserved(request: SaveRequest, signature: Bytes): Tx {
    Tx(Some(Reservation(request.requestId, Record(signature, []))), [], map[])
  }

  lemma Begun(sql: Sql, s: State, c: nat, b: Call)
    requires Quiet(s, c, b)
    ensures Reach(sql, Amid(s, c, s.db, Creating(b)), Turn(c, b) + Turn(c, b))
         == Amid(s, c, Holding(s, c, b, EMPTY_TX), Waits(b, [],
                 Reserve(b.request.requestId, RequestSignature(sql.printer, b.request.changes))))
  {
    hide RequestSignature, Reach;
    var create := Creating(b);
    var begin := create.(phase := Waiting(Statement.Begin), beginSent := true);
    TurnIs(sql, s, c, b, s.db, create, s.db, Ready);
    assert s.db.open[KeyOf(c, b) := EMPTY_TX] == map[KeyOf(c, b) := EMPTY_TX];
    TurnIs(sql, s, c, b, s.db, begin, Holding(s, c, b, EMPTY_TX), Ready);
    T.ReachOn(sql, Amid(s, c, s.db, create), Turn(c, b), Turn(c, b));
  }

  lemma Reserves(sql: Sql, s: State, c: nat, b: Call, signature: Bytes)
    requires Quiet(s, c, b) && b.request.requestId !in s.db.records
    ensures Reach(sql, Amid(s, c, Holding(s, c, b, EMPTY_TX),
      Waits(b, [], Reserve(b.request.requestId, signature))),
                  Turn(c, b))
         == Amid(s, c, Holding(s, c, b, Reserved(b.request, signature)), At(b, []))
  {
    hide Reach, Turn, EncodeVersions;
    var k := KeyOf(c, b);
    var db, after := Holding(s, c, b, EMPTY_TX), Holding(s, c, b, Reserved(b.request, signature));
    assert db.open[k := Reserved(b.request, signature)] == after.open;
    TurnIs(sql, s, c, b, db, Waits(b, [], Reserve(b.request.requestId, signature)), after, Affected(1));
  }

  // ---- One change ------------------------------------------------------------------------------------------

  function SeenIn(rows: Rows, tx: Tx, x: Bytes): Option<Row> { if x in tx.writes then tx.writes[x] else Cell(rows, x) }

  function Grown(sql: Sql, tx: Tx, change: EntityPatch, row: Option<Row>): Tx {
    Tx(tx.reserved, tx.steps + [Step(change, VersionOf(row))], tx.writes[sql.row(change.target) := row])
  }

  function Statement1(change: EntityPatch, insert: bool): Statement {
    if insert then Statement.Insert(change) else Write(change)
  }

  function Effect1(sql: Sql, change: EntityPatch, insert: bool, row: Option<Row>): Effect {
    if insert then InsertEffect(sql, change, row) else WriteEffect(sql, change, row)
  }

  /** What a statement on a row answers inside the lone open transaction. */
  lemma Mutates(sql: Sql, s: State, c: nat, b: Call, tx: Tx, change: EntityPatch, insert: bool)
    requires Quiet(s, c, b)
    ensures var effect := Effect1(sql, change, insert, SeenIn(s.db.rows, tx, sql.row(change.target)));
      Execute(sql, Holding(s, c, b, tx), KeyOf(c, b), Statement1(change, insert))
      == match effect
         case Hit(row) => Execution.Ran(Holding(s, c, b, Grown(sql, tx, change, row)), Affected(1))
         case Miss => Execution.Ran(Holding(s, c, b, tx), Affected(0))
         case Broken => Execution.Ran(Holding(s, c, b, tx), Failed(false))
  {
    hide InsertEffect, WriteEffect;
    var k, db := KeyOf(c, b), Holding(s, c, b, tx);
    var x := sql.row(change.target);
    assert !RowLocked(db, k, x) && Seen(db, tx, x) == SeenIn(s.db.rows, tx, x);
    forall next: Tx ensures db.open[k := next] == map[k := next] {}
  }

  lemma MutateTurn(sql: Sql, s: State, c: nat, b: Call, tx: Tx, call: Call, change: EntityPatch, insert: bool)
    requires Quiet(s, c, b) && call.attempt == b.attempt && call.phase == Waiting(Statement1(change, insert))
    ensures var effect := Effect1(sql, change, insert, SeenIn(s.db.rows, tx, sql.row(change.target)));
      var reply := if effect.Hit? then Affected(1) else if effect.Miss? then Affected(0) else Failed(false);
      var after := Holding(s, c, b, if effect.Hit? then Grown(sql, tx, change, effect.row) else tx);
      var next := OnReply(sql, call, call.phase.statement, reply, UNHURRIED);
      next.attempt == b.attempt ==>
        Reach(sql, Amid(s, c, Holding(s, c, b, tx), call), Turn(c, b))
        == if next.phase.Waiting? then Amid(s, c, after, next) else Rest(s, c, after, next)
  {
    hide Reach, Turn, Execute, OnReply, Effect1;
    Mutates(sql, s, c, b, tx, change, insert);
    var effect := Effect1(sql, change, insert, SeenIn(s.db.rows, tx, sql.row(change.target)));
    var reply := if effect.Hit? then Affected(1) else if effect.Miss? then Affected(0) else Failed(false);
    TurnIs(sql, s, c, b, Holding(s, c, b, tx), call,
           Holding(s, c, b, if effect.Hit? then Grown(sql, tx, change, effect.row) else tx), reply);
  }

  /** The version is read back and the call moves on. */
  lemma VersionTurn(sql: Sql, s: State, c: nat, tx: Tx, b: Call, versions: seq<uint64>,
      change: EntityPatch)
    requires Quiet(s, c, b) && SeenIn(s.db.rows, tx, sql.row(change.target)).Some?
    ensures Reach(sql, Amid(s, c, Holding(s, c, b, tx), Waits(b, versions, Version(change))), Turn(c, b))
         == Amid(s, c, Holding(s, c, b, tx),
                 At(b, versions + [SeenIn(s.db.rows, tx, sql.row(change.target)).value.version]))
  {
    hide Reach, Turn, EncodeVersions;
    var db := Holding(s, c, b, tx);
    var row := SeenIn(s.db.rows, tx, sql.row(change.target));
    assert Seen(db, tx, sql.row(change.target)) == row;
    TurnIs(sql, s, c, b, db, Waits(b, versions, Version(change)), db, Current(Some(row.value.version)));
  }

  /** The change hits its row with one statement. */
  lemma Hits(sql: Sql, s: State, c: nat, tx: Tx, b: Call, versions: seq<uint64>,
      change: EntityPatch, insert: bool, row: Option<Row>) returns (events: seq<Event>)
    requires Quiet(s, c, b) && Effect1(sql, change, insert, SeenIn(s.db.rows, tx, sql.row(change.target))) == Hit(row)
    ensures Reach(sql, Amid(s, c, Holding(s, c, b, tx), Waits(b, versions, Statement1(change, insert))),
      events)
         == Amid(s, c, Holding(s, c, b, Grown(sql, tx, change, row)), At(b, versions + [VersionOf(row)]))
    ensures Calm(c, events)
  {
    hide Calm, Reach, Turn, EncodeVersions, Amid;
    var call := Waits(b, versions, Statement1(change, insert));
    var next := Grown(sql, tx, change, row);
    MutateTurn(sql, s, c, b, tx, call, change, insert);
    TurnCalm(c, b);
    if row.None? {
      events := Turn(c, b);
    } else {
      assert !(!insert && change.operation.Delete?);
      VersionTurn(sql, s, c, next, b, versions, change);
      T.ReachOn(sql, Amid(s, c, Holding(s, c, b, tx), call), Turn(c, b), Turn(c, b));
      events := Turn(c, b) + Turn(c, b);
    }
  }

  lemma FirstStatement(b: Call, versions: seq<uint64>)
    requires |versions| < |b.request.changes|
    ensures var change := b.request.changes[|versions|];
      At(b, versions) == Waits(b, versions, Statement1(change, change.operation.Insert?))
  {
  }

  lemma EffectSplits(sql: Sql, change: EntityPatch, found: Option<Row>)
    ensures var first := Effect1(sql, change, change.operation.Insert?, found);
      ChangeEffect(sql, change, found)
      == if !change.operation.Insert? && first.Miss? && MayCreate(change) then Effect1(sql, change, true, found)
        else first
  {
  }

  /** A write that finds nothing turns into an insert when the change may create. */
  lemma MissTurn(sql: Sql, s: State, c: nat, tx: Tx, b: Call, versions: seq<uint64>,
      change: EntityPatch)
    requires Quiet(s, c, b) && WriteEffect(sql, change, SeenIn(s.db.rows, tx, sql.row(change.target))).Miss?
    ensures Reach(sql, Amid(s, c, Holding(s, c, b, tx), Waits(b, versions, Write(change))), Turn(c, b))
         == Amid(s, c, Holding(s, c, b, tx), Waits(b, versions,
                 if MayCreate(change) then Statement.Insert(change) else Exists(change)))
  {
    hide Reach, Turn, WriteEffect, MayCreate;
    MutateTurn(sql, s, c, b, tx, Waits(b, versions, Write(change)), change, false);
  }

  lemma ChangeApplies(sql: Sql, s: State, c: nat, tx: Tx, b: Call, versions: seq<uint64>,
      row: Option<Row>) returns (events: seq<Event>)
    requires Quiet(s, c, b) && |versions| < |b.request.changes|
    requires var change := b.request.changes[|versions|];
      ChangeEffect(sql, change, SeenIn(s.db.rows, tx, sql.row(change.target))) == Hit(row)
    ensures Reach(sql, Amid(s, c, Holding(s, c, b, tx), At(b, versions)), events)
         == Amid(s, c, Holding(s, c, b, Grown(sql, tx, b.request.changes[|versions|], row)),
                 At(b, versions + [VersionOf(row)]))
    ensures Calm(c, events)
  {
    hide Calm, Reach, Turn, ChangeEffect, InsertEffect, WriteEffect, MayCreate, Amid, At, Grown;
    var change := b.request.changes[|versions|];
    var found := SeenIn(s.db.rows, tx, sql.row(change.target));
    FirstStatement(b, versions);
    EffectSplits(sql, change, found);
    var first := Effect1(sql, change, change.operation.Insert?, found);
    if !change.operation.Insert? && first.Miss? && MayCreate(change) {
      MissTurn(sql, s, c, tx, b, versions, change);
      var rest := Hits(sql, s, c, tx, b, versions, change, true, row);
      T.ReachOn(sql, Amid(s, c, Holding(s, c, b, tx), At(b, versions)), Turn(c, b), rest);
      TurnCalm(c, b);
      JoinCalm(c, Turn(c, b), rest);
      events := Turn(c, b) + rest;
    } else {
      events := Hits(sql, s, c, tx, b, versions, change, change.operation.Insert?, row);
    }
  }

  // ---- All changes --------------------------------------------------------------------------------------------

  /** The transaction has done these changes, and shows their effect. */
  ghost predicate Shows(sql: Sql, rows: Rows, request: SaveRequest, tx: Tx, done: Done) {
    && tx.reserved == Some(Reservation(request.requestId, Record(RequestSignature(sql.printer, request.changes), [])))
    && |done.versions| <= |request.changes| && Changes(tx.steps) == request.changes[..|done.versions|]
    && Versions(tx.steps) == done.versions
    && forall x :: SeenIn(rows, tx, x) == Cell(done.rows, x)
  }

  lemma GrownShows(sql: Sql, rows: Rows, request: SaveRequest, tx: Tx, done: Done, row: Option<Row>)
    requires Shows(sql, rows, request, tx, done) && |done.versions| < |request.changes|
    ensures var change := request.changes[|done.versions|];
      Shows(sql, rows, request, Grown(sql, tx, change, row),
            Done(Put(done.rows, sql.row(change.target), row), done.versions + [VersionOf(row)]))
  {
    hide RequestSignature, Put, Cell, Changes, Versions;
    var n := |done.versions|;
    var change := request.changes[n];
    var x := sql.row(change.target);
    ChangesAppend(tx.steps, Step(change, VersionOf(row)));
    var next := Grown(sql, tx, change, row);
    assert Changes(next.steps) == Changes(tx.steps) + [change] == request.changes[..n + 1];
    forall y ensures SeenIn(rows, next, y) == Cell(Put(done.rows, x, row), y) {
      PutCell(done.rows, x, row, y);
      assert SeenIn(rows, tx, y) == Cell(done.rows, y);
    }
  }

  /** From the reservation to the state after the first `n` changes. */
  lemma {:induction false} ChangesApply(sql: Sql, s: State, c: nat, b: Call, n: nat)
      returns (events: seq<Event>, tx: Tx)
    requires Quiet(s, c, b) && n <= |b.request.changes| && Serially(sql, s.db.rows, b.request.changes[..n]).Some?
    ensures var done := Serially(sql, s.db.rows, b.request.changes[..n]).value;
      var start := Reserved(b.request, RequestSignature(sql.printer, b.request.changes));
      && |done.versions| == n && Shows(sql, s.db.rows, b.request, tx, done)
      && Reach(sql, Amid(s, c, Holding(s, c, b, start), At(b, [])), events)
         == Amid(s, c, Holding(s, c, b, tx), At(b, done.versions))
    ensures Calm(c, events)
  {
    hide Calm, Reach, ChangeEffect, Put, Cell, Shows, Amid, At, Grown, RequestSignature;
    var start := Reserved(b.request, RequestSignature(sql.printer, b.request.changes));
    SeriallyCount(sql, s.db.rows, b.request.changes[..n]);
    if n == 0 {
      events, tx := [], start;
      assert Calm(c, []) by { NothingCalm(c); }
      NothingShows(sql, s.db.rows, b.request);
      assert b.request.changes[..0] == [];
      Nothing(sql, Amid(s, c, Holding(s, c, b, start), At(b, [])));
    } else {
      assert b.request.changes[..n][..n - 1] == b.request.changes[..n - 1];
      var change := b.request.changes[n - 1];
      var first, before := ChangesApply(sql, s, c, b, n - 1);
      var done := Serially(sql, s.db.rows, b.request.changes[..n - 1]).value;
      ShowsAt(sql, s.db.rows, b.request, before, done, sql.row(change.target));
      var row := ChangeEffect(sql, change, Cell(done.rows, sql.row(change.target))).row;
      var more := ChangeApplies(sql, s, c, before, b, done.versions, row);
      GrownShows(sql, s.db.rows, b.request, before, done, row);
      T.ReachOn(sql, Amid(s, c, Holding(s, c, b, start), At(b, [])), first, more);
      JoinCalm(c, first, more);
      events, tx := first + more, Grown(sql, before, change, row);
    }
  }

  lemma NothingCalm(c: nat)
    ensures Calm(c, [])
  {
  }

  lemma Nothing(sql: Sql, s: State)
    ensures Reach(sql, s, []) == s
  {
  }

  lemma NothingShows(sql: Sql, rows: Rows, request: SaveRequest)
    ensures Shows(sql, rows, request, Reserved(request, RequestSignature(sql.printer, request.changes)), Done(rows, []))
  {
    hide RequestSignature;
  }

  lemma ShowsAt(sql: Sql, rows: Rows, request: SaveRequest, tx: Tx, done: Done, x: Bytes)
    requires Shows(sql, rows, request, tx, done)
    ensures SeenIn(rows, tx, x) == Cell(done.rows, x)
  {
    hide RequestSignature, Changes, Versions;
  }

  // ---- The end of a transaction ---------------------------------------------------------------------------------

  function Recording(tx: Tx, data: Bytes): Tx
    requires tx.reserved.Some?
  {
    tx.(reserved := Some(Reservation(tx.reserved.value.id, Record(tx.reserved.value.record.signature, data))))
  }

  lemma FinishTurn(sql: Sql, s: State, c: nat, tx: Tx, b: Call, versions: seq<uint64>)
    requires Quiet(s, c, b) && |versions| == |b.request.changes|
    requires tx.reserved.Some? && tx.reserved.value.id == b.request.requestId
    ensures Reach(sql, Amid(s, c, Holding(s, c, b, tx), At(b, versions)), Turn(c, b))
         == Amid(s, c, Holding(s, c, b, Recording(tx, EncodeVersions(versions))),
                 Waits(b, versions, Commit).(commitSent := true))
  {
    hide Reach, Turn, EncodeVersions;
    var k := KeyOf(c, b);
    var db, after := Holding(s, c, b, tx), Holding(s, c, b, Recording(tx, EncodeVersions(versions)));
    assert db.open[k := Recording(tx, EncodeVersions(versions))] == after.open;
    TurnIs(sql, s, c, b, db, At(b, versions), after, Affected(1));
  }

  /** Up to COMMIT: the transaction holds the whole request and its record. */
  lemma UpToCommit(sql: Sql, s: State, c: nat, b: Call) returns (events: seq<Event>, tx: Tx)
    requires Quiet(s, c, b) && b.request.requestId !in s.db.records
    requires Serially(sql, s.db.rows, b.request.changes).Some?
    ensures var done := Serially(sql, s.db.rows, b.request.changes).value;
      && Complete(sql, b.request, tx) && Versions(tx.steps) == done.versions
      && Overlay(s.db.rows, tx.writes) == done.rows
      && Reach(sql, Amid(s, c, s.db, Creating(b)), events)
         == Amid(s, c, Holding(s, c, b, tx), Waits(b, done.versions, Commit).(commitSent := true))
    ensures Calm(c, events)
  {
    hide Calm, Reach, Turn, Amid, At, Serially, RequestSignature, EncodeVersions, Overlay, Changes, Versions;
    var signature := RequestSignature(sql.printer, b.request.changes);
    var start, first := Amid(s, c, s.db, Creating(b)), Turn(c, b) + Turn(c, b);
    Begun(sql, s, c, b);
    Reserves(sql, s, c, b, signature);
    assert b.request.changes[..|b.request.changes|] == b.request.changes;
    var more, done := ChangesApply(sql, s, c, b, |b.request.changes|);
    var versions := Serially(sql, s.db.rows, b.request.changes).value.versions;
    FinishTurn(sql, s, c, done, b, versions);
    T.ReachOn(sql, start, first, Turn(c, b));
    T.ReachOn(sql, start, first + Turn(c, b), more);
    T.ReachOn(sql, start, first + Turn(c, b) + more, Turn(c, b));
    TurnCalm(c, b);
    JoinCalm(c, first, Turn(c, b));
    JoinCalm(c, first + Turn(c, b), more);
    JoinCalm(c, first + Turn(c, b) + more, Turn(c, b));
    events, tx := first + Turn(c, b) + more + Turn(c, b), Recording(done, EncodeVersions(versions));
    Published(s.db.rows, done, Serially(sql, s.db.rows, b.request.changes).value.rows);
  }

  lemma Published(rows: Rows, tx: Tx, after: Rows)
    requires forall x :: SeenIn(rows, tx, x) == Cell(after, x)
    ensures Overlay(rows, tx.writes) == after
  {
    hide Overlay;
    forall x ensures Cell(Overlay(rows, tx.writes), x) == Cell(after, x) {
      OverlayCell(rows, tx.writes, x);
      assert SeenIn(rows, tx, x) == Cell(after, x);
    }
    SameCells(Overlay(rows, tx.writes), after);
  }

  lemma CommitTurn(sql: Sql, s: State, c: nat, b: Call, tx: Tx, call: Call)
    requires Quiet(s, c, b) && call.attempt == b.attempt && call.phase == Waiting(Commit) && tx.reserved.Some?
    ensures Reach(sql, Amid(s, c, Holding(s, c, b, tx), call), Turn(c, b))
         == State(Database(Overlay(s.db.rows, tx.writes),
           s.db.records[tx.reserved.value.id := tx.reserved.value.record],
                           map[]),
                  s.calls[c := call.(phase := Finished(Granted(call.request, call.versions), false))],
                  s.wire, s.replies, s.log + [Entry(KeyOf(c, b), tx)])
  {
    hide Next, Overlay, Granted, Publish;
    var k := KeyOf(c, b);
    var db := Holding(s, c, b, tx);
    TwoSteps(sql, Amid(s, c, db, call), Run(k), Receive(c, UNHURRIED));
    PublishAll(s, c, b, tx);
    CommitRan(sql, s, c, b, tx, call);
    CommitTold(sql, s, c, b, Publish(db, k), tx, call);
  }

  /** The state once COMMIT has executed and its answer is on the way. */
  function Committing(s: State, c: nat, b: Call, db: Database, tx: Tx, call: Call): State {
    State(db, s.calls[c := call], s.wire, s.replies[KeyOf(c, b) := Ready], s.log + [Entry(KeyOf(c, b), tx)])
  }

  lemma CommitRan(sql: Sql, s: State, c: nat, b: Call, tx: Tx, call: Call)
    requires Quiet(s, c, b) && call.attempt == b.attempt && call.phase == Waiting(Commit)
    ensures Next(sql, Amid(s, c, Holding(s, c, b, tx), call), Run(KeyOf(c, b)))
         == Committing(s, c, b, Publish(Holding(s, c, b, tx), KeyOf(c, b)), tx, call)
  {
    hide Execute, Publish;
    CommitRuns(sql, Holding(s, c, b, tx), KeyOf(c, b));
    assert s.wire[KeyOf(c, b) := Statement.Commit] - {KeyOf(c, b)} == s.wire;
  }

  lemma CommitTold(sql: Sql, s: State, c: nat, b: Call, db: Database, tx: Tx, call: Call)
    requires Quiet(s, c, b) && call.attempt == b.attempt && call.phase == Waiting(Commit)
    ensures Next(sql, Committing(s, c, b, db, tx, call), Receive(c, UNHURRIED))
         == State(db, s.calls[c := call.(phase := Finished(Granted(call.request, call.versions), false))],
                  s.wire, s.replies, s.log + [Entry(KeyOf(c, b), tx)])
  {
    hide Granted;
    var k := KeyOf(c, b);
    assert s.replies[k := Ready] - {k} == s.replies;
    var next := call.(phase := Finished(Granted(call.request, call.versions), false));
    assert s.calls[c := call][c := next] == s.calls[c := next];
  }

  lemma PublishAll(s: State, c: nat, b: Call, tx: Tx)
    requires tx.reserved.Some?
    ensures Publish(Holding(s, c, b, tx), KeyOf(c, b))
         == Database(Overlay(s.db.rows, tx.writes), s.db.records[tx.reserved.value.id := tx.reserved.value.record],
           map[])
  {
    hide Overlay;
    assert map[KeyOf(c, b) := tx] - {KeyOf(c, b)} == map[];
  }

  /** The state after the commit of a whole request: its rows, its record, its place in the history, its answer. */
  ghost predicate Commits(sql: Sql, s: State, c: nat, request: SaveRequest, done: Done, t: State) {
    && c in t.calls && t.calls[c].phase == Finished(Granted(request, done.versions), false)
    && t.db == Database(done.rows, s.db.records[request.requestId :=
                 Record(RequestSignature(sql.printer, request.changes), EncodeVersions(done.versions))], map[])
    && |t.log| == |s.log| + 1 && t.log[..|s.log|] == s.log && Complete(sql, request, t.log[|s.log|].tx)
  }

  lemma AttemptCommits(sql: Sql, s: State, c: nat, b: Call) returns (events: seq<Event>)
    requires Quiet(s, c, b) && b.request.requestId !in s.db.records
    requires Serially(sql, s.db.rows, b.request.changes).Some?
    ensures Commits(sql, s, c, b.request, Serially(sql, s.db.rows, b.request.changes).value,
                    Reach(sql, Amid(s, c, s.db, Creating(b)), events))
    ensures Calm(c, events)
  {
    hide Calm, Reach, Turn, Amid, Serially, RequestSignature, EncodeVersions, Overlay, Changes, Versions, Granted;
    var done := Serially(sql, s.db.rows, b.request.changes).value;
    var first, tx := UpToCommit(sql, s, c, b);
    CommitTurn(sql, s, c, b, tx, Waits(b, done.versions, Commit).(commitSent := true));
    T.ReachOn(sql, Amid(s, c, s.db, Creating(b)), first, Turn(c, b));
    TurnCalm(c, b);
    JoinCalm(c, first, Turn(c, b));
    events := first + Turn(c, b);
  }

  // ---- The first attempt, and any later one ----------------------------------------------------------------------

  /** The first attempt of a new call. */
  function First(request: SaveRequest, limit: nat): Call {
    Call(request, limit, Delaying, 1, false, 0, [], false, false, false)
  }

  lemma Submits(sql: Sql, s: State, c: nat, request: SaveRequest, limit: nat)
    requires c !in s.calls
    ensures Reach(sql, s, [Submit(c, request, limit, UNHURRIED)]) == Amid(s, c, s.db, Creating(First(request, limit)))
  {
    OneStep(sql, s, Submit(c, request, limit, UNHURRIED));
  }

  /** The next attempt of a call that waits for one. */
  function Again(call: Call): Call { call.(attempt := call.attempt + 1) }

  lemma SubmitCalm(c: nat, request: SaveRequest, limit: nat)
    ensures Calm(c, [Submit(c, request, limit, UNHURRIED)])
  {
  }

  lemma WakeCalm(c: nat)
    ensures Calm(c, [Wake(c, true, UNHURRIED)])
  {
  }

  lemma Wakes(sql: Sql, s: State, c: nat)
    requires c in s.calls && s.calls[c].phase.Delaying?
    ensures Reach(sql, s, [Wake(c, true, UNHURRIED)]) == Amid(s, c, s.db, Creating(Again(s.calls[c])))
  {
    OneStep(sql, s, Wake(c, true, UNHURRIED));
  }

  /**
   A call left alone whose id is new commits exactly the serial effect of its changes, and reports the
   versions they left, whenever the changes can be made.
   */
  lemma SaveCommits(sql: Sql, s: State, c: nat, request: SaveRequest, limit: nat) returns (events: seq<Event>)
    requires Quiet(s, c, First(request, limit)) && c !in s.calls && request.requestId !in s.db.records
    requires Serially(sql, s.db.rows, request.changes).Some?
    ensures Commits(sql, s, c, request, Serially(sql, s.db.rows, request.changes).value, Reach(sql, s, events))
    ensures Calm(c, events)
  {
    hide Calm, Reach, Serially, Commits, Amid;
    var more := AttemptCommits(sql, s, c, First(request, limit));
    Submits(sql, s, c, request, limit);
    T.ReachOn(sql, s, [Submit(c, request, limit, UNHURRIED)], more);
    SubmitCalm(c, request, limit);
    JoinCalm(c, [Submit(c, request, limit, UNHURRIED)], more);
    events := [Submit(c, request, limit, UNHURRIED)] + more;
  }

  /** A call that waits for another attempt, whose earlier ones left nothing behind, commits as if it were new. */
  lemma RetryCommits(sql: Sql, s: State, c: nat) returns (events: seq<Event>)
    requires c in s.calls && s.calls[c].phase.Delaying? && Quiet(s, c, Again(s.calls[c]))
    requires s.calls[c].request.requestId !in s.db.records
    requires Serially(sql, s.db.rows, s.calls[c].request.changes).Some?
    ensures Commits(sql, s, c, s.calls[c].request, Serially(sql, s.db.rows, s.calls[c].request.changes).value,
                    Reach(sql, s, events))
    ensures Calm(c, events)
  {
    hide Calm, Reach, Serially, Commits, Amid;
    var more := AttemptCommits(sql, s, c, Again(s.calls[c]));
    Wakes(sql, s, c);
    T.ReachOn(sql, s, [Wake(c, true, UNHURRIED)], more);
    WakeCalm(c);
    JoinCalm(c, [Wake(c, true, UNHURRIED)], more);
    events := [Wake(c, true, UNHURRIED)] + more;
  }

  // ---- Why a change cannot be made ------------------------------------------------------------------------------

  /** The answer to a change that does not fit the row it finds. */
  function Reason(change: EntityPatch, found: Option<Row>): ErrorCode {
    if found.None? then NotFound
    else if change.operation.Insert? || (change.checkVersion && found.value.version != change.expectedVersion)
      then Conflict
    else InternalError
  }

  function Ending(c: nat, b: Call): seq<Event> { [RolledBack(c, UNHURRIED), Abort(KeyOf(c, b))] }

  /** What a failed attempt answers: once a commit is uncertain, only that. */
  function Final(call: Call, code: ErrorCode): SaveResult {
    Failure(call.request, if call.commitUncertain then CommitUnknown else code)
  }

  /** The rollback ends: the caller is told, and nothing has changed. */
  lemma Ends(sql: Sql, s: State, c: nat, b: Call, tx: Tx, call: Call, code: ErrorCode)
    requires Quiet(s, c, b) && call.phase == RollingBack(code) && !call.retryRequested
    ensures Reach(sql, Rest(s, c, Holding(s, c, b, tx), call), Ending(c, b))
         == Rest(s, c, s.db, call.(phase := Finished(Final(call, code), false)))
  {
    TwoSteps(sql, Rest(s, c, Holding(s, c, b, tx), call), RolledBack(c, UNHURRIED), Abort(KeyOf(c, b)));
    var next := call.(phase := Finished(Final(call, code), false));
    assert s.calls[c := call][c := next] == s.calls[c := next];
    assert Holding(s, c, b, tx).open - {KeyOf(c, b)} == map[];
  }

  lemma ExistsTurn(sql: Sql, s: State, c: nat, tx: Tx, b: Call, versions: seq<uint64>,
      change: EntityPatch)
    requires Quiet(s, c, b)
    ensures var code: ErrorCode := if SeenIn(s.db.rows, tx, sql.row(change.target)).Some? then Conflict else NotFound;
      Reach(sql, Amid(s, c, Holding(s, c, b, tx), Waits(b, versions, Exists(change))), Turn(c, b))
      == Rest(s, c, Holding(s, c, b, tx), Between(b, versions).(phase := RollingBack(code)))
  {
    hide Reach, Turn;
    var db := Holding(s, c, b, tx);
    var row := SeenIn(s.db.rows, tx, sql.row(change.target));
    assert Seen(db, tx, sql.row(change.target)) == row;
    TurnIs(sql, s, c, b, db, Waits(b, versions, Exists(change)), db, Current(SeenVersion(row)));
  }

  lemma BrokenTurn(sql: Sql, s: State, c: nat, tx: Tx, b: Call, versions: seq<uint64>,
      change: EntityPatch, insert: bool)
    requires Quiet(s, c, b) && Effect1(sql, change, insert, SeenIn(s.db.rows, tx, sql.row(change.target))).Broken?
    ensures var code: ErrorCode := if insert then Conflict else InternalError;
      Reach(sql, Amid(s, c, Holding(s, c, b, tx), Waits(b, versions, Statement1(change, insert))), Turn(c, b))
      == Rest(s, c, Holding(s, c, b, tx), Between(b, versions).(phase := RollingBack(code)))
  {
    hide Reach, Turn, Effect1;
    MutateTurn(sql, s, c, b, tx, Waits(b, versions, Statement1(change, insert)), change, insert);
  }

  /** Which statements meet which refusal. */
  lemma RefusalSplits(sql: Sql, change: EntityPatch, found: Option<Row>)
    requires !ChangeEffect(sql, change, found).Hit?
    ensures var first := Effect1(sql, change, change.operation.Insert?, found);
      if first.Broken? then Reason(change, found) == if change.operation.Insert? then Conflict else InternalError
      else
        && first.Miss? && !change.operation.Insert?
        && if MayCreate(change) then Effect1(sql, change, true, found).Broken? && Reason(change, found) == Conflict
           else Reason(change, found) == if found.Some? then Conflict else NotFound
  {
  }

  lemma ChangeRefused(sql: Sql, s: State, c: nat, tx: Tx, b: Call, versions: seq<uint64>)
      returns (events: seq<Event>)
    requires Quiet(s, c, b) && |versions| < |b.request.changes|
    requires var change := b.request.changes[|versions|];
      !ChangeEffect(sql, change, SeenIn(s.db.rows, tx, sql.row(change.target))).Hit?
    ensures var change := b.request.changes[|versions|];
      var code := Reason(change, SeenIn(s.db.rows, tx, sql.row(change.target)));
      Reach(sql, Amid(s, c, Holding(s, c, b, tx), At(b, versions)), events)
      == Rest(s, c, Holding(s, c, b, tx), Between(b, versions).(phase := RollingBack(code)))
    ensures Calm(c, events)
  {
    hide Calm, Reach, Turn, ChangeEffect, Effect1, WriteEffect, MayCreate, Amid, At, Rest, Reason;
    var change := b.request.changes[|versions|];
    var found := SeenIn(s.db.rows, tx, sql.row(change.target));
    var start := Amid(s, c, Holding(s, c, b, tx), At(b, versions));
    FirstStatement(b, versions);
    RefusalSplits(sql, change, found);
    TurnCalm(c, b);
    if Effect1(sql, change, change.operation.Insert?, found).Broken? {
      BrokenTurn(sql, s, c, tx, b, versions, change, change.operation.Insert?);
      events := Turn(c, b);
    } else {
      WriteIs(sql, change, found);
      MissTurn(sql, s, c, tx, b, versions, change);
      if MayCreate(change) {
        BrokenTurn(sql, s, c, tx, b, versions, change, true);
      } else {
        ExistsTurn(sql, s, c, tx, b, versions, change);
      }
      T.ReachOn(sql, start, Turn(c, b), Turn(c, b));
      events := Turn(c, b) + Turn(c, b);
    }
  }

  lemma WriteIs(sql: Sql, change: EntityPatch, found: Option<Row>)
    ensures Effect1(sql, change, false, found) == WriteEffect(sql, change, found)
  {
  }

  /** The first change that cannot be made after the ones before it. */
  predicate FirstRefused(sql: Sql, rows: Rows, changes: seq<EntityPatch>, n: nat) {
    && n < |changes| && Serially(sql, rows, changes[..n]).Some?
    && !ChangeEffect(sql, changes[n],
      Cell(Serially(sql, rows, changes[..n]).value.rows, sql.row(changes[n].target))).Hit?
  }

  lemma {:induction false} SomeRefused(sql: Sql, rows: Rows, changes: seq<EntityPatch>) returns (n: nat)
    requires Serially(sql, rows, changes).None?
    ensures FirstRefused(sql, rows, changes, n)
  {
    hide ChangeEffect, Put;
    var init := changes[..|changes| - 1];
    if Serially(sql, rows, init).None? {
      n := SomeRefused(sql, rows, init);
      assert init[..n] == changes[..n] && init[n] == changes[n];
    } else {
      n := |changes| - 1;
    }
  }

  lemma EndingCalm(c: nat, b: Call)
    ensures Calm(c, Ending(c, b))
  {
  }

  lemma RefusedCalm(c: nat, request: SaveRequest, limit: nat, more: seq<Event>, last: seq<Event>)
    requires Calm(c, more) && Calm(c, last)
    ensures var b := First(request, limit);
      Calm(c, [Submit(c, request, limit, UNHURRIED)] + (Turn(c, b) + Turn(c, b)) + Turn(c, b) + more + last
              + Ending(c, b))
  {
    hide Calm, Turn, Ending;
    var b := First(request, limit);
    SubmitCalm(c, request, limit);
    TurnCalm(c, b);
    EndingCalm(c, b);
    var first := [Submit(c, request, limit, UNHURRIED)] + (Turn(c, b) + Turn(c, b));
    JoinCalm(c, [Submit(c, request, limit, UNHURRIED)], Turn(c, b) + Turn(c, b));
    JoinCalm(c, first, Turn(c, b));
    JoinCalm(c, first + Turn(c, b), more);
    JoinCalm(c, first + Turn(c, b) + more, last);
    JoinCalm(c, first + Turn(c, b) + more + last, Ending(c, b));
  }

  /** A call left alone with a change that cannot be made is told why by the first such change, and changes nothing. */
  lemma SaveRefused(sql: Sql, s: State, c: nat, request: SaveRequest, limit: nat)
      returns (events: seq<Event>, n: nat)
    requires Quiet(s, c, First(request, limit)) && c !in s.calls && request.requestId !in s.db.records
    requires Serially(sql, s.db.rows, request.changes).None?
    ensures FirstRefused(sql, s.db.rows, request.changes, n)
    ensures var t := Reach(sql, s, events);
      var found := Cell(Serially(sql, s.db.rows, request.changes[..n]).value.rows, sql.row(request.changes[n].target));
      && t.db == s.db && t.log == s.log && c in t.calls
      && t.calls[c].phase == Finished(Failure(request, Reason(request.changes[n], found)), false)
    ensures Calm(c, events)
  {
    hide Calm, Reach, Turn, Amid, At, Serially, RequestSignature, ChangeEffect, Shows, Cell, Reason, Ending;
    var b := First(request, limit);
    n := SomeRefused(sql, s.db.rows, request.changes);
    Submits(sql, s, c, request, limit);
    Begun(sql, s, c, b);
    Reserves(sql, s, c, b, RequestSignature(sql.printer, request.changes));
    var more, tx := ChangesApply(sql, s, c, b, n);
    var done := Serially(sql, s.db.rows, request.changes[..n]).value;
    var x := sql.row(request.changes[n].target);
    ShowsAt(sql, s.db.rows, request, tx, done, x);
    var last := ChangeRefused(sql, s, c, tx, b, done.versions);
    var code := Reason(request.changes[n], Cell(done.rows, x));
    Ends(sql, s, c, b, tx, Between(b, done.versions).(phase := RollingBack(code)), code);
    var first := [Submit(c, request, limit, UNHURRIED)];
    T.ReachOn(sql, s, first, Turn(c, b) + Turn(c, b));
    first := first + (Turn(c, b) + Turn(c, b));
    T.ReachOn(sql, s, first, Turn(c, b));
    T.ReachOn(sql, s, first + Turn(c, b), more);
    T.ReachOn(sql, s, first + Turn(c, b) + more, last);
    T.ReachOn(sql, s, first + Turn(c, b) + more + last, Ending(c, b));
    RefusedCalm(c, request, limit, more, last);
    events := first + Turn(c, b) + more + last + Ending(c, b);
  }

  // ---- A request id used again -----------------------------------------------------------------------------------

  lemma LookupTurns(sql: Sql, s: State, c: nat, b: Call, signature: Bytes, next: Call)
    requires Quiet(s, c, b) && b.request.requestId in s.db.records
    requires next == ReplayRequest(sql, Waits(b, [], Lookup(b.request.requestId)),
                                   Some(s.db.records[b.request.requestId]), UNHURRIED)
    requires !next.phase.Waiting? && next.attempt == b.attempt
    ensures var db := Holding(s, c, b, EMPTY_TX);
      Reach(sql, Amid(s, c, db, Waits(b, [], Reserve(b.request.requestId, signature))), Turn(c, b) + Turn(c, b))
      == Rest(s, c, db, next)
  {
    hide Reach, Turn, ReplayRequest;
    var db := Holding(s, c, b, EMPTY_TX);
    var call := Waits(b, [], Reserve(b.request.requestId, signature));
    TurnIs(sql, s, c, b, db, call, db, Affected(0));
    TurnIs(sql, s, c, b, db, Waits(b, [], Lookup(b.request.requestId)), db,
           Found(Some(s.db.records[b.request.requestId])));
    T.ReachOn(sql, Amid(s, c, db, call), Turn(c, b), Turn(c, b));
  }

  /** What a call under a committed id is told: the first versions, or conflict. */
  function Retold(sql: Sql, b: Call, first: SaveRequest, tx: Tx): SaveResult {
    if SameChanges(sql.printer, first.changes, b.request.changes) then Granted(b.request, Versions(tx.steps))
    else Final(b, Conflict)
  }

  lemma AttemptReplays(sql: Sql, s: State, c: nat, b: Call, first: SaveRequest, tx: Tx) returns (events: seq<Event>)
    requires Quiet(s, c, b) && b.request.requestId in s.db.records && b.request.changes != []
    requires Complete(sql, first, tx) && s.db.records[b.request.requestId] == tx.reserved.value.record
    ensures var t := Reach(sql, Amid(s, c, s.db, Creating(b)), events);
      && t.db == s.db && t.log == s.log && c in t.calls
      && t.calls[c].phase == Finished(Retold(sql, b, first, tx), false)
    ensures Calm(c, events)
  {
    hide Calm, Reach, Turn, Amid, RequestSignature, ReplayRequest, SameChanges, Complete, Versions, Granted;
    var signature := RequestSignature(sql.printer, b.request.changes);
    var start, two := Amid(s, c, s.db, Creating(b)), Turn(c, b) + Turn(c, b);
    Begun(sql, s, c, b);
    var next := ReplayRequest(sql, Waits(b, [], Lookup(b.request.requestId)), Some(s.db.records[b.request.requestId]),
                              UNHURRIED);
    Recalls(sql, s, b, first, tx);
    LookupTurns(sql, s, c, b, signature, next);
    T.ReachOn(sql, start, two, two);
    T.ReachOn(sql, start, two + two, Ending(c, b));
    TurnCalm(c, b);
    EndingCalm(c, b);
    JoinCalm(c, two, two);
    JoinCalm(c, two + two, Ending(c, b));
    events := two + two + Ending(c, b);
    Replays(sql, s, c, b, next);
  }

  /** What the lookup finds decides the answer: the first versions, or conflict. */
  lemma Recalls(sql: Sql, s: State, b: Call, first: SaveRequest, tx: Tx)
    requires b.request.requestId in s.db.records && b.request.changes != []
    requires Complete(sql, first, tx) && s.db.records[b.request.requestId] == tx.reserved.value.record
    ensures var call := Waits(b, [], Lookup(b.request.requestId));
      var next := ReplayRequest(sql, call, Some(s.db.records[b.request.requestId]), UNHURRIED);
      next == call.(phase := if SameChanges(sql.printer, first.changes, b.request.changes)
                    then RollingBackReplay(Versions(tx.steps)) else RollingBack(Conflict))
  {
    hide RequestSignature, EncodeVersions, DecodeVersions, SameChanges, Changes, Versions, Granted;
    SignatureExact(sql.printer, first.changes, b.request.changes);
    DecodeEncodeVersions(Versions(tx.steps), |b.request.changes|);
    if SameChanges(sql.printer, first.changes, b.request.changes) {
      T.SameLength(sql.printer, first.changes, b.request.changes);
    }
  }

  lemma Replays(sql: Sql, s: State, c: nat, b: Call, call: Call)
    requires Quiet(s, c, b) && !call.retryRequested
    requires call.phase.RollingBackReplay? || call.phase == RollingBack(Conflict)
    ensures Reach(sql, Rest(s, c, Holding(s, c, b, EMPTY_TX), call), Ending(c, b))
         == Rest(s, c, s.db, call.(phase := Finished(if call.phase.RollingBackReplay?
              then Granted(call.request, call.phase.replayed) else Final(call, Conflict), false)))
  {
    hide Granted;
    if call.phase.RollingBack? {
      Ends(sql, s, c, b, EMPTY_TX, call, Conflict);
    } else {
      TwoSteps(sql, Rest(s, c, Holding(s, c, b, EMPTY_TX), call), RolledBack(c, UNHURRIED), Abort(KeyOf(c, b)));
      var next := call.(phase := Finished(Granted(call.request, call.phase.replayed), false));
      assert s.calls[c := call][c := next] == s.calls[c := next];
      assert Holding(s, c, b, EMPTY_TX).open - {KeyOf(c, b)} == map[];
    }
  }

  /**
   A call left alone under a committed id changes nothing: it is answered with the versions of the first
   commit if the two requests print alike, and with conflict if they do not.
   */
  lemma SecondCallAnswers(sql: Sql, s: State, c: nat, first: SaveRequest, tx: Tx, request: SaveRequest, limit: nat)
      returns (events: seq<Event>)
    requires Quiet(s, c, First(request, limit)) && c !in s.calls && request.requestId in s.db.records
    requires Complete(sql, first, tx) && s.db.records[request.requestId] == tx.reserved.value.record
    requires request.changes != []
    ensures var t := Reach(sql, s, events);
      && t.db == s.db && t.log == s.log && c in t.calls
      && t.calls[c].phase == Finished(if SameChanges(sql.printer, first.changes, request.changes)
                                      then Granted(request, Versions(tx.steps)) else Failure(request, Conflict), false)
    ensures Calm(c, events)
  {
    hide Calm, Reach, Amid, SameChanges, Versions, Granted, Complete;
    var more := AttemptReplays(sql, s, c, First(request, limit), first, tx);
    Submits(sql, s, c, request, limit);
    T.ReachOn(sql, s, [Submit(c, request, limit, UNHURRIED)], more);
    SubmitCalm(c, request, limit);
    JoinCalm(c, [Submit(c, request, limit, UNHURRIED)], more);
    events := [Submit(c, request, limit, UNHURRIED)] + more;
  }

  // ---- Trouble on the way -------------------------------------------------------------------------------------------

  lemma ThreeSteps(sql: Sql, s: State, a: Event, b: Event, c: Event)
    ensures Reach(sql, s, [a, b, c]) == Next(sql, Next(sql, Next(sql, s, a), b), c)
  {
    hide Next;
    assert [a, b, c][..2] == [a, b];
    TwoSteps(sql, s, a, b);
  }

  /** The attempt that met trouble at `before` is given up, and another one is due; `doubt` if the commit may stand. */
  predicate TriesAgain(before: State, t: State, c: nat, doubt: bool)
    requires Awaits(before, c)
  {
    var call := before.calls[c];
    && c in t.calls && t.db == before.db && t.log == before.log && t.calls[c].phase.Delaying?
    && t.calls[c].request == call.request && t.calls[c].attempt == call.attempt && t.calls[c].limit == call.limit
    && t.calls[c].commitUncertain == (call.commitUncertain || doubt)
  }

  /** Connection trouble that leaves a doubt: at the commit, and where a recorded commit is looked up. */
  predicate Doubtful(statement: Statement) { statement.Commit? || statement.Lookup? }

  predicate InTime(s: State, c: nat) {
    && Awaits(s, c) && s.calls[c].attempt < s.calls[c].limit
    && (s.calls[c].phase.statement.CreateTable? <==> !s.calls[c].beginSent)
  }

  lemma RefusalTries(sql: Sql, s: State, c: nat)
    requires InTime(s, c) && KeyOf(c, s.calls[c]) in s.wire
    ensures var k := KeyOf(c, s.calls[c]);
      TriesAgain(s, Next(sql, Next(sql, Next(sql, s, Refuse(k, true)), Receive(c, UNHURRIED)),
        RolledBack(c, UNHURRIED)),
                 c, Doubtful(s.calls[c].phase.statement))
  {
    hide ReplayRequest, ApplyNext, Applied, RequestSignature, EncodeVersions, Execute;
  }

  lemma LossTries(sql: Sql, s: State, c: nat)
    requires InTime(s, c)
    ensures TriesAgain(s, Next(sql, Next(sql, s, Lose(c, UNHURRIED)), RolledBack(c, UNHURRIED)), c,
      s.calls[c].phase.statement.Commit?)
  {
    hide ReplayRequest, ApplyNext, Applied, RequestSignature, EncodeVersions, Execute;
  }

  /**
   In every run, trouble within the budget is met with another attempt, whatever statement it hits: connection
   trouble reported by the database, and an answer that is lost.
   */
  lemma TroubleTriesAgain(sql: Sql, rows: Rows, events: seq<Event>, c: nat)
    requires var s := Reach(sql, Start(rows), events); Awaits(s, c) && s.calls[c].attempt < s.calls[c].limit
    ensures var s := Reach(sql, Start(rows), events); var k := KeyOf(c, s.calls[c]);
      k in s.wire ==> TriesAgain(s, Reach(sql, Start(rows),
                                          events + [Refuse(k, true), Receive(c, UNHURRIED), RolledBack(c, UNHURRIED)]),
                                            c,
                               Doubtful(s.calls[c].phase.statement))
    ensures var s := Reach(sql, Start(rows), events);
      TriesAgain(s, Reach(sql, Start(rows), events + [Lose(c, UNHURRIED), RolledBack(c, UNHURRIED)]), c,
                 s.calls[c].phase.statement.Commit?)
  {
    hide Next, Reach, CallOk, TriesAgain, DbOk, LogOk, KeysOk;
    var s := Reach(sql, Start(rows), events);
    var k := KeyOf(c, s.calls[c]);
    T.ReachOk(sql, rows, events);
    Attempts(sql, s.log, s.calls[c]);
    if k in s.wire {
      T.ReachOn(sql, Start(rows), events, [Refuse(k, true), Receive(c, UNHURRIED), RolledBack(c, UNHURRIED)]);
      ThreeSteps(sql, s, Refuse(k, true), Receive(c, UNHURRIED), RolledBack(c, UNHURRIED));
      RefusalTries(sql, s, c);
    }
    T.ReachOn(sql, Start(rows), events, [Lose(c, UNHURRIED), RolledBack(c, UNHURRIED)]);
    TwoSteps(sql, s, Lose(c, UNHURRIED), RolledBack(c, UNHURRIED));
    LossTries(sql, s, c);
  }

  /** What a refused statement means for the caller when it is not tried again. */
  function Refusal(statement: Statement, connection: bool): ErrorCode {
    if Doubtful(statement) then CommitUnknown
    else if connection || statement.CreateTable? || statement.Begin? then Unavailable
    else if statement.Insert? then Conflict
    else InternalError
  }

  /** The caller is told this failure, and nothing else has changed. */
  predicate GivesUp(before: State, t: State, c: nat, code: ErrorCode)
    requires Awaits(before, c)
  {
    var call := before.calls[c];
    && c in t.calls && t.db == before.db && t.log == before.log
    && t.calls[c].phase == Finished(Failure(call.request, if call.commitUncertain then CommitUnknown else code), false)
  }

  predicate OutOfTime(s: State, c: nat) {
    && Awaits(s, c) && s.calls[c].attempt >= s.calls[c].limit
    && (s.calls[c].phase.statement.CreateTable? <==> !s.calls[c].beginSent)
  }

  lemma RefusalEnds(sql: Sql, s: State, c: nat, connection: bool)
    requires Awaits(s, c) && (connection ==> s.calls[c].attempt >= s.calls[c].limit) && KeyOf(c, s.calls[c]) in s.wire
    requires s.calls[c].phase.statement.CreateTable? <==> !s.calls[c].beginSent
    ensures var k := KeyOf(c, s.calls[c]);
      GivesUp(s, Next(sql, Next(sql, Next(sql, s, Refuse(k, connection)), Receive(c, UNHURRIED)),
                      RolledBack(c, UNHURRIED)),
              c, Refusal(s.calls[c].phase.statement, connection))
  {
    hide ReplayRequest, ApplyNext, Applied, RequestSignature, EncodeVersions, Execute;
  }

  lemma LossEnds(sql: Sql, s: State, c: nat)
    requires OutOfTime(s, c)
    ensures GivesUp(s, Next(sql, Next(sql, s, Lose(c, UNHURRIED)), RolledBack(c, UNHURRIED)), c,
                    if s.calls[c].phase.statement.Commit? then CommitUnknown else Unavailable)
  {
    hide ReplayRequest, ApplyNext, Applied, RequestSignature, EncodeVersions, Execute;
  }

  /**
   In every run, a refused statement that is not tried again (no connection trouble, or the budget is spent) and an
   answer lost with the budget spent end the call: commit_unknown wherever a commit may stand, else the reason.
   */
  lemma TroubleEnds(sql: Sql, rows: Rows, events: seq<Event>, c: nat, connection: bool)
    requires Awaits(Reach(sql, Start(rows), events), c)
    ensures var s := Reach(sql, Start(rows), events); var k := KeyOf(c, s.calls[c]);
      k in s.wire && (connection ==> s.calls[c].attempt >= s.calls[c].limit) ==>
        GivesUp(s, Reach(sql, Start(rows),
                         events + [Refuse(k, connection), Receive(c, UNHURRIED), RolledBack(c, UNHURRIED)]), c,
                Refusal(s.calls[c].phase.statement, connection))
    ensures var s := Reach(sql, Start(rows), events);
      s.calls[c].attempt >= s.calls[c].limit ==>
        GivesUp(s, Reach(sql, Start(rows), events + [Lose(c, UNHURRIED), RolledBack(c, UNHURRIED)]), c,
                if s.calls[c].phase.statement.Commit? then CommitUnknown else Unavailable)
  {
    hide Next, Reach, CallOk, GivesUp, Refusal, DbOk, LogOk, KeysOk;
    var s := Reach(sql, Start(rows), events);
    var k := KeyOf(c, s.calls[c]);
    T.ReachOk(sql, rows, events);
    Attempts(sql, s.log, s.calls[c]);
    if k in s.wire && (connection ==> s.calls[c].attempt >= s.calls[c].limit) {
      T.ReachOn(sql, Start(rows), events, [Refuse(k, connection), Receive(c, UNHURRIED), RolledBack(c, UNHURRIED)]);
      ThreeSteps(sql, s, Refuse(k, connection), Receive(c, UNHURRIED), RolledBack(c, UNHURRIED));
      RefusalEnds(sql, s, c, connection);
    }
    if s.calls[c].attempt >= s.calls[c].limit {
      T.ReachOn(sql, Start(rows), events, [Lose(c, UNHURRIED), RolledBack(c, UNHURRIED)]);
      TwoSteps(sql, s, Lose(c, UNHURRIED), RolledBack(c, UNHURRIED));
      LossEnds(sql, s, c);
    }
  }

  // ---- A commit whose answer is lost ------------------------------------------------------------------------------

  /** The one trouble of the call is an answer that is lost. */
  ghost predicate OneLoss(c: nat, events: seq<Event>) {
    exists i | 0 <= i < |events| ::
      events[i] == Lose(c, UNHURRIED) && Calm(c, events[..i]) && Calm(c, events[i + 1..])
  }

  lemma OneLossIs(c: nat, first: seq<Event>, b: Call)
    requires Calm(c, first)
    ensures OneLoss(c, first + [Run(KeyOf(c, b)), Lose(c, UNHURRIED), RolledBack(c, UNHURRIED)])
  {
    var events := first + [Run(KeyOf(c, b)), Lose(c, UNHURRIED), RolledBack(c, UNHURRIED)];
    var i := |first| + 1;
    assert events[..i] == first + [Run(KeyOf(c, b))] && events[i + 1..] == [RolledBack(c, UNHURRIED)];
    assert events[i] == Lose(c, UNHURRIED);
  }

  lemma OneLossOn(c: nat, events: seq<Event>, more: seq<Event>)
    requires OneLoss(c, events) && Calm(c, more)
    ensures OneLoss(c, events + more)
  {
    hide Calm;
    var i :| 0 <= i < |events| && events[i] == Lose(c, UNHURRIED) && Calm(c, events[..i]) && Calm(c, events[i + 1..]);
    var all := events + more;
    JoinCalm(c, events[i + 1..], more);
    assert all[i] == events[i] && all[..i] == events[..i] && all[i + 1..] == events[i + 1..] + more;
  }

  /** COMMIT executes, its answer is lost, and the rollback ends: another attempt is due. */
  lemma CommitLost(sql: Sql, s: State, c: nat, b: Call, tx: Tx, call: Call) returns (events: seq<Event>)
    requires Quiet(s, c, b) && call.phase == Waiting(Commit) && call.beginSent && call.commitSent
    requires call.attempt == b.attempt < call.limit && tx.reserved.Some?
    ensures events == [Run(KeyOf(c, b)), Lose(c, UNHURRIED), RolledBack(c, UNHURRIED)]
    ensures var t := Reach(sql, Amid(s, c, Holding(s, c, b, tx), call), events);
      && c in t.calls && t.calls[c] == call.(phase := Delaying, retryRequested := true, commitUncertain := true)
      && t.log == s.log + [Entry(KeyOf(c, b), tx)] && t.wire == s.wire && t.replies == s.replies[KeyOf(c, b) := Ready]
      && t.db == Database(Overlay(s.db.rows, tx.writes),
                          s.db.records[tx.reserved.value.id := tx.reserved.value.record], map[])
  {
    hide Next, Overlay, Publish;
    var k := KeyOf(c, b);
    var s0, s1 := Amid(s, c, Holding(s, c, b, tx), call),
      Committing(s, c, b, Publish(Holding(s, c, b, tx), k), tx, call);
    CommitRan(sql, s, c, b, tx, call);
    PublishAll(s, c, b, tx);
    ThreeSteps(sql, s0, Run(k), Lose(c, UNHURRIED), RolledBack(c, UNHURRIED));
    LoseIs(sql, s1, c);
    events := [Run(k), Lose(c, UNHURRIED), RolledBack(c, UNHURRIED)];
  }

  lemma LoseIs(sql: Sql, s: State, c: nat)
    requires c in s.calls && s.calls[c].phase == Waiting(Commit) && s.calls[c].beginSent
    requires s.calls[c].attempt < s.calls[c].limit
    ensures Next(sql, Next(sql, s, Lose(c, UNHURRIED)), RolledBack(c, UNHURRIED))
         == s.(calls := s.calls[c := s.calls[c].(phase := Delaying, retryRequested := true, commitUncertain := true)])
  {
    var lost := s.calls[c].(phase := RollingBack(CommitUnknown), retryRequested := true, commitUncertain := true);
    assert s.calls[c := lost][c := lost.(phase := Delaying)] == s.calls[c := lost.(phase := Delaying)];
  }

  /** The state in which the request has committed, its answer is lost, and another attempt is due. */
  lemma CommitsUnheard(sql: Sql, s: State, c: nat, request: SaveRequest, limit: nat)
      returns (events: seq<Event>, tx: Tx)
    requires Quiet(s, c, First(request, limit)) && c !in s.calls && request.requestId !in s.db.records && limit > 1
    requires Serially(sql, s.db.rows, request.changes).Some?
    ensures var done := Serially(sql, s.db.rows, request.changes).value; var t := Reach(sql, s, events);
      && Complete(sql, request, tx) && Versions(tx.steps) == done.versions
      && c in t.calls && t.calls[c].request == request && t.calls[c].attempt == 1 && t.calls[c].phase.Delaying?
      && t.calls[c].commitSent && t.log == s.log + [Entry(TxKey(c, 1), tx)] && t.wire == s.wire
      && t.replies == s.replies[TxKey(c, 1) := Ready]
      && t.db == Database(done.rows, s.db.records[request.requestId := tx.reserved.value.record], map[])
    ensures OneLoss(c, events)
  {
    hide Calm, OneLoss, Reach, Amid, Serially, Versions, Overlay, Changes, RequestSignature, EncodeVersions;
    var b := First(request, limit);
    Submits(sql, s, c, request, limit);
    var more, whole := UpToCommit(sql, s, c, b);
    tx := whole;
    var versions := Serially(sql, s.db.rows, request.changes).value.versions;
    var lost := CommitLost(sql, s, c, b, tx, Waits(b, versions, Commit).(commitSent := true));
    T.ReachOn(sql, s, [Submit(c, request, limit, UNHURRIED)], more);
    T.ReachOn(sql, s, [Submit(c, request, limit, UNHURRIED)] + more, lost);
    SubmitCalm(c, request, limit);
    JoinCalm(c, [Submit(c, request, limit, UNHURRIED)], more);
    OneLossIs(c, [Submit(c, request, limit, UNHURRIED)] + more, b);
    events := [Submit(c, request, limit, UNHURRIED)] + more + lost;
  }

  /**
   A commit whose answer is lost, and nothing else, is found again: the next attempt reports it with its versions,
   and it has taken effect once.
   */
  lemma LostCommitIsFound(sql: Sql, s: State, c: nat, request: SaveRequest, limit: nat) returns (events: seq<Event>)
    requires Quiet(s, c, First(request, limit)) && c !in s.calls && request.requestId !in s.db.records && limit > 1
    requires TxKey(c, 2) !in s.wire && TxKey(c, 2) !in s.replies && request.changes != []
    requires Serially(sql, s.db.rows, request.changes).Some?
    ensures var done := Serially(sql, s.db.rows, request.changes).value; var t := Reach(sql, s, events);
      && c in t.calls && t.calls[c].phase == Finished(Granted(request, done.versions), false)
      && t.db.rows == done.rows && |t.log| == |s.log| + 1
    ensures OneLoss(c, events)
  {
    hide Calm, OneLoss, Reach, Amid, Serially, Versions, Granted, Complete, Retold;
    var first, tx := CommitsUnheard(sql, s, c, request, limit);
    var t := Reach(sql, s, first);
    Wakes(sql, t, c);
    Recorded2(sql, request, tx);
    var more := AttemptReplays(sql, t, c, Again(t.calls[c]), request, tx);
    RetoldSame(sql, Again(t.calls[c]), tx);
    T.ReachOn(sql, t, [Wake(c, true, UNHURRIED)], more);
    T.ReachOn(sql, s, first, [Wake(c, true, UNHURRIED)] + more);
    WakeCalm(c);
    JoinCalm(c, [Wake(c, true, UNHURRIED)], more);
    OneLossOn(c, first, [Wake(c, true, UNHURRIED)] + more);
    events := first + ([Wake(c, true, UNHURRIED)] + more);
  }

  lemma Recorded2(sql: Sql, request: SaveRequest, tx: Tx)
    requires Complete(sql, request, tx)
    ensures tx.reserved.Some? && tx.reserved.value.id == request.requestId
  {
    hide Signature, EncodeVersions, Versions, Changes;
  }

  lemma RetoldSame(sql: Sql, b: Call, tx: Tx)
    ensures Retold(sql, b, b.request, tx) == Granted(b.request, Versions(tx.steps))
  {
    hide SameChanges, RequestSignature, Granted, Versions;
    SignatureExact(sql.printer, b.request.changes, b.request.changes);
  }

  // ---- Exit after a lost commit -----------------------------------------------------------------------------------

  lemma ExitAfterRetry(sql: Sql, s: State, c: nat) returns (events: seq<Event>)
    requires c in s.calls && s.calls[c].phase == Delaying && s.calls[c].commitSent
    ensures var t := Reach(sql, s, events);
      c in t.calls && T.Denies(t.calls[c]) && t.calls[c].request == s.calls[c].request && t.log == s.log
  {
    TwoSteps(sql, s, Wake(c, true, UNHURRIED), Exit(c));
    var next := Next(sql, s, Wake(c, true, UNHURRIED));
    assert next.log == s.log && next.calls[c].phase == Waiting(CreateTable) && next.calls[c].commitSent
      && !next.calls[c].beginSent;
    events := [Wake(c, true, UNHURRIED), Exit(c)];
  }

  /**
   For every request that can be made, and more than one attempt, a run in which all of it commits and the
   caller is told, on exit, that it is unavailable.
   */
  lemma ExitCanDeny(sql: Sql, s: State, c: nat, request: SaveRequest, limit: nat) returns (events: seq<Event>)
    requires Quiet(s, c, First(request, limit)) && c !in s.calls && request.requestId !in s.db.records && limit > 1
    requires Serially(sql, s.db.rows, request.changes).Some?
    ensures var t := Reach(sql, s, events);
      && c in t.calls && t.calls[c].request == request && T.Denies(t.calls[c])
      && |t.log| == |s.log| + 1 && t.log[|s.log|].key.call == c && Complete(sql, request, t.log[|s.log|].tx)
  {
    hide Reach, Serially, Complete, Versions;
    var first, tx := CommitsUnheard(sql, s, c, request, limit);
    var rest := ExitAfterRetry(sql, Reach(sql, s, first), c);
    T.ReachOn(sql, s, first, rest);
    events := first + rest;
  }
}
