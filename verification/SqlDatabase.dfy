/**
 The database under the SQL entity store: transactions that keep a lock on every row they
 wrote and on the request id they reserved until they end, and a commit that publishes all
 of a transaction at once. A statement that needs a lock held elsewhere waits.
 */
module SqlDatabase {
  import opened ByteStrings
  import opened Results
  import opened Entities
  import opened SqlSignature

  /** What the database computes from a statement: the row a target names and the columns it writes. */
  datatype Sql = Sql(row: EntityRef -> Bytes, insert: EntityPatch -> Bytes, update: (Bytes, EntityPatch) -> Bytes,
    printer: Printer)

  datatype Row = Row(version: uint64, content: Bytes)
  type Rows = map<Bytes, Row>

  function Cell(rows: Rows, x: Bytes): Option<Row> { if x in rows then Some(rows[x]) else None }

  function Put(rows: Rows, x: Bytes, row: Option<Row>): Rows { if row.Some? then rows[x := row.value] else rows - {x} }

  function VersionOf(row: Option<Row>): uint64 { if row.Some? then row.value.version else 0 }

  // ---- Statements on one row ---------------------------------------------------------------

  datatype Effect =
    | Hit(row: Option<Row>)
    | Miss
    | Broken

  predicate Matches(change: EntityPatch, row: Row) { change.checkVersion ==> row.version == change.expectedVersion }

  /** INSERT with version 1; an existing row violates the key. */
  function InsertEffect(sql: Sql, change: EntityPatch, row: Option<Row>): Effect {
    if row.Some? then Broken else Hit(Some(Row(1, sql.insert(change))))
  }

  /** UPDATE or DELETE under the optional version guard. */
  function WriteEffect(sql: Sql, change: EntityPatch, row: Option<Row>): Effect {
    if row.None? || !Matches(change, row.value) then Miss
    else if change.operation.Delete? then Hit(None)
    else if row.value.version + 1 < U64
      then Hit(Some(Row(row.value.version + 1, sql.update(row.value.content, change))))
    else Broken
  }

  predicate MayCreate(change: EntityPatch) {
    change.createIfMissing && (!change.checkVersion || change.expectedVersion == 0)
  }

  /** One change as the client means it: insert, or write and create what is missing. */
  function ChangeEffect(sql: Sql, change: EntityPatch, row: Option<Row>): Effect {
    if change.operation.Insert? then InsertEffect(sql, change, row)
    else
      var effect := WriteEffect(sql, change, row);
      if effect.Miss? && MayCreate(change) then InsertEffect(sql, change, row) else effect
  }

  // ---- Changes one after another -------------------------------------------------------------

  datatype Done = Done(rows: Rows, versions: seq<uint64>)

  /** The changes applied alone, in order; none if one of them does not succeed. */
  function Serially(sql: Sql, rows: Rows, changes: seq<EntityPatch>): Option<Done> {
    if changes == [] then Some(Done(rows, []))
    else
      var change := changes[|changes| - 1];
      match Serially(sql, rows, changes[..|changes| - 1])
      case None => None
      case Some(done) =>
        var x := sql.row(change.target);
        var effect := ChangeEffect(sql, change, Cell(done.rows, x));
        if effect.Hit? then Some(Done(Put(done.rows, x, effect.row), done.versions + [VersionOf(effect.row)])) else None
  }

  predicate Within(sql: Sql, changes: seq<EntityPatch>, xs: set<Bytes>) {
    forall i | 0 <= i < |changes| :: sql.row(changes[i].target) in xs
  }

  predicate Agree(a: Rows, b: Rows, xs: set<Bytes>) {
    forall x | x in xs :: Cell(a, x) == Cell(b, x)
  }

  ghost predicate AgreeElsewhere(a: Rows, b: Rows, xs: set<Bytes>) {
    forall x | x !in xs :: Cell(a, x) == Cell(b, x)
  }

  lemma PutCell(rows: Rows, x: Bytes, row: Option<Row>, y: Bytes)
    ensures Cell(Put(rows, x, row), y) == if y == x then row else Cell(rows, y)
  {
  }

  /** A run of changes depends on, and touches, only the rows they name. */
  lemma {:induction false} SeriallyLocal(sql: Sql, a: Rows, b: Rows, changes: seq<EntityPatch>, xs: set<Bytes>)
    requires Within(sql, changes, xs) && Agree(a, b, xs) && Serially(sql, a, changes).Some?
    ensures Serially(sql, b, changes).Some?
    ensures var d, e := Serially(sql, a, changes).value, Serially(sql, b, changes).value;
      d.versions == e.versions && Agree(d.rows, e.rows, xs) && AgreeElsewhere(d.rows, a, xs)
        && AgreeElsewhere(e.rows, b, xs)
    decreases |changes|
  {
    hide ChangeEffect, Put;
    if changes != [] {
      var n := |changes| - 1;
      SeriallyLocal(sql, a, b, changes[..n], xs);
      var d, e := Serially(sql, a, changes[..n]).value, Serially(sql, b, changes[..n]).value;
      var x := sql.row(changes[n].target);
      var row := ChangeEffect(sql, changes[n], Cell(d.rows, x)).row;
      forall y: Bytes
        ensures Cell(Put(d.rows, x, row), y) == if y == x then row else Cell(d.rows, y)
      {
        PutCell(d.rows, x, row, y);
      }
      forall y: Bytes
        ensures Cell(Put(e.rows, x, row), y) == if y == x then row else Cell(e.rows, y)
      {
        PutCell(e.rows, x, row, y);
      }
    }
  }

  lemma {:induction false} SeriallyCount(sql: Sql, rows: Rows, changes: seq<EntityPatch>)
    requires Serially(sql, rows, changes).Some?
    ensures |Serially(sql, rows, changes).value.versions| == |changes|
  {
    hide ChangeEffect, Put;
    if changes != [] { SeriallyCount(sql, rows, changes[..|changes| - 1]); }
  }

  // ---- Transactions ------------------------------------------------------------------------------

  datatype TxKey = TxKey(call: nat, attempt: nat)

  datatype Record = Record(signature: Bytes, data: Bytes)
  datatype Reservation = Reservation(id: Bytes, record: Record)

  /** A change that took effect inside a transaction, and the version it left. */
  datatype Step = Step(change: EntityPatch, version: uint64)

  datatype Tx = Tx(reserved: Option<Reservation>, steps: seq<Step>, writes: map<Bytes, Option<Row>>)

  const EMPTY_TX := Tx(None, [], map[])

  datatype Database = Database(rows: Rows, records: map<Bytes, Record>, open: map<TxKey, Tx>)

  datatype Statement =
    | CreateTable
    | Begin
    | Reserve(id: Bytes, signature: Bytes)
    | Lookup(id: Bytes)
    | Write(change: EntityPatch)
    | Insert(change: EntityPatch)
    | Exists(change: EntityPatch)
    | Version(change: EntityPatch)
    | Finish(id: Bytes, data: Bytes)
    | Commit

  datatype Reply =
    | Failed(connection: bool)
    | Ready
    | Affected(count: nat)
    | Found(record: Option<Record>)
    | Current(version: Option<uint64>)

  datatype Execution =
    | Blocked
    | Ran(db: Database, reply: Reply)

  function Seen(db: Database, tx: Tx, x: Bytes): Option<Row> {
    if x in tx.writes then tx.writes[x] else Cell(db.rows, x)
  }

  predicate RowLocked(db: Database, k: TxKey, x: Bytes) { exists j | j in db.open :: j != k && x in db.open[j].writes }

  predicate IdLocked(db: Database, k: TxKey, id: Bytes) {
    exists j | j in db.open :: j != k && db.open[j].reserved.Some? && db.open[j].reserved.value.id == id
  }

  function Mutate(sql: Sql, db: Database, k: TxKey, change: EntityPatch, effect: Effect): Execution
    requires k in db.open
  {
    match effect
    case Miss => Ran(db, Affected(0))
    case Broken => Ran(db, Failed(false))
    case Hit(row) =>
      var tx := db.open[k];
      var next := Tx(tx.reserved, tx.steps + [Step(change, VersionOf(row))], tx.writes[sql.row(change.target) := row]);
      Ran(db.(open := db.open[k := next]), Affected(1))
  }

  function Overlay(rows: Rows, writes: map<Bytes, Option<Row>>): Rows {
    map x | x in rows.Keys + writes.Keys && (x in writes ==> writes[x].Some?) ::
      if x in writes then writes[x].value else rows[x]
  }

  function Publish(db: Database, k: TxKey): Database
    requires k in db.open
  {
    var tx := db.open[k];
    var records :=
      if tx.reserved.Some? then db.records[tx.reserved.value.id := tx.reserved.value.record] else db.records;
    Database(Overlay(db.rows, tx.writes), records, db.open - {k})
  }

  /** One statement on the connection of transaction `k`. */
  function Execute(sql: Sql, db: Database, k: TxKey, statement: Statement): Execution {
    if statement.CreateTable? then Ran(db, Ready)
    else if statement.Begin? then Ran(db.(open := db.open[k := EMPTY_TX]), Ready)
    else if k !in db.open then Ran(db, Failed(true))
    else ExecuteIn(sql, db, k, statement)
  }

  function ExecuteIn(sql: Sql, db: Database, k: TxKey, statement: Statement): Execution
    requires k in db.open && !statement.CreateTable? && !statement.Begin?
  {
    var tx := db.open[k];
    match statement
    case Reserve(id, signature) =>
      if id in db.records then Ran(db, Affected(0))
      else if IdLocked(db, k, id) then Blocked
      else Ran(db.(open := db.open[k := tx.(reserved := Some(Reservation(id, Record(signature, []))))]), Affected(1))
    case Lookup(id) => Ran(db, Found(if id in db.records then Some(db.records[id]) else None))
    case Write(change) =>
      var x := sql.row(change.target);
      if RowLocked(db, k, x) then Blocked else Mutate(sql, db, k, change, WriteEffect(sql, change, Seen(db, tx, x)))
    case Insert(change) =>
      var x := sql.row(change.target);
      if RowLocked(db, k, x) then Blocked else Mutate(sql, db, k, change, InsertEffect(sql, change, Seen(db, tx, x)))
    case Exists(change) => Ran(db, Current(SeenVersion(Seen(db, tx, sql.row(change.target)))))
    case Version(change) => Ran(db, Current(SeenVersion(Seen(db, tx, sql.row(change.target)))))
    case Finish(id, data) =>
      if tx.reserved.Some? && tx.reserved.value.id == id then
        var record := Record(tx.reserved.value.record.signature, data);
        Ran(db.(open := db.open[k := tx.(reserved := Some(Reservation(id, record)))]), Affected(1))
      else Ran(db, Affected(0))
    case Commit => Ran(Publish(db, k), Ready)
  }

  function SeenVersion(row: Option<Row>): Option<uint64> { if row.Some? then Some(row.value.version) else None }

  // ---- What the locks buy ------------------------------------------------------------------------

  function Changes(steps: seq<Step>): (r: seq<EntityPatch>)
    ensures |r| == |steps|
  {
    seq(|steps|, i requires 0 <= i < |steps| => steps[i].change)
  }

  function Versions(steps: seq<Step>): (r: seq<uint64>)
    ensures |r| == |steps|
  {
    seq(|steps|, i requires 0 <= i < |steps| => steps[i].version)
  }

  /** A transaction's writes are what its steps do to the committed rows. */
  ghost predicate TxOk(sql: Sql, rows: Rows, tx: Tx) {
    && Within(sql, Changes(tx.steps), tx.writes.Keys)
    && Serially(sql, rows, Changes(tx.steps)).Some?
    && (var done := Serially(sql, rows, Changes(tx.steps)).value;
        && done.versions == Versions(tx.steps)
        && (forall x | x in tx.writes :: Cell(done.rows, x) == tx.writes[x])
        && AgreeElsewhere(done.rows, rows, tx.writes.Keys))
    && (tx.steps != [] ==>
        var last := tx.steps[|tx.steps| - 1];
        VersionOf(tx.writes[sql.row(last.change.target)]) == last.version)
  }

  ghost predicate LocksOk(open: map<TxKey, Tx>) {
    forall j, k | j in open && k in open && j != k :: open[j].writes.Keys !! open[k].writes.Keys
  }

  ghost predicate IdsOk(db: Database) {
    && (forall j, k | j in db.open && k in db.open && j != k && db.open[j].reserved.Some?
      && db.open[k].reserved.Some? ::
          db.open[j].reserved.value.id != db.open[k].reserved.value.id)
    && (forall k | k in db.open && db.open[k].reserved.Some? :: db.open[k].reserved.value.id !in db.records)
  }

  ghost predicate TxsOk(sql: Sql, db: Database) {
    forall k | k in db.open :: TxOk(sql, db.rows, db.open[k])
  }

  ghost predicate DbOk(sql: Sql, db: Database) {
    LocksOk(db.open) && IdsOk(db) && TxsOk(sql, db)
  }

  lemma OverlayCell(rows: Rows, writes: map<Bytes, Option<Row>>, x: Bytes)
    ensures Cell(Overlay(rows, writes), x) == if x in writes then writes[x] else Cell(rows, x)
  {
  }

  lemma SameCells(a: Rows, b: Rows)
    requires forall x :: Cell(a, x) == Cell(b, x)
    ensures a == b
  {
    forall x ensures x in a <==> x in b { assert Cell(a, x) == Cell(b, x); }
    forall x | x in a ensures a[x] == b[x] { assert Cell(a, x) == Cell(b, x); }
  }

  /** Committing publishes exactly the serial effect of the steps. */
  lemma PublishIsSerial(sql: Sql, db: Database, k: TxKey)
    requires DbOk(sql, db) && k in db.open
    ensures Serially(sql, db.rows, Changes(db.open[k].steps))
      == Some(Done(Publish(db, k).rows, Versions(db.open[k].steps)))
  {
    hide Serially, Changes, Versions, Within, Overlay, Cell;
    var tx := db.open[k];
    assert TxOk(sql, db.rows, tx);
    var done := Serially(sql, db.rows, Changes(tx.steps)).value;
    forall x: Bytes
      ensures Cell(done.rows, x) == Cell(Overlay(db.rows, tx.writes), x)
    {
      OverlayCell(db.rows, tx.writes, x);
    }
    SameCells(done.rows, Overlay(db.rows, tx.writes));
  }

  /** Rows that an open transaction did not write may change under it. */
  lemma TxFrame(sql: Sql, a: Rows, b: Rows, tx: Tx)
    requires TxOk(sql, a, tx) && Agree(a, b, tx.writes.Keys)
    ensures TxOk(sql, b, tx)
  {
    hide Serially, Changes, Versions, Within, Cell;
    SeriallyLocal(sql, a, b, Changes(tx.steps), tx.writes.Keys);
  }

  lemma PublishOk(sql: Sql, db: Database, k: TxKey)
    requires DbOk(sql, db) && k in db.open
    ensures DbOk(sql, Publish(db, k))
  {
    hide TxOk, Overlay, Cell;
    var next := Publish(db, k);
    forall j | j in next.open ensures TxOk(sql, next.rows, next.open[j]) {
      assert TxOk(sql, db.rows, db.open[j]);
      forall x | x in db.open[j].writes.Keys
        ensures Cell(db.rows, x) == Cell(next.rows, x)
      {
        OverlayCell(db.rows, db.open[k].writes, x);
      }
      TxFrame(sql, db.rows, next.rows, db.open[j]);
    }
  }

  lemma ChangesAppend(steps: seq<Step>, step: Step)
    ensures Changes(steps + [step])[..|steps|] == Changes(steps) && Changes(steps + [step])[|steps|] == step.change
    ensures Versions(steps + [step]) == Versions(steps) + [step.version]
  {
  }

  /** A row effect extends a transaction by one serial step. */
  lemma TxStep(sql: Sql, rows: Rows, tx: Tx, change: EntityPatch, row: Option<Row>)
    requires TxOk(sql, rows, tx)
    requires var x := sql.row(change.target);
      ChangeEffect(sql, change, if x in tx.writes then tx.writes[x] else Cell(rows, x)) == Hit(row)
    ensures TxOk(sql, rows, Tx(tx.reserved, tx.steps + [Step(change, VersionOf(row))],
      tx.writes[sql.row(change.target) := row]))
  {
    hide ChangeEffect, Put, Cell, Changes, Versions;
    var x := sql.row(change.target);
    var steps := tx.steps + [Step(change, VersionOf(row))];
    ChangesAppend(tx.steps, Step(change, VersionOf(row)));
    var done := Serially(sql, rows, Changes(tx.steps)).value;
    assert Serially(sql, rows, Changes(steps)) == Some(Done(Put(done.rows, x, row), done.versions + [VersionOf(row)]));
    forall y: Bytes
      ensures Cell(Put(done.rows, x, row), y) == if y == x then row else Cell(done.rows, y)
    {
      PutCell(done.rows, x, row, y);
    }
    forall i | 0 <= i < |Changes(steps)| ensures sql.row(Changes(steps)[i].target) in tx.writes[x := row].Keys {
      if i < |tx.steps| { assert Changes(steps)[i] == Changes(tx.steps)[i]; }
    }
  }

  /** A statement's own effect is the change's effect whenever it takes hold after what came before it. */
  lemma WriteIsChange(sql: Sql, change: EntityPatch, row: Option<Row>)
    requires !change.operation.Insert? && WriteEffect(sql, change, row).Hit?
    ensures ChangeEffect(sql, change, row) == WriteEffect(sql, change, row)
  {
  }

  lemma InsertIsChange(sql: Sql, change: EntityPatch, row: Option<Row>)
    requires change.operation.Insert? || MayCreate(change)
    requires InsertEffect(sql, change, row).Hit?
    ensures ChangeEffect(sql, change, row) == InsertEffect(sql, change, row)
  {
  }

  predicate KeepsLocks(db: Database, k: TxKey, tx: Tx) {
    && (forall x | x in tx.writes :: !RowLocked(db, k, x))
    && (tx.reserved.Some? ==> !IdLocked(db, k, tx.reserved.value.id) && tx.reserved.value.id !in db.records)
  }

  /** An open transaction may move on within the locks it can have. */
  lemma TxMoves(sql: Sql, db: Database, k: TxKey, tx: Tx)
    requires DbOk(sql, db) && TxOk(sql, db.rows, tx) && KeepsLocks(db, k, tx)
    ensures DbOk(sql, db.(open := db.open[k := tx]))
  {
    hide TxOk;
    forall j, x | j in db.open && j != k && x in tx.writes ensures x !in db.open[j].writes {
      assert !RowLocked(db, k, x);
    }
  }

  lemma HoldsLocks(sql: Sql, db: Database, k: TxKey)
    requires DbOk(sql, db) && k in db.open
    ensures KeepsLocks(db, k, db.open[k])
  {
    hide TxOk;
  }

  lemma MutateOk(sql: Sql, db: Database, k: TxKey, change: EntityPatch, effect: Effect)
    requires DbOk(sql, db) && k in db.open && !RowLocked(db, k, sql.row(change.target))
    requires effect.Hit? ==> ChangeEffect(sql, change, Seen(db, db.open[k], sql.row(change.target))) == effect
    ensures Mutate(sql, db, k, change, effect).Ran? && DbOk(sql, Mutate(sql, db, k, change, effect).db)
  {
    hide TxOk, ChangeEffect, Cell, RowLocked, IdLocked;
    if effect.Hit? {
      assert TxOk(sql, db.rows, db.open[k]);
      HoldsLocks(sql, db, k);
      TxStep(sql, db.rows, db.open[k], change, effect.row);
      var tx := db.open[k];
      TxMoves(sql, db, k, Tx(tx.reserved, tx.steps + [Step(change, VersionOf(effect.row))],
        tx.writes[sql.row(change.target) := effect.row]));
    }
  }

  /** Statements that fit their change: an insert only where the change allows it. */
  predicate Fits(statement: Statement) {
    && (statement.Write? ==> !statement.change.operation.Insert?)
    && (statement.Insert? ==> statement.change.operation.Insert? || MayCreate(statement.change))
  }

  lemma EmptyTxOk(sql: Sql, rows: Rows)
    ensures TxOk(sql, rows, EMPTY_TX)
  {
  }

  lemma ReservedTxOk(sql: Sql, rows: Rows, tx: Tx, reserved: Option<Reservation>)
    requires TxOk(sql, rows, tx)
    ensures TxOk(sql, rows, tx.(reserved := reserved))
  {
  }

  lemma ReservedOk(sql: Sql, db: Database, k: TxKey, r: Reservation)
    requires DbOk(sql, db) && k in db.open && !IdLocked(db, k, r.id) && r.id !in db.records
    ensures DbOk(sql, db.(open := db.open[k := db.open[k].(reserved := Some(r))]))
  {
    hide TxOk, RowLocked, IdLocked;
    HoldsLocks(sql, db, k);
    ReservedTxOk(sql, db.rows, db.open[k], Some(r));
    TxMoves(sql, db, k, db.open[k].(reserved := Some(r)));
  }

  /** Every statement keeps the locks and the serial reading of every open transaction. */
  lemma ExecuteOk(sql: Sql, db: Database, k: TxKey, statement: Statement)
    requires DbOk(sql, db) && Fits(statement) && Execute(sql, db, k, statement).Ran?
    requires statement.Begin? ==> k !in db.open
    ensures DbOk(sql, Execute(sql, db, k, statement).db)
  {
    hide DbOk, WriteEffect, InsertEffect, ChangeEffect, Cell, IdLocked, RowLocked, Publish, Mutate;
    if statement.Begin? {
      EmptyTxOk(sql, db.rows);
      TxMoves(sql, db, k, EMPTY_TX);
    } else if k in db.open && !statement.CreateTable? {
      var tx := db.open[k];
      match statement
      case Reserve(id, signature) =>
        if id !in db.records { ReservedOk(sql, db, k, Reservation(id, Record(signature, []))); }
      case Finish(id, data) =>
        HoldsLocks(sql, db, k);
        if tx.reserved.Some? && tx.reserved.value.id == id {
          ReservedOk(sql, db, k, Reservation(id, Record(tx.reserved.value.record.signature, data)));
        }
      case Write(change) => WriteOk(sql, db, k, change);
      case Insert(change) => InsertOk(sql, db, k, change);
      case Commit => PublishOk(sql, db, k);
      case _ =>
    }
  }

  lemma WriteOk(sql: Sql, db: Database, k: TxKey, change: EntityPatch)
    requires DbOk(sql, db) && k in db.open && !RowLocked(db, k, sql.row(change.target)) && !change.operation.Insert?
    ensures DbOk(sql, Mutate(sql, db, k, change,
      WriteEffect(sql, change, Seen(db, db.open[k], sql.row(change.target)))).db)
  {
    hide DbOk, WriteEffect, ChangeEffect, RowLocked, Mutate;
    var row := Seen(db, db.open[k], sql.row(change.target));
    if WriteEffect(sql, change, row).Hit? { WriteIsChange(sql, change, row); }
    MutateOk(sql, db, k, change, WriteEffect(sql, change, row));
  }

  lemma InsertOk(sql: Sql, db: Database, k: TxKey, change: EntityPatch)
    requires DbOk(sql, db) && k in db.open && !RowLocked(db, k, sql.row(change.target))
    requires change.operation.Insert? || MayCreate(change)
    ensures DbOk(sql, Mutate(sql, db, k, change,
      InsertEffect(sql, change, Seen(db, db.open[k], sql.row(change.target)))).db)
  {
    hide DbOk, InsertEffect, ChangeEffect, RowLocked, Mutate;
    var row := Seen(db, db.open[k], sql.row(change.target));
    if InsertEffect(sql, change, row).Hit? { InsertIsChange(sql, change, row); }
    MutateOk(sql, db, k, change, InsertEffect(sql, change, row));
  }

  lemma AbortOk(sql: Sql, db: Database, k: TxKey)
    requires DbOk(sql, db)
    ensures DbOk(sql, db.(open := db.open - {k}))
  {
    hide TxOk;
  }
}
