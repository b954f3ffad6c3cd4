/**
 What every committed change found and left: the version guard and the row count of the SQL store,
 said without the statements that implement them.
 */
module SqlVersions {
  import opened ByteStrings
  import opened Results
  import opened Entities
  import opened SqlDatabase
  import opened SqlSave
  import opened SqlRuns
  import T = SqlTheorems

  // ---- One change on one row ---------------------------------------------------------------------

  /** The change may find the row like this and leave it like that. */
  predicate Turns(sql: Sql, change: EntityPatch, found: Option<Row>, left: Option<Row>) {
    if found.None? then
      // An insert, or a change that creates what is missing and expects nothing there.
      && (change.operation.Insert? || (change.createIfMissing && (change.checkVersion ==> change.expectedVersion == 0)))
      && left == Some(Row(1, sql.insert(change)))
    else
      && !change.operation.Insert? && (change.checkVersion ==> found.value.version == change.expectedVersion)
      && if change.operation.Delete? then left.None?
         else && left.Some? && left.value.version == found.value.version + 1
              && left.value.content == sql.update(found.value.content, change)
  }

  /** A statement takes hold exactly where the change allows it. */
  lemma EffectExact(sql: Sql, change: EntityPatch, found: Option<Row>, left: Option<Row>)
    ensures ChangeEffect(sql, change, found) == Hit(left) <==> Turns(sql, change, found, left)
  {
  }

  /** One committed step between two states of the table. */
  predicate Moves(sql: Sql, before: Rows, step: Step, after: Rows) {
    var x := sql.row(step.change.target);
    && Turns(sql, step.change, Cell(before, x), Cell(after, x)) && step.version == VersionOf(Cell(after, x))
    && after - {x} == before - {x}
  }

  /** The table through a list of steps. */
  predicate Chain(sql: Sql, steps: seq<Step>, states: seq<Rows>) {
    |states| == |steps| + 1 && forall i | 0 <= i < |steps| :: Moves(sql, states[i], steps[i], states[i + 1])
  }

  lemma PutMoves(sql: Sql, before: Rows, step: Step, row: Option<Row>)
    requires ChangeEffect(sql, step.change, Cell(before, sql.row(step.change.target))) == Hit(row)
    requires step.version == VersionOf(row)
    ensures Moves(sql, before, step, Put(before, sql.row(step.change.target), row))
  {
    hide ChangeEffect, Turns;
    var x := sql.row(step.change.target);
    EffectExact(sql, step.change, Cell(before, x), row);
    PutCell(before, x, row, x);
    assert Put(before, x, row) - {x} == before - {x};
  }

  lemma MovesPut(sql: Sql, before: Rows, step: Step, after: Rows)
    requires Moves(sql, before, step, after)
    ensures var x := sql.row(step.change.target);
      && ChangeEffect(sql, step.change, Cell(before, x)) == Hit(Cell(after, x))
      && Put(before, x, Cell(after, x)) == after
  {
    hide ChangeEffect, Turns;
    var x := sql.row(step.change.target);
    EffectExact(sql, step.change, Cell(before, x), Cell(after, x));
    forall y | y != x ensures Cell(before, y) == Cell(after, y) {
      assert Cell(before - {x}, y) == Cell(after - {x}, y);
    }
    forall y
      ensures Cell(Put(before, x, Cell(after, x)), y) == Cell(after, y)
    {
      PutCell(before, x, Cell(after, x), y);
    }
    SameCells(Put(before, x, Cell(after, x)), after);
  }

  lemma StepsInit(steps: seq<Step>)
    requires steps != []
    ensures var n := |steps| - 1;
      && Changes(steps)[..n] == Changes(steps[..n]) && Changes(steps)[n] == steps[n].change
      && Versions(steps) == Versions(steps[..n]) + [steps[n].version]
  {
  }

  /** Running changes serially is moving the table through their steps. */
  lemma {:induction false} SeriallyChain(sql: Sql, rows: Rows, steps: seq<Step>, done: Done) returns (states: seq<Rows>)
    requires Serially(sql, rows, Changes(steps)) == Some(done) && done.versions == Versions(steps)
    ensures Chain(sql, steps, states) && states[0] == rows && states[|steps|] == done.rows
    decreases |steps|
  {
    hide Changes, Versions, ChangeEffect, Moves, Put, Cell;
    if steps == [] {
      states := [rows];
    } else {
      var n := |steps| - 1;
      StepsInit(steps);
      var before := Serially(sql, rows, Changes(steps[..n])).value;
      SeriallyCount(sql, rows, Changes(steps[..n]));
      var x := sql.row(steps[n].change.target);
      var row := ChangeEffect(sql, steps[n].change, Cell(before.rows, x)).row;
      assert before.versions == done.versions[..n] && VersionOf(row) == done.versions[n];
      var init := SeriallyChain(sql, rows, steps[..n], before);
      PutMoves(sql, before.rows, steps[n], row);
      states := init + [done.rows];
      forall i | 0 <= i < |steps| ensures Moves(sql, states[i], steps[i], states[i + 1]) {
        if i < n { assert Moves(sql, init[i], steps[..n][i], init[i + 1]); }
      }
    }
  }

  lemma {:induction false} ChainSerially(sql: Sql, steps: seq<Step>, states: seq<Rows>)
    requires Chain(sql, steps, states)
    ensures Serially(sql, states[0], Changes(steps)) == Some(Done(states[|steps|], Versions(steps)))
    decreases |steps|
  {
    hide Changes, Versions, ChangeEffect, Moves, Put, Cell;
    if steps == [] {
      assert Changes(steps) == [] && Versions(steps) == [];
    } else {
      var n := |steps| - 1;
      StepsInit(steps);
      forall i | 0 <= i < n ensures Moves(sql, states[..n + 1][i], steps[..n][i], states[..n + 1][i + 1]) {
        assert Moves(sql, states[i], steps[i], states[i + 1]);
      }
      ChainSerially(sql, steps[..n], states[..n + 1]);
      MovesPut(sql, states[n], steps[n], states[n + 1]);
      MovesVersion(sql, states[n], steps[n], states[n + 1]);
    }
  }

  lemma MovesVersion(sql: Sql, before: Rows, step: Step, after: Rows)
    requires Moves(sql, before, step, after)
    ensures step.version == VersionOf(Cell(after, sql.row(step.change.target)))
  {
  }

  // ---- Every run ------------------------------------------------------------------------------------

  /** All committed steps, in commit order. */
  function AllSteps(log: seq<Entry>): seq<Step> {
    if log == [] then [] else AllSteps(log[..|log| - 1]) + log[|log| - 1].tx.steps
  }

  lemma ChainJoins(sql: Sql, a: seq<Step>, s: seq<Rows>, b: seq<Step>, t: seq<Rows>)
    requires Chain(sql, a, s) && Chain(sql, b, t) && s[|a|] == t[0]
    ensures Chain(sql, a + b, s + t[1..]) && (s + t[1..])[|a + b|] == t[|b|]
  {
    hide Moves;
    var u := s + t[1..];
    forall i | 0 <= i < |a + b| ensures Moves(sql, u[i], (a + b)[i], u[i + 1]) {
      if i < |a| {
        assert u[i] == s[i] && u[i + 1] == s[i + 1];
      } else {
        assert Moves(sql, t[i - |a|], b[i - |a|], t[i - |a| + 1]);
        assert u[i] == t[i - |a|] && u[i + 1] == t[i - |a| + 1];
      }
    }
  }

  lemma {:induction false} ReplayedChain(sql: Sql, rows: Rows, log: seq<Entry>) returns (states: seq<Rows>)
    requires Replayed(sql, rows, log).Some?
    ensures Chain(sql, AllSteps(log), states)
    ensures states[0] == rows && Some(states[|AllSteps(log)|]) == Replayed(sql, rows, log)
  {
    hide Serially, Changes, Versions, Chain;
    if log == [] {
      states := [rows];
      assert Chain(sql, [], [rows]) by { NoSteps(sql, rows); }
    } else {
      var init, steps := log[..|log| - 1], log[|log| - 1].tx.steps;
      var first := ReplayedChain(sql, rows, init);
      var before := Replayed(sql, rows, init).value;
      var done := Serially(sql, before, Changes(steps)).value;
      var rest := SeriallyChain(sql, before, steps, done);
      ChainLength(sql, AllSteps(init), first);
      ChainLength(sql, steps, rest);
      ChainJoins(sql, AllSteps(init), first, steps, rest);
      states := first + rest[1..];
    }
  }

  lemma NoSteps(sql: Sql, rows: Rows)
    ensures Chain(sql, [], [rows])
  {
  }

  lemma ChainLength(sql: Sql, steps: seq<Step>, states: seq<Rows>)
    requires Chain(sql, steps, states)
    ensures |states| == |steps| + 1
  {
  }

  /**
   Over every run the table has moved from the first rows to the present ones through the committed
   steps, each finding and leaving its row as its change says, and touching no other.
   */
  lemma CommitsMove(sql: Sql, rows: Rows, events: seq<Event>) returns (states: seq<Rows>)
    ensures var s := Reach(sql, Start(rows), events);
      Chain(sql, AllSteps(s.log), states) && states[0] == rows && states[|AllSteps(s.log)|] == s.db.rows
  {
    hide Reach, Chain, AllSteps, Replayed;
    T.Serializable(sql, rows, events);
    states := ReplayedChain(sql, rows, Reach(sql, Start(rows), events).log);
  }

  // ---- No update is lost ---------------------------------------------------------------------------------

  predicate Present(states: seq<Rows>, x: Bytes, from: nat, to: nat)
    requires to <= |states|
  {
    forall m | from <= m < to :: x in states[m]
  }

  lemma {:induction false} VersionsRise(sql: Sql, steps: seq<Step>, states: seq<Rows>, x: Bytes, i: nat, j: nat)
    requires Chain(sql, steps, states) && i <= j < |states| && Present(states, x, i, j + 1)
    ensures states[i][x].version <= states[j][x].version
    decreases j
  {
    hide Chain;
    if i < j {
      ChainLength(sql, steps, states);
      VersionsRise(sql, steps, states, x, i, j - 1);
      StepRises(sql, steps, states, x, j - 1);
    }
  }

  lemma Elsewhere(sql: Sql, before: Rows, step: Step, after: Rows, x: Bytes)
    requires Moves(sql, before, step, after)
    ensures x != sql.row(step.change.target) ==> Cell(before, x) == Cell(after, x)
  {
    hide Turns;
    var y := sql.row(step.change.target);
    assert Cell(before - {y}, x) == Cell(after - {y}, x);
  }

  lemma StepRises(sql: Sql, steps: seq<Step>, states: seq<Rows>, x: Bytes, i: nat)
    requires Chain(sql, steps, states) && i < |steps| && x in states[i] && x in states[i + 1]
    ensures states[i][x].version <= states[i + 1][x].version
    ensures x == sql.row(steps[i].change.target) ==> states[i][x].version < states[i + 1][x].version
  {
    assert Moves(sql, states[i], steps[i], states[i + 1]);
    Elsewhere(sql, states[i], steps[i], states[i + 1], x);
  }

  /** The step changed a row that was there, at this version. */
  predicate Used(sql: Sql, steps: seq<Step>, states: seq<Rows>, i: nat, x: Bytes, version: uint64)
    requires |states| == |steps| + 1
  {
    i < |steps| && sql.row(steps[i].change.target) == x && x in states[i] && states[i][x].version == version
  }

  lemma UsedOnce(sql: Sql, steps: seq<Step>, states: seq<Rows>, i: nat, j: nat, x: Bytes, version: uint64)
    requires Chain(sql, steps, states) && i < j
    requires Used(sql, steps, states, i, x, version) && Used(sql, steps, states, j, x, version)
    ensures exists m | i < m <= j :: x !in states[m]
  {
    hide Chain;
    ChainLength(sql, steps, states);
    if Present(states, x, i, j + 1) {
      StepRises(sql, steps, states, x, i);
      VersionsRise(sql, steps, states, x, i + 1, j);
    }
  }

  /**
   No lost update: over every run, two committed changes that both expect the same version of the same
   row, and both found it, have a deletion of the row between them.
   */
  lemma NoLostUpdate(sql: Sql, rows: Rows, events: seq<Event>, i: nat, j: nat) returns (states: seq<Rows>)
    requires var steps := AllSteps(Reach(sql, Start(rows), events).log);
      && i < j < |steps| && sql.row(steps[i].change.target) == sql.row(steps[j].change.target)
      && steps[i].change.checkVersion && steps[j].change.checkVersion
      && steps[i].change.expectedVersion == steps[j].change.expectedVersion
    ensures var s := Reach(sql, Start(rows), events); var steps := AllSteps(s.log);
      var x := sql.row(steps[i].change.target);
      && Chain(sql, steps, states) && states[0] == rows && states[|steps|] == s.db.rows
      && (x in states[i] && x in states[j] ==>
            exists m | i <= m < j :: steps[m].change.operation.Delete? && sql.row(steps[m].change.target) == x)
  {
    hide Reach, Chain, AllSteps;
    states := CommitsMove(sql, rows, events);
    var steps := AllSteps(Reach(sql, Start(rows), events).log);
    var x := sql.row(steps[i].change.target);
    ChainLength(sql, steps, states);
    if x in states[i] && x in states[j] {
      Guarded(sql, steps, states, i);
      Guarded(sql, steps, states, j);
      UsedOnce(sql, steps, states, i, j, x, steps[i].change.expectedVersion);
      var m :| i < m <= j && x !in states[m];
      Vanished(sql, steps, states, x, i, m);
    }
  }

  lemma Guarded(sql: Sql, steps: seq<Step>, states: seq<Rows>, i: nat)
    requires Chain(sql, steps, states) && i < |steps| && steps[i].change.checkVersion
    requires sql.row(steps[i].change.target) in states[i]
    ensures states[i][sql.row(steps[i].change.target)].version == steps[i].change.expectedVersion
  {
    assert Moves(sql, states[i], steps[i], states[i + 1]);
  }

  /** A row that is gone was deleted. */
  lemma {:induction false} Vanished(sql: Sql, steps: seq<Step>, states: seq<Rows>, x: Bytes, i: nat, m: nat)
    requires Chain(sql, steps, states) && i < m < |states| && x in states[i] && x !in states[m]
    ensures exists k | i <= k < m :: steps[k].change.operation.Delete? && sql.row(steps[k].change.target) == x
    decreases m
  {
    hide Chain;
    ChainLength(sql, steps, states);
    if x in states[m - 1] {
      Deleted(sql, steps, states, x, m - 1);
    } else {
      Vanished(sql, steps, states, x, i, m - 1);
    }
  }

  lemma Deleted(sql: Sql, steps: seq<Step>, states: seq<Rows>, x: Bytes, i: nat)
    requires Chain(sql, steps, states) && i < |steps| && x in states[i] && x !in states[i + 1]
    ensures steps[i].change.operation.Delete? && sql.row(steps[i].change.target) == x
  {
    assert Moves(sql, states[i], steps[i], states[i + 1]);
    Elsewhere(sql, states[i], steps[i], states[i + 1], x);
  }
}
