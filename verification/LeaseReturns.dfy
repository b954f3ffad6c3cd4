/** Every lease comes back: a slot that has nothing left to do is idle, or its transaction is open. */
module LeaseReturns {
  import opened ByteStrings
  import opened Results
  import opened Leases
  import opened LeaseRuns
  import opened LeaseTheorems

  // ---- What is owed ------------------------------------------------------------------------------------

  /** The job at this place carries the handle and will give the lease back, or be followed by one that does. */
  predicate Owes(slot: Slot, token: nat, i: nat) {
    && i < |Unanswered(slot)| && Unanswered(slot)[i].token == token
    && (slot.stage.Completing? && i == 0 ==>
          GivesBack(slot.stage.job, slot.stage.outcome) || NeedsCleanup(slot.stage.job, slot.stage.outcome))
  }

  predicate Ends(slot: Slot, token: nat, i: nat) {
    && i < |Unanswered(slot)| && Unanswered(slot)[i].token == token
    && (Unanswered(slot)[i].op.Commit? || Unanswered(slot)[i].op.Rollback?)
  }

  ghost predicate Owed(slot: Slot, token: nat) { exists i: nat :: Owes(slot, token, i) }

  ghost predicate EndQueued(slot: Slot, token: nat) { exists i: nat :: Ends(slot, token, i) }

  /** A lease on a running slot has its transaction open or a job that returns it; a closing one has its end queued. */
  ghost predicate ReturnsOk(id: SlotId, slot: Slot) {
    && (slot.running && !slot.mode.Idle? ==> slot.active == Current(id, slot) || Owed(slot, Current(id, slot)))
    && (slot.mode.Closing? ==> EndQueued(slot, Current(id, slot)))
  }

  lemma CurrentPositive(id: SlotId, slot: Slot)
    requires LocalOk(id, slot) && !slot.mode.Idle?
    ensures Current(id, slot) != 0
  {
    hide JobsOk, WorkerOk, LeaseOk, AgesOk, GenerationAfter;
    GenerationPositive(slot.acquired);
    EncodePositive(id, slot.generation);
  }

  /** Nothing but the worker's variables changed. */
  lemma SameReturns(id: SlotId, slot: Slot, next: Slot)
    requires ReturnsOk(id, slot) && next.mode == slot.mode && next.generation == slot.generation
    requires next.stage == slot.stage && next.queue == slot.queue
    requires next.running ==> slot.running && next.active == slot.active
    ensures ReturnsOk(id, next)
  {
    hide Encode, GivesBack;
    assert Unanswered(next) == Unanswered(slot);
    var cur := Current(id, slot);
    if Owed(slot, cur) { var i: nat :| Owes(slot, cur, i); assert Owes(next, cur, i); }
    if EndQueued(slot, cur) { var i: nat :| Ends(slot, cur, i); assert Ends(next, cur, i); }
  }

  // ---- The worker ---------------------------------------------------------------------------------------

  /** The jobs are as before; the first of them may have come to an end that returns the lease. */
  lemma HeadReturns(id: SlotId, slot: Slot, next: Slot)
    requires ReturnsOk(id, slot) && !slot.stage.Completing? && Unanswered(next) == Unanswered(slot)
    requires next.mode == slot.mode && next.generation == slot.generation && next.running == slot.running
    requires next.active == slot.active || (slot.active == Current(id, slot) ==> Owes(next, Current(id, slot), 0))
    requires next.stage.Completing? && Owes(slot, Current(id, slot), 0) ==>
      next.active == Current(id, slot) || Owes(next, Current(id, slot), 0)
    ensures ReturnsOk(id, next)
  {
    hide Encode, GivesBack;
    var cur := Current(id, slot);
    if Owed(slot, cur) {
      var i: nat :| Owes(slot, cur, i);
      if i > 0 || !next.stage.Completing? { assert Owes(next, cur, i); }
    }
    if EndQueued(slot, cur) { var i: nat :| Ends(slot, cur, i); assert Ends(next, cur, i); }
  }

  lemma TakeReturns(id: SlotId, slot: Slot)
    requires LocalOk(id, slot) && ReturnsOk(id, slot)
    ensures ReturnsOk(id, Take(slot))
  {
    hide LocalOk, Encode, ReturnsOk, Unanswered;
    if slot.queue != [] && slot.stage.Resting? {
      TakeLists(slot);
      if !slot.mode.Idle? {
        CurrentPositive(id, slot);
        HeadReturns(id, slot, Take(slot));
      } else {
        IdleReturns(id, Take(slot));
      }
    }
  }

  lemma IdleReturns(id: SlotId, slot: Slot)
    requires slot.mode.Idle?
    ensures ReturnsOk(id, slot)
  {
  }

  lemma ConnectReturns(id: SlotId, slot: Slot, outcome: Outcome)
    requires LocalOk(id, slot) && ReturnsOk(id, slot)
    ensures ReturnsOk(id, Connect(slot, outcome))
  {
    hide JobsOk, LeaseOk, AgesOk, GenerationAfter, Isolated, SessionUp, OpenIn, ReturnsOk, Encode;
    var next := Connect(slot, outcome);
    if slot.stage.Checked? && !slot.connected {
      if outcome.ok {
        SameReturns(id, slot, next);
      } else if slot.mode.Idle? {
        IdleReturns(id, next);
      } else {
        CurrentPositive(id, slot);
        assert Unanswered(next) == Unanswered(slot) && Unanswered(slot)[0] == slot.stage.job;
        HeadReturns(id, slot, next);
      }
    }
  }

  lemma ExecuteReturns(id: SlotId, slot: Slot, outcome: Outcome)
    requires LocalOk(id, slot) && ReturnsOk(id, slot)
    ensures ReturnsOk(id, Execute(slot, outcome))
  {
    hide JobsOk, LeaseOk, AgesOk, GenerationAfter, Isolated, SessionUp, OpenIn, ReturnsOk, Encode;
    var next := Execute(slot, outcome);
    if slot.stage.Checked? && slot.connected {
      if slot.mode.Idle? {
        IdleReturns(id, next);
      } else {
        CurrentPositive(id, slot);
        assert Unanswered(next) == Unanswered(slot) && Unanswered(slot)[0] == slot.stage.job;
        HeadReturns(id, slot, next);
      }
    }
  }

  lemma LeaveReturns(id: SlotId, slot: Slot)
    requires ReturnsOk(id, slot)
    ensures ReturnsOk(id, Leave(slot))
  {
    hide ReturnsOk;
    SameReturns(id, slot, Leave(slot));
  }

  // ---- Completion -------------------------------------------------------------------------------------------

  lemma RestingShape(slot: Slot)
    requires slot.stage.Resting?
    ensures Unanswered(slot) == slot.queue
  {
  }

  /** A job behind the first keeps its place, one further up. */
  lemma MovesUp(slot: Slot, next: Slot, token: nat, i: nat)
    requires slot.stage.Completing? && next.stage.Resting? && slot.queue <= next.queue && i > 0
    ensures Owes(slot, token, i) ==> Owes(next, token, i - 1)
    ensures Ends(slot, token, i) ==> Ends(next, token, i - 1)
  {
    hide GivesBack, NeedsCleanup, Unanswered, Pending;
    CompletingShape(slot);
    RestingShape(next);
    if 0 < i <= |slot.queue| { assert next.queue[i - 1] == slot.queue[i - 1] == ([slot.stage.job] + slot.queue)[i]; }
  }

  lemma RollbackLast(slot: Slot, next: Slot, token: nat)
    requires next.stage.Resting? && |next.queue| > |slot.queue|
    requires next.queue[|slot.queue|].token == token && next.queue[|slot.queue|].op.Rollback?
    ensures Owed(next, token) && EndQueued(next, token)
  {
    hide GivesBack, NeedsCleanup, Unanswered;
    RestingShape(next);
    assert Owes(next, token, |slot.queue|) && Ends(next, token, |slot.queue|);
  }

  /** The first job leaves without returning the lease; another one owes it, or nobody needs to. */
  lemma PopReturns(id: SlotId, slot: Slot, next: Slot)
    requires ReturnsOk(id, slot) && slot.stage.Completing? && next.stage.Resting? && slot.queue <= next.queue
    requires next.mode == slot.mode && next.generation == slot.generation && next.running == slot.running
    requires next.active == slot.active
    requires Owes(slot, Current(id, slot), 0) || Ends(slot, Current(id, slot), 0) ==>
      && |next.queue| > |slot.queue|
      && next.queue[|slot.queue|].token == Current(id, slot) && next.queue[|slot.queue|].op.Rollback?
    ensures ReturnsOk(id, next)
  {
    hide Encode, Owes, Ends, Unanswered;
    var cur := Current(id, slot);
    if Owes(slot, cur, 0) || Ends(slot, cur, 0) {
      RollbackLast(slot, next, cur);
    } else {
      if Owed(slot, cur) { var i: nat :| Owes(slot, cur, i); MovesUp(slot, next, cur, i); }
      if EndQueued(slot, cur) { var i: nat :| Ends(slot, cur, i); MovesUp(slot, next, cur, i); }
    }
  }

  lemma FinishReturns(id: SlotId, slot: Slot)
    requires LocalOk(id, slot) && ReturnsOk(id, slot) && slot.stage.Completing?
    ensures ReturnsOk(id, FinishSlot(id, slot.(stage := Resting), slot.stage.job, slot.stage.outcome))
  {
    hide LocalOk, ReturnsOk, Encode;
    var job, outcome := slot.stage.job, slot.stage.outcome;
    var next := FinishSlot(id, slot.(stage := Resting), job, outcome);
    if next.mode.Idle? {
      IdleReturns(id, next);
    } else {
      CurrentPositive(id, slot);
      assert Unanswered(slot)[0] == job;
      PopReturns(id, slot, next);
    }
  }

  // ---- Dispatch ------------------------------------------------------------------------------------------------

  /** A job joins the queue. If the lease is closing under it, it is the end of the lease. */
  lemma JoinReturns(id: SlotId, slot: Slot, next: Slot, job: Job)
    requires ReturnsOk(id, slot) || job.token == Current(id, next)
    requires next.generation == slot.generation || job.token == Current(id, next)
    requires next.stage == slot.stage && next.queue == slot.queue + [job] && next.running == slot.running
    requires next.active == slot.active || job.token == Current(id, next)
    requires next.mode == slot.mode || job.token == Current(id, next)
    requires next.mode.Closing? ==>
      (slot.mode.Closing? && ReturnsOk(id, slot) && next.generation == slot.generation)
      || (job.token == Current(id, next) && (job.op.Commit? || job.op.Rollback?))
    ensures ReturnsOk(id, next)
  {
    hide Encode, GivesBack;
    var cur := Current(id, next);
    assert Unanswered(next) == Unanswered(slot) + [job];
    if job.token == cur {
      assert Owes(next, cur, |Unanswered(slot)|);
      if job.op.Commit? || job.op.Rollback? { assert Ends(next, cur, |Unanswered(slot)|); }
    } else if Owed(slot, cur) {
      var i: nat :| Owes(slot, cur, i);
      assert Owes(next, cur, i);
    }
    if slot.mode.Closing? && ReturnsOk(id, slot) && next.generation == slot.generation {
      var i: nat :| Ends(slot, cur, i);
      assert Ends(next, cur, i);
    }
  }

  lemma EnqueueReturns(id: SlotId, slot: Slot, op: Op, token: nat, mode: Mode)
    requires LocalOk(id, slot) && ReturnsOk(id, slot)
    requires if token == 0 then slot.running && slot.mode.Idle? && mode.Idle? && (op.Query? || op.Exec?)
      else && slot.mode.Active? && token == Current(id, slot)
           && if op.Commit? || op.Rollback? then mode.Closing? else mode.Active? && (op.Query? || op.Exec?)
    ensures ReturnsOk(id, EnqueueSlot(id, slot.(mode := mode), op, token))
  {
    hide LocalOk, ReturnsOk, Encode;
    var moved := slot.(mode := mode);
    var next := EnqueueSlot(id, moved, op, token);
    if next.mode.Idle? {
      IdleReturns(id, next);
    } else {
      CurrentPositive(id, slot);
      assert slot.running;
      JoinReturns(id, slot, next, NewJob(moved, op, token));
    }
  }

  lemma BeginReturns(id: SlotId, slot: Slot)
    requires slot.running
    ensures ReturnsOk(id, EnqueueSlot(id, Leased(slot), Begin, Current(id, Leased(slot))))
  {
    hide ReturnsOk, Encode, NextGeneration;
    var leased := Leased(slot);
    JoinReturns(id, leased, EnqueueSlot(id, leased, Begin, Current(id, leased)),
      NewJob(leased, Begin, Current(id, leased)));
  }

  // ---- Every run --------------------------------------------------------------------------------------------------

  ghost predicate AllReturn(s: State) { forall id | id in s.slots :: ReturnsOk(id, s.slots[id]) }

  lemma OneMoves(s: State, t: State, id: SlotId, next: Slot)
    requires AllReturn(s) && t.slots == s.slots[id := next] && ReturnsOk(id, next)
    ensures AllReturn(t)
  {
    hide ReturnsOk;
  }

  lemma LocalAt(s: State, id: SlotId)
    requires Inv(s) && AllReturn(s) && id in s.slots
    ensures LocalOk(id, s.slots[id]) && ReturnsOk(id, s.slots[id])
  {
    hide RegistryOk, LocalOk, TicketsOk, ReturnsOk;
    assert SlotOk(id, s.slots[id]);
  }

  lemma StepReturns(s: State, e: Event)
    requires Inv(s) && AllReturn(s)
    requires (e.TakeAt? || e.ConnectAt? || e.ExecuteAt? || e.LeaveAt? || e.Stop?) && e.slot in s.slots
    ensures AllReturn(Next(s, e))
  {
    hide Inv, AllReturn, ReturnsOk, LocalOk, Take, Connect, Execute, Leave;
    var id, slot := e.slot, s.slots[e.slot];
    LocalAt(s, id);
    match e
    case TakeAt(_) => TakeReturns(id, slot); OneMoves(s, Next(s, e), id, Take(slot));
    case ConnectAt(_, outcome) =>
      ConnectReturns(id, slot, outcome);
      OneMoves(s, Next(s, e), id, Connect(slot, outcome));
    case ExecuteAt(_, outcome) =>
      ExecuteReturns(id, slot, outcome);
      OneMoves(s, Next(s, e), id, Execute(slot, outcome));
    case LeaveAt(_) => LeaveReturns(id, slot); OneMoves(s, Next(s, e), id, Leave(slot));
    case Stop(_) =>
      SameReturns(id, slot, slot.(running := false));
      OneMoves(s, Next(s, e), id, slot.(running := false));
  }

  lemma CompleteReturns(s: State, id: SlotId)
    requires Inv(s) && AllReturn(s) && id in s.slots
    ensures AllReturn(Complete(s, id))
  {
    hide RegistryOk, SlotsOk, AllReturn, ReturnsOk, LocalOk, FinishSlot, Finish, JobOk;
    var slot := s.slots[id];
    LocalAt(s, id);
    if slot.stage.Completing? {
      var rest := slot.(stage := Resting);
      RestLocal(id, slot);
      RegistryMoves(s, id, rest);
      FinishIs(On(s, id, rest), id, slot.stage.job, slot.stage.outcome);
      FinishReturns(id, slot);
      var next := FinishSlot(id, rest, slot.stage.job, slot.stage.outcome);
      assert Complete(s, id).slots == s.slots[id := next];
      OneMoves(s, Complete(s, id), id, next);
    }
  }

  lemma RegularReturns(s: State, id: SlotId, op: Op)
    requires Inv(s) && AllReturn(s) && (op.Query? || op.Exec?)
    ensures AllReturn(DispatchRegular(s, id, op))
  {
    hide RegistryOk, SlotsOk, AllReturn, ReturnsOk, LocalOk, Enqueue, EnqueueSlot;
    if id in s.slots && s.slots[id].running && s.slots[id].mode.Idle? {
      LocalAt(s, id);
      EnqueueIs(s, id, op, 0);
      EnqueueReturns(id, s.slots[id], op, 0, Idle);
      OneMoves(s, Enqueue(s, id, op, 0), id, EnqueueSlot(id, s.slots[id], op, 0));
    }
  }

  lemma TransactionReturns(s: State, token: nat, op: Op)
    requires Inv(s) && AllReturn(s) && (op.Query? || op.Exec?)
    ensures AllReturn(DispatchTransaction(s, token, op))
  {
    hide RegistryOk, SlotsOk, AllReturn, ReturnsOk, LocalOk, Enqueue, EnqueueSlot, Handle;
    if Route(s, token).Some? && s.slots[Route(s, token).value].mode.Active? {
      var id := Route(s, token).value;
      LocalAt(s, id);
      RoutedNames(s, token);
      EnqueueIs(s, id, op, token);
      EnqueueReturns(id, s.slots[id], op, token, Active);
      OneMoves(s, Enqueue(s, id, op, token), id, EnqueueSlot(id, s.slots[id], op, token));
    }
  }

  lemma EndReturns(s: State, token: nat, op: Op)
    requires Inv(s) && AllReturn(s) && (op.Commit? || op.Rollback?)
    ensures AllReturn(DispatchFinish(s, token, op))
  {
    hide SlotsOk, AllReturn, ReturnsOk, LocalOk, Enqueue, EnqueueSlot, Handle, RegistryOk;
    if Route(s, token).Some? && s.slots[Route(s, token).value].mode.Active? {
      var id := Route(s, token).value;
      var closing := On(s, id, s.slots[id].(mode := Closing));
      LocalAt(s, id);
      RoutedNames(s, token);
      RegistryMoves(s, id, s.slots[id].(mode := Closing));
      EnqueueIs(closing, id, op, token);
      EnqueueReturns(id, s.slots[id], op, token, Closing);
      var next := EnqueueSlot(id, s.slots[id].(mode := Closing), op, token);
      assert closing.slots[id := next] == s.slots[id := next];
      OneMoves(s, Enqueue(closing, id, op, token), id, next);
    }
  }

  lemma LeaseReturned(s: State, id: SlotId, key: Bytes)
    requires AllReturn(s)
    ensures AllReturn(DispatchBegin(s, id, key))
  {
    hide AllReturn, ReturnsOk, Encode, NextGeneration;
    var t := DispatchBegin(s, id, key);
    if t != s {
      var slot := s.slots[id];
      var token := Encode(id, NextGeneration(slot.generation));
      if id.index >= INDEXES || token in s.entries {
        IdleReturns(id, t.slots[id]);
      } else {
        BeginReturns(id, slot);
      }
      OneMoves(s, t, id, t.slots[id]);
    }
  }

  lemma NextReturns(s: State, e: Event)
    requires Inv(s) && AllReturn(s)
    ensures AllReturn(Next(s, e))
  {
    hide Inv, AllReturn, DispatchRegular, DispatchBegin, DispatchTransaction, DispatchFinish, Complete, On, Take;
    hide Connect, Execute, Leave;
    match e
    case Regular(id, op) => if op.Query? || op.Exec? { RegularReturns(s, id, op); }
    case BeginAt(id, key) => LeaseReturned(s, id, key);
    case InTransaction(token, op) => if op.Query? || op.Exec? { TransactionReturns(s, token, op); }
    case End(token, op) => if op.Commit? || op.Rollback? { EndReturns(s, token, op); }
    case Cancel(key) => if key in s.keys { EndReturns(s, s.keys[key], Rollback); }
    case CompleteAt(id) => if id in s.slots { CompleteReturns(s, id); }
    case _ => if e.slot in s.slots { StepReturns(s, e); }
  }

  lemma {:induction false} RunReturns(ids: set<SlotId>, events: seq<Event>)
    ensures AllReturn(Run(Start(ids), events))
  {
    hide Inv, Next, ReturnsOk;
    if events == [] {
      forall id | id in ids ensures ReturnsOk(id, NEW_SLOT) { IdleReturns(id, NEW_SLOT); }
    } else {
      var init := events[..|events| - 1];
      RunReturns(ids, init);
      RunOk(ids, init);
      NextReturns(Run(Start(ids), init), events[|events| - 1]);
    }
  }

  /**
   No lease leaks: over every run, a slot with no unanswered job is not closing, and if it runs and is
   leased, the transaction of its lease is the one open on its session.
   */
  lemma LeasesReturn(ids: set<SlotId>, events: seq<Event>, id: SlotId)
    requires id in Run(Start(ids), events).slots
    requires var slot := Run(Start(ids), events).slots[id]; slot.queue == [] && slot.stage.Resting?
    ensures var slot := Run(Start(ids), events).slots[id];
      && !slot.mode.Closing?
      && (slot.running && slot.mode.Active? ==> OpenIn(slot.history) == Some(Current(id, slot)))
  {
    hide Run, Encode, OpenIn, Isolated, SessionUp, JobsOk, LeaseOk, AgesOk, GenerationAfter, TicketsOk, RegistryOk;
    RunReturns(ids, events);
    RunOk(ids, events);
    var slot := Run(Start(ids), events).slots[id];
    assert SlotOk(id, slot) && ReturnsOk(id, slot);
    assert Unanswered(slot) == [];
    if slot.mode.Active? { CurrentPositive(id, slot); }
  }

  // ---- A transaction left alone ---------------------------------------------------------------------------------

  const DONE := Outcome(true, NoError)

  predicate AtRest(slot: Slot) { slot.running && slot.queue == [] && slot.stage.Resting? }

  lemma {:induction false} RunOn(s: State, first: seq<Event>, more: seq<Event>)
    ensures Run(s, first + more) == Run(Run(s, first), more)
    decreases |more|
  {
    hide Next;
    if more == [] {
      assert first + more == first;
    } else {
      RunOn(s, first, more[..|more| - 1]);
      assert (first + more)[..|first + more| - 1] == first + more[..|more| - 1];
    }
  }

  lemma FourSteps(s: State, a: Event, b: Event, c: Event, d: Event)
    ensures Run(s, [a, b, c, d]) == Next(Next(Next(Next(s, a), b), c), d)
  {
    hide Next;
    assert [a, b, c, d][..3] == [a, b, c] && [a, b, c][..2] == [a, b] && [a, b][..1] == [a] && [a][..0] == [];
    assert Run(s, []) == s;
    assert Run(s, [a]) == Next(s, a);
    assert Run(s, [a, b]) == Next(Run(s, [a]), b);
    assert Run(s, [a, b, c]) == Next(Run(s, [a, b]), c);
  }

  /** The worker takes the only job, finds or makes a session, runs it, and reports. */
  function Work(id: SlotId): seq<Event> { [TakeAt(id), ConnectAt(id, DONE), ExecuteAt(id, DONE), CompleteAt(id)] }

  /** The slot once the driver has run the job in front. */
  function Worked(slot: Slot): Slot { Execute(Connect(Take(slot), DONE), DONE) }

  lemma WorkedIs(slot: Slot, job: Job)
    requires slot.running && slot.queue == [job] && slot.stage.Resting?
    requires job.token == 0 || job.op.Begin? || job.token == slot.active
    ensures var next := Worked(slot);
      && next == slot.(queue := [], stage := Completing(job, DONE), connected := true, active := next.active,
                       history := next.history)
      && next.active == if job.op.Begin? then job.token else if job.op.Commit? || job.op.Rollback? then 0
        else slot.active
  {
    assert slot.queue[1..] == [];
  }

  lemma WorkIs(s: State, id: SlotId)
    requires id in s.slots
    ensures Run(s, Work(id)) == Complete(On(s, id, Worked(s.slots[id])), id)
  {
    hide Complete, Take, Connect, Execute, On, Next;
    FourSteps(s, TakeAt(id), ConnectAt(id, DONE), ExecuteAt(id, DONE), CompleteAt(id));
    var slot := s.slots[id];
    WorkerNext(s, id);
    OnTwice(s, id, Take(slot), Connect(Take(slot), DONE));
    WorkerNext(On(s, id, Take(slot)), id);
    OnTwice(s, id, Connect(Take(slot), DONE), Worked(slot));
    WorkerNext(On(s, id, Connect(Take(slot), DONE)), id);
    OnTwice(s, id, Worked(slot), Worked(slot));
    WorkerNext(On(s, id, Worked(slot)), id);
  }

  lemma WorkerNext(s: State, id: SlotId)
    requires id in s.slots
    ensures Next(s, TakeAt(id)) == On(s, id, Take(s.slots[id]))
    ensures Next(s, ConnectAt(id, DONE)) == On(s, id, Connect(s.slots[id], DONE))
    ensures Next(s, ExecuteAt(id, DONE)) == On(s, id, Execute(s.slots[id], DONE))
    ensures Next(s, CompleteAt(id)) == Complete(s, id)
  {
    hide Complete, Take, Connect, Execute, On;
  }

  lemma OnTwice(s: State, id: SlotId, a: Slot, b: Slot)
    ensures On(On(s, id, a), id, b) == On(s, id, b) && id in On(s, id, a).slots && On(s, id, a).slots[id] == a
  {
    assert s.slots[id := a][id := b] == s.slots[id := b];
  }

  /** A slot with a lease, its transaction open, and nothing to do. */
  predicate Leasing(s: State, id: SlotId, token: nat) {
    && id in s.slots && AtRest(s.slots[id]) && s.slots[id].mode.Active? && s.slots[id].active == token
    && token == Current(id, s.slots[id]) && token in s.entries && s.entries[token].slot == id
  }

  predicate Told(s: State, id: SlotId, client: nat, op: Op, token: nat) {
    id in s.slots && client in s.slots[id].answers && s.slots[id].answers[client] == Answer(op, token, DONE)
  }

  lemma Begins(s: State, id: SlotId, key: Bytes)
    requires RegistryOk(s) && id in s.slots && Addressable(id) && (key == [] || key !in s.keys)
    requires AtRest(s.slots[id]) && s.slots[id].mode.Idle?
    ensures var t := Run(Next(s, BeginAt(id, key)), Work(id));
      var token := Encode(id, NextGeneration(s.slots[id].generation));
      && Leasing(t, id, token) && Told(t, id, s.slots[id].tickets, Begin, token)
      && t.slots[id].tickets == s.slots[id].tickets + 1 && (key != [] ==> key in t.keys && t.keys[key] == token)
  {
    hide RegistryOk, Encode, NextGeneration, Worked;
    var slot := s.slots[id];
    var token := Encode(id, NextGeneration(slot.generation));
    NewHandleFree(s, id, NextGeneration(slot.generation));
    var begun := Next(s, BeginAt(id, key));
    var job := NewJob(slot, Begin, token);
    assert slot.queue + [job] == [job];
    assert begun.slots[id] == Leased(slot).(queue := [job], tickets := slot.tickets + 1);
    WorkedIs(begun.slots[id], job);
    WorkIs(begun, id);
  }

  lemma EndsWell(s: State, id: SlotId, token: nat, op: Op)
    requires RegistryOk(s) && Leasing(s, id, token) && (op.Commit? || op.Rollback?) && Addressable(id) && token != 0
    ensures var t := Run(Next(s, End(token, op)), Work(id));
      && id in t.slots && AtRest(t.slots[id]) && t.slots[id].mode.Idle? && t.slots[id].active == 0
      && token !in t.entries && Told(t, id, s.slots[id].tickets, op, token)
  {
    hide Encode, Decode, Worked, RegistryOk;
    RegisteredRoutes(s, token);
    ReleaseKeeps(s, token);
    var slot := s.slots[id];
    var job := NewJob(slot, op, token);
    assert slot.queue + [job] == [job];
    var ended := Next(s, End(token, op));
    assert ended == s.(slots := s.slots[id := slot.(mode := Closing, queue := [job], tickets := slot.tickets + 1)]) by {
      assert s.slots[id := slot.(mode := Closing)][id :=
        slot.(mode := Closing, queue := [job], tickets := slot.tickets + 1)]
        == s.slots[id := slot.(mode := Closing, queue := [job], tickets := slot.tickets + 1)];
    }
    WorkedIs(ended.slots[id], job);
    WorkIs(ended, id);
  }

  /**
   A transaction left alone: from any reachable state, BEGIN on an idle slot leases it under a handle that
   is told, registered and open at the driver; ending it is told, closes it and gives the slot back.
   */
  lemma TransactionRuns(ids: set<SlotId>, events: seq<Event>, id: SlotId, key: Bytes, op: Op)
    requires var s := Run(Start(ids), events);
      && id in s.slots && Addressable(id) && (key == [] || key !in s.keys) && (op.Commit? || op.Rollback?)
      && AtRest(s.slots[id]) && s.slots[id].mode.Idle?
    ensures var s := Run(Start(ids), events); var token := Encode(id, NextGeneration(s.slots[id].generation));
      var open := events + [BeginAt(id, key)] + Work(id); var t := Run(Start(ids), open);
      var u := Run(Start(ids), open + [End(token, op)] + Work(id)); var client := s.slots[id].tickets;
      && Leasing(t, id, token) && Told(t, id, client, Begin, token) && OpenIn(t.slots[id].history) == Some(token)
      && id in u.slots && AtRest(u.slots[id]) && u.slots[id].mode.Idle? && token !in u.entries
      && Told(u, id, client + 1, op, token) && OpenIn(u.slots[id].history) == None
  {
    hide Run, Next, Encode, NextGeneration, OpenIn, RegistryOk, Leasing, Told, Work;
    var s := Run(Start(ids), events);
    var token := Encode(id, NextGeneration(s.slots[id].generation));
    var open := events + [BeginAt(id, key)] + Work(id);
    RunOk(ids, events);
    Begins(s, id, key);
    Extends(Start(ids), events, BeginAt(id, key), Work(id));
    RunOk(ids, open);
    HandlePositive(s, id);
    LeasingIs(Run(Start(ids), open), id, token);
    EndsWell(Run(Start(ids), open), id, token, op);
    Extends(Start(ids), open, End(token, op), Work(id));
    OpenIs(ids, open, id);
    OpenIs(ids, open + [End(token, op)] + Work(id), id);
  }

  lemma Extends(s: State, events: seq<Event>, e: Event, more: seq<Event>)
    ensures Run(s, events + [e] + more) == Run(Next(Run(s, events), e), more)
  {
    hide Next;
    RunOn(s, events + [e], more);
    assert (events + [e])[..|events|] == events;
  }

  lemma LeasingIs(s: State, id: SlotId, token: nat)
    requires Leasing(s, id, token)
    ensures id in s.slots && s.slots[id].active == token
  {
  }

  lemma HandlePositive(s: State, id: SlotId)
    requires id in s.slots
    ensures Encode(id, NextGeneration(s.slots[id].generation)) != 0
  {
    EncodePositive(id, NextGeneration(s.slots[id].generation));
  }

  lemma OpenIs(ids: set<SlotId>, events: seq<Event>, id: SlotId)
    requires id in Run(Start(ids), events).slots
    ensures var slot := Run(Start(ids), events).slots[id];
      OpenIn(slot.history) == if slot.active == 0 then None else Some(slot.active)
  {
    hide Run, OpenIn, Isolated, SessionUp, JobsOk, LeaseOk, AgesOk, GenerationAfter, TicketsOk, RegistryOk;
    RunOk(ids, events);
    assert SlotOk(id, Run(Start(ids), events).slots[id]);
  }
}
