/** The lease slot, the pool with its registry and the worker's job loop as the source updates them. */
module LeaseObjects {
  import opened ByteStrings
  import opened Results
  import opened Leases
  import R = LeaseRuns
  import T = LeaseTheorems

  /** `TransactionSlot`: the mode and the 32-bit generation. `acquired` counts the leases. */
  class TransactionSlot {
    var mode: Mode
    var generation: nat
    ghost var acquired: nat

    ghost predicate Valid()
      reads this
    {
      generation == R.GenerationAfter(acquired)
    }

    constructor ()
      ensures Valid() && mode == Idle && acquired == 0
    {
      mode, generation, acquired := Idle, 0, 0;
    }

    /** The generations of a slot's leases are those of the counter that wraps at 32 bits and skips zero. */
    method TryAcquire() returns (granted: nat)
      requires Valid()
      modifies this
      ensures Valid()
      ensures old(mode).Idle? ==> mode == Active && acquired == old(acquired) + 1 && granted == generation > 0
      ensures !old(mode).Idle? ==> granted == 0 && mode == old(mode) && acquired == old(acquired)
    {
      if !mode.Idle? {
        return 0;
      }
      mode := Active;
      R.GenerationPositive(acquired + 1);
      generation := (generation + 1) % GENERATIONS;
      if generation == 0 {
        generation := (generation + 1) % GENERATIONS;
      }
      acquired := acquired + 1;
      return generation;
    }
  }

  predicate Leased(s: State, id: SlotId, mode: Mode) { id in s.slots && s.slots[id].mode == mode }

  /** `ConnectionPool` with its `TransactionRegistry`: the leases of the slots and the table of their handles. */
  class Pool {
    var state: State

    constructor (ids: set<SlotId>)
      ensures state == Start(ids) && T.RegistryOk(state)
    {
      state := Start(ids);
    }

    /**
     Leases the chosen slot: the handle is new, names the slot, and is registered exactly when it is
     given out. A failure registers nothing, and either way the table stays exact.
     */
    method AcquireTransaction(id: SlotId, key: Bytes) returns (token: nat)
      requires T.RegistryOk(state)
      modifies this
      ensures T.RegistryOk(state)
      ensures token == 0 ==> state.entries == old(state).entries && state.keys == old(state).keys
      ensures token != 0 ==>
        && token !in old(state).entries
          && state.entries == old(state).entries[token := Entry(id, Decode(token).generation, key)]
        && Decode(token).slot == id && id in old(state).slots && old(state).slots[id].mode.Idle? && id in state.slots
      ensures token != 0 && key != [] ==> key !in old(state).keys && key in state.keys && state.keys[key] == token
      ensures forall x | x in old(state).slots && x != id :: x in state.slots && state.slots[x] == old(state).slots[x]
      ensures DispatchBegin(old(state), id, key) == if token != 0 then Enqueue(state, id, Begin, token) else state
    {
      hide T.RegistryOk, Enqueue, NextGeneration, Encode, Decode;
      if (key != [] && key in state.keys) || id !in state.slots || id.pool >= INDEXES {
        return 0;
      }
      var slot := state.slots[id];
      if !slot.running || !slot.mode.Idle? {
        return 0;
      }
      var generation := NextGeneration(slot.generation);
      var leased := slot.(generation := generation, acquired := slot.acquired + 1);
      if id.index >= INDEXES {
        T.RegistrySkips(state, id, leased);
        state := state.(slots := state.slots[id := leased]);
        return 0;
      }
      token := Encode(id, generation);
      NextPositive(slot.generation);
      R.DecodeEncode(id, generation);
      R.EncodePositive(id, generation);
      if token in state.entries {
        T.NewHandleFree(state, id, generation);
        assert false;
      }
      ghost var before := state;
      state := State(state.slots[id := leased.(mode := Active)], state.entries[token := Entry(id, generation, key)],
        state.keys);
      if key != [] {
        state := state.(keys := state.keys[key := token]);
      }
      T.LeaseRegistered(before, id, leased.(mode := Active), key, state);
    }

    /**
     A handle is routed exactly when it is registered and its lease is not closing; closing it keeps the table exact.
     */
    method RouteTransaction(token: nat, closing: bool) returns (route: Option<SlotId>)
      requires T.RegistryOk(state)
      modifies this
      ensures T.RegistryOk(state) && state.entries == old(state).entries && state.keys == old(state).keys
      ensures route.Some? <==> token in old(state).entries && Leased(old(state), old(state).entries[token].slot, Active)
      ensures route.Some? ==> route.value == old(state).entries[token].slot && route.value in old(state).slots
      ensures state == if route.Some? && closing
                       then On(old(state), route.value, old(state).slots[route.value].(mode := Closing)) else old(state)
    {
      hide T.RegistryOk, Decode, Encode;
      T.RegisteredRoutes(state, token);
      var parts := Decode(token);
      if parts.slot !in state.slots || state.slots[parts.slot].generation != parts.generation
        || !state.slots[parts.slot].mode.Active? {
        return None;
      }
      if closing {
        T.RegistryMoves(state, parts.slot, state.slots[parts.slot].(mode := Closing));
        state := On(state, parts.slot, state.slots[parts.slot].(mode := Closing));
      }
      return Some(parts.slot);
    }

    /**
     A release takes the handle and its key out, frees the slot it leased and no other, and does nothing the second
     time.
     */
    method ReleaseTransaction(token: nat) returns (released: bool)
      requires T.RegistryOk(state)
      modifies this
      ensures T.RegistryOk(state) && released == (token in old(state).entries) && token !in state.entries
      ensures !released ==> state == old(state)
      ensures released ==>
        var e := old(state).entries[token];
        && e.slot in old(state).slots && state.slots
          == old(state).slots[e.slot := old(state).slots[e.slot].(mode := Idle)]
        && (forall x | x in old(state).entries && x != token ::
          x in state.entries && state.entries[x] == old(state).entries[x])
        && (e.key != [] ==> e.key !in state.keys)
    {
      hide T.RegistryOk, Encode;
      if token !in state.entries {
        return false;
      }
      T.ReleaseKeeps(state, token);
      var e := state.entries[token];
      released := e.slot in state.slots && state.slots[e.slot].generation == e.generation;
      if released {
        state := state.(slots := state.slots[e.slot := state.slots[e.slot].(mode := Idle)]);
      }
      if e.key != [] {
        state := state.(keys := state.keys - {e.key});
      }
      state := state.(entries := state.entries - {token});
    }
  }

  lemma NextPositive(g: nat)
    ensures NextGeneration(g) > 0
  {
  }

  // ---- Reconnecting -------------------------------------------------------------------------------

  /** What each attempt meets: a stop before it, the driver's answer, a stop during the pause after it. */
  datatype Attempt = Attempt(stopped: bool, answer: Outcome, interrupted: bool)

  /** The outcome of `reconnect` over the attempts it is allowed. */
  function Reconnecting(attempts: seq<Attempt>): Outcome {
    if attempts == [] || attempts[0].stopped then STOPPED
    else if attempts[0].answer.ok || !IsConnectionError(attempts[0].answer.code) then attempts[0].answer
    else if |attempts| == 1 || attempts[0].interrupted then STOPPED
    else Reconnecting(attempts[1..])
  }

  /** Success means that some allowed attempt connected and every earlier one failed for want of a connection. */
  lemma {:induction false} ReconnectingSucceeds(attempts: seq<Attempt>) returns (n: nat)
    requires Reconnecting(attempts).ok
    ensures n < |attempts| && attempts[n].answer.ok && !attempts[n].stopped
    ensures forall i | 0 <= i < n :: Lost(attempts[i].answer) && !attempts[i].stopped && !attempts[i].interrupted
  {
    if attempts[0].answer.ok {
      n := 0;
    } else {
      var m := ReconnectingSucceeds(attempts[1..]);
      n := m + 1;
      forall i | 0 <= i < n ensures Lost(attempts[i].answer) && !attempts[i].stopped && !attempts[i].interrupted {
        if i > 0 { assert attempts[i] == attempts[1..][i - 1]; }
      }
    }
  }

  /** A failure is reported as unavailable, or is the driver's own refusal, never as a lost connection. */
  lemma {:induction false} ReconnectingFails(attempts: seq<Attempt>)
    requires !Reconnecting(attempts).ok
    ensures var code := Reconnecting(attempts).code; code.ConnectionUnavailable? || !IsConnectionError(code)
  {
    if |attempts| > 1 && !Reconnecting(attempts[1..]).ok { ReconnectingFails(attempts[1..]); }
  }

  // ---- The worker -----------------------------------------------------------------------------------

  /** The outcome of a job and the worker's variables after it. */
  datatype Processed = Processed(outcome: Outcome, connected: bool, active: nat, history: seq<Native>)

  /** The job once a session is up. */
  function Running(job: Job, answer: Outcome, active: nat, history: seq<Native>): Processed {
    var ran := history + [Ran(job, answer)];
    var outcome := Reported(job, answer);
    if Lost(answer) || (job.op.Rollback? && !answer.ok) then Processed(outcome, false, 0, ran + [Closed])
    else if answer.ok && job.op.Begin? then Processed(outcome, true, job.token, ran)
    else if answer.ok && (job.op.Commit? || job.op.Rollback?) then Processed(outcome, true, 0, ran)
    else Processed(outcome, true, active, ran)
  }

  function Processing(job: Job, stopped: bool, up: Outcome, answer: Outcome, connected: bool, active: nat,
      history: seq<Native>): Processed
  {
    if stopped then Processed(STOPPED, connected, active, history)
    else if job.token != 0 && !job.op.Begin? && job.token != active
      then Processed(Outcome(false, TransactionLost), connected, active, history)
    else if connected then Running(job, answer, active, history)
    else if up.ok then Running(job, answer, active, history + [Connected])
    else Processed(up, connected, active, history)
  }

  /**
   `process` is the machine's take, connect and execute stages in one go, for every slot at rest with this job in
   front.
   */
  lemma ProcessIsStages(slot: Slot, job: Job, up: Outcome, answer: Outcome)
    requires slot.queue != [] && slot.queue[0] == job && slot.stage == Resting
    ensures var end := Execute(Connect(Take(slot), up), answer);
      end.stage.Completing? && end.stage.job == job
      && Processed(end.stage.outcome, end.connected, end.active, end.history)
         == Processing(job, !slot.running, up, answer, slot.connected, slot.active, slot.history)
  {
    hide Reported, Lost;
  }

  class Worker {
    var connected: bool
    var active: nat
    ghost var history: seq<Native>

    constructor ()
      ensures !connected && active == 0 && history == []
    {
      connected, active, history := false, 0, [];
    }

    method Reconnect(attempts: seq<Attempt>) returns (outcome: Outcome)
      requires !connected
      modifies this
      ensures outcome == Reconnecting(attempts) && active == old(active)
      ensures connected == outcome.ok && history == if outcome.ok then old(history) + [Connected] else old(history)
    {
      outcome := STOPPED;
      var i := 0;
      assert attempts[0..] == attempts;
      while i < |attempts|
        invariant 0 <= i <= |attempts| && !connected && active == old(active) && history == old(history)
        invariant outcome == STOPPED && Reconnecting(attempts) == Reconnecting(attempts[i..])
      {
        assert attempts[i..][1..] == attempts[i + 1..];
        if attempts[i].stopped {
          return STOPPED;
        }
        outcome := attempts[i].answer;
        if outcome.ok {
          connected := true;
          history := history + [Connected];
          return;
        }
        if !IsConnectionError(outcome.code) {
          return;
        }
        outcome := STOPPED;
        if i + 1 < |attempts| && attempts[i].interrupted {
          return;
        }
        i := i + 1;
      }
    }

    /** One job from the queue to its outcome. */
    method Process(job: Job, stopped: bool, attempts: seq<Attempt>, answer: Outcome) returns (outcome: Outcome)
      modifies this
      ensures Processed(outcome, connected, active, history)
           == Processing(job, stopped, Reconnecting(attempts), answer, old(connected), old(active), old(history))
    {
      if stopped {
        return STOPPED;
      }
      if job.token != 0 && !job.op.Begin? && job.token != active {
        return Outcome(false, TransactionLost);
      }
      if !connected {
        var up := Reconnect(attempts);
        if !up.ok {
          return up;
        }
      }
      history := history + [Ran(job, answer)];
      outcome := if !answer.ok && answer.code.NoError? then Outcome(false, SqlError) else answer;
      var lost := !outcome.ok && IsConnectionError(outcome.code);
      if lost || (job.op.Rollback? && !outcome.ok) {
        history := history + [Closed];
        connected := false;
        active := 0;
        if lost && (job.op.Commit? || (job.token == 0 && job.op.Exec?)) {
          outcome := Outcome(false, OutcomeUnknown);
        }
      } else if outcome.ok {
        if job.op.Begin? {
          active := job.token;
        } else if job.op.Commit? || job.op.Rollback? {
          active := 0;
        }
      }
    }
  }
}
