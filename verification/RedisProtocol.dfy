/**
 The save protocol as a state machine: any number of save calls, each reading a snapshot,
 preparing a commit and sending it to Redis, interleaved in any order. HMGET and EVAL are
 atomic. A command that was sent may execute at once, much later, or never, and its reply
 may be lost at will.
 */
module RedisProtocol {
  import opened ByteStrings
  import opened Results
  import opened Entities
  import opened Codec
  import opened Records
  import opened Engine
  import opened Serial

  datatype Phase =
    | Trying(attempt: nat)
    | Ready(attempt: nat, snapshot: Snapshot)
    | Waiting(attempt: nat, snapshot: Snapshot)
    | Finished(result: SaveResult)

  /** One execution of `save`. `sent` counts its EVAL commands, `answered` the replies it got. */
  datatype Call = Call(store: StoreSchema, request: SaveRequest, attempts: nat, phase: Phase, sent: nat, answered: nat)

  /** A commit that took effect. */
  datatype Entry = Entry(call: nat, store: StoreSchema, request: SaveRequest, entities: seq<CommittedEntity>)

  /** `wire` holds sent commands not yet executed, by the snapshot they were prepared from. */
  datatype State = State(hash: Hash, calls: map<nat, Call>, wire: map<nat, Snapshot>, replies: map<nat, Reply>,
    log: seq<Entry>)

  datatype Event =
    | Begin(call: nat, store: StoreSchema, request: SaveRequest, attempts: nat)
    | Interrupt(call: nat, again: bool)
    | Snap(call: nat, again: bool)
    | Send(call: nat)
    | Execute(call: nat)
    | Refuse(call: nat)
    | Drop(call: nat)
    | Forget(call: nat)
    | Receive(call: nat, again: bool)

  function Start(hash: Hash): State { State(hash, map[], map[], map[], []) }

  function Failure(request: SaveRequest, code: ErrorCode): SaveResult {
    SaveResult(code, request.requestId, false, [])
  }

  /** Another attempt if the budget and `pause` allow it, else the given answer. */
  function Retry(call: Call, attempt: nat, again: bool, code: ErrorCode): Phase {
    if attempt < call.attempts && again then Trying(attempt + 1) else Finished(Failure(call.request, code))
  }

  /** The catch clause inside the retry loop: only `unavailable` is tried again. */
  function Catch(call: Call, attempt: nat, again: bool, code: ErrorCode): Phase {
    if code.Unavailable? then Retry(call, attempt, again, code) else Finished(Failure(call.request, code))
  }

  function PlanOf(lib: Library, call: Call, snapshot: Snapshot): Result<Plan> {
    var admission :- Admit(lib, call.store, call.request);
    Prepare(lib, call.store, call.request, admission, snapshot)
  }

  function AnswerFrom(lib: Library, call: Call, attempt: nat, again: bool, record: Bytes): Phase {
    match Signature(lib, call.request)
    case Err(code) => Finished(Failure(call.request, code))
    case Ok(signature) =>
      match Replay(call.request, signature, record)
      case Ok(result) => Finished(result)
      case Err(code) => Catch(call, attempt, again, code)
  }

  /** HMGET of the record and the objects, then everything `save` computes from it. */
  function SnapPhase(lib: Library, hash: Hash, call: Call, attempt: nat, again: bool): Phase {
    match Admit(lib, call.store, call.request)
    case Err(code) => Finished(Failure(call.request, code))
    case Ok(admission) =>
      if admission.ledger in hash then AnswerFrom(lib, call, attempt, again, hash[admission.ledger])
      else match PlanOf(lib, call, Read(hash, admission.fields))
        case Err(code) => Catch(call, attempt, again, code)
        case Ok(_) => Ready(attempt, Read(hash, admission.fields))
  }

  function ReceivePhase(lib: Library, call: Call, attempt: nat, snapshot: Snapshot, again: bool, reply: Reply): Phase {
    match reply
    case Done =>
      (match PlanOf(lib, call, snapshot)
       case Ok(plan) => Finished(SaveResult(Success, call.request.requestId, true, plan.entities))
       case Err(code) => Finished(Failure(call.request, code)))
    case Stale => Retry(call, attempt, again, Conflict)
    case Previous(record) => AnswerFrom(lib, call, attempt, again, record)
    case Refused => Catch(call, attempt, again, Unavailable)
  }

  function SetPhase(s: State, c: nat, phase: Phase): State
    requires c in s.calls
  {
    s.(calls := s.calls[c := s.calls[c].(phase := phase)])
  }

  /** One event. An event that does not fit the state does nothing. */
  function Next(lib: Library, s: State, e: Event): State {
    match e
    case Begin(c, store, request, attempts) =>
      if c in s.calls then s
      else
        var phase := if Admit(lib, store, request).Ok? then Trying(1) else Finished(Failure(request, InvalidRequest));
        s.(calls := s.calls[c := Call(store, request, attempts, phase, 0, 0)])
    case Interrupt(c, again) =>
      // Deadline, stop request, connection failure or lost reply before the write was sent.
      if c in s.calls && (s.calls[c].phase.Trying? || s.calls[c].phase.Ready?)
      then SetPhase(s, c, Catch(s.calls[c], s.calls[c].phase.attempt, again, Unavailable)) else s
    case Snap(c, again) =>
      if c in s.calls && s.calls[c].phase.Trying?
      then SetPhase(s, c, SnapPhase(lib, s.hash, s.calls[c], s.calls[c].phase.attempt, again)) else s
    case Send(c) =>
      if c in s.calls && s.calls[c].phase.Ready? then
        var call := s.calls[c];
        s.(calls := s.calls[c := call.(phase := Waiting(call.phase.attempt, call.phase.snapshot),
          sent := call.sent + 1)],
           wire := s.wire[c := call.phase.snapshot])
      else s
    case Execute(c) => if c in s.wire && c in s.calls then Executed(lib, s, c) else s
    case Refuse(c) =>
      // Redis answers with an error and has not run the script.
      if c in s.wire then s.(wire := s.wire - {c}, replies := s.replies[c := Refused]) else s
    case Drop(c) => s.(wire := s.wire - {c})
    case Forget(c) =>
      // The reply is missing: never sent again, reported as unknown.
      if c in s.calls && s.calls[c].phase.Waiting?
      then SetPhase(s, c, Finished(Failure(s.calls[c].request, CommitUnknown))) else s
    case Receive(c, again) =>
      if c in s.calls && s.calls[c].phase.Waiting? && c in s.replies then
        var call := s.calls[c];
        var phase := ReceivePhase(lib, call, call.phase.attempt, call.phase.snapshot, again, s.replies[c]);
        s.(calls := s.calls[c := call.(phase := phase, answered := call.answered + 1)], replies := s.replies - {c})
      else s
  }

  function Executed(lib: Library, s: State, c: nat): State
    requires c in s.wire && c in s.calls
  {
    match PlanOf(lib, s.calls[c], s.wire[c])
    case Err(_) => s
    case Ok(plan) =>
      var reply := ScriptReply(s.hash, plan.command);
      var log := if reply.Done? then s.log + [Entry(c, s.calls[c].store, s.calls[c].request, plan.entities)] else s.log;
      State(ScriptHash(s.hash, plan.command), s.calls, s.wire - {c}, s.replies[c := reply], log)
  }

  function Run(lib: Library, s: State, events: seq<Event>): State {
    if events == [] then s else Next(lib, Run(lib, s, events[..|events| - 1]), events[|events| - 1])
  }

  // ---- The invariant ------------------------------------------------------------------

  /** The hash after serving the logged requests one at a time, if each is served as logged. */
  function SerialRun(lib: Library, hash: Hash, log: seq<Entry>): Result<Hash> {
    if log == [] then Ok(hash)
    else
      var e := log[|log| - 1];
      var before :- SerialRun(lib, hash, log[..|log| - 1]);
      var served :- Serve(lib, e.store, e.request, before);
      if served.entities == e.entities then Ok(served.hash) else Err(InternalError)
  }

  predicate Committed(log: seq<Entry>, c: nat) {
    exists i | 0 <= i < |log| :: log[i].call == c
  }

  predicate Prepared(lib: Library, call: Call, snapshot: Snapshot) {
    && Admit(lib, call.store, call.request).Ok?
    && snapshot.Keys == FieldSet(Admit(lib, call.store, call.request).value.fields)
    && PlanOf(lib, call, snapshot).Ok?
  }

  /** An ok answer says what the record of the request id says. */
  predicate Truthful(lib: Library, hash: Hash, call: Call, result: SaveResult) {
    && Signature(lib, call.request).Ok?
    && LedgerField(call.request.requestId) in hash
    && Replay(call.request, Signature(lib, call.request).value, hash[LedgerField(call.request.requestId)]) == Ok(result)
  }

  predicate WaitingOk(lib: Library, hash: Hash, call: Call, snapshot: Snapshot, wire: Option<Snapshot>,
      reply: Option<Reply>, committed: bool)
  {
    && Prepared(lib, call, snapshot) && call.sent == call.answered + 1
    && (wire.Some? ==> wire.value == snapshot && reply.None?)
    && (committed <==> reply == Some(Done))
    && (reply == Some(Done) ==> Recorded(lib, hash, call.request, PlanOf(lib, call, snapshot).value.entities))
    && (reply.Some? && reply.value.Previous? ==>
          LedgerField(call.request.requestId) in hash
            && hash[LedgerField(call.request.requestId)] == reply.value.record)
  }

  /**
   The answer is truthful if it is ok; if it is neither ok nor unknown, nothing of this call was or will be written.
   */
  predicate FinishedOk(lib: Library, hash: Hash, call: Call, result: SaveResult, wire: Option<Snapshot>,
      committed: bool)
  {
    && (result.code.Success? ==> Truthful(lib, hash, call, result))
    && (committed ==> result.code.Success? || result.code.CommitUnknown?)
    && (wire.Some? || call.sent != call.answered ==> result.code.CommitUnknown?)
    && call.answered <= call.sent <= call.answered + 1
  }

  predicate CallOk(lib: Library, hash: Hash, call: Call, wire: Option<Snapshot>, reply: Option<Reply>, committed: bool)
  {
    && (wire.Some? ==> Prepared(lib, call, wire.value) && !committed)
    && match call.phase
       case Trying(_) => Idle(lib, call, wire, reply, committed)
       case Ready(_, snapshot) => Idle(lib, call, wire, reply, committed) && Prepared(lib, call, snapshot)
       case Waiting(_, snapshot) => WaitingOk(lib, hash, call, snapshot, wire, reply, committed)
       case Finished(result) => FinishedOk(lib, hash, call, result, wire, committed)
  }

  predicate Idle(lib: Library, call: Call, wire: Option<Snapshot>, reply: Option<Reply>, committed: bool) {
    wire.None? && reply.None? && !committed && call.sent == call.answered && Admit(lib, call.store, call.request).Ok?
  }

  function At<T>(m: map<nat, T>, c: nat): Option<T> { if c in m then Some(m[c]) else None }

  predicate EntryOk(lib: Library, s: State, e: Entry) {
    && e.call in s.calls && s.calls[e.call].store == e.store && s.calls[e.call].request == e.request
    && |e.request.requestId| <= 255
    && Recorded(lib, s.hash, e.request, e.entities)
  }

  predicate Inv(lib: Library, initial: Hash, s: State) {
    && SerialRun(lib, initial, s.log) == Ok(s.hash)
    && s.wire.Keys <= s.calls.Keys && s.replies.Keys <= s.calls.Keys
    && (forall c | c in s.calls ::
      CallOk(lib, s.hash, s.calls[c], At(s.wire, c), At(s.replies, c), Committed(s.log, c)))
    && (forall i | 0 <= i < |s.log| :: EntryOk(lib, s, s.log[i]))
    && (forall i, j | 0 <= i < j < |s.log| ::
      s.log[i].request.requestId != s.log[j].request.requestId && s.log[i].call != s.log[j].call)
  }

  // ---- One event keeps the invariant --------------------------------------------------------

  predicate SameElsewhere(s: State, s': State, c: nat) {
    && s'.hash == s.hash && s'.log == s.log
    && c in s'.calls && s'.calls.Keys == s.calls.Keys + {c}
    && (c in s.calls ==> s'.calls[c].store == s.calls[c].store && s'.calls[c].request == s.calls[c].request)
    && s'.wire.Keys <= s.wire.Keys + {c} && s'.replies.Keys <= s.replies.Keys + {c}
    && (forall d | d in s.calls && d != c ::
          s'.calls[d] == s.calls[d] && At(s'.wire, d) == At(s.wire, d) && At(s'.replies, d) == At(s.replies, d))
  }

  /** An event that touches one call only has to answer for that call. */
  lemma Local(lib: Library, initial: Hash, s: State, s': State, c: nat)
    requires Inv(lib, initial, s) && SameElsewhere(s, s', c)
    requires CallOk(lib, s.hash, s'.calls[c], At(s'.wire, c), At(s'.replies, c), Committed(s.log, c))
    ensures Inv(lib, initial, s')
  {
    hide CallOk, SerialRun, Recorded, Committed, At;
    forall i | 0 <= i < |s'.log| ensures EntryOk(lib, s', s'.log[i]) { assert EntryOk(lib, s, s.log[i]); }
  }

  lemma BeginOk(lib: Library, initial: Hash, s: State, c: nat, store: StoreSchema, request: SaveRequest, attempts: nat)
    requires Inv(lib, initial, s) && c !in s.calls
    ensures Inv(lib, initial, Next(lib, s, Begin(c, store, request, attempts)))
  {
    hide Admit, SerialRun, Recorded, Prepared, Truthful;
    var s' := Next(lib, s, Begin(c, store, request, attempts));
    assert !Committed(s.log, c) by {
      forall i | 0 <= i < |s.log| ensures s.log[i].call != c { assert EntryOk(lib, s, s.log[i]); }
    }
    Local(lib, initial, s, s', c);
  }

  function CallAt(s: State, c: nat): Call
    requires c in s.calls
  {
    s.calls[c]
  }

  lemma Focus(lib: Library, initial: Hash, s: State, c: nat)
    requires Inv(lib, initial, s) && c in s.calls
    ensures CallOk(lib, s.hash, CallAt(s, c), At(s.wire, c), At(s.replies, c), Committed(s.log, c))
    ensures var phase := CallAt(s, c).phase; phase.Trying? || phase.Ready? ==>
      Idle(lib, CallAt(s, c), None, None, false) && CallAt(s, c).sent == CallAt(s, c).answered
      && (phase.Ready? ==> Prepared(lib, CallAt(s, c), phase.snapshot)) && At(s.wire, c) == None
        && At(s.replies, c) == None && !Committed(s.log, c)
  {
    hide SerialRun, EntryOk, Admit, Prepared, WaitingOk, FinishedOk, Committed, At;
  }

  lemma TryingOk(lib: Library, hash: Hash, call: Call, attempt: nat)
    requires Idle(lib, call, None, None, false)
    ensures CallOk(lib, hash, call.(phase := Trying(attempt)), None, None, false)
  {
    hide Admit, Prepared, WaitingOk, FinishedOk;
  }

  lemma FailedOk(lib: Library, hash: Hash, call: Call, code: ErrorCode)
    requires call.sent == call.answered
    ensures CallOk(lib, hash, call.(phase := Finished(Failure(call.request, code))), None, None, false)
  {
    hide Admit, Prepared, WaitingOk, Truthful, Idle;
  }

  /** A retry or a failure before anything was sent leaves an idle call, or an honest answer. */
  lemma CatchOk(lib: Library, hash: Hash, call: Call, attempt: nat, again: bool, code: ErrorCode)
    requires Idle(lib, call, None, None, false)
    ensures CallOk(lib, hash, call.(phase := Catch(call, attempt, again, code)), None, None, false)
    ensures CallOk(lib, hash, call.(phase := Retry(call, attempt, again, code)), None, None, false)
  {
    hide Admit, CallOk;
    TryingOk(lib, hash, call, attempt + 1);
    FailedOk(lib, hash, call, code);
  }

  lemma PhaseStep(lib: Library, initial: Hash, s: State, c: nat, phase: Phase)
    requires Inv(lib, initial, s) && c in s.calls
    requires CallOk(lib, s.hash, CallAt(s, c).(phase := phase), At(s.wire, c), At(s.replies, c), Committed(s.log, c))
    ensures Inv(lib, initial, SetPhase(s, c, phase))
  {
    hide Inv, CallOk, Committed;
    Local(lib, initial, s, SetPhase(s, c, phase), c);
  }

  lemma InterruptOk(lib: Library, initial: Hash, s: State, c: nat, again: bool)
    requires Inv(lib, initial, s) && c in s.calls && (CallAt(s, c).phase.Trying? || CallAt(s, c).phase.Ready?)
    ensures Inv(lib, initial, SetPhase(s, c, Catch(CallAt(s, c), CallAt(s, c).phase.attempt, again, Unavailable)))
  {
    hide *;
    Focus(lib, initial, s, c);
    CatchOk(lib, s.hash, CallAt(s, c), CallAt(s, c).phase.attempt, again, Unavailable);
    PhaseStep(lib, initial, s, c, Catch(CallAt(s, c), CallAt(s, c).phase.attempt, again, Unavailable));
  }

  lemma ReplayCode(request: SaveRequest, signature: Bytes, record: Bytes)
    ensures var r := Replay(request, signature, record);
      if r.Ok? then r.value.code == Success else r.code == InternalError || r.code == Conflict
  {
  }

  lemma AnswerOk(lib: Library, hash: Hash, call: Call, attempt: nat, again: bool)
    requires Idle(lib, call, None, None, false) && LedgerField(call.request.requestId) in hash
    ensures CallOk(lib, hash, call.(phase :=
      AnswerFrom(lib, call, attempt, again, hash[LedgerField(call.request.requestId)])), None, None, false)
  {
    hide Replay, Prepared, Recorded, Catch, Signature, LedgerField, ObjectFields, ValidRequest;
    var record := hash[LedgerField(call.request.requestId)];
    var signature := Signature(lib, call.request).value;
    ReplayCode(call.request, signature, record);
    var r := Replay(call.request, signature, record);
    if r.Err? { CatchOk(lib, hash, call, attempt, again, r.code); }
  }

  lemma SnapOk(lib: Library, initial: Hash, s: State, c: nat, again: bool)
    requires Inv(lib, initial, s) && c in s.calls && CallAt(s, c).phase.Trying?
    ensures Inv(lib, initial, SetPhase(s, c, SnapPhase(lib, s.hash, CallAt(s, c), CallAt(s, c).phase.attempt, again)))
  {
    hide *;
    Focus(lib, initial, s, c);
    SnapPhaseOk(lib, s.hash, CallAt(s, c), CallAt(s, c).phase.attempt, again);
    PhaseStep(lib, initial, s, c, SnapPhase(lib, s.hash, CallAt(s, c), CallAt(s, c).phase.attempt, again));
  }

  lemma ReadyOk(lib: Library, hash: Hash, call: Call, attempt: nat, snapshot: Snapshot)
    requires Idle(lib, call, None, None, false) && Prepared(lib, call, snapshot)
    ensures CallOk(lib, hash, call.(phase := Ready(attempt, snapshot)), None, None, false)
  {
    hide Admit, Prepared, WaitingOk, FinishedOk;
    SamePlan(lib, call, call.(phase := Ready(attempt, snapshot)), snapshot);
  }

  lemma SnapPhaseOk(lib: Library, hash: Hash, call: Call, attempt: nat, again: bool)
    requires Idle(lib, call, None, None, false)
    ensures CallOk(lib, hash, call.(phase := SnapPhase(lib, hash, call, attempt, again)), None, None, false)
  {
    hide Admit, Catch, AnswerFrom, PlanOf, CallOk, Failure;
    var admission := Admit(lib, call.store, call.request).value;
    if admission.ledger in hash {
      AnswerOk(lib, hash, call, attempt, again);
    } else {
      var snapshot := Read(hash, admission.fields);
      if PlanOf(lib, call, snapshot).Err? {
        CatchOk(lib, hash, call, attempt, again, PlanOf(lib, call, snapshot).code);
      } else {
        ReadyOk(lib, hash, call, attempt, snapshot);
      }
    }
  }

  /** The plan of a call does not depend on how far the call has come. */
  lemma SamePlan(lib: Library, call: Call, call': Call, snapshot: Snapshot)
    requires call'.store == call.store && call'.request == call.request
    ensures PlanOf(lib, call', snapshot) == PlanOf(lib, call, snapshot)
    ensures Prepared(lib, call', snapshot) == Prepared(lib, call, snapshot)
  {
    hide Admit, Prepare;
  }

  function Sent(call: Call, snapshot: Snapshot): Call
    requires call.phase.Ready?
  {
    call.(phase := Waiting(call.phase.attempt, snapshot), sent := call.sent + 1)
  }

  lemma SentOk(lib: Library, hash: Hash, call: Call)
    requires call.phase.Ready? && Prepared(lib, call, call.phase.snapshot) && call.sent == call.answered
    ensures CallOk(lib, hash, Sent(call, call.phase.snapshot), Some(call.phase.snapshot), None, false)
  {
    hide Prepared, FinishedOk, Idle, Recorded, PlanOf, LedgerField;
    SamePlan(lib, call, Sent(call, call.phase.snapshot), call.phase.snapshot);
  }

  lemma SendOk(lib: Library, initial: Hash, s: State, c: nat)
    requires Inv(lib, initial, s) && c in s.calls && CallAt(s, c).phase.Ready?
    ensures var snapshot := CallAt(s, c).phase.snapshot;
      Inv(lib, initial, s.(calls := s.calls[c := Sent(CallAt(s, c), snapshot)], wire := s.wire[c := snapshot]))
  {
    hide Inv, CallOk, Committed, Idle, Prepared;
    Focus(lib, initial, s, c);
    var call := CallAt(s, c);
    SentOk(lib, s.hash, call);
    var s' := s.(calls := s.calls[c := Sent(call, call.phase.snapshot)], wire := s.wire[c := call.phase.snapshot]);
    Local(lib, initial, s, s', c);
  }

  lemma ForgottenOk(lib: Library, hash: Hash, call: Call, wire: Option<Snapshot>, reply: Option<Reply>, committed: bool)
    requires call.phase.Waiting? && CallOk(lib, hash, call, wire, reply, committed)
    ensures CallOk(lib, hash, call.(phase := Finished(Failure(call.request, CommitUnknown))), wire, reply, committed)
  {
    hide Admit, Prepared, Truthful, Recorded, PlanOf, LedgerField;
    if wire.Some? { SamePlan(lib, call, call.(phase := Finished(Failure(call.request, CommitUnknown))), wire.value); }
  }

  lemma ForgetOk(lib: Library, initial: Hash, s: State, c: nat)
    requires Inv(lib, initial, s) && c in s.calls && CallAt(s, c).phase.Waiting?
    ensures Inv(lib, initial, SetPhase(s, c, Finished(Failure(CallAt(s, c).request, CommitUnknown))))
  {
    hide *;
    Focus(lib, initial, s, c);
    ForgottenOk(lib, s.hash, CallAt(s, c), At(s.wire, c), At(s.replies, c), Committed(s.log, c));
    PhaseStep(lib, initial, s, c, Finished(Failure(CallAt(s, c).request, CommitUnknown)));
  }

  /** A command leaves the wire without having written anything. */
  lemma OffWireOk(lib: Library, hash: Hash, call: Call, wire: Option<Snapshot>, reply: Option<Reply>, committed: bool,
      answer: Reply)
    requires CallOk(lib, hash, call, wire, reply, committed)
    ensures CallOk(lib, hash, call, None, reply, committed)
    ensures wire.Some? && !answer.Done?
         && (answer.Previous? ==>
           LedgerField(call.request.requestId) in hash && hash[LedgerField(call.request.requestId)] == answer.record)
         ==> CallOk(lib, hash, call, None, Some(answer), committed)
  {
    hide Prepared, Admit, Truthful, Recorded;
  }

  lemma OffWire(lib: Library, initial: Hash, s: State, c: nat, answer: Reply)
    requires Inv(lib, initial, s) && c in s.wire && c in s.calls && !answer.Done?
    requires answer.Previous? ==>
      LedgerField(CallAt(s, c).request.requestId) in s.hash
      && s.hash[LedgerField(CallAt(s, c).request.requestId)] == answer.record
    ensures Inv(lib, initial, s.(wire := s.wire - {c}, replies := s.replies[c := answer]))
    ensures Inv(lib, initial, s.(wire := s.wire - {c}))
  {
    hide Inv, CallOk, Committed, Idle, Admit, LedgerField;
    Focus(lib, initial, s, c);
    OffWireOk(lib, s.hash, CallAt(s, c), At(s.wire, c), At(s.replies, c), Committed(s.log, c), answer);
    Local(lib, initial, s, s.(wire := s.wire - {c}, replies := s.replies[c := answer]), c);
    Local(lib, initial, s, s.(wire := s.wire - {c}), c);
  }

  // ---- Replies --------------------------------------------------------------------------

  /** A call whose outstanding command was answered. */
  function Answered(call: Call, phase: Phase): Call { call.(phase := phase, answered := call.answered + 1) }

  lemma DoneOk(lib: Library, hash: Hash, call: Call, result: SaveResult)
    requires call.sent == call.answered + 1 && result.code.Success? && Truthful(lib, hash, call, result)
    ensures CallOk(lib, hash, Answered(call, Finished(result)), None, None, true)
  {
    hide Admit, Prepare, Signature, Replay, WaitingOk, LedgerField;
  }

  lemma RecordedTruthful(lib: Library, hash: Hash, call: Call, entities: seq<CommittedEntity>)
    requires Recorded(lib, hash, call.request, entities)
    ensures Truthful(lib, hash, call, SaveResult(Success, call.request.requestId, true, entities))
  {
    hide Signature, Replay, Ledger, LedgerField, Reports;
    var signature := Signature(lib, call.request).value;
    ReplayLedger(call.request, signature, signature, entities);
  }

  lemma ReceiveIdle(lib: Library, hash: Hash, call: Call, snapshot: Snapshot, reply: Reply, committed: bool)
    requires call.phase.Waiting? && WaitingOk(lib, hash, call, snapshot, None, Some(reply), committed)
    ensures !reply.Done? ==> !committed && Idle(lib, Answered(call, call.phase), None, None, false)
    ensures reply.Done? ==> committed && PlanOf(lib, call, snapshot).Ok?
    ensures reply.Done? ==> Recorded(lib, hash, call.request, PlanOf(lib, call, snapshot).value.entities)
  {
    hide Admit, Prepare, Recorded;
  }

  lemma ReceivedOk(lib: Library, hash: Hash, call: Call, again: bool, reply: Reply, committed: bool)
    requires call.phase.Waiting? && CallOk(lib, hash, call, None, Some(reply), committed)
    ensures CallOk(lib, hash, Answered(call,
      ReceivePhase(lib, call, call.phase.attempt, call.phase.snapshot, again, reply)), None, None, committed)
  {
    hide PlanOf, Recorded, Truthful, AnswerFrom, Catch, Retry, Idle, Prepared, LedgerField;
    var attempt, snapshot := call.phase.attempt, call.phase.snapshot;
    ReceiveIdle(lib, hash, call, snapshot, reply, committed);
    hide CallOk;
    var idle := Answered(call, call.phase);
    match reply
    case Done =>
      var entities := PlanOf(lib, call, snapshot).value.entities;
      RecordedTruthful(lib, hash, call, entities);
      DoneOk(lib, hash, call, SaveResult(Success, call.request.requestId, true, entities));
    case Stale =>
      CatchOk(lib, hash, idle, attempt, again, Conflict);
      SameAnswers(lib, call, idle, attempt, again, Conflict, []);
    case Previous(record) =>
      AnswerOk(lib, hash, idle, attempt, again);
      SameAnswers(lib, call, idle, attempt, again, Conflict, record);
    case Refused =>
      CatchOk(lib, hash, idle, attempt, again, Unavailable);
      SameAnswers(lib, call, idle, attempt, again, Unavailable, []);
  }

  lemma SameAnswers(lib: Library, call: Call, idle: Call, attempt: nat, again: bool, code: ErrorCode, record: Bytes)
    requires idle.request == call.request && idle.attempts == call.attempts
    ensures Catch(call, attempt, again, code) == Catch(idle, attempt, again, code)
    ensures Retry(call, attempt, again, code) == Retry(idle, attempt, again, code)
    ensures AnswerFrom(lib, call, attempt, again, record) == AnswerFrom(lib, idle, attempt, again, record)
  {
    hide Signature, Replay;
  }

  lemma ReceiveOk(lib: Library, initial: Hash, s: State, c: nat, again: bool)
    requires Inv(lib, initial, s) && c in s.calls && c in s.replies && CallAt(s, c).phase.Waiting?
    ensures var call := CallAt(s, c);
      var phase := ReceivePhase(lib, call, call.phase.attempt, call.phase.snapshot, again, s.replies[c]);
      Inv(lib, initial, s.(calls := s.calls[c := Answered(call, phase)], replies := s.replies - {c}))
  {
    hide Inv, CallOk, Committed, Idle, ReceivePhase, Admit;
    var call := CallAt(s, c);
    Focus(lib, initial, s, c);
    WaitingOffWire(lib, s.hash, call, At(s.wire, c), At(s.replies, c), Committed(s.log, c));
    ReceivedOk(lib, s.hash, call, again, s.replies[c], Committed(s.log, c));
    var phase := ReceivePhase(lib, call, call.phase.attempt, call.phase.snapshot, again, s.replies[c]);
    Local(lib, initial, s, s.(calls := s.calls[c := Answered(call, phase)], replies := s.replies - {c}), c);
  }

  lemma WaitingOffWire(lib: Library, hash: Hash, call: Call, wire: Option<Snapshot>, reply: Option<Reply>,
      committed: bool)
    requires call.phase.Waiting? && reply.Some? && CallOk(lib, hash, call, wire, reply, committed)
    ensures wire.None?
  {
    hide Prepared, Admit, Recorded, PlanOf, LedgerField;
  }

  // ---- Execution of the script -----------------------------------------------------------

  lemma KeepsRecorded(lib: Library, h: Hash, h': Hash, request: SaveRequest, entities: seq<CommittedEntity>)
    requires KeepsRecords(h, h') && Recorded(lib, h, request, entities)
    ensures Recorded(lib, h', request, entities)
  {
    hide Signature, Ledger, LedgerField, Reports;
  }

  lemma KeepsTruthful(lib: Library, h: Hash, h': Hash, call: Call, result: SaveResult)
    requires KeepsRecords(h, h') && Truthful(lib, h, call, result)
    ensures Truthful(lib, h', call, result)
  {
    hide Signature, Replay, LedgerField;
  }

  /** Other calls do not notice a commit, except that records may appear. */
  lemma KeepsCall(lib: Library, h: Hash, h': Hash, call: Call, wire: Option<Snapshot>, reply: Option<Reply>,
      committed: bool)
    requires KeepsRecords(h, h') && CallOk(lib, h, call, wire, reply, committed)
    ensures CallOk(lib, h', call, wire, reply, committed)
  {
    hide Admit, Prepare, Idle, Recorded, Truthful, LedgerField;
    match call.phase
    case Trying(_) =>
    case Ready(_, _) =>
    case Waiting(_, snapshot) =>
      if reply == Some(Done) { KeepsRecorded(lib, h, h', call.request, PlanOf(lib, call, snapshot).value.entities); }
    case Finished(result) =>
      if result.code.Success? { KeepsTruthful(lib, h, h', call, result); }
  }

  /** The call whose command was just accepted. */
  lemma AcceptedOk(lib: Library, h: Hash, h': Hash, call: Call, snapshot: Snapshot, reply: Option<Reply>)
    requires KeepsRecords(h, h') && CallOk(lib, h, call, Some(snapshot), reply, false)
    requires PlanOf(lib, call, snapshot).Ok?
    requires Recorded(lib, h', call.request, PlanOf(lib, call, snapshot).value.entities)
    ensures CallOk(lib, h', call, None, Some(Done), true)
  {
    hide Prepared, Recorded, Truthful, PlanOf, LedgerField, Admit;
  }

  lemma WireFocus(lib: Library, initial: Hash, s: State, c: nat)
    requires Inv(lib, initial, s) && c in s.wire
    ensures c in s.calls && Prepared(lib, CallAt(s, c), s.wire[c]) && !Committed(s.log, c)
  {
    hide SerialRun, EntryOk, Admit, Prepared, WaitingOk, FinishedOk, Committed, Idle;
    assert c in s.calls;
    assert CallOk(lib, s.hash, s.calls[c], At(s.wire, c), At(s.replies, c), Committed(s.log, c));
  }

  /** The log after a commit: ids and calls stay distinct, records stay as they were. */
  lemma LogOk(lib: Library, initial: Hash, s: State, s': State, e: Entry)
    requires Inv(lib, initial, s) && KeepsRecords(s.hash, s'.hash)
    requires s'.log == s.log + [e] && s'.calls == s.calls && !Committed(s.log, e.call)
    requires LedgerField(e.request.requestId) !in s.hash && EntryOk(lib, s', e)
    ensures forall i | 0 <= i < |s'.log| :: EntryOk(lib, s', s'.log[i])
    ensures forall i, j | 0 <= i < j < |s'.log| ::
      s'.log[i].request.requestId != s'.log[j].request.requestId && s'.log[i].call != s'.log[j].call
  {
    hide CallOk, SerialRun, LedgerField, Signature, Ledger, Reports;
    forall i | 0 <= i < |s.log| ensures EntryOk(lib, s', s'.log[i]) && s.log[i].request.requestId != e.request.requestId
      && s.log[i].call != e.call {
      assert EntryOk(lib, s, s.log[i]);
      KeepsRecorded(lib, s.hash, s'.hash, s.log[i].request, s.log[i].entities);
    }
  }

  lemma CommittedAfter(log: seq<Entry>, e: Entry, d: nat)
    ensures Committed(log + [e], d) <==> Committed(log, d) || d == e.call
  {
    var log' := log + [e];
    if Committed(log, d) {
      var i :| 0 <= i < |log| && log[i].call == d;
      assert log'[i].call == d;
    }
    if d == e.call { assert log'[|log|].call == d; }
  }

  function Accepted(s: State, c: nat, hash: Hash, entities: seq<CommittedEntity>): State
    requires c in s.calls
  {
    State(hash, s.calls, s.wire - {c}, s.replies[c := Done],
      s.log + [Entry(c, CallAt(s, c).store, CallAt(s, c).request, entities)])
  }

  lemma AcceptedCalls(lib: Library, initial: Hash, s: State, c: nat, hash: Hash, d: nat)
    requires Inv(lib, initial, s) && c in s.wire && c in s.calls && d in s.calls && !Committed(s.log, c)
    requires PlanOf(lib, CallAt(s, c), s.wire[c]).Ok? && KeepsRecords(s.hash, hash)
    requires Recorded(lib, hash, CallAt(s, c).request, PlanOf(lib, CallAt(s, c), s.wire[c]).value.entities)
    ensures var s' := Accepted(s, c, hash, PlanOf(lib, CallAt(s, c), s.wire[c]).value.entities);
      CallOk(lib, hash, CallAt(s', d), At(s'.wire, d), At(s'.replies, d), Committed(s'.log, d))
  {
    hide Inv, CallOk, KeepsRecords, PlanOf, Committed, Recorded;
    var entities := PlanOf(lib, CallAt(s, c), s.wire[c]).value.entities;
    CommittedAfter(s.log, Entry(c, CallAt(s, c).store, CallAt(s, c).request, entities), d);
    Focus(lib, initial, s, d);
    if d == c {
      AcceptedOk(lib, s.hash, hash, CallAt(s, c), s.wire[c], At(s.replies, c));
    } else {
      KeepsCall(lib, s.hash, hash, CallAt(s, d), At(s.wire, d), At(s.replies, d), Committed(s.log, d));
    }
  }

  lemma AcceptedSerial(lib: Library, initial: Hash, log: seq<Entry>, hash: Hash, e: Entry, hash': Hash)
    requires SerialRun(lib, initial, log) == Ok(hash)
    requires Serve(lib, e.store, e.request, hash) == Ok(Served(hash', e.entities))
    ensures SerialRun(lib, initial, log + [e]) == Ok(hash')
  {
    hide Serve;
    assert (log + [e])[..|log|] == log;
  }

  lemma InvParts(lib: Library, initial: Hash, s: State)
    requires SerialRun(lib, initial, s.log) == Ok(s.hash)
    requires s.wire.Keys <= s.calls.Keys && s.replies.Keys <= s.calls.Keys
    requires forall c | c in s.calls ::
      CallOk(lib, s.hash, CallAt(s, c), At(s.wire, c), At(s.replies, c), Committed(s.log, c))
    requires forall i | 0 <= i < |s.log| :: EntryOk(lib, s, s.log[i])
    requires forall i, j | 0 <= i < j < |s.log| ::
      s.log[i].request.requestId != s.log[j].request.requestId && s.log[i].call != s.log[j].call
    ensures Inv(lib, initial, s)
  {
    hide CallOk, SerialRun, EntryOk, Committed, At;
    forall c | c in s.calls ensures CallOk(lib, s.hash, s.calls[c], At(s.wire, c), At(s.replies, c),
      Committed(s.log, c)) {
      assert s.calls[c] == CallAt(s, c);
    }
  }

  lemma AcceptOk(lib: Library, initial: Hash, s: State, c: nat)
    requires Inv(lib, initial, s) && c in s.wire && c in s.calls && PlanOf(lib, CallAt(s, c), s.wire[c]).Ok?
    requires ScriptReply(s.hash, PlanOf(lib, CallAt(s, c), s.wire[c]).value.command).Done?
    ensures var plan := PlanOf(lib, CallAt(s, c), s.wire[c]).value;
      Inv(lib, initial, Accepted(s, c, ScriptHash(s.hash, plan.command), plan.entities))
  {
    hide CallOk, LedgerField, Recorded, KeepsRecords, Serve, PlanOf, Prepared, ScriptReply, ScriptHash, Committed;
    hide SerialRun, EntryOk;
    WireFocus(lib, initial, s, c);
    var call := CallAt(s, c);
    var plan := PlanOf(lib, call, s.wire[c]).value;
    ServedOk(lib, s.hash, call, s.wire[c]);
    var hash := ScriptHash(s.hash, plan.command);
    var s' := Accepted(s, c, hash, plan.entities);
    var e := Entry(c, call.store, call.request, plan.entities);
    AcceptedEntry(lib, s', e);
    LogOk(lib, initial, s, s', e);
    AcceptedSerial(lib, initial, s.log, s.hash, e, hash);
    forall d | d in s'.calls ensures CallOk(lib, s'.hash, CallAt(s', d), At(s'.wire, d), At(s'.replies, d),
      Committed(s'.log, d)) {
      AcceptedCalls(lib, initial, s, c, hash, d);
    }
    InvParts(lib, initial, s');
  }

  lemma AcceptedEntry(lib: Library, s: State, e: Entry)
    requires e.call in s.calls && CallAt(s, e.call).store == e.store && CallAt(s, e.call).request == e.request
    requires |e.request.requestId| <= 255 && Recorded(lib, s.hash, e.request, e.entities)
    ensures EntryOk(lib, s, e)
  {
    hide Recorded;
  }

  /** An accepted command serves the request of its call. */
  lemma ServedOk(lib: Library, hash: Hash, call: Call, snapshot: Snapshot)
    requires Prepared(lib, call, snapshot) && ScriptReply(hash, PlanOf(lib, call, snapshot).value.command).Done?
    ensures var plan := PlanOf(lib, call, snapshot).value; var hash' := ScriptHash(hash, plan.command);
      && Serve(lib, call.store, call.request, hash) == Ok(Served(hash', plan.entities))
      && LedgerField(call.request.requestId) !in hash && |call.request.requestId| <= 255
      && Recorded(lib, hash', call.request, plan.entities) && KeepsRecords(hash, hash')
  {
    hide Serve, Prepare, ScriptReply, ScriptHash, LedgerField, Recorded, KeepsRecords, ObjectFields, Signature;
    hide ValidRequest;
    CommitIsSerial(lib, call.store, call.request, snapshot, hash);
    ServeRecords(lib, call.store, call.request, hash);
  }

  lemma ExecuteOk(lib: Library, initial: Hash, s: State, c: nat)
    requires Inv(lib, initial, s) && c in s.wire && c in s.calls
    ensures Inv(lib, initial, Executed(lib, s, c))
    ensures KeepsRecords(s.hash, Executed(lib, s, c).hash)
  {
    hide Inv, PlanOf, Prepared, ScriptHash, Serve, Recorded;
    if PlanOf(lib, CallAt(s, c), s.wire[c]).Ok? {
      WireFocus(lib, initial, s, c);
      var plan := PlanOf(lib, CallAt(s, c), s.wire[c]).value;
      PlanLedger(lib, CallAt(s, c), s.wire[c]);
      var reply := ScriptReply(s.hash, plan.command);
      if reply.Done? {
        AcceptOk(lib, initial, s, c);
        ServedOk(lib, s.hash, CallAt(s, c), s.wire[c]);
      } else {
        ScriptNoWrite(s.hash, plan.command);
        OffWire(lib, initial, s, c, reply);
        assert Executed(lib, s, c) == s.(wire := s.wire - {c}, replies := s.replies[c := reply]);
      }
    }
  }

  lemma ScriptNoWrite(hash: Hash, command: Command)
    requires !ScriptReply(hash, command).Done?
    ensures ScriptHash(hash, command) == hash
  {
  }

  lemma PlanLedger(lib: Library, call: Call, snapshot: Snapshot)
    requires PlanOf(lib, call, snapshot).Ok?
    ensures PlanOf(lib, call, snapshot).value.command.ledger == LedgerField(call.request.requestId)
  {
    hide LedgerField, LoadAll, ApplyAll, Ledger, Items, Sorted, ObjectFields, Signature, ValidRequest;
  }

  /** Every event keeps the invariant and every record. */
  lemma NextOk(lib: Library, initial: Hash, s: State, e: Event)
    requires Inv(lib, initial, s)
    ensures Inv(lib, initial, Next(lib, s, e))
    ensures KeepsRecords(s.hash, Next(lib, s, e).hash)
  {
    hide Inv, Executed, SnapPhase, ReceivePhase, Catch, Admit, LedgerField;
    match e
    case Begin(c, store, request, attempts) =>
      if c !in s.calls { BeginOk(lib, initial, s, c, store, request, attempts); }
    case Interrupt(c, again) =>
      if c in s.calls && (CallAt(s, c).phase.Trying? || CallAt(s, c).phase.Ready?) {
        InterruptOk(lib, initial, s, c, again);
      }
    case Snap(c, again) => if c in s.calls && CallAt(s, c).phase.Trying? { SnapOk(lib, initial, s, c, again); }
    case Send(c) => if c in s.calls && CallAt(s, c).phase.Ready? { SendOk(lib, initial, s, c); }
    case Execute(c) => if c in s.wire && c in s.calls { ExecuteOk(lib, initial, s, c); }
    case Refuse(c) => if c in s.wire { OnWire(lib, initial, s, c); OffWire(lib, initial, s, c, Refused); }
    case Drop(c) =>
      if c in s.wire { OnWire(lib, initial, s, c); OffWire(lib, initial, s, c, Refused); }
      else { assert s.wire - {c} == s.wire; }
    case Forget(c) => if c in s.calls && CallAt(s, c).phase.Waiting? { ForgetOk(lib, initial, s, c); }
    case Receive(c, again) =>
      if c in s.calls && c in s.replies && CallAt(s, c).phase.Waiting? { ReceiveOk(lib, initial, s, c, again); }
  }

  lemma OnWire(lib: Library, initial: Hash, s: State, c: nat)
    requires Inv(lib, initial, s) && c in s.wire
    ensures c in s.calls
  {
    hide SerialRun, EntryOk, CallOk;
  }

  lemma StartOk(lib: Library, hash: Hash)
    ensures Inv(lib, hash, Start(hash))
  {
    hide CallOk, EntryOk;
  }

  lemma {:induction false} RunOk(lib: Library, initial: Hash, s: State, events: seq<Event>)
    requires Inv(lib, initial, s)
    ensures Inv(lib, initial, Run(lib, s, events))
    ensures KeepsRecords(s.hash, Run(lib, s, events).hash)
  {
    hide Inv, Next, LedgerField;
    if events != [] {
      var before := events[..|events| - 1];
      RunOk(lib, initial, s, before);
      NextOk(lib, initial, Run(lib, s, before), events[|events| - 1]);
    }
  }

  lemma {:induction false} RunOn(lib: Library, s: State, first: seq<Event>, more: seq<Event>)
    ensures Run(lib, s, first + more) == Run(lib, Run(lib, s, first), more)
    decreases |more|
  {
    hide Next;
    if more == [] {
      assert first + more == first;
    } else {
      RunOn(lib, s, first, more[..|more| - 1]);
      assert (first + more)[..|first + more| - 1] == first + more[..|more| - 1];
    }
  }

  // ---- The theorems --------------------------------------------------------------------------

  /**
   Serializability and at most once: after any events, the hash is what serving the committed
   requests one at a time, in commit order, makes of the initial hash; no request id and no
   call commits twice.
   */
  lemma Serializable(lib: Library, initial: Hash, events: seq<Event>)
    ensures var s := Run(lib, Start(initial), events);
      && SerialRun(lib, initial, s.log) == Ok(s.hash)
      && forall i, j | 0 <= i < j < |s.log| ::
        s.log[i].request.requestId != s.log[j].request.requestId && s.log[i].call != s.log[j].call
  {
    hide CallOk, EntryOk, SerialRun, Run;
    StartOk(lib, initial);
    RunOk(lib, initial, Start(initial), events);
  }

  /** Idempotency records are write-once over whole runs, and every commit has the record that answers for it. */
  lemma RecordsAreForever(lib: Library, initial: Hash, events: seq<Event>, more: seq<Event>)
    ensures var s := Run(lib, Start(initial), events); var s' := Run(lib, s, more);
      && KeepsRecords(s.hash, s'.hash)
      && forall i | 0 <= i < |s.log| :: Recorded(lib, s'.hash, s.log[i].request, s.log[i].entities)
  {
    hide CallOk, SerialRun, Run, Recorded, KeepsRecords;
    StartOk(lib, initial);
    RunOk(lib, initial, Start(initial), events);
    var s := Run(lib, Start(initial), events);
    RunOk(lib, initial, s, more);
    forall i | 0 <= i < |s.log| ensures Recorded(lib, Run(lib, s, more).hash, s.log[i].request, s.log[i].entities) {
      assert EntryOk(lib, s, s.log[i]);
      KeepsRecorded(lib, s.hash, Run(lib, s, more).hash, s.log[i].request, s.log[i].entities);
    }
  }

  lemma FinishedStays(lib: Library, s: State, e: Event, c: nat)
    requires c in s.calls && CallAt(s, c).phase.Finished?
    ensures c in Next(lib, s, e).calls && CallAt(Next(lib, s, e), c) == CallAt(s, c)
  {
    hide PlanOf, SnapPhase, ReceivePhase, Catch, Admit, ScriptReply, ScriptHash;
  }

  lemma {:induction false} FinishedStaysOver(lib: Library, s: State, events: seq<Event>, c: nat)
    requires c in s.calls && CallAt(s, c).phase.Finished?
    ensures var s' := Run(lib, s, events); c in s'.calls && CallAt(s', c) == CallAt(s, c)
  {
    hide Next;
    if events != [] {
      FinishedStaysOver(lib, s, events[..|events| - 1], c);
      FinishedStays(lib, Run(lib, s, events[..|events| - 1]), events[|events| - 1], c);
    }
  }

  /**
   Honest answers: once a call has answered, then for ever after an ok answer is what the record
   of its request id says, and a call that answered neither ok nor commit_unknown has
   written nothing and has no command left that could still write.
   */
  lemma HonestAnswers(lib: Library, initial: Hash, events: seq<Event>, more: seq<Event>, c: nat)
    requires var s := Run(lib, Start(initial), events); c in s.calls && CallAt(s, c).phase.Finished?
    ensures var s := Run(lib, Start(initial), events); var s' := Run(lib, s, more);
      var result := CallAt(s, c).phase.result;
      && (result.code.Success? ==> Truthful(lib, s'.hash, CallAt(s, c), result))
      && (!result.code.Success? && !result.code.CommitUnknown? ==> !Committed(s'.log, c) && c !in s'.wire)
  {
    hide SerialRun, Run, EntryOk, Truthful, Committed, Prepared, Idle, WaitingOk;
    StartOk(lib, initial);
    RunOk(lib, initial, Start(initial), events);
    var s := Run(lib, Start(initial), events);
    RunOk(lib, initial, s, more);
    FinishedStaysOver(lib, s, more, c);
    Focus(lib, initial, Run(lib, s, more), c);
  }

  /**
   A write whose reply is missing is never sent again: at most one command of a call is unanswered, and then the call
   waits for it or has given up as unknown.
   */
  lemma NeverResent(lib: Library, initial: Hash, events: seq<Event>, c: nat)
    requires c in Run(lib, Start(initial), events).calls
    ensures var call := CallAt(Run(lib, Start(initial), events), c);
      && call.answered <= call.sent <= call.answered + 1
      && (call.sent == call.answered + 1 ==>
            call.phase.Waiting? || (call.phase.Finished? && call.phase.result.code.CommitUnknown?))
  {
    hide SerialRun, Run, EntryOk, Truthful, Committed, Prepared, Recorded, PlanOf, Admit, LedgerField;
    StartOk(lib, initial);
    RunOk(lib, initial, Start(initial), events);
    Focus(lib, initial, Run(lib, Start(initial), events), c);
  }

  /**
   Retrying is safe: a call with the id of a committed request that reads the hash later answers
   without writing, with the versions of the first commit if the payload is the same and with
   conflict if it is not.
   */
  lemma RetryAnswers(lib: Library, initial: Hash, events: seq<Event>, i: nat, call: Call, attempt: nat, again: bool)
    requires i < |Run(lib, Start(initial), events).log|
    requires call.request.requestId == Run(lib, Start(initial), events).log[i].request.requestId
    requires Admit(lib, call.store, call.request).Ok?
    ensures var s := Run(lib, Start(initial), events); var first := s.log[i];
      var phase := SnapPhase(lib, s.hash, call, attempt, again);
      if Signature(lib, call.request) == Signature(lib, first.request)
      then |call.request.changes| == |first.entities|
        && phase == Finished(SaveResult(Success, call.request.requestId, true,
          Retold(call.request.changes, first.entities)))
      else phase == Finished(Failure(call.request, Conflict))
  {
    hide *;
    RecordsAreForever(lib, initial, events, []);
    var s := Run(lib, Start(initial), events);
    RunNothing(lib, s);
    RetryFrom(lib, s.hash, s.log[i].request, s.log[i].entities, call, attempt, again);
  }

  lemma RunNothing(lib: Library, s: State)
    ensures Run(lib, s, []) == s
  {
  }

  lemma RetryFrom(lib: Library, hash: Hash, first: SaveRequest, entities: seq<CommittedEntity>, call: Call,
      attempt: nat, again: bool)
    requires Recorded(lib, hash, first, entities) && call.request.requestId == first.requestId
    requires Admit(lib, call.store, call.request).Ok?
    ensures var phase := SnapPhase(lib, hash, call, attempt, again);
      if Signature(lib, call.request) == Signature(lib, first)
      then |call.request.changes| == |entities|
        && phase == Finished(SaveResult(Success, call.request.requestId, true, Retold(call.request.changes, entities)))
      else phase == Finished(Failure(call.request, Conflict))
  {
    hide Signature, Replay, Ledger, LedgerField, Reports, Retold, ObjectFields, ValidRequest, PlanOf;
    if Signature(lib, call.request) == Signature(lib, first) {
      ReplaySame(lib, first, call.request, entities);
    } else {
      ReplayOther(call.request, Signature(lib, call.request).value, Signature(lib, first).value, entities);
    }
  }
}
