/**
 What an undisturbed save achieves: it commits exactly what serving it alone would do, or answers with
 the refusal of serving it, and what the commit script answers to any command that reaches it.
 */
module RedisProgress {
  import opened ByteStrings
  import opened Results
  import opened Entities
  import opened Framing
  import opened Codec
  import opened Records
  import opened Engine
  import opened Serial
  import opened RedisProtocol
  import C = Columns

  // ---- The command of a request ----------------------------------------------------------------------

  /** The octets that the objects take in the commit command: name, expected and new content. */
  function CommandSize(order: seq<Bytes>, before: Hash, after: Hash): nat
    requires forall f | f in order :: f in after
  {
    if order == [] then 0
    else
      var f := order[0];
      |f| + |after[f]| + (if f in before then |before[f]| else 0) + CommandSize(order[1..], before, after)
  }

  /** The served request fits one command: record and objects within 24 MiB. */
  predicate OneCommand(hash: Hash, served: Served, admission: Admission) {
    && admission.ledger in served.hash && (forall f | f in admission.fields :: f in served.hash)
    && |served.hash[admission.ledger]|
      + CommandSize(Sorted(FieldSet(admission.fields)), hash, served.hash) <= 3 * MAX_BYTES
  }

  lemma {:induction false} ItemsExactly(lib: Library, order: seq<Bytes>, snapshot: Snapshot,
      documents: map<Bytes, Document>, total: nat, before: Hash, after: Hash)
    requires order != [] && forall f | f in order ::
      && f in snapshot && snapshot[f] == Look(before, f)
      && f in after && Stored(lib, DocumentAt(documents, f)) == Ok(after[f])
    ensures Items(lib, order, snapshot, documents, total).Ok? <==>
      total + CommandSize(order, before, after) <= 3 * MAX_BYTES
    ensures Items(lib, order, snapshot, documents, total).Err? ==>
      Items(lib, order, snapshot, documents, total).code == InvalidRequest
  {
    hide Stored;
    var f := order[0];
    assert f in order;
    var size := total + |f| + |after[f]| + (if f in before then |before[f]| else 0);
    assert CommandSize(order, before, after) == size - total + CommandSize(order[1..], before, after);
    if order[1..] != [] { ItemsExactly(lib, order[1..], snapshot, documents, size, before, after); }
  }

  lemma {:induction false} ItemsRefused(lib: Library, order: seq<Bytes>, snapshot: Snapshot,
      documents: map<Bytes, Document>, total: nat, f: Bytes)
    requires (forall x | x in order :: x in snapshot) && f in order && Stored(lib, DocumentAt(documents, f)).Err?
    ensures Items(lib, order, snapshot, documents, total) == Err(InvalidRequest)
  {
    hide Encode;
    EncodeRefuses(lib, DocumentAt(documents, order[0]));
    if Stored(lib, DocumentAt(documents, order[0])).Ok? {
      var after := Stored(lib, DocumentAt(documents, order[0])).value;
      var size := total + |order[0]| + |after| + (if snapshot[order[0]].Some? then |snapshot[order[0]].value| else 0);
      ItemsRefused(lib, order[1..], snapshot, documents, size, f);
    }
  }

  lemma EncodeRefuses(lib: Library, d: Document)
    ensures Encode(lib, d).Err? ==> Encode(lib, d).code == InvalidRequest
  {
    hide Encodable, DocumentBytes, CanonDocument;
  }

  lemma SomeField(fields: seq<Bytes>)
    requires fields != []
    ensures 1 <= |FieldSet(fields)| <= |fields|
  {
    assert fields[0] in FieldSet(fields);
    FewFields(fields);
  }

  lemma {:induction false} FewFields(fields: seq<Bytes>)
    ensures |FieldSet(fields)| <= |fields|
  {
    if fields == [] {
      assert FieldSet(fields) == {};
    } else {
      FewFields(fields[1..]);
      assert FieldSet(fields) == FieldSet(fields[1..]) + {fields[0]};
    }
  }

  /** A plan from the current hash: made exactly when the request can be served and fits one command. */
  lemma PlanExactly(lib: Library, store: StoreSchema, request: SaveRequest, hash: Hash, admission: Admission)
    requires Admit(lib, store, request) == Ok(admission) && admission.ledger !in hash
    ensures var plan := Prepare(lib, store, request, admission, Read(hash, admission.fields));
      match Serve(lib, store, request, hash)
      case Err(code) => plan == Err(code)
      case Ok(served) =>
        && (plan.Ok? <==> OneCommand(hash, served, admission))
        && (plan.Ok? ==> plan.value.entities == served.entities)
        && (plan.Err? ==> plan.code == InvalidRequest)
  {
    hide LoadAll, ApplyAll, Ledger, Sorted, Admit, Publish, Items, OneCommand;
    var snapshot := Read(hash, admission.fields);
    assert snapshot.Keys == FieldSet(admission.fields);
    var order := Sorted(snapshot.Keys);
    if LoadAll(order, snapshot, 0).Ok? {
      var documents := LoadAll(order, snapshot, 0).value;
      if ApplyAll(lib, store, request.changes, admission.fields, documents).Ok? {
        var batch := ApplyAll(lib, store, request.changes, admission.fields, documents).value;
        if Ledger(admission.signature, batch.entities).Ok? {
          var record := Ledger(admission.signature, batch.entities).value;
          if Publish(lib, batch.documents, FieldSet(admission.fields)).Ok? {
            PublishedItems(lib, store, request, hash, admission, batch, record);
          } else {
            Unpublished(lib, batch.documents, snapshot, |record|);
          }
        }
      }
    }
  }

  lemma Unpublished(lib: Library, documents: map<Bytes, Document>, snapshot: Snapshot, total: nat)
    requires Publish(lib, documents, snapshot.Keys).Err?
    ensures Publish(lib, documents, snapshot.Keys).code == InvalidRequest
    ensures Items(lib, Sorted(snapshot.Keys), snapshot, documents, total) == Err(InvalidRequest)
  {
    hide Stored, Items, Sorted;
    var f :| f in snapshot.Keys && Stored(lib, DocumentAt(documents, f)).Err?;
    ItemsRefused(lib, Sorted(snapshot.Keys), snapshot, documents, total, f);
  }

  lemma PublishedItems(lib: Library, store: StoreSchema, request: SaveRequest, hash: Hash, admission: Admission,
      batch: Batch, record: Bytes)
    requires Admit(lib, store, request) == Ok(admission)
    requires Publish(lib, batch.documents, FieldSet(admission.fields)).Ok?
    ensures var objects := Publish(lib, batch.documents, FieldSet(admission.fields)).value;
      var served := Served((hash + objects)[admission.ledger := record], batch.entities);
      var snapshot := Read(hash, admission.fields);
      var items := Items(lib, Sorted(snapshot.Keys), snapshot, batch.documents, |record|);
      && (items.Ok? <==> OneCommand(hash, served, admission))
      && (items.Err? ==> items.code == InvalidRequest)
  {
    hide Stored, Items, Sorted, Publish, Admit, LedgerField, ObjectFields, OneCommand, Read, FieldSet;
    var fields := FieldSet(admission.fields);
    var objects := Publish(lib, batch.documents, fields).value;
    PublishKeys(lib, batch.documents, fields);
    ObjectFieldsAre(lib, store, request.changes, request.requestId);
    InFields(admission.fields);
    ReadIs(hash, admission.fields);
    Together(hash, objects, admission.ledger, record);
    var served := Served((hash + objects)[admission.ledger := record], batch.entities);
    SizedItems(lib, Read(hash, admission.fields), batch.documents, hash, served, admission);
  }

  lemma InFields(fields: seq<Bytes>)
    ensures forall f :: f in FieldSet(fields) <==> f in fields
  {
  }

  lemma Together(hash: Hash, objects: Hash, ledger: Bytes, record: Bytes)
    requires ledger !in objects
    ensures var after := (hash + objects)[ledger := record];
      ledger in after && after[ledger] == record && forall f | f in objects :: f in after && after[f] == objects[f]
  {
  }

  lemma SizedItems(lib: Library, snapshot: Snapshot, documents: map<Bytes, Document>, hash: Hash, served: Served,
      admission: Admission)
    requires admission.fields != [] && admission.ledger in served.hash && snapshot.Keys == FieldSet(admission.fields)
    requires forall f | f in FieldSet(admission.fields) ::
      && f in snapshot && snapshot[f] == Look(hash, f)
      && f in served.hash && Stored(lib, DocumentAt(documents, f)) == Ok(served.hash[f])
    ensures var items := Items(lib, Sorted(snapshot.Keys), snapshot, documents, |served.hash[admission.ledger]|);
      && (items.Ok? <==> OneCommand(hash, served, admission))
      && (items.Err? ==> items.code == InvalidRequest)
  {
    hide Stored, Items, Sorted, CommandSize, FieldSet;
    InFields(admission.fields);
    assert admission.fields[0] in FieldSet(admission.fields);
    var order := Sorted(snapshot.Keys);
    ItemsExactly(lib, order, snapshot, documents, |served.hash[admission.ledger]|, hash, served.hash);
  }

  lemma ReadIs(hash: Hash, fields: seq<Bytes>)
    ensures Read(hash, fields).Keys == FieldSet(fields)
    ensures forall f | f in FieldSet(fields) :: f in Read(hash, fields) && Read(hash, fields)[f] == Look(hash, f)
  {
  }

  // ---- The script -------------------------------------------------------------------------------------

  /** What the script answers to a prepared command: the record, stale, or done. It never refuses one. */
  lemma ScriptAnswers(lib: Library, call: Call, snapshot: Snapshot, hash: Hash)
    requires Prepared(lib, call, snapshot)
    ensures var fields := Admit(lib, call.store, call.request).value.fields;
      var ledger := LedgerField(call.request.requestId);
      ScriptReply(hash, PlanOf(lib, call, snapshot).value.command)
      == if ledger in hash then Previous(hash[ledger]) else if Read(hash, fields) == snapshot then Done else Stale
  {
    hide Admit, LoadAll, ApplyAll, Ledger, Sorted, Items, Read;
    var admission := Admit(lib, call.store, call.request).value;
    var plan := PlanOf(lib, call, snapshot).value;
    PlanItems(lib, call.store, call.request, admission, snapshot);
    SomeField(admission.fields);
    if Fresh(hash, plan.command.items) {
      FreshSnapshot(lib, call.store, call.request, admission, snapshot, hash);
    } else if Read(hash, admission.fields) == snapshot {
      SnapshotFresh(hash, admission.fields, plan.command.items);
    }
  }

  lemma PlanItems(lib: Library, store: StoreSchema, request: SaveRequest, admission: Admission, snapshot: Snapshot)
    requires |admission.fields| == |request.changes| && snapshot.Keys == FieldSet(admission.fields)
    requires Prepare(lib, store, request, admission, snapshot).Ok?
    ensures var command := Prepare(lib, store, request, admission, snapshot).value.command;
      && command.ledger == admission.ledger && |command.items| == |snapshot|
      && forall i | 0 <= i < |command.items| ::
           command.items[i].field in snapshot && command.items[i].before == snapshot[command.items[i].field]
  {
    hide LoadAll, ApplyAll, Ledger, Sorted, Items;
    var order := Sorted(snapshot.Keys);
    var documents := LoadAll(order, snapshot, 0).value;
    var batch := ApplyAll(lib, store, request.changes, admission.fields, documents).value;
    var record := Ledger(admission.signature, batch.entities).value;
    ItemsAre(lib, order, snapshot, batch.documents, |record|);
    assert |snapshot.Keys| == |snapshot|;
    assert forall i | 0 <= i < |order| :: order[i] in snapshot.Keys;
  }

  lemma SnapshotFresh(hash: Hash, fields: seq<Bytes>, items: seq<Item>)
    requires forall i | 0 <= i < |items| ::
      items[i].field in Read(hash, fields) && items[i].before == Read(hash, fields)[items[i].field]
    ensures Fresh(hash, items)
  {
  }

  /**
   In every run, a command that reaches the script is answered with the record exactly when its id is
   recorded, as stale exactly when the id is new and some object is not as its snapshot had it, and is
   done otherwise. Only then does anything change.
   */
  lemma ExecutedExactly(lib: Library, initial: Hash, events: seq<Event>, c: nat)
    requires c in Run(lib, Start(initial), events).wire
    ensures var s := Run(lib, Start(initial), events); var t := Next(lib, s, Execute(c));
      && c in s.calls && Admit(lib, s.calls[c].store, s.calls[c].request).Ok? && c in t.replies
      && Tells(s.hash, Admit(lib, s.calls[c].store, s.calls[c].request).value, s.wire[c], t.replies[c])
      && (!t.replies[c].Done? ==> t.hash == s.hash && t.log == s.log)
  {
    hide Run, Inv, Admit, Next, Prepared, Tells;
    var s := Run(lib, Start(initial), events);
    StartOk(lib, initial);
    RunOk(lib, initial, Start(initial), events);
    WireFocus(lib, initial, s, c);
    ExecuteTells(lib, s, c);
  }

  lemma ExecuteTells(lib: Library, s: State, c: nat)
    requires c in s.calls && c in s.wire && Prepared(lib, s.calls[c], s.wire[c])
    ensures var t := Next(lib, s, Execute(c));
      && Admit(lib, s.calls[c].store, s.calls[c].request).Ok? && c in t.replies
      && Tells(s.hash, Admit(lib, s.calls[c].store, s.calls[c].request).value, s.wire[c], t.replies[c])
      && (!t.replies[c].Done? ==> t.hash == s.hash && t.log == s.log)
  {
    hide Admit, PlanOf, ScriptReply, ScriptHash, Prepared, Read, LedgerField, Next;
    PreparedParts(lib, s.calls[c], s.wire[c]);
    var plan := PlanOf(lib, s.calls[c], s.wire[c]).value;
    ScriptAnswers(lib, s.calls[c], s.wire[c], s.hash);
    ExecuteIs(lib, s, c, plan);
    if !ScriptReply(s.hash, plan.command).Done? { ScriptNoWrite(s.hash, plan.command); }
  }

  lemma ExecuteIs(lib: Library, s: State, c: nat, plan: Plan)
    requires c in s.calls && c in s.wire && PlanOf(lib, s.calls[c], s.wire[c]) == Ok(plan)
    ensures var t := Next(lib, s, Execute(c)); var reply := ScriptReply(s.hash, plan.command);
      && t.hash == ScriptHash(s.hash, plan.command) && c in t.replies && t.replies[c] == reply
      && t.log == if reply.Done? then s.log + [Entry(c, s.calls[c].store, s.calls[c].request, plan.entities)] else s.log
  {
    hide PlanOf, ScriptReply, ScriptHash;
  }

  predicate Tells(hash: Hash, admission: Admission, snapshot: Snapshot, reply: Reply) {
    && (reply.Previous? <==> admission.ledger in hash)
    && (reply.Previous? ==> reply.record == hash[admission.ledger])
    && (reply.Stale? <==> admission.ledger !in hash && Read(hash, admission.fields) != snapshot)
    && (reply.Done? <==> admission.ledger !in hash && Read(hash, admission.fields) == snapshot)
  }

  lemma PreparedParts(lib: Library, call: Call, snapshot: Snapshot)
    requires Prepared(lib, call, snapshot)
    ensures Admit(lib, call.store, call.request).Ok? && PlanOf(lib, call, snapshot).Ok?
    ensures Admit(lib, call.store, call.request).value.ledger == LedgerField(call.request.requestId)
  {
    hide Admit, PlanOf;
  }

  // ---- Refusals are never `unavailable` -------------------------------------------------------------------

  lemma {:induction false} LoadAllRefuses(order: seq<Bytes>, snapshot: Snapshot, total: nat)
    requires forall f | f in order :: f in snapshot
    ensures LoadAll(order, snapshot, total).Err? ==> !LoadAll(order, snapshot, total).code.Unavailable?
  {
    hide Decode;
    if order != [] {
      if snapshot[order[0]].Some? { DecodeRefuses(snapshot[order[0]].value); }
      LoadAllRefuses(order[1..], snapshot, total + if snapshot[order[0]].Some? then |snapshot[order[0]].value| else 0);
    }
  }

  lemma DecodeRefuses(b: Bytes)
    ensures Decode(b).Err? ==> Decode(b).code == InternalError
  {
    hide TakeText, TakeNumber, TakeFields;
  }

  lemma {:induction false} ApplyAllRefuses(lib: Library, store: StoreSchema, changes: seq<EntityPatch>,
      fields: seq<Bytes>,
      documents: map<Bytes, Document>)
    requires |fields| == |changes|
    ensures ApplyAll(lib, store, changes, fields, documents).Err? ==>
      !ApplyAll(lib, store, changes, fields, documents).code.Unavailable?
  {
    hide Apply;
    if changes != [] && changes[0].target.entity in store.entities {
      var d, schema := DocumentAt(documents, fields[0]), store.entities[changes[0].target.entity];
      if Apply(lib, d, schema, changes[0]).Ok? {
        var next := Apply(lib, d, schema, changes[0]).value;
        ApplyAllRefuses(lib, store, changes[1..], fields[1..], documents[fields[0] := next]);
      } else {
        C.ApplyRefuses(lib, d, schema, changes[0]);
      }
    }
  }

  lemma ServeRefuses(lib: Library, store: StoreSchema, request: SaveRequest, hash: Hash)
    requires Serve(lib, store, request, hash).Err?
    ensures !Serve(lib, store, request, hash).code.Unavailable?
  {
    hide LoadAll, ApplyAll, LedgerBytes, Sorted, Admit, Stored;
    if Admit(lib, store, request).Ok? {
      var admission := Admit(lib, store, request).value;
      var order, snapshot := Sorted(FieldSet(admission.fields)), Read(hash, admission.fields);
      LoadAllRefuses(order, snapshot, 0);
      if LoadAll(order, snapshot, 0).Ok? {
        ApplyAllRefuses(lib, store, request.changes, admission.fields, LoadAll(order, snapshot, 0).value);
      }
    }
  }

  // ---- Undisturbed calls ----------------------------------------------------------------------------------

  function Steps(c: nat, again: bool): seq<Event> { [Snap(c, again), Send(c), Execute(c), Receive(c, again)] }

  lemma FourSteps(lib: Library, s: State, a: Event, b: Event, c: Event, d: Event)
    ensures Run(lib, s, [a, b, c, d]) == Next(lib, Next(lib, Next(lib, Next(lib, s, a), b), c), d)
  {
    hide Next;
    assert [a, b, c, d][..3] == [a, b, c] && [a, b, c][..2] == [a, b] && [a, b][..1] == [a] && [a][..0] == [];
    assert Run(lib, s, []) == s;
    assert Run(lib, s, [a]) == Next(lib, s, a);
    assert Run(lib, s, [a, b]) == Next(lib, Run(lib, s, [a]), b);
    assert Run(lib, s, [a, b, c]) == Next(lib, Run(lib, s, [a, b]), c);
  }

  /** The request served alone, if it fits one command. */
  function Alone(lib: Library, store: StoreSchema, request: SaveRequest, hash: Hash): Result<Served> {
    var admission :- Admit(lib, store, request);
    var served :- Serve(lib, store, request, hash);
    if OneCommand(hash, served, admission) then Ok(served) else Err(InvalidRequest)
  }

  /** A call does to the hash what serving its request alone does, and answers so. */
  predicate Achieves(s: State, c: nat, store: StoreSchema, request: SaveRequest, alone: Result<Served>, t: State) {
    && c in t.calls && t.calls[c].request == request
    && match alone
       case Ok(served) =>
         && t.calls[c].phase == Finished(SaveResult(Success, request.requestId, true, served.entities))
         && t.hash == served.hash && t.log == s.log + [Entry(c, store, request, served.entities)]
       case Err(code) =>
         t.calls[c].phase == Finished(Failure(request, code)) && t.hash == s.hash && t.log == s.log
  }

  predicate Starting(lib: Library, s: State, c: nat, admission: Admission) {
    && c in s.calls && s.calls[c].phase.Trying? && c !in s.wire && c !in s.replies
    && Admit(lib, s.calls[c].store, s.calls[c].request) == Ok(admission) && admission.ledger !in s.hash
  }

  lemma Snapped(lib: Library, s: State, c: nat, admission: Admission, again: bool)
    requires Starting(lib, s, c, admission)
    ensures var t := Next(lib, s, Snap(c, again)); var call := s.calls[c];
      var snapshot := Read(s.hash, admission.fields);
      match Alone(lib, call.store, call.request, s.hash)
      case Err(code) => t == SetPhase(s, c, Finished(Failure(call.request, code)))
      case Ok(served) =>
        && t == SetPhase(s, c, Ready(call.phase.attempt, snapshot)) && Prepared(lib, call, snapshot)
        && PlanOf(lib, call, snapshot).value.entities == served.entities
  {
    hide Admit, Serve, OneCommand, Prepare, LedgerField, Read;
    var call := s.calls[c];
    PlanExactly(lib, call.store, call.request, s.hash, admission);
    ReadIs(s.hash, admission.fields);
    if Serve(lib, call.store, call.request, s.hash).Err? { ServeRefuses(lib, call.store, call.request, s.hash); }
  }

  /** A call about to try, with nobody else acting, achieves its request. */
  lemma Undisturbed(lib: Library, s: State, c: nat, admission: Admission, again: bool)
    requires Starting(lib, s, c, admission)
    ensures var call := s.calls[c];
      Achieves(s, c, call.store, call.request, Alone(lib, call.store, call.request, s.hash),
        Run(lib, s, Steps(c, again)))
  {
    hide Next, Alone, Admit, Read, Prepared, PlanOf;
    var call := s.calls[c];
    FourSteps(lib, s, Snap(c, again), Send(c), Execute(c), Receive(c, again));
    Snapped(lib, s, c, admission, again);
    var snapshot := Read(s.hash, admission.fields);
    match Alone(lib, call.store, call.request, s.hash)
    case Err(code) => NoMore(lib, SetPhase(s, c, Finished(Failure(call.request, code))), c, again);
    case Ok(served) =>
      Goes(lib, s, c, admission, snapshot, again);
      AloneServes(lib, call.store, call.request, s.hash);
  }

  lemma AloneServes(lib: Library, store: StoreSchema, request: SaveRequest, hash: Hash)
    requires Alone(lib, store, request, hash).Ok?
    ensures Serve(lib, store, request, hash) == Alone(lib, store, request, hash)
  {
    hide Admit, Serve, OneCommand;
  }

  lemma NoMore(lib: Library, s: State, c: nat, again: bool)
    requires c in s.calls && s.calls[c].phase.Finished? && c !in s.wire && c !in s.replies
    ensures Next(lib, Next(lib, Next(lib, s, Send(c)), Execute(c)), Receive(c, again)) == s
  {
    hide Executed, ReceivePhase;
  }

  /** The command of a waiting call executes, and its answer arrives. */
  lemma Lands(lib: Library, s: State, c: nat, snapshot: Snapshot, plan: Plan, again: bool)
    requires c in s.calls && s.calls[c].phase.Waiting? && s.calls[c].phase.snapshot == snapshot
    requires c in s.wire && s.wire[c] == snapshot && PlanOf(lib, s.calls[c], snapshot) == Ok(plan)
    requires ScriptReply(s.hash, plan.command).Done?
    ensures var t := Next(lib, Next(lib, s, Execute(c)), Receive(c, again)); var call := s.calls[c];
      && t.hash == ScriptHash(s.hash, plan.command) && c in t.calls && t.calls[c].request == call.request
      && t.calls[c].phase == Finished(SaveResult(Success, call.request.requestId, true, plan.entities))
      && t.log == s.log + [Entry(c, call.store, call.request, plan.entities)]
  {
    hide PlanOf, ScriptReply, ScriptHash;
    var done := State(ScriptHash(s.hash, plan.command), s.calls, s.wire - {c}, s.replies[c := Done],
      s.log + [Entry(c, s.calls[c].store, s.calls[c].request, plan.entities)]);
    assert Next(lib, s, Execute(c)) == done;
  }

  function Sending(s: State, c: nat, snapshot: Snapshot): State
    requires c in s.calls && s.calls[c].phase.Trying?
  {
    var call := s.calls[c];
    s.(calls := s.calls[c := call.(phase := Waiting(call.phase.attempt, snapshot), sent := call.sent + 1)],
       wire := s.wire[c := snapshot])
  }

  lemma SendIs(lib: Library, s: State, c: nat, snapshot: Snapshot)
    requires c in s.calls && s.calls[c].phase.Trying?
    ensures Next(lib, SetPhase(s, c, Ready(s.calls[c].phase.attempt, snapshot)), Send(c)) == Sending(s, c, snapshot)
  {
  }

  lemma Goes(lib: Library, s: State, c: nat, admission: Admission, snapshot: Snapshot, again: bool)
    requires Starting(lib, s, c, admission) && snapshot == Read(s.hash, admission.fields)
    requires Prepared(lib, s.calls[c], snapshot)
    ensures PlanOf(lib, s.calls[c], snapshot).Ok?
    ensures var ready := SetPhase(s, c, Ready(s.calls[c].phase.attempt, snapshot));
      var t := Next(lib, Next(lib, Next(lib, ready, Send(c)), Execute(c)), Receive(c, again));
      var call := s.calls[c]; var entities := PlanOf(lib, call, snapshot).value.entities;
      && Serve(lib, call.store, call.request, s.hash) == Ok(Served(t.hash, entities))
      && c in t.calls && t.calls[c].request == call.request
      && t.calls[c].phase == Finished(SaveResult(Success, call.request.requestId, true, entities))
      && t.log == s.log + [Entry(c, call.store, call.request, entities)]
  {
    hide Next, Admit, Serve, PlanOf, LedgerField, ScriptReply, ScriptHash, Read, Prepared;
    var call := s.calls[c];
    PreparedParts(lib, call, snapshot);
    ScriptAnswers(lib, call, snapshot, s.hash);
    DoneServes(lib, call, snapshot, s.hash);
    SendIs(lib, s, c, snapshot);
    var sent := Sending(s, c, snapshot);
    SameCall(lib, call, sent.calls[c], snapshot);
    Lands(lib, sent, c, snapshot, PlanOf(lib, call, snapshot).value, again);
  }

  lemma SameCall(lib: Library, call: Call, other: Call, snapshot: Snapshot)
    requires other.store == call.store && other.request == call.request
    ensures PlanOf(lib, other, snapshot) == PlanOf(lib, call, snapshot)
  {
  }

  lemma DoneServes(lib: Library, call: Call, snapshot: Snapshot, hash: Hash)
    requires Prepared(lib, call, snapshot) && ScriptReply(hash, PlanOf(lib, call, snapshot).value.command).Done?
    ensures Serve(lib, call.store, call.request, hash)
      == Ok(Served(ScriptHash(hash, PlanOf(lib, call, snapshot).value.command),
        PlanOf(lib, call, snapshot).value.entities))
  {
    hide Admit, Prepare, ScriptReply, ScriptHash, Serve;
    CommitIsSerial(lib, call.store, call.request, snapshot, hash);
  }

  // ---- From any reachable state ---------------------------------------------------------------------------

  lemma OneStep(lib: Library, s: State, e: Event)
    ensures Run(lib, s, [e]) == Next(lib, s, e)
  {
    hide Next;
    assert [e][..0] == [];
    assert Run(lib, s, []) == s;
  }

  lemma TryingIsIdle(lib: Library, initial: Hash, s: State, c: nat)
    requires Inv(lib, initial, s) && c in s.calls && s.calls[c].phase.Trying?
    ensures c !in s.wire && c !in s.replies && Admit(lib, s.calls[c].store, s.calls[c].request).Ok?
  {
    hide SerialRun, EntryOk, Admit, Prepared, Committed;
    assert CallOk(lib, s.hash, s.calls[c], At(s.wire, c), At(s.replies, c), Committed(s.log, c));
  }

  /**
   Whatever happened before, a call about to try whose id is new, left alone for one attempt, commits
   its request if it can be served at all and fits one command, and else answers why it cannot.
   */
  lemma TryCommits(lib: Library, initial: Hash, events: seq<Event>, c: nat, again: bool)
    requires var s := Run(lib, Start(initial), events);
      c in s.calls && s.calls[c].phase.Trying? && LedgerField(s.calls[c].request.requestId) !in s.hash
    ensures var s := Run(lib, Start(initial), events); var t := Run(lib, Start(initial), events + Steps(c, again));
      var store, request := s.calls[c].store, s.calls[c].request;
      Achieves(s, c, store, request, Alone(lib, store, request, s.hash), t)
  {
    hide Run, Inv, Admit, Achieves, LedgerField, Alone;
    var s := Run(lib, Start(initial), events);
    StartOk(lib, initial);
    RunOk(lib, initial, Start(initial), events);
    TryingIsIdle(lib, initial, s, c);
    RunOn(lib, Start(initial), events, Steps(c, again));
    Undisturbed(lib, s, c, Admit(lib, s.calls[c].store, s.calls[c].request).value, again);
  }

  /** A new call, left alone, commits what can be served. */
  lemma SaveCommits(lib: Library, initial: Hash, events: seq<Event>, c: nat, store: StoreSchema, request: SaveRequest,
      attempts: nat, again: bool)
    requires var s := Run(lib, Start(initial), events); c !in s.calls && LedgerField(request.requestId) !in s.hash
    ensures var s := Run(lib, Start(initial), events);
      var t := Run(lib, Start(initial), events + [Begin(c, store, request, attempts)] + Steps(c, again));
      Achieves(s, c, store, request, Alone(lib, store, request, s.hash), t)
  {
    hide Run, Inv, Admit, LedgerField, Alone;
    var s := Run(lib, Start(initial), events);
    var first := events + [Begin(c, store, request, attempts)];
    RunOn(lib, Start(initial), events, [Begin(c, store, request, attempts)]);
    OneStep(lib, s, Begin(c, store, request, attempts));
    var begun := Run(lib, Start(initial), first);
    if Admit(lib, store, request).Ok? {
      TryCommits(lib, initial, first, c, again);
    } else {
      StartOk(lib, initial);
      RunOk(lib, initial, Start(initial), events);
      Strangers(lib, initial, s, c);
      RunOn(lib, Start(initial), first, Steps(c, again));
      FourSteps(lib, begun, Snap(c, again), Send(c), Execute(c), Receive(c, again));
      Refused(lib, begun, c, again);
      NeverAdmitted(lib, store, request, s.hash);
    }
  }

  lemma NeverAdmitted(lib: Library, store: StoreSchema, request: SaveRequest, hash: Hash)
    requires Admit(lib, store, request).Err?
    ensures Alone(lib, store, request, hash) == Err(InvalidRequest)
  {
    hide Admit, Serve, OneCommand;
  }

  lemma Strangers(lib: Library, initial: Hash, s: State, c: nat)
    requires Inv(lib, initial, s) && c !in s.calls
    ensures c !in s.wire && c !in s.replies
  {
    hide SerialRun, EntryOk, CallOk, Committed;
  }

  lemma Refused(lib: Library, s: State, c: nat, again: bool)
    requires c in s.calls && s.calls[c].phase.Finished? && c !in s.wire && c !in s.replies
    ensures Next(lib, Next(lib, Next(lib, Next(lib, s, Snap(c, again)), Send(c)), Execute(c)), Receive(c, again)) == s
  {
    hide Executed, ReceivePhase, SnapPhase;
  }

  /** A stale answer within the budget costs only the attempt: the next one, left alone, commits. */
  lemma StaleTriesAgain(lib: Library, initial: Hash, events: seq<Event>, c: nat, again: bool)
    requires var s := Run(lib, Start(initial), events);
      && c in s.calls && s.calls[c].phase.Waiting? && c in s.replies && s.replies[c].Stale?
      && s.calls[c].phase.attempt < s.calls[c].attempts && LedgerField(s.calls[c].request.requestId) !in s.hash
    ensures var s := Run(lib, Start(initial), events); var retry := events + [Receive(c, true)];
      && c in Run(lib, Start(initial), retry).calls
      && Run(lib, Start(initial), retry).calls[c].phase == Trying(s.calls[c].phase.attempt + 1)
      && var store, request := s.calls[c].store, s.calls[c].request;
         Achieves(s, c, store, request, Alone(lib, store, request, s.hash),
                  Run(lib, Start(initial), retry + Steps(c, again)))
  {
    hide Run, Admit, LedgerField, Alone;
    var s := Run(lib, Start(initial), events);
    var retry := events + [Receive(c, true)];
    RunOn(lib, Start(initial), events, [Receive(c, true)]);
    OneStep(lib, s, Receive(c, true));
    TryCommits(lib, initial, retry, c, again);
  }

  /** A stale answer that may not be tried again is reported as a conflict, and nothing of the call is written. */
  lemma StaleGivesUp(lib: Library, initial: Hash, events: seq<Event>, c: nat, again: bool)
    requires var s := Run(lib, Start(initial), events);
      && c in s.calls && s.calls[c].phase.Waiting? && c in s.replies && s.replies[c].Stale?
      && !(again && s.calls[c].phase.attempt < s.calls[c].attempts)
    ensures var s := Run(lib, Start(initial), events);
      var t := Run(lib, Start(initial), events + [Receive(c, again)]);
      && c in t.calls && t.calls[c].phase == Finished(SaveResult(Conflict, s.calls[c].request.requestId, false, []))
      && t.hash == s.hash && t.log == s.log && !Committed(t.log, c) && c !in t.wire
  {
    hide Run, CallOk, Committed;
    var s := Run(lib, Start(initial), events);
    RunOn(lib, Start(initial), events, [Receive(c, again)]);
    OneStep(lib, s, Receive(c, again));
    StartOk(lib, initial);
    RunOk(lib, initial, Start(initial), events);
    Focus(lib, initial, s, c);
    StaleUncommitted(lib, s.hash, s.calls[c], At(s.wire, c), Committed(s.log, c));
  }

  lemma StaleUncommitted(lib: Library, hash: Hash, call: Call, wire: Option<Snapshot>, committed: bool)
    requires call.phase.Waiting? && CallOk(lib, hash, call, wire, Some(Stale), committed)
    ensures !committed && wire.None?
  {
    hide Prepared, Recorded;
  }

  // ---- How often a call tries -----------------------------------------------------------------------------

  /** The attempts a call may make: what it was given, and at least one. */
  function Most(call: Call): nat { if call.attempts == 0 then 1 else call.attempts }

  /** The attempts are numbered from one, and each sends at most one command. */
  predicate Counted(sent: nat, most: nat, phase: Phase) {
    match phase
    case Trying(attempt) => sent < attempt <= most
    case Ready(attempt, _) => sent < attempt <= most
    case Waiting(attempt, _) => sent <= attempt <= most
    case Finished(_) => sent <= most
  }

  ghost predicate AllCounted(s: State) {
    forall c | c in s.calls :: Counted(s.calls[c].sent, Most(s.calls[c]), s.calls[c].phase)
  }

  lemma CatchCounts(call: Call, attempt: nat, again: bool, code: ErrorCode)
    requires call.sent <= attempt <= Most(call)
    ensures Counted(call.sent, Most(call), Catch(call, attempt, again, code))
    ensures Counted(call.sent, Most(call), Retry(call, attempt, again, code))
  {
  }

  lemma AnswerCounts(lib: Library, call: Call, attempt: nat, again: bool, record: Bytes)
    requires call.sent <= attempt <= Most(call)
    ensures Counted(call.sent, Most(call), AnswerFrom(lib, call, attempt, again, record))
  {
    hide Signature, Replay, Catch, Most;
    if Signature(lib, call.request).Ok? {
      var answer := Replay(call.request, Signature(lib, call.request).value, record);
      if answer.Err? { CatchCounts(call, attempt, again, answer.code); }
    }
  }

  lemma SnapCounts(lib: Library, hash: Hash, call: Call, attempt: nat, again: bool)
    requires call.sent < attempt <= Most(call)
    ensures Counted(call.sent, Most(call), SnapPhase(lib, hash, call, attempt, again))
  {
    hide Admit, PlanOf, AnswerFrom, Catch, Most, Read;
    var admitted := Admit(lib, call.store, call.request);
    if admitted.Ok? {
      if admitted.value.ledger in hash {
        AnswerCounts(lib, call, attempt, again, hash[admitted.value.ledger]);
      } else {
        var plan := PlanOf(lib, call, Read(hash, admitted.value.fields));
        if plan.Err? { CatchCounts(call, attempt, again, plan.code); }
      }
    }
  }

  lemma ReceiveCounts(lib: Library, call: Call, attempt: nat, snapshot: Snapshot, again: bool, reply: Reply)
    requires call.sent <= attempt <= Most(call)
    ensures Counted(call.sent, Most(call), ReceivePhase(lib, call, attempt, snapshot, again, reply))
  {
    hide PlanOf, AnswerFrom, Catch, Retry, Most;
    match reply
    case Done =>
    case Stale => CatchCounts(call, attempt, again, Conflict);
    case Previous(record) => AnswerCounts(lib, call, attempt, again, record);
    case Refused => CatchCounts(call, attempt, again, Unavailable);
  }

  lemma NextCounts(lib: Library, s: State, e: Event)
    requires AllCounted(s)
    ensures AllCounted(Next(lib, s, e))
  {
    hide Admit, PlanOf, SnapPhase, ReceivePhase, Catch, ScriptReply, ScriptHash;
    match e
    case Snap(c, again) =>
      if c in s.calls && s.calls[c].phase.Trying? {
        SnapCounts(lib, s.hash, s.calls[c], s.calls[c].phase.attempt, again);
      }
    case Interrupt(c, again) =>
      if c in s.calls && (s.calls[c].phase.Trying? || s.calls[c].phase.Ready?) {
        CatchCounts(s.calls[c], s.calls[c].phase.attempt, again, Unavailable);
      }
    case Receive(c, again) =>
      if c in s.calls && s.calls[c].phase.Waiting? && c in s.replies {
        var call := s.calls[c];
        ReceiveCounts(lib, call, call.phase.attempt, call.phase.snapshot, again, s.replies[c]);
      }
    case _ =>
  }

  /** In every run no call makes more attempts, or sends more commands, than it was given (one if given none). */
  lemma {:induction false} AttemptsBounded(lib: Library, initial: Hash, events: seq<Event>)
    ensures AllCounted(Run(lib, Start(initial), events))
  {
    hide Next, Counted;
    if events != [] {
      AttemptsBounded(lib, initial, events[..|events| - 1]);
      NextCounts(lib, Run(lib, Start(initial), events[..|events| - 1]), events[|events| - 1]);
    }
  }

  // ---- Loading the snapshot ---------------------------------------------------------------------------------

  function Octets(order: seq<Bytes>, snapshot: Snapshot): nat
    requires forall f | f in order :: f in snapshot
  {
    if order == [] then 0
    else (if snapshot[order[0]].Some? then |snapshot[order[0]].value| else 0) + Octets(order[1..], snapshot)
  }

  predicate Readable(content: Option<Bytes>) {
    content.None? || content.value == [] || Decode(content.value).Ok?
  }

  /** The snapshot loads exactly when the objects together stay within 8 MiB and each one decodes. */
  lemma {:induction false} LoadAllExactly(order: seq<Bytes>, snapshot: Snapshot, total: nat)
    requires total <= MAX_BYTES && forall f | f in order :: f in snapshot
    ensures LoadAll(order, snapshot, total).Ok?
      <==> total + Octets(order, snapshot) <= MAX_BYTES && forall f | f in order :: Readable(snapshot[f])
  {
    hide Decode;
    if order != [] {
      var next := total + if snapshot[order[0]].Some? then |snapshot[order[0]].value| else 0;
      if next <= MAX_BYTES { LoadAllExactly(order[1..], snapshot, next); }
      assert (forall f | f in order :: Readable(snapshot[f]))
        <==> Readable(snapshot[order[0]]) && forall f | f in order[1..] :: Readable(snapshot[f]);
    }
  }
}
