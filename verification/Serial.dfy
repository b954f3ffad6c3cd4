/**
 A save on its own, with nobody else running: the serial meaning of a committed request.
 The commit script, when it accepts, does exactly this to the hash it runs on.
 */
module Serial {
  import opened ByteStrings
  import opened Results
  import opened Entities
  import opened Codec
  import opened Records
  import opened Engine

  // ---- Serving one request alone -----------------------------------------------------

  /** The octets every touched object ends up with. */
  function Publish(lib: Library, documents: map<Bytes, Document>, fields: set<Bytes>): Result<Hash> {
    if exists f | f in fields :: Stored(lib, DocumentAt(documents, f)).Err? then Err(InvalidRequest)
    else Ok(map f | f in fields :: Stored(lib, DocumentAt(documents, f)).value)
  }

  datatype Served = Served(hash: Hash, entities: seq<CommittedEntity>)

  /** The documents a batch produces, before they are stored. */
  function Outcome(lib: Library, store: StoreSchema, request: SaveRequest, admission: Admission,
      hash: Hash): Result<Batch>
    requires |admission.fields| == |request.changes|
  {
    var documents :- LoadAll(Sorted(FieldSet(admission.fields)), Read(hash, admission.fields), 0);
    ApplyAll(lib, store, request.changes, admission.fields, documents)
  }

  /** Load the documents, apply the changes in order, store the documents and the record of the request id. */
  function Serve(lib: Library, store: StoreSchema, request: SaveRequest, hash: Hash): Result<Served> {
    var admission :- Admit(lib, store, request);
    if admission.ledger in hash then Err(Conflict)
    else
      var batch :- Outcome(lib, store, request, admission, hash);
      var record :- Ledger(admission.signature, batch.entities);
      var objects :- Publish(lib, batch.documents, FieldSet(admission.fields));
      Ok(Served((hash + objects)[admission.ledger := record], batch.entities))
  }

  // ---- The parts of a plan --------------------------------------------------------------

  lemma {:induction false} ItemsAre(lib: Library, order: seq<Bytes>, snapshot: Snapshot,
      documents: map<Bytes, Document>, total: nat)
    requires forall f | f in order :: f in snapshot
    requires Items(lib, order, snapshot, documents, total).Ok?
    ensures var items := Items(lib, order, snapshot, documents, total).value;
      forall i | 0 <= i < |order| ::
        && items[i].field == order[i] && items[i].before == snapshot[order[i]]
        && Stored(lib, DocumentAt(documents, order[i])) == Ok(items[i].after)
  {
    hide Stored;
    if order != [] {
      var f := order[0];
      var after := Stored(lib, DocumentAt(documents, f)).value;
      var size := total + |f| + |after| + (if snapshot[f].Some? then |snapshot[f].value| else 0);
      ItemsAre(lib, order[1..], snapshot, documents, size);
    }
  }

  lemma {:induction false} ApplyAllReports(lib: Library, store: StoreSchema, changes: seq<EntityPatch>,
      fields: seq<Bytes>, documents: map<Bytes, Document>)
    requires |fields| == |changes| && ApplyAll(lib, store, changes, fields, documents).Ok?
    ensures Reports(changes, ApplyAll(lib, store, changes, fields, documents).value.entities)
  {
    hide Apply;
    if changes != [] {
      var schema := store.entities[changes[0].target.entity];
      var d := DocumentAt(documents, fields[0]);
      ApplyVersion(lib, d, schema, changes[0]);
      ApplyAllReports(lib, store, changes[1..], fields[1..],
        documents[fields[0] := Apply(lib, d, schema, changes[0]).value]);
    }
  }

  lemma {:induction false} ObjectFieldsAre(lib: Library, store: StoreSchema, changes: seq<EntityPatch>,
      requestId: Bytes)
    requires ObjectFields(lib, store, changes).Ok?
    ensures LedgerField(requestId) !in ObjectFields(lib, store, changes).value
  {
    hide ObjectField, ValidPatch, LedgerField;
    if changes != [] {
      FieldsNeverCollide(lib, store.entities[changes[0].target.entity], changes[0].target, requestId);
      ObjectFieldsAre(lib, store, changes[1..], requestId);
    }
  }

  // ---- Writing ----------------------------------------------------------------------------

  function ItemMap(items: seq<Item>): Hash {
    if items == [] then map[] else map[items[0].field := items[0].after] + ItemMap(items[1..])
  }

  lemma {:induction false} WriteIs(hash: Hash, items: seq<Item>)
    ensures Write(hash, items) == hash + ItemMap(items)
    decreases items
  {
    if items == [] {
      assert hash + map[] == hash;
    } else {
      WriteIs(hash[items[0].field := items[0].after], items[1..]);
      Overwrite(hash, items[0].field, items[0].after, ItemMap(items[1..]));
    }
  }

  lemma Overwrite(hash: Hash, field: Bytes, after: Bytes, more: Hash)
    ensures hash[field := after] + more == hash + (map[field := after] + more)
  {
  }

  lemma {:induction false} ItemMapIs(lib: Library, order: seq<Bytes>, snapshot: Snapshot,
      documents: map<Bytes, Document>, total: nat)
    requires forall f | f in order :: f in snapshot
    requires Items(lib, order, snapshot, documents, total).Ok?
    ensures var objects := ItemMap(Items(lib, order, snapshot, documents, total).value);
      && (forall f :: f in objects <==> f in order)
      && (forall f | f in order :: Stored(lib, DocumentAt(documents, f)) == Ok(objects[f]))
  {
    hide Stored, DocumentAt, ItemMap;
    if order == [] {
      ItemMapEmpty();
    } else {
      var f := order[0];
      var after := Stored(lib, DocumentAt(documents, f)).value;
      var size := total + |f| + |after| + (if snapshot[f].Some? then |snapshot[f].value| else 0);
      var rest := Items(lib, order[1..], snapshot, documents, size).value;
      ItemMapIs(lib, order[1..], snapshot, documents, size);
      ItemMapCons(Item(f, snapshot[f], after), rest);
      assert forall x :: x in order <==> x == f || x in order[1..];
    }
  }

  lemma ItemMapEmpty()
    ensures ItemMap([]) == map[]
  {
  }

  lemma ItemMapCons(item: Item, rest: seq<Item>)
    ensures ItemMap([item] + rest) == map[item.field := item.after] + ItemMap(rest)
  {
    assert ([item] + rest)[1..] == rest;
  }

  /** The items of a plan, taken together, are what Publish stores. */
  lemma ItemsPublish(lib: Library, snapshot: Snapshot, documents: map<Bytes, Document>, total: nat)
    requires Items(lib, Sorted(snapshot.Keys), snapshot, documents, total).Ok?
    ensures Publish(lib, documents, snapshot.Keys)
      == Ok(ItemMap(Items(lib, Sorted(snapshot.Keys), snapshot, documents, total).value))
  {
    hide Stored, Items, Sorted, ItemMap, Publish, DocumentAt;
    ItemMapIs(lib, Sorted(snapshot.Keys), snapshot, documents, total);
    PublishIs(lib, documents, snapshot.Keys,
      ItemMap(Items(lib, Sorted(snapshot.Keys), snapshot, documents, total).value));
  }

  lemma PublishIs(lib: Library, documents: map<Bytes, Document>, fields: set<Bytes>, objects: Hash)
    requires forall f :: f in objects <==> f in fields
    requires forall f | f in fields :: Stored(lib, DocumentAt(documents, f)) == Ok(objects[f])
    ensures Publish(lib, documents, fields) == Ok(objects)
  {
    hide Stored, DocumentAt;
    assert objects == map f | f in fields :: Stored(lib, DocumentAt(documents, f)).value;
  }

  // ---- The commit script is serial ------------------------------------------------------------

  /** If the script finds every object as the snapshot had it, the snapshot is current. */
  lemma FreshSnapshot(lib: Library, store: StoreSchema, request: SaveRequest, admission: Admission, snapshot: Snapshot,
      hash: Hash)
    requires |admission.fields| == |request.changes| && snapshot.Keys == FieldSet(admission.fields)
    requires Prepare(lib, store, request, admission, snapshot).Ok?
    requires Fresh(hash, Prepare(lib, store, request, admission, snapshot).value.command.items)
    ensures Read(hash, admission.fields) == snapshot
  {
    hide Items, LoadAll, ApplyAll, Ledger, Sorted;
    var order := Sorted(snapshot.Keys);
    var documents := LoadAll(order, snapshot, 0).value;
    var batch := ApplyAll(lib, store, request.changes, admission.fields, documents).value;
    var record := Ledger(admission.signature, batch.entities).value;
    ItemsAre(lib, order, snapshot, batch.documents, |record|);
    var items := Items(lib, order, snapshot, batch.documents, |record|).value;
    forall f | f in snapshot.Keys ensures Look(hash, f) == snapshot[f] {
      var i :| 0 <= i < |order| && order[i] == f;
      assert items[i].field == f;
    }
  }

  /** A commit the script accepts is the request served alone on the hash as it is at that instant. */
  lemma CommitIsSerial(lib: Library, store: StoreSchema, request: SaveRequest, snapshot: Snapshot, hash: Hash)
    requires Admit(lib, store, request).Ok? && snapshot.Keys == FieldSet(Admit(lib, store, request).value.fields)
    requires Prepare(lib, store, request, Admit(lib, store, request).value, snapshot).Ok?
    requires var plan := Prepare(lib, store, request, Admit(lib, store, request).value, snapshot).value;
      ScriptReply(hash, plan.command).Done?
    ensures var plan := Prepare(lib, store, request, Admit(lib, store, request).value, snapshot).value;
      Serve(lib, store, request, hash) == Ok(Served(ScriptHash(hash, plan.command), plan.entities))
  {
    hide Items, LoadAll, ApplyAll, Ledger, Sorted, Admit, Publish, Write, ItemMap, Read;
    var admission := Admit(lib, store, request).value;
    FreshSnapshot(lib, store, request, admission, snapshot, hash);
    var order := Sorted(snapshot.Keys);
    var documents := LoadAll(order, snapshot, 0).value;
    var batch := ApplyAll(lib, store, request.changes, admission.fields, documents).value;
    var record := Ledger(admission.signature, batch.entities).value;
    ItemsPublish(lib, snapshot, batch.documents, |record|);
    var items := Items(lib, order, snapshot, batch.documents, |record|).value;
    WriteIs(hash[admission.ledger := record], items);
    ObjectFieldsAre(lib, store, request.changes, request.requestId);
    LedgerLast(hash, admission.ledger, record, ItemMap(items), lib, batch.documents, FieldSet(admission.fields));
  }

  lemma LedgerLast(hash: Hash, ledger: Bytes, record: Bytes, objects: Hash, lib: Library,
      documents: map<Bytes, Document>, fields: set<Bytes>)
    requires Publish(lib, documents, fields) == Ok(objects) && ledger !in fields
    ensures hash[ledger := record] + objects == (hash + objects)[ledger := record]
  {
    hide Stored;
  }

  // ---- What a served request leaves behind ------------------------------------------------

  /** Idempotency records are write-once: every record of h is in h', unchanged. */
  ghost predicate KeepsRecords(h: Hash, h': Hash) {
    forall id: Bytes | LedgerField(id) in h :: LedgerField(id) in h' && h'[LedgerField(id)] == h[LedgerField(id)]
  }

  /** The record of a request is in the hash, and replaying the request from it gives these entities. */
  predicate Recorded(lib: Library, hash: Hash, request: SaveRequest, entities: seq<CommittedEntity>) {
    && Signature(lib, request).Ok? && Ledger(Signature(lib, request).value, entities).Ok?
    && LedgerField(request.requestId) in hash
    && hash[LedgerField(request.requestId)] == Ledger(Signature(lib, request).value, entities).value
    && Reports(request.changes, entities)
  }

  lemma ServeRecords(lib: Library, store: StoreSchema, request: SaveRequest, hash: Hash)
    requires Serve(lib, store, request, hash).Ok?
    ensures var served := Serve(lib, store, request, hash).value;
      && LedgerField(request.requestId) !in hash && |request.requestId| <= 255
      && Recorded(lib, served.hash, request, served.entities)
      && KeepsRecords(hash, served.hash)
  {
    hide LoadAll, ApplyAll, Ledger, Sorted, Publish, LedgerField, Signature, ObjectFields, ValidRequest;
    var admission := Admit(lib, store, request).value;
    var fields := FieldSet(admission.fields);
    var documents := LoadAll(Sorted(fields), Read(hash, admission.fields), 0).value;
    var batch := ApplyAll(lib, store, request.changes, admission.fields, documents).value;
    ApplyAllReports(lib, store, request.changes, admission.fields, documents);
    var objects := Publish(lib, batch.documents, fields).value;
    assert forall f | f in objects :: f in fields by { PublishKeys(lib, batch.documents, fields); }
    var served := Serve(lib, store, request, hash).value;
    forall id: Bytes | LedgerField(id) in hash
      ensures LedgerField(id) in served.hash && served.hash[LedgerField(id)] == hash[LedgerField(id)]
    {
      ObjectFieldsAre(lib, store, request.changes, id);
    }
  }

  lemma PublishKeys(lib: Library, documents: map<Bytes, Document>, fields: set<Bytes>)
    requires Publish(lib, documents, fields).Ok?
    ensures Publish(lib, documents, fields).value.Keys == fields
    ensures forall f | f in fields ::
      Stored(lib, DocumentAt(documents, f)) == Ok(Publish(lib, documents, fields).value[f])
  {
    hide Stored, DocumentAt;
  }

  lemma EncodedNonEmpty(lib: Library, d: Document)
    requires Encode(lib, d).Ok?
    ensures Encode(lib, d).value != []
  {
    hide FieldsBytes, Sorted, Encodable, CanonDocument;
  }
}
