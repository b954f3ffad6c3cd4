/** `apply` on a document in place, the loops of `save` that prepare a commit, and the commit script on the hash. */
module EngineLoops {
  import opened ByteStrings
  import opened Results
  import opened Entities
  import opened Framing
  import opened Codec
  import opened Records
  import opened Engine
  import I = Increments

  /** A document as `apply` changes it. */
  class LiveDocument {
    var version: uint64
    var fields: map<Bytes, Value>

    function View(): Document
      reads this
    {
      Document(version, fields)
    }

    constructor (d: Document)
      ensures View() == d
    {
      version, fields := d.version, d.fields;
    }

    /** On an error the document is abandoned, so nothing is said about it. */
    method Apply(lib: Library, schema: EntitySchema, patch: EntityPatch) returns (error: Option<ErrorCode>)
      modifies this
      ensures match Engine.Apply(lib, old(View()), schema, patch)
        case Ok(d) => error.None? && View() == d
        case Err(code) => error == Some(code)
    {
      hide ValidDocument, PatchField;
      if version == 0 {
        if (!patch.operation.Insert? && !patch.createIfMissing) || (patch.checkVersion && patch.expectedVersion != 0) {
          return Some(NotFound);
        }
        AddKeys(schema, patch.target.key);
      } else {
        if patch.operation.Insert? {
          return Some(Conflict);
        }
        if !ValidDocument(lib, View(), schema) {
          return Some(InternalError);
        }
        if patch.checkVersion && patch.expectedVersion != version {
          return Some(Conflict);
        }
      }
      if patch.operation.Delete? {
        version, fields := 0, map[];
        return None;
      }
      if version >= INT64_MAX {
        return Some(InvalidRequest);
      }
      var failed := PatchAll(lib, schema, patch.fields);
      if failed.Some? {
        return failed;
      }
      version := version + 1;
      if !ValidDocument(lib, View(), schema) {
        return Some(InvalidRequest);
      }
      return None;
    }

    method AddKeys(schema: EntitySchema, key: seq<NamedValue>)
      modifies this
      ensures version == old(version) && fields == WithKeys(schema, key, old(fields))
    {
      var i := 0;
      assert key[0..] == key;
      while i < |key|
        invariant 0 <= i <= |key| && version == old(version)
        invariant WithKeys(schema, key[i..], fields) == WithKeys(schema, key, old(fields))
      {
        assert key[i..][1..] == key[i + 1..];
        var column := FindField(schema.keys, key[i].name);
        if column.Some? && column.value.column !in fields {
          fields := fields[column.value.column := key[i].data];
        }
        i := i + 1;
      }
    }

    method PatchAll(lib: Library, schema: EntitySchema, patches: seq<FieldPatch>) returns (error: Option<ErrorCode>)
      modifies this
      ensures version == old(version)
      ensures match PatchFields(lib, schema, patches, old(fields))
        case Ok(next) => error.None? && fields == next
        case Err(code) => error == Some(code)
    {
      hide PatchField;
      var i := 0;
      assert patches[0..] == patches;
      while i < |patches|
        invariant 0 <= i <= |patches| && version == old(version)
        invariant PatchFields(lib, schema, patches[i..], fields) == PatchFields(lib, schema, patches, old(fields))
      {
        assert patches[i..][1..] == patches[i + 1..];
        error := PatchOne(lib, schema, patches[i]);
        if error.Some? {
          return;
        }
        i := i + 1;
      }
      return None;
    }

    method PatchOne(lib: Library, schema: EntitySchema, patch: FieldPatch) returns (error: Option<ErrorCode>)
      modifies this
      ensures version == old(version)
      ensures match PatchField(lib, schema, patch, old(fields))
        case Ok(next) => error.None? && fields == next
        case Err(code) => error == Some(code)
    {
      hide I.Increment;
      var column := FindWritable(schema, patch.name);
      if column.None? {
        return Some(InvalidRequest);
      }
      var name := column.value.column;
      match patch.operation {
      case Erase => fields := fields - {name};
      case Set => fields := fields[name := patch.data];
      case Increment =>
        var before := if name in fields then Ok(fields[name]) else I.Zero(column.value.kind);
        if before.Err? {
          return Some(before.code);
        }
        var after := I.Increment(lib, before.value, patch.data, column.value.kind);
        if after.Err? {
          return Some(after.code);
        }
        fields := fields[name := after.value];
      }
      return None;
    }
  }

  // ---- Preparing a commit -------------------------------------------------------------------

  /** The snapshot loop: decode what the hash held, under the batch limit. */
  method LoadDocuments(order: seq<Bytes>, snapshot: Snapshot) returns (r: Result<map<Bytes, Document>>)
    requires forall f | f in order :: f in snapshot
    requires Distinct(order)
    ensures r == LoadAll(order, snapshot, 0)
  {
    hide Decode;
    var documents, total, i := map[], 0, 0;
    assert order[0..] == order;
    LoadedNothing(LoadAll(order, snapshot, 0));
    while i < |order|
      invariant 0 <= i <= |order| && 0 <= total
      invariant LoadAll(order, snapshot, 0) == Loaded(documents, LoadAll(order[i..], snapshot, total))
      invariant forall f | f in documents :: f in order[..i]
    {
      var f := order[i];
      assert order[i..][1..] == order[i + 1..];
      if snapshot[f].Some? {
        var bytes := snapshot[f].value;
        total := total + |bytes|;
        if total > MAX_BYTES {
          return Err(InvalidRequest);
        }
        if bytes != [] {
          var document := Decode(bytes);
          if document.Err? {
            return Err(document.code);
          }
          NotLoadedYet(order, snapshot, i, total, documents);
          LoadedOne(documents, f, document.value, LoadAll(order[i + 1..], snapshot, total));
          documents := documents[f := document.value];
        }
      }
      i := i + 1;
    }
    assert documents + map[] == documents;
    return Ok(documents);
  }

  /** What was loaded so far, together with the rest. */
  function Loaded(documents: map<Bytes, Document>, rest: Result<map<Bytes, Document>>): Result<map<Bytes, Document>> {
    match rest
    case Err(code) => Err(code)
    case Ok(more) => Ok(documents + more)
  }

  lemma LoadedNothing(rest: Result<map<Bytes, Document>>)
    ensures Loaded(map[], rest) == rest
  {
    if rest.Ok? { assert map[] + rest.value == rest.value; }
  }

  lemma {:induction false} LoadKeys(order: seq<Bytes>, snapshot: Snapshot, total: nat)
    requires forall f | f in order :: f in snapshot
    ensures LoadAll(order, snapshot, total).Ok? ==> forall f | f in LoadAll(order, snapshot, total).value :: f in order
  {
    hide Decode;
    if order != [] {
      LoadKeys(order[1..], snapshot, total);
      if snapshot[order[0]].Some? { LoadKeys(order[1..], snapshot, total + |snapshot[order[0]].value|); }
    }
  }

  lemma NotLoadedYet(order: seq<Bytes>, snapshot: Snapshot, i: nat, total: nat, documents: map<Bytes, Document>)
    requires i < |order| && Distinct(order) && forall f | f in order :: f in snapshot
    ensures LoadAll(order[i + 1..], snapshot, total).Ok? ==> order[i] !in LoadAll(order[i + 1..], snapshot, total).value
  {
    hide LoadAll;
    LoadKeys(order[i + 1..], snapshot, total);
  }

  lemma LoadedOne(documents: map<Bytes, Document>, f: Bytes, d: Document, rest: Result<map<Bytes, Document>>)
    requires rest.Ok? ==> f !in rest.value
    ensures Loaded(documents, match rest case Err(code) => Err(code) case Ok(more) => Ok(more[f := d]))
         == Loaded(documents[f := d], rest)
  {
    if rest.Ok? { assert documents + rest.value[f := d] == documents[f := d] + rest.value; }
  }

  /** The apply loop: duplicated entities are applied one after the other on the same document. */
  method ApplyChanges(lib: Library, store: StoreSchema, changes: seq<EntityPatch>, fields: seq<Bytes>,
      start: map<Bytes, Document>)
    returns (r: Result<Batch>)
    requires |fields| == |changes|
    ensures r == ApplyAll(lib, store, changes, fields, start)
  {
    hide Apply;
    ghost var whole := ApplyAll(lib, store, changes, fields, start);
    var documents, entities, i := start, [], 0;
    assert changes[0..] == changes && fields[0..] == fields;
    ReportedNothing(whole);
    while i < |changes|
      invariant 0 <= i <= |changes|
      invariant whole == Reported(entities, ApplyAll(lib, store, changes[i..], fields[i..], documents))
    {
      var change := changes[i];
      assert changes[i..][1..] == changes[i + 1..] && fields[i..][1..] == fields[i + 1..];
      if change.target.entity !in store.entities {
        return Err(InvalidRequest);
      }
      var document := new LiveDocument(DocumentAt(documents, fields[i]));
      var error := document.Apply(lib, store.entities[change.target.entity], change);
      if error.Some? {
        return Err(error.value);
      }
      documents := documents[fields[i] := document.View()];
      var entity := CommittedEntity(change.target, document.version, change.operation);
      ReportedOne(entities, entity, ApplyAll(lib, store, changes[i + 1..], fields[i + 1..], documents));
      entities := entities + [entity];
      i := i + 1;
    }
    assert entities + [] == entities;
    return Ok(Batch(documents, entities));
  }

  function Reported(entities: seq<CommittedEntity>, rest: Result<Batch>): Result<Batch> {
    match rest
    case Err(code) => Err(code)
    case Ok(batch) => Ok(Batch(batch.documents, entities + batch.entities))
  }

  lemma ReportedNothing(rest: Result<Batch>)
    ensures Reported([], rest) == rest
  {
    if rest.Ok? { assert [] + rest.value.entities == rest.value.entities; }
  }

  lemma ReportedOne(entities: seq<CommittedEntity>, entity: CommittedEntity, rest: Result<Batch>)
    ensures Reported(entities, match rest case Err(code) => Err(code) case Ok(batch) =>
      Ok(Batch(batch.documents, [entity] + batch.entities)))
         == Reported(entities + [entity], rest)
  {
    if rest.Ok? { assert entities + ([entity] + rest.value.entities) == (entities + [entity]) + rest.value.entities; }
  }

  /** The loop that pairs every snapshot entry with its new octets. */
  method PairItems(lib: Library, order: seq<Bytes>, snapshot: Snapshot, documents: map<Bytes, Document>, start: nat)
    returns (r: Result<seq<Item>>)
    requires forall f | f in order :: f in snapshot
    ensures r == Items(lib, order, snapshot, documents, start)
  {
    hide Stored;
    ghost var whole := Items(lib, order, snapshot, documents, start);
    var items, size, i := [], start, 0;
    assert order[0..] == order;
    PairedNothing(whole);
    while i < |order|
      invariant 0 <= i <= |order| && 0 <= size
      invariant whole == Paired(items, Items(lib, order[i..], snapshot, documents, size))
    {
      var f := order[i];
      assert order[i..][1..] == order[i + 1..];
      var after := Stored(lib, DocumentAt(documents, f));
      if after.Err? {
        return Err(after.code);
      }
      size := size + |f| + |after.value| + (if snapshot[f].Some? then |snapshot[f].value| else 0);
      if size > 3 * MAX_BYTES {
        return Err(InvalidRequest);
      }
      var item := Item(f, snapshot[f], after.value);
      PairedOne(items, item, Items(lib, order[i + 1..], snapshot, documents, size));
      items := items + [item];
      i := i + 1;
    }
    assert items + [] == items;
    return Ok(items);
  }

  function Paired(items: seq<Item>, rest: Result<seq<Item>>): Result<seq<Item>> {
    match rest
    case Err(code) => Err(code)
    case Ok(more) => Ok(items + more)
  }

  lemma PairedNothing(rest: Result<seq<Item>>)
    ensures Paired([], rest) == rest
  {
    if rest.Ok? { assert [] + rest.value == rest.value; }
  }

  lemma PairedOne(items: seq<Item>, item: Item, rest: Result<seq<Item>>)
    ensures Paired(items, match rest case Err(code) => Err(code) case Ok(more) => Ok([item] + more))
      == Paired(items + [item], rest)
  {
    if rest.Ok? { assert items + ([item] + rest.value) == (items + [item]) + rest.value; }
  }

  /** One round of `save` up to the commit command. */
  method PrepareCommit(lib: Library, store: StoreSchema, request: SaveRequest, admission: Admission, snapshot: Snapshot)
    returns (r: Result<Plan>)
    requires |admission.fields| == |request.changes|
    ensures r == Prepare(lib, store, request, admission, snapshot)
  {
    hide LoadAll, ApplyAll, Ledger, Items;
    var order := Sorted(snapshot.Keys);
    SortedDistinct(snapshot.Keys);
    var documents :- LoadDocuments(order, snapshot);
    var batch :- ApplyChanges(lib, store, request.changes, admission.fields, documents);
    var record :- Ledger(admission.signature, batch.entities);
    var items :- PairItems(lib, order, snapshot, batch.documents, |record|);
    return Ok(Plan(Command(admission.ledger, record, items), batch.entities));
  }

  // ---- The script ------------------------------------------------------------------------------

  /** The Redis hash that the script runs on. */
  class RedisHash {
    var entries: Hash

    constructor (hash: Hash)
      ensures entries == hash
    {
      entries := hash;
    }

    /** Reads and compares first; the updates are published together at the end. */
    method Commit(command: Command) returns (reply: Reply)
      modifies this
      ensures reply == ScriptReply(old(entries), command)
      ensures entries == ScriptHash(old(entries), command)
    {
      if command.ledger in entries {
        return Previous(entries[command.ledger]);
      }
      if |command.items| < 1 || |command.items| > MAX_CHANGES {
        return Refused;
      }
      var updates, i := entries[command.ledger := command.record], 0;
      assert command.items[0..] == command.items;
      while i < |command.items|
        invariant 0 <= i <= |command.items| && entries == old(entries)
        invariant forall j | 0 <= j < i :: Look(entries, command.items[j].field) == command.items[j].before
        invariant Write(updates, command.items[i..]) == Write(entries[command.ledger := command.record], command.items)
      {
        var item := command.items[i];
        assert command.items[i..][1..] == command.items[i + 1..];
        if item.before.None? {
          if item.field in entries {
            return Stale;
          }
        } else if item.field !in entries || entries[item.field] != item.before.value {
          return Stale;
        }
        updates := updates[item.field := item.after];
        i := i + 1;
      }
      entries := updates;
      return Done;
    }
  }
}
