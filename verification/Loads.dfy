/**
 What `load` finds after commits. A load validates the stored document again, so a decimal whose
 printed form is longer than the parser accepts can be committed but never read or changed again.
 */
module Loads {
  import opened ByteStrings
  import opened Results
  import opened Entities
  import opened Framing
  import opened Codec
  import opened Records
  import opened Engine
  import opened Serial
  import D = Decimals
  import DT = DecimalTexts
  import P = RedisProtocol

  /** `load` on one hash field: nothing, a valid document, or an internal error. */
  function LoadDocument(lib: Library, schema: EntitySchema, hash: Hash, field: Bytes): Result<Document> {
    if field !in hash || hash[field] == [] then Err(NotFound)
    else
      var d :- Decode(hash[field]);
      if ValidDocument(lib, d, schema) then Ok(d) else Err(InternalError)
  }

  // ---- The last change of an entity -------------------------------------------------------------

  predicate LastAt(fields: seq<Bytes>, i: nat) {
    i < |fields| && forall j | i < j < |fields| :: fields[j] != fields[i]
  }

  /** Nothing, or a valid document whose version can be stored. */
  predicate Settled(lib: Library, d: Document, schema: EntitySchema) {
    d == EMPTY || (1 <= d.version <= INT64_MAX && ValidDocument(lib, d, schema))
  }

  lemma {:induction false} ApplyAllKeeps(
    lib: Library, store: StoreSchema, changes: seq<EntityPatch>, fields: seq<Bytes>, documents: map<Bytes, Document>,
      f: Bytes)
    requires |fields| == |changes| && ApplyAll(lib, store, changes, fields, documents).Ok? && f !in fields
    ensures DocumentAt(ApplyAll(lib, store, changes, fields, documents).value.documents, f) == DocumentAt(documents, f)
  {
    hide Apply;
    if changes != [] {
      var schema := store.entities[changes[0].target.entity];
      var next := Apply(lib, DocumentAt(documents, fields[0]), schema, changes[0]).value;
      ApplyAllKeeps(lib, store, changes[1..], fields[1..], documents[fields[0] := next], f);
    }
  }

  /** After a batch, an entity is as its last change left it. */
  lemma {:induction false} ApplyAllLast(
    lib: Library, store: StoreSchema, changes: seq<EntityPatch>, fields: seq<Bytes>, documents: map<Bytes, Document>,
      i: nat)
    requires |fields| == |changes| && ApplyAll(lib, store, changes, fields, documents).Ok? && LastAt(fields, i)
    ensures changes[i].target.entity in store.entities
    ensures Settled(lib, DocumentAt(ApplyAll(lib, store, changes, fields, documents).value.documents, fields[i]),
                    store.entities[changes[i].target.entity])
  {
    hide Apply, Settled;
    var schema := store.entities[changes[0].target.entity];
    var next := Apply(lib, DocumentAt(documents, fields[0]), schema, changes[0]).value;
    if i == 0 {
      forall j | 0 <= j < |fields[1..]| ensures fields[1..][j] != fields[0] { assert fields[1..][j] == fields[j + 1]; }
      ApplyAllKeeps(lib, store, changes[1..], fields[1..], documents[fields[0] := next], fields[0]);
      AppliedSettled(lib, DocumentAt(documents, fields[0]), schema, changes[0]);
    } else {
      forall j | i - 1 < j < |fields[1..]|
        ensures fields[1..][j] != fields[1..][i - 1]
      {
        assert fields[1..][j] == fields[j + 1];
      }
      ApplyAllLast(lib, store, changes[1..], fields[1..], documents[fields[0] := next], i - 1);
    }
  }

  lemma AppliedSettled(lib: Library, d: Document, schema: EntitySchema, patch: EntityPatch)
    requires Apply(lib, d, schema, patch).Ok?
    ensures Settled(lib, Apply(lib, d, schema, patch).value, schema)
  {
    hide Apply, ValidDocument;
    ApplyValid(lib, d, schema, patch);
  }

  // ---- What a load finds -----------------------------------------------------------------------------

  lemma SameLook(lib: Library, schema: EntitySchema, h: Hash, h': Hash, field: Bytes)
    requires Look(h, field) == Look(h', field)
    ensures LoadDocument(lib, schema, h, field) == LoadDocument(lib, schema, h', field)
  {
    hide Decode, ValidDocument;
  }

  /** What was stored for a settled document is found again exactly when every column can be read again. */
  lemma StoredLoads(lib: Library, schema: EntitySchema, hash: Hash, field: Bytes, d: Document)
    requires field in hash && Stored(lib, d) == Ok(hash[field]) && Settled(lib, d, schema)
    ensures LoadDocument(lib, schema, hash, field)
         == if d.version == 0 then Err(NotFound)
            else if |d.fields| <= MAX_FIELDS && Rereads(d, schema) then Ok(CanonDocument(d)) else Err(InternalError)
  {
    hide Decode, Encode, CanonDocument, ValidDocument, Rereads;
    if d.version != 0 {
      EncodedNonEmpty(lib, d);
      DecodeEncode(lib, d);
      CanonValid(lib, d, schema);
    }
  }

  /** What a served request was admitted with, produced and stored. */
  lemma ServedField(lib: Library, store: StoreSchema, request: SaveRequest, hash: Hash, field: Bytes)
    requires Serve(lib, store, request, hash).Ok?
    ensures Admit(lib, store, request).Ok?
    ensures var hash' := Serve(lib, store, request, hash).value.hash; var admission := Admit(lib, store, request).value;
      && Outcome(lib, store, request, admission, hash).Ok?
      && (var documents := Outcome(lib, store, request, admission, hash).value.documents;
          field in admission.fields ==> field in hash' && Stored(lib, DocumentAt(documents, field)) == Ok(hash'[field]))
      && (field !in admission.fields && field != admission.ledger ==> Look(hash', field) == Look(hash, field))
  {
    hide Outcome, Ledger, Publish, Admit, Stored;
    var admission := Admit(lib, store, request).value;
    var fields := FieldSet(admission.fields);
    PublishKeys(lib, Outcome(lib, store, request, admission, hash).value.documents, fields);
    ObjectFieldsAre(lib, store, request.changes, request.requestId);
  }

  lemma OutcomeLast(lib: Library, store: StoreSchema, request: SaveRequest, admission: Admission, hash: Hash, i: nat)
    requires |admission.fields| == |request.changes| && LastAt(admission.fields, i)
    requires Outcome(lib, store, request, admission, hash).Ok?
    ensures request.changes[i].target.entity in store.entities
    ensures Settled(lib, DocumentAt(Outcome(lib, store, request, admission, hash).value.documents, admission.fields[i]),
                    store.entities[request.changes[i].target.entity])
  {
    hide LoadAll, ApplyAll, Sorted, Settled;
    var documents := LoadAll(Sorted(FieldSet(admission.fields)), Read(hash, admission.fields), 0).value;
    ApplyAllLast(lib, store, request.changes, admission.fields, documents, i);
  }

  /**
   After a commit, a load under the schema of the last change finds the entity as `apply` left it, in
   canonical form, exactly when every decimal column prints in at most 4096 characters and the
   fields can be counted; else it answers an internal error.
   */
  lemma ServeStores(lib: Library, store: StoreSchema, request: SaveRequest, hash: Hash, admission: Admission, i: nat)
    requires Serve(lib, store, request, hash).Ok? && Admit(lib, store, request) == Ok(admission)
    requires LastAt(admission.fields, i)
    ensures Outcome(lib, store, request, admission, hash).Ok? && request.changes[i].target.entity in store.entities
    ensures var hash' := Serve(lib, store, request, hash).value.hash;
      var schema := store.entities[request.changes[i].target.entity];
      var d := DocumentAt(Outcome(lib, store, request, admission, hash).value.documents, admission.fields[i]);
      LoadDocument(lib, schema, hash', admission.fields[i])
      == if d.version == 0 then Err(NotFound)
         else if |d.fields| <= MAX_FIELDS && Rereads(d, schema) then Ok(CanonDocument(d)) else Err(InternalError)
  {
    hide Outcome, Admit, Stored, LoadDocument, Settled, Rereads, CanonDocument, Serve;
    ServedField(lib, store, request, hash, admission.fields[i]);
    OutcomeLast(lib, store, request, admission, hash, i);
    var d := DocumentAt(Outcome(lib, store, request, admission, hash).value.documents, admission.fields[i]);
    var schema := store.entities[request.changes[i].target.entity];
    StoredLoads(lib, schema, Serve(lib, store, request, hash).value.hash, admission.fields[i], d);
  }

  /** Entities that a commit does not name are loaded as before, under every schema. */
  lemma ServeLeaves(
    lib: Library, store: StoreSchema, request: SaveRequest, hash: Hash, admission: Admission, schema: EntitySchema,
      field: Bytes)
    requires Serve(lib, store, request, hash).Ok? && Admit(lib, store, request) == Ok(admission)
    requires field !in admission.fields && field != admission.ledger
    ensures LoadDocument(lib, schema, Serve(lib, store, request, hash).value.hash, field)
      == LoadDocument(lib, schema, hash, field)
  {
    hide Serve, Admit, LoadDocument, Outcome, Stored;
    ServedField(lib, store, request, hash, field);
    SameLook(lib, schema, hash, Serve(lib, store, request, hash).value.hash, field);
  }

  // ---- Entities that cannot be read again ----------------------------------------------------------------

  /** Every later change of a document that fails validation is refused, deletion included. */
  lemma UnreadableRefuses(lib: Library, d: Document, schema: EntitySchema, patch: EntityPatch)
    requires d.version != 0 && !ValidDocument(lib, d, schema)
    ensures Apply(lib, d, schema, patch) == Err(if patch.operation.Insert? then Conflict else InternalError)
  {
    hide ValidDocument;
  }

  /** The field holds something that `load` reports as an internal error for every entity stored there. */
  ghost predicate Refuses(lib: Library, store: StoreSchema, hash: Hash, field: Bytes) {
    && field in hash && hash[field] != []
    && forall target: EntityRef | StoredAt(lib, store, target, field) ::
         LoadDocument(lib, store.entities[target.entity], hash, field) == Err(InternalError)
  }

  predicate StoredAt(lib: Library, store: StoreSchema, target: EntityRef, field: Bytes) {
    target.entity in store.entities && ObjectField(lib, store.entities[target.entity], target) == Ok(field)
  }

  lemma {:induction false} ObjectFieldAt(lib: Library, store: StoreSchema, changes: seq<EntityPatch>, i: nat)
    requires ObjectFields(lib, store, changes).Ok? && i < |changes|
    ensures StoredAt(lib, store, changes[i].target, ObjectFields(lib, store, changes).value[i])
  {
    hide ObjectField, ValidPatch;
    if i > 0 { ObjectFieldAt(lib, store, changes[1..], i - 1); }
  }

  lemma {:induction false} LoadAllReads(order: seq<Bytes>, snapshot: Snapshot, total: nat, f: Bytes)
    requires (forall x | x in order :: x in snapshot) && LoadAll(order, snapshot, total).Ok?
    requires f in order && snapshot[f].Some? && snapshot[f].value != []
    ensures var documents := LoadAll(order, snapshot, total).value;
      Decode(snapshot[f].value).Ok? && f in documents && documents[f] == Decode(snapshot[f].value).value
    decreases order
  {
    hide Decode;
    var next := total + if snapshot[order[0]].Some? then |snapshot[order[0]].value| else 0;
    if f in order[1..] { LoadAllReads(order[1..], snapshot, next, f); }
  }

  lemma {:induction false} ApplyAllRefused(
    lib: Library, store: StoreSchema, changes: seq<EntityPatch>, fields: seq<Bytes>, documents: map<Bytes, Document>,
      f: Bytes)
    requires |fields| == |changes| && f in fields && DocumentAt(documents, f).version != 0
    requires forall i | 0 <= i < |fields| && fields[i] == f && changes[i].target.entity in store.entities ::
      !ValidDocument(lib, DocumentAt(documents, f), store.entities[changes[i].target.entity])
    ensures ApplyAll(lib, store, changes, fields, documents).Err?
  {
    hide Apply, ValidDocument;
    if changes[0].target.entity in store.entities {
      var schema := store.entities[changes[0].target.entity];
      var d := DocumentAt(documents, fields[0]);
      if fields[0] == f {
        UnreadableRefuses(lib, d, schema, changes[0]);
      } else if Apply(lib, d, schema, changes[0]).Ok? {
        forall i | 0 <= i < |fields[1..]|
          ensures fields[1..][i] == fields[i + 1] && changes[1..][i] == changes[i + 1]
        {
        }
        ApplyAllRefused(lib, store, changes[1..], fields[1..],
          documents[fields[0] := Apply(lib, d, schema, changes[0]).value], f);
      }
    }
  }

  lemma DecodedVersion(b: Bytes)
    requires Decode(b).Ok?
    ensures Decode(b).value.version != 0
  {
  }

  lemma UnreadableAt(lib: Library, store: StoreSchema, changes: seq<EntityPatch>, hash: Hash, field: Bytes)
    requires Refuses(lib, store, hash, field) && Decode(hash[field]).Ok? && ObjectFields(lib, store, changes).Ok?
    ensures var fields := ObjectFields(lib, store, changes).value;
      forall i | 0 <= i < |fields| && fields[i] == field && changes[i].target.entity in store.entities ::
        !ValidDocument(lib, Decode(hash[field]).value, store.entities[changes[i].target.entity])
  {
    hide StoredAt, Decode, ValidDocument, ObjectFields;
    var fields := ObjectFields(lib, store, changes).value;
    forall i | 0 <= i < |fields| && fields[i] == field && changes[i].target.entity in store.entities
      ensures !ValidDocument(lib, Decode(hash[field]).value, store.entities[changes[i].target.entity])
    {
      ObjectFieldAt(lib, store, changes, i);
    }
  }

  /** No request that names an unreadable entity is served. */
  lemma NeverServed(lib: Library, store: StoreSchema, request: SaveRequest, hash: Hash, admission: Admission,
      field: Bytes)
    requires Refuses(lib, store, hash, field) && Admit(lib, store, request) == Ok(admission)
    requires field in admission.fields
    ensures Serve(lib, store, request, hash).Err?
  {
    hide LoadAll, ApplyAll, Sorted, Admit, Decode, ValidDocument, StoredAt, Publish, Ledger, ObjectFields, LoadDocument;
    var order, snapshot := Sorted(FieldSet(admission.fields)), Read(hash, admission.fields);
    if LoadAll(order, snapshot, 0).Ok? {
      LoadAllReads(order, snapshot, 0, field);
      DecodedVersion(hash[field]);
      UnreadableAt(lib, store, request.changes, hash, field);
      ApplyAllRefused(lib, store, request.changes, admission.fields, LoadAll(order, snapshot, 0).value, field);
    }
  }

  // ---- Over whole runs ------------------------------------------------------------------------------------------

  lemma SameRefuses(lib: Library, store: StoreSchema, h: Hash, h': Hash, field: Bytes)
    requires Refuses(lib, store, h, field) && Look(h, field) == Look(h', field)
    ensures Refuses(lib, store, h', field)
  {
    hide LoadDocument;
    forall target: EntityRef | StoredAt(lib, store, target, field)
      ensures LoadDocument(lib, store.entities[target.entity], h', field) == Err(InternalError)
    {
      SameLook(lib, store.entities[target.entity], h, h', field);
    }
  }

  lemma ServeKeepsUnreadable(
    lib: Library, store: StoreSchema, request: SaveRequest, hash: Hash, field: Bytes, schema: EntitySchema,
      target: EntityRef)
    requires Refuses(lib, store, hash, field) && Serve(lib, store, request, hash).Ok?
    requires ObjectField(lib, schema, target) == Ok(field)
    ensures Look(Serve(lib, store, request, hash).value.hash, field) == Look(hash, field)
  {
    hide Serve, Admit, Refuses, Outcome, Stored, ObjectField;
    ServedField(lib, store, request, hash, field);
    var admission := Admit(lib, store, request).value;
    if field in admission.fields { NeverServed(lib, store, request, hash, admission, field); }
    FieldsNeverCollide(lib, schema, target, request.requestId);
  }

  lemma {:induction false} SerialPrefix(lib: Library, initial: Hash, log: seq<P.Entry>, n: nat)
    requires n <= |log| && P.SerialRun(lib, initial, log).Ok?
    ensures P.SerialRun(lib, initial, log[..n]).Ok?
  {
    hide Serve;
    if n == |log| {
      assert log[..n] == log;
    } else {
      SerialPrefix(lib, initial, log[..|log| - 1], n);
      assert log[..|log| - 1][..n] == log[..n];
    }
  }

  /** Serving more requests under schemas that refuse the field leaves it alone. */
  lemma {:induction false} SerialKeepsUnreadable(
    lib: Library, initial: Hash, log: seq<P.Entry>, n: nat, field: Bytes, schema: EntitySchema, target: EntityRef)
    requires n <= |log| && P.SerialRun(lib, initial, log).Ok? && P.SerialRun(lib, initial, log[..n]).Ok?
    requires ObjectField(lib, schema, target) == Ok(field)
    requires forall i | n <= i < |log| :: Refuses(lib, log[i].store, P.SerialRun(lib, initial, log[..n]).value, field)
    ensures Look(P.SerialRun(lib, initial, log).value, field) == Look(P.SerialRun(lib, initial, log[..n]).value, field)
  {
    hide Serve, Refuses, ObjectField, Look;
    if n == |log| {
      assert log[..n] == log;
    } else {
      var early, e := log[..|log| - 1], log[|log| - 1];
      assert early[..n] == log[..n];
      SerialKeepsUnreadable(lib, initial, early, n, field, schema, target);
      SameRefuses(lib, e.store, P.SerialRun(lib, initial, log[..n]).value, P.SerialRun(lib, initial, early).value,
        field);
      ServeKeepsUnreadable(lib, e.store, e.request, P.SerialRun(lib, initial, early).value, field, schema, target);
    }
  }

  lemma LogGrows(lib: Library, s: P.State, e: P.Event)
    ensures s.log <= P.Next(lib, s, e).log
  {
    hide P.PlanOf, P.SnapPhase, P.ReceivePhase, P.Catch, Admit, ScriptReply, ScriptHash;
  }

  lemma {:induction false} LogGrowsOver(lib: Library, s: P.State, events: seq<P.Event>)
    ensures s.log <= P.Run(lib, s, events).log
  {
    hide P.Next;
    if events != [] {
      LogGrowsOver(lib, s, events[..|events| - 1]);
      LogGrows(lib, P.Run(lib, s, events[..|events| - 1]), events[|events| - 1]);
    }
  }

  /**
   An entity that answers loads with an internal error keeps doing so: over every continuation of every
   run, as long as saves come under schemas that refuse it, its hash field never changes again.
   */
  lemma UnreadableForever(
    lib: Library, initial: Hash, events: seq<P.Event>, more: seq<P.Event>, field: Bytes, schema: EntitySchema,
      target: EntityRef)
    requires ObjectField(lib, schema, target) == Ok(field)
    requires var s := P.Run(lib, P.Start(initial), events);
      LoadDocument(lib, schema, s.hash, field) == Err(InternalError)
    requires var s := P.Run(lib, P.Start(initial), events); var later := P.Run(lib, P.Start(initial), events + more);
      forall i | |s.log| <= i < |later.log| :: Refuses(lib, later.log[i].store, s.hash, field)
    ensures var s := P.Run(lib, P.Start(initial), events); var later := P.Run(lib, P.Start(initial), events + more);
      Look(later.hash, field) == Look(s.hash, field)
        && LoadDocument(lib, schema, later.hash, field) == Err(InternalError)
  {
    hide P.Run, P.SerialRun, Refuses, ObjectField, LoadDocument, Look;
    var s, later := P.Run(lib, P.Start(initial), events), P.Run(lib, P.Start(initial), events + more);
    P.Serializable(lib, initial, events);
    P.Serializable(lib, initial, events + more);
    P.RunOn(lib, P.Start(initial), events, more);
    LogGrowsOver(lib, s, more);
    assert later.log[..|s.log|] == s.log;
    SerialKeepsUnreadable(lib, initial, later.log, |s.log|, field, schema, target);
    SameLook(lib, schema, s.hash, later.hash, field);
  }

  // ---- The failing input -------------------------------------------------------------------------------------

  const TINY := Ascii("1e-4096")

  /** Seven characters are parsed, and 4098 printed. */
  lemma TinyPrintsLong()
    ensures DT.Parse(TINY) == Ok(D.Decimal(false, [1], D.LIMIT)) && |DT.Print(DT.Parse(TINY).value)| == D.LIMIT + 2
  {
    TinyReads();
    TinyMakes();
  }

  lemma TinyMakes()
    ensures D.Make(false, D.Num([1]), D.LIMIT) == Ok(D.Decimal(false, [1], D.LIMIT))
  {
    D.NumSingle(1);
    assert D.Digits(0) == [] && D.Digits(1) == D.Digits(0) + [1] == [1];
  }

  lemma TinyReads()
    ensures DT.Read(TINY) == Some(DT.Reading(false, [1], 0, -D.LIMIT))
  {
    hide DT.Mantissa, DT.FromChars, D.Num;
    var tail := Ascii("e-4096");
    assert TINY == DT.Chars([1]) + tail;
    TinyTail(tail);
    DT.MantissaDigits([1], tail, false);
    assert [1] + [] == [1];
    TinyExponent();
    assert tail[1..] == [DT.MINUS] + DT.Chars([4, 0, 9, 6]);
  }

  lemma TinyTail(tail: Bytes)
    requires tail == Ascii("e-4096")
    ensures DT.Mantissa(tail, false) == Some(DT.Scan([], 0, tail))
  {
  }

  lemma TinyExponent()
    ensures DT.Exponent([DT.MINUS] + DT.Chars([4, 0, 9, 6])) == Some(-D.LIMIT)
  {
    hide DT.FromChars;
    DT.FromDigits([4, 0, 9, 6], -D.LIMIT, D.LIMIT);
    D.NumSingle(4);
    assert [4, 0][..1] == [4] && [4, 0, 9][..2] == [4, 0] && [4, 0, 9, 6][..3] == [4, 0, 9];
    assert D.Num([4, 0]) == 40;
    assert D.Num([4, 0, 9]) == 409;
    assert D.Num([4, 0, 9, 6]) == 4096;
  }

  /** An entity with a text key and a decimal column. */
  predicate Simple(schema: EntitySchema, key: FieldSchema, column: FieldSchema) {
    && schema.keys == [key] && schema.fields == [column] && key.column != column.column
    && key.kind.Text? && column.kind.Decimal? && column.writable && |key.column| <= 1000 && |column.column| <= 1000
  }

  /** An insert that sets the decimal column to the tiny number. */
  predicate InsertsTiny(patch: EntityPatch, key: FieldSchema, column: FieldSchema, text: Bytes) {
    && patch.operation.Insert? && !patch.checkVersion && |text| <= 1000
    && patch.target.key == [NamedValue(key.name, TextValue(text))]
    && patch.fields == [FieldPatch(Set, column.name, DecimalValue(TINY))]
  }

  function TinyFields(key: FieldSchema, column: FieldSchema, text: Bytes): map<Bytes, Value> {
    map[key.column := TextValue(text), column.column := DecimalValue(TINY)]
  }

  lemma TinyEncodable(lib: Library, text: Bytes)
    requires |text| <= 1000
    ensures Encodable(lib, DecimalValue(TINY)) && Encodable(lib, TextValue(text)) && !Rereadable(DecimalValue(TINY))
    ensures |Plain(Canon(DecimalValue(TINY)))| <= 5000 && |Plain(Canon(TextValue(text)))| <= 5000
  {
    hide DT.Parse, DT.Print, TINY;
    TinyPrintsLong();
  }

  lemma TinyApplies(lib: Library, schema: EntitySchema, patch: EntityPatch, key: FieldSchema, column: FieldSchema,
      text: Bytes)
    requires Simple(schema, key, column) && InsertsTiny(patch, key, column, text)
    ensures Apply(lib, EMPTY, schema, patch) == Ok(Document(1, TinyFields(key, column, text)))
  {
    hide Encodable, TINY, Rereadable, Plain, Canon;
    TinyEncodable(lib, text);
    var start := map[key.column := TextValue(text)];
    TinyKeys(schema, patch.target.key, key, text);
    TinyPatches(lib, schema, patch.fields, column, start);
    assert start[column.column := DecimalValue(TINY)] == TinyFields(key, column, text);
    assert ValidDocument(lib, Document(1, TinyFields(key, column, text)), schema);
  }

  lemma TinyKeys(schema: EntitySchema, keys: seq<NamedValue>, key: FieldSchema, text: Bytes)
    requires schema.keys == [key] && keys == [NamedValue(key.name, TextValue(text))]
    ensures WithKeys(schema, keys, map[]) == map[key.column := TextValue(text)]
  {
    assert keys[1..] == [];
  }

  lemma TinyPatches(lib: Library, schema: EntitySchema, patches: seq<FieldPatch>, column: FieldSchema,
      start: map<Bytes, Value>)
    requires schema.fields == [column] && column.writable
    requires patches == [FieldPatch(Set, column.name, DecimalValue(TINY))]
    ensures PatchFields(lib, schema, patches, start) == Ok(start[column.column := DecimalValue(TINY)])
  {
    hide TINY;
    assert patches[1..] == [];
  }

  lemma {:induction false} FieldsBound(columns: seq<Bytes>, fields: map<Bytes, Value>, bound: nat)
    requires forall c | c in columns :: c in fields && |Frame(c)| + |Plain(fields[c])| <= bound
    ensures |FieldsBytes(columns, fields)| <= |columns| * bound
  {
    hide Frame, Plain;
    if columns != [] {
      FieldsBound(columns[1..], fields, bound);
      assert columns[0] in columns;
      D.MulDistribute(1, |columns[1..]|, bound);
    }
  }

  lemma TinyStores(lib: Library, key: FieldSchema, column: FieldSchema, text: Bytes)
    requires key.column != column.column && |key.column| <= 1000 && |column.column| <= 1000 && |text| <= 1000
    ensures Encode(lib, Document(1, TinyFields(key, column, text))).Ok?
  {
    hide Encodable, TINY, Rereadable, Plain, Canon, FieldsBytes, Sorted;
    TinyEncodable(lib, text);
    var d := Document(1, TinyFields(key, column, text));
    var c := CanonDocument(d);
    assert c.fields.Keys == {key.column, column.column};
    assert |c.fields.Keys| == 2;
    FieldsBound(Sorted(c.fields.Keys), c.fields, 6008);
    MarkLength();
  }

  lemma MarkLength()
    ensures |ENTITY_MARK| == 15
  {
  }

  /**
   The failing family: every insert of the tiny number is applied and stored, a load then answers an
   internal error, and every later change of the stored document is refused.
   */
  lemma TinyIsLost(
    lib: Library, schema: EntitySchema, patch: EntityPatch, key: FieldSchema, column: FieldSchema, text: Bytes,
      field: Bytes,
    later: EntityPatch)
    requires Simple(schema, key, column) && InsertsTiny(patch, key, column, text)
    ensures Apply(lib, EMPTY, schema, patch).Ok? && Stored(lib, Apply(lib, EMPTY, schema, patch).value).Ok?
    ensures var d := Apply(lib, EMPTY, schema, patch).value;
      && LoadDocument(lib, schema, map[field := Stored(lib, d).value], field) == Err(InternalError)
      && Apply(lib, CanonDocument(d), schema, later) == Err(if later.operation.Insert? then Conflict else InternalError)
  {
    hide Apply, Encode, CanonDocument, ValidDocument, Rereadable, LoadDocument, TINY;
    TinyApplies(lib, schema, patch, key, column, text);
    TinyStores(lib, key, column, text);
    TinyEncodable(lib, text);
    var d := Document(1, TinyFields(key, column, text));
    AppliedSettled(lib, EMPTY, schema, patch);
    StoredLoads(lib, schema, map[field := Stored(lib, d).value], field, d);
    assert column in schema.fields && !Rereadable(Get(d.fields, column.column));
    CanonValid(lib, d, schema);
    CanonVersion(d);
    UnreadableRefuses(lib, CanonDocument(d), schema, later);
  }

  lemma CanonVersion(d: Document)
    ensures CanonDocument(d).version == d.version
  {
  }
}
