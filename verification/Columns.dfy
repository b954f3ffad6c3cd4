/**
 What `apply` does to each column of a document, said without its loops, and what a load finds of it
 after a commit.
 */
module Columns {
  import opened ByteStrings
  import opened Results
  import opened Entities
  import opened Codec
  import opened Records
  import opened Engine
  import opened Serial
  import opened Loads
  import I = Increments
  import D = Decimals
  import DT = DecimalTexts

  // ---- One column ----------------------------------------------------------------------------------

  /** Names and columns of a schema are told apart, keys included. Loading a schema checks this. */
  predicate DistinctColumns(schema: EntitySchema) {
    var all := schema.keys + schema.fields;
    forall i, j | 0 <= i < j < |all| :: all[i].name != all[j].name && all[i].column != all[j].column
  }

  predicate DistinctNames(patches: seq<FieldPatch>) {
    forall i, j | 0 <= i < j < |patches| :: patches[i].name != patches[j].name
  }

  function ValueAt(fields: map<Bytes, Value>, column: Bytes): Option<Value> {
    if column in fields then Some(fields[column]) else None
  }

  /** The number in a field of this kind after adding `delta`: integers exactly, decimals but for the known slip. */
  ghost predicate Incremented(lib: Library, kind: Kind, before: Option<Value>, delta: Value, after: Value) {
    && IsNumber(KindOf(delta)) && (before.Some? ==> KindOf(before.value) == kind)
    && match kind
       case SignedInteger => IntegerSum(lib, kind, before, delta, after)
       case UnsignedInteger => IntegerSum(lib, kind, before, delta, after)
       case Decimal => DecimalSum(lib, if before.Some? then before.value.decimal else Ascii("0"), delta, after)
       case Real =>
         && after.RealValue? && I.NumericText(lib, delta).Ok?
         && lib.addReal(if before.Some? then before.value.bits else 0, I.NumericText(lib, delta).value)
           == Some(after.bits)
       case _ => false
  }

  predicate IntegerSum(lib: Library, kind: Kind, before: Option<Value>, delta: Value, after: Value)
    requires kind.SignedInteger? || kind.UnsignedInteger?
    requires before.Some? ==> KindOf(before.value) == kind
  {
    && KindOf(after) == kind && I.IntegralDelta(lib, delta).Some?
    && I.Count(after) == (if before.Some? then I.Count(before.value) else 0) + I.IntegralDelta(lib, delta).value
  }

  ghost predicate DecimalSum(lib: Library, before: Bytes, delta: Value, after: Value) {
    && DT.Parse(before).Ok? && I.Change(lib, delta).Ok? && |DT.Print(DT.Parse(before).value)| <= D.LIMIT
    && var a, b := DT.Parse(before).value, I.Change(lib, delta).value;
       && D.Add(a, b).Ok? && after == DecimalValue(DT.Print(D.Add(a, b).value))
       && (D.IsSum(D.Add(a, b).value, a, b) <==> !D.ZeroAgainstFraction(a, b))
  }

  lemma ZeroOf(kind: Kind)
    ensures I.Zero(kind).Ok? <==> IsNumber(kind)
    ensures IsNumber(kind) ==> KindOf(I.Zero(kind).value) == kind
    ensures kind.SignedInteger? || kind.UnsignedInteger? ==> I.Count(I.Zero(kind).value) == 0
    ensures kind.Real? ==> I.Zero(kind).value.bits == 0
    ensures kind.Decimal? ==> I.Zero(kind).value.decimal == Ascii("0")
  {
  }

  /** What the field counts from: its value, or the zero of its kind. */
  function Basis(kind: Kind, before: Option<Value>): Result<Value> {
    if before.Some? then Ok(before.value) else I.Zero(kind)
  }

  lemma IncrementIs(lib: Library, kind: Kind, before: Option<Value>, delta: Value, after: Value)
    ensures (Basis(kind, before).Ok? && I.Increment(lib, Basis(kind, before).value, delta, kind) == Ok(after))
       <==> Incremented(lib, kind, before, delta, after)
  {
    hide I.Increment, I.Zero, DecimalSum, IntegerSum, I.NumericText, Ascii;
    ZeroOf(kind);
    if Basis(kind, before).Ok? {
      var start := Basis(kind, before).value;
      if !(IsNumber(kind) && IsNumber(KindOf(delta)) && KindOf(start) == kind) {
        NoIncrement(lib, start, delta, kind);
      } else if kind.SignedInteger? || kind.UnsignedInteger? {
        CountIs(lib, kind, before, start, delta, after);
      } else if kind.Decimal? {
        DecimalIs(lib, start.decimal, delta, after);
      } else {
        RealIs(lib, start.bits, delta, after);
      }
    }
  }

  lemma NoIncrement(lib: Library, start: Value, delta: Value, kind: Kind)
    requires !(IsNumber(kind) && IsNumber(KindOf(delta)) && KindOf(start) == kind)
    ensures I.Increment(lib, start, delta, kind).Err?
  {
    hide I.NumericText, DT.Parse, I.Advance;
  }

  lemma CountIs(lib: Library, kind: Kind, before: Option<Value>, start: Value, delta: Value, after: Value)
    requires (kind.SignedInteger? || kind.UnsignedInteger?) && KindOf(start) == kind && IsNumber(KindOf(delta))
    requires if before.Some? then start == before.value else I.Count(start) == 0
    ensures I.Increment(lib, start, delta, kind) == Ok(after) <==> IntegerSum(lib, kind, before, delta, after)
  {
    hide I.Increment, I.IntegralDelta;
    I.IncrementInteger(lib, start, delta, kind);
  }

  lemma DecimalIs(lib: Library, before: Bytes, delta: Value, after: Value)
    requires IsNumber(KindOf(delta))
    ensures I.Increment(lib, DecimalValue(before), delta, Kind.Decimal) == Ok(after) <==>
      DecimalSum(lib, before, delta, after)
  {
    hide I.Increment, I.Change, D.Add, D.IsSum, D.ZeroAgainstFraction, D.Normal, DT.Print, DT.Parse;
    I.IncrementDecimal(lib, before, delta);
  }

  lemma RealIs(lib: Library, before: uint64, delta: Value, after: Value)
    requires IsNumber(KindOf(delta))
    ensures I.Increment(lib, RealValue(before), delta, Kind.Real) == Ok(after) <==>
      && after.RealValue? && I.NumericText(lib, delta).Ok?
      && lib.addReal(before, I.NumericText(lib, delta).value) == Some(after.bits)
  {
    hide I.NumericText, DT.Parse, I.Advance;
  }

  // ---- The patches of a change ---------------------------------------------------------------------

  /** The patch writes this column. */
  predicate Targets(schema: EntitySchema, patch: FieldPatch, column: Bytes) {
    FindWritable(schema, patch.name).Some? && FindWritable(schema, patch.name).value.column == column
  }

  /** One patch on its column: set to the data, gone, or counted up. */
  ghost predicate FieldChanged(lib: Library, schema: EntitySchema, patch: FieldPatch, before: Option<Value>,
      after: Option<Value>)
    requires FindWritable(schema, patch.name).Some?
  {
    match patch.operation
    case Set => after == Some(patch.data)
    case Erase => after == None
    case Increment =>
      after.Some? && Incremented(lib, FindWritable(schema, patch.name).value.kind, before, patch.data, after.value)
  }

  /** A column is as the patch that writes it says, and as before if none does. */
  ghost predicate ColumnChanged(lib: Library, schema: EntitySchema, patches: seq<FieldPatch>, before: Option<Value>,
      after: Option<Value>, column: Bytes)
  {
    && (forall i | 0 <= i < |patches| && Targets(schema, patches[i], column) ::
          FieldChanged(lib, schema, patches[i], before, after))
    && ((forall i | 0 <= i < |patches| :: !Targets(schema, patches[i], column)) ==> after == before)
  }

  predicate AllWritable(schema: EntitySchema, patches: seq<FieldPatch>) {
    forall i | 0 <= i < |patches| :: FindWritable(schema, patches[i].name).Some?
  }

  lemma SameColumn(schema: EntitySchema, f: FieldSchema, g: FieldSchema)
    requires DistinctColumns(schema) && f in schema.fields && g in schema.fields && f.column == g.column
    ensures f == g
  {
    var all := schema.keys + schema.fields;
    var i :| 0 <= i < |schema.fields| && schema.fields[i] == f;
    var j :| 0 <= j < |schema.fields| && schema.fields[j] == g;
    var k := |schema.keys|;
    assert all[k + i] == f && all[k + j] == g;
  }

  /** Patches with different names write different columns. */
  lemma OneWriter(schema: EntitySchema, patches: seq<FieldPatch>, i: nat, j: nat, column: Bytes)
    requires DistinctColumns(schema) && DistinctNames(patches) && i < j < |patches|
    ensures !(Targets(schema, patches[i], column) && Targets(schema, patches[j], column))
  {
    if Targets(schema, patches[i], column) && Targets(schema, patches[j], column) {
      SameColumn(schema, FindWritable(schema, patches[i].name).value, FindWritable(schema, patches[j].name).value);
    }
  }

  lemma PatchFieldIs(lib: Library, schema: EntitySchema, patch: FieldPatch, before: map<Bytes, Value>,
      after: map<Bytes, Value>, column: Bytes)
    requires PatchField(lib, schema, patch, before) == Ok(after)
    ensures FindWritable(schema, patch.name).Some?
    ensures if Targets(schema, patch, column)
      then FieldChanged(lib, schema, patch, ValueAt(before, column), ValueAt(after, column))
      else ValueAt(after, column) == ValueAt(before, column)
  {
    hide I.Increment, I.Zero, Incremented;
    if Targets(schema, patch, column) && patch.operation.Increment? {
      IncrementIs(lib, FindWritable(schema, patch.name).value.kind, ValueAt(before, column), patch.data, after[column]);
    }
  }

  lemma PatchFieldRuns(lib: Library, schema: EntitySchema, patch: FieldPatch, before: map<Bytes, Value>,
      after: Option<Value>)
    requires FindWritable(schema, patch.name).Some?
    requires FieldChanged(lib, schema, patch, ValueAt(before, FindWritable(schema, patch.name).value.column), after)
    ensures PatchField(lib, schema, patch, before).Ok?
    ensures ValueAt(PatchField(lib, schema, patch, before).value, FindWritable(schema, patch.name).value.column)
      == after
  {
    hide I.Increment, I.Zero, Incremented;
    var f := FindWritable(schema, patch.name).value;
    if patch.operation.Increment? { IncrementIs(lib, f.kind, ValueAt(before, f.column), patch.data, after.value); }
  }

  /** The loop over the patches, for one column. */
  lemma {:induction false} PatchFieldsAt(lib: Library, schema: EntitySchema, patches: seq<FieldPatch>,
      before: map<Bytes, Value>, after: map<Bytes, Value>, column: Bytes)
    requires DistinctColumns(schema) && DistinctNames(patches)
    requires PatchFields(lib, schema, patches, before) == Ok(after)
    ensures AllWritable(schema, patches)
    ensures ColumnChanged(lib, schema, patches, ValueAt(before, column), ValueAt(after, column), column)
  {
    hide PatchField, FieldChanged, DistinctColumns;
    if patches != [] {
      var next := PatchField(lib, schema, patches[0], before).value;
      var rest := patches[1..];
      PatchFieldIs(lib, schema, patches[0], before, next, column);
      PatchFieldsAt(lib, schema, rest, next, after, column);
      assert forall i | 0 < i < |patches| :: patches[i] == rest[i - 1];
      forall i | 0 < i < |patches| ensures !(Targets(schema, patches[0], column)
        && Targets(schema, patches[i], column)) {
        OneWriter(schema, patches, 0, i, column);
      }
    }
  }

  /** Whatever has every column as the patches say is what the loop computes. */
  lemma {:induction false} PatchFieldsRun(lib: Library, schema: EntitySchema, patches: seq<FieldPatch>,
      before: map<Bytes, Value>, after: map<Bytes, Value>)
    requires DistinctColumns(schema) && DistinctNames(patches) && AllWritable(schema, patches)
    requires forall c: Bytes :: ColumnChanged(lib, schema, patches, ValueAt(before, c), ValueAt(after, c), c)
    ensures PatchFields(lib, schema, patches, before) == Ok(after)
  {
    hide PatchField, FieldChanged, DistinctColumns, ColumnChanged;
    if patches == [] {
      forall c: Bytes ensures ValueAt(before, c) == ValueAt(after, c) {
        Untouched(lib, schema, ValueAt(before, c), ValueAt(after, c), c);
      }
      SameValues(before, after);
    } else {
      var column := FindWritable(schema, patches[0].name).value.column;
      FirstChanged(lib, schema, patches, ValueAt(before, column), ValueAt(after, column), column);
      PatchFieldRuns(lib, schema, patches[0], before, ValueAt(after, column));
      var next := PatchField(lib, schema, patches[0], before).value;
      forall c: Bytes ensures ColumnChanged(lib, schema, patches[1..], ValueAt(next, c), ValueAt(after, c), c) {
        PatchFieldIs(lib, schema, patches[0], before, next, c);
        RestChanged(lib, schema, patches, ValueAt(before, c), ValueAt(next, c), ValueAt(after, c), c);
      }
      PatchFieldsRun(lib, schema, patches[1..], next, after);
    }
  }

  lemma Untouched(lib: Library, schema: EntitySchema, before: Option<Value>, after: Option<Value>, column: Bytes)
    requires ColumnChanged(lib, schema, [], before, after, column)
    ensures before == after
  {
  }

  lemma SameValues(a: map<Bytes, Value>, b: map<Bytes, Value>)
    requires forall c: Bytes :: ValueAt(a, c) == ValueAt(b, c)
    ensures a == b
  {
    forall c: Bytes ensures c in a <==> c in b { assert ValueAt(a, c) == ValueAt(b, c); }
    forall c: Bytes | c in a ensures a[c] == b[c] { assert ValueAt(a, c) == ValueAt(b, c); }
  }

  lemma FirstChanged(lib: Library, schema: EntitySchema, patches: seq<FieldPatch>, before: Option<Value>,
      after: Option<Value>, column: Bytes)
    requires patches != [] && Targets(schema, patches[0], column)
    requires ColumnChanged(lib, schema, patches, before, after, column)
    ensures FieldChanged(lib, schema, patches[0], before, after)
  {
    hide FieldChanged;
  }

  lemma RestChanged(lib: Library, schema: EntitySchema, patches: seq<FieldPatch>, before: Option<Value>,
      next: Option<Value>, after: Option<Value>, column: Bytes)
    requires DistinctColumns(schema) && DistinctNames(patches) && patches != []
    requires ColumnChanged(lib, schema, patches, before, after, column)
    requires if Targets(schema, patches[0], column) then next == after else next == before
    ensures ColumnChanged(lib, schema, patches[1..], next, after, column)
  {
    hide FieldChanged, DistinctColumns;
    var rest := patches[1..];
    forall i | 0 <= i < |rest| ensures rest[i] == patches[i + 1] {}
    forall i | 0 < i < |patches| ensures !(Targets(schema, patches[0], column) && Targets(schema, patches[i], column)) {
      OneWriter(schema, patches, 0, i, column);
    }
  }

  // ---- A whole change ----------------------------------------------------------------------------------

  /** The key value a request gives for a column. */
  function KeyValue(schema: EntitySchema, key: seq<NamedValue>, column: Bytes): Option<Value> {
    if key == [] then None
    else
      match FindField(schema.keys, key[0].name)
      case None => KeyValue(schema, key[1..], column)
      case Some(f) => if f.column == column then Some(key[0].data) else KeyValue(schema, key[1..], column)
  }

  lemma {:induction false} WithKeysAt(schema: EntitySchema, key: seq<NamedValue>, fields: map<Bytes, Value>,
      column: Bytes)
    ensures ValueAt(WithKeys(schema, key, fields), column)
         == if column in fields then Some(fields[column]) else KeyValue(schema, key, column)
    decreases key
  {
    if key != [] {
      var added := match FindField(schema.keys, key[0].name)
        case None => fields
        case Some(f) => if f.column in fields then fields else fields[f.column := key[0].data];
      WithKeysAt(schema, key[1..], added, column);
    }
  }

  /** What a column holds when the patches start: a new document has its key columns. */
  function Before(d: Document, schema: EntitySchema, patch: EntityPatch, column: Bytes): Option<Value> {
    if d.version == 0 && column !in d.fields then KeyValue(schema, patch.target.key, column)
    else ValueAt(d.fields, column)
  }

  /** The change leaves the next version, and every column as its patches say. */
  ghost predicate Changed(lib: Library, d: Document, schema: EntitySchema, patch: EntityPatch, next: Document) {
    && next.version == d.version + 1 && next.version <= INT64_MAX && ValidDocument(lib, next, schema)
    && AllWritable(schema, patch.fields)
    && forall c: Bytes ::
         ColumnChanged(lib, schema, patch.fields, Before(d, schema, patch, c), ValueAt(next.fields, c), c)
  }

  /** The document is there, or not there, as the change wants it, at the version it expects. */
  predicate Welcome(lib: Library, d: Document, schema: EntitySchema, patch: EntityPatch) {
    && (patch.checkVersion ==> patch.expectedVersion == d.version)
    && if d.version == 0 then patch.operation.Insert? || patch.createIfMissing
       else !patch.operation.Insert? && ValidDocument(lib, d, schema)
  }

  /** The fields the patches start from. */
  function BaseFields(d: Document, schema: EntitySchema, patch: EntityPatch): map<Bytes, Value> {
    if d.version == 0 then WithKeys(schema, patch.target.key, d.fields) else d.fields
  }

  lemma ApplySplits(lib: Library, d: Document, schema: EntitySchema, patch: EntityPatch, next: Document)
    ensures Apply(lib, d, schema, patch) == Ok(next) <==>
      && Welcome(lib, d, schema, patch)
      && if patch.operation.Delete? then next == EMPTY
         else && next.version == d.version + 1 && next.version <= INT64_MAX && ValidDocument(lib, next, schema)
              && PatchFields(lib, schema, patch.fields, BaseFields(d, schema, patch)) == Ok(next.fields)
  {
    hide ValidDocument, WithKeys, PatchFields;
  }

  lemma BaseAt(d: Document, schema: EntitySchema, patch: EntityPatch, column: Bytes)
    ensures ValueAt(BaseFields(d, schema, patch), column) == Before(d, schema, patch, column)
  {
    hide WithKeys, KeyValue;
    WithKeysAt(schema, patch.target.key, d.fields, column);
  }

  /** `apply` succeeds with exactly the document that has every column as the change says. */
  lemma ApplyExact(lib: Library, d: Document, schema: EntitySchema, patch: EntityPatch, next: Document)
    requires DistinctColumns(schema) && DistinctNames(patch.fields)
    ensures Apply(lib, d, schema, patch) == Ok(next) <==>
      && Welcome(lib, d, schema, patch)
      && if patch.operation.Delete? then next == EMPTY else Changed(lib, d, schema, patch, next)
  {
    hide Apply, Welcome, ValidDocument, PatchFields, BaseFields, Before, ColumnChanged, DistinctColumns;
    ApplySplits(lib, d, schema, patch, next);
    var base := BaseFields(d, schema, patch);
    forall c: Bytes ensures ValueAt(base, c) == Before(d, schema, patch, c) { BaseAt(d, schema, patch, c); }
    if PatchFields(lib, schema, patch.fields, base) == Ok(next.fields) {
      forall c: Bytes
        ensures AllWritable(schema, patch.fields)
        ensures ColumnChanged(lib, schema, patch.fields, Before(d, schema, patch, c), ValueAt(next.fields, c), c)
      {
        PatchFieldsAt(lib, schema, patch.fields, base, next.fields, c);
      }
      PatchFieldsAt(lib, schema, patch.fields, base, next.fields, []);
    } else if !patch.operation.Delete? && Changed(lib, d, schema, patch, next) {
      PatchFieldsRun(lib, schema, patch.fields, base, next.fields);
    }
  }

  /** Why a change is refused: not there, in the way or at another version, unreadable, or not a valid change. */
  lemma ApplyRefuses(lib: Library, d: Document, schema: EntitySchema, patch: EntityPatch)
    requires Apply(lib, d, schema, patch).Err?
    ensures Apply(lib, d, schema, patch).code ==
      if Welcome(lib, d, schema, patch) then InvalidRequest
      else if d.version == 0 then NotFound
      else if !patch.operation.Insert? && !ValidDocument(lib, d, schema) then InternalError
      else Conflict
  {
    hide ValidDocument, WithKeys, PatchFields;
    PatchFieldsRefuse(lib, schema, patch.fields, BaseFields(d, schema, patch));
  }

  lemma {:induction false} PatchFieldsRefuse(lib: Library, schema: EntitySchema, patches: seq<FieldPatch>,
      fields: map<Bytes, Value>)
    ensures PatchFields(lib, schema, patches, fields).Err? ==>
      PatchFields(lib, schema, patches, fields).code == InvalidRequest
  {
    hide PatchField;
    if patches != [] {
      PatchFieldRefuses(lib, schema, patches[0], fields);
      if PatchField(lib, schema, patches[0], fields).Ok? {
        PatchFieldsRefuse(lib, schema, patches[1..], PatchField(lib, schema, patches[0], fields).value);
      }
    }
  }

  lemma PatchFieldRefuses(lib: Library, schema: EntitySchema, patch: FieldPatch, fields: map<Bytes, Value>)
    ensures PatchField(lib, schema, patch, fields).Err? ==>
      PatchField(lib, schema, patch, fields).code == InvalidRequest
  {
    hide D.Add, DT.Print, DT.Parse, DT.FromChars;
    forall text: Bytes ensures DT.Parse(text).Err? ==> DT.Parse(text).code == InvalidRequest { ParseRefuses(text); }
  }

  lemma ParseRefuses(text: Bytes)
    ensures DT.Parse(text).Err? ==> DT.Parse(text).code == InvalidRequest
  {
  }

  // ---- A batch, seen from one entity -----------------------------------------------------------------

  /** One change of a request, seen from one hash field. */
  ghost predicate Turn(lib: Library, store: StoreSchema, change: EntityPatch, named: bool, d: Document, next: Document)
  {
    if !named then next == d
    else
      && change.target.entity in store.entities
      && var schema := store.entities[change.target.entity];
         && Welcome(lib, d, schema, change)
         && if change.operation.Delete? then next == EMPTY else Changed(lib, d, schema, change, next)
  }

  /** The versions of an entity through a request: from what is stored, change by change. */
  ghost predicate Lives(lib: Library, store: StoreSchema, changes: seq<EntityPatch>, fields: seq<Bytes>, field: Bytes,
      lives: seq<Document>)
    requires |fields| == |changes|
  {
    && |lives| == |changes| + 1
    && forall i | 0 <= i < |changes| :: Turn(lib, store, changes[i], fields[i] == field, lives[i], lives[i + 1])
  }

  predicate DistinctStore(store: StoreSchema) { forall e | e in store.entities :: DistinctColumns(store.entities[e]) }

  predicate DistinctChanges(changes: seq<EntityPatch>) {
    forall i | 0 <= i < |changes| :: DistinctNames(changes[i].fields)
  }

  lemma {:induction false} BatchLives(lib: Library, store: StoreSchema, changes: seq<EntityPatch>, fields: seq<Bytes>,
      documents: map<Bytes, Document>, field: Bytes) returns (lives: seq<Document>)
    requires |fields| == |changes| && DistinctStore(store) && DistinctChanges(changes)
    requires ApplyAll(lib, store, changes, fields, documents).Ok?
    ensures Lives(lib, store, changes, fields, field, lives) && lives[0] == DocumentAt(documents, field)
    ensures var batch := ApplyAll(lib, store, changes, fields, documents).value;
      && lives[|changes|] == DocumentAt(batch.documents, field)
      && |batch.entities| == |changes|
      && forall i | 0 <= i < |changes| && fields[i] == field :: batch.entities[i].version == lives[i + 1].version
  {
    hide Apply, Changed, Welcome, DistinctColumns, DistinctNames;
    var d := DocumentAt(documents, field);
    if changes == [] {
      lives := [d];
    } else {
      var schema := store.entities[changes[0].target.entity];
      var next := Apply(lib, DocumentAt(documents, fields[0]), schema, changes[0]).value;
      var later := documents[fields[0] := next];
      ApplyExact(lib, DocumentAt(documents, fields[0]), schema, changes[0], next);
      var rest := BatchLives(lib, store, changes[1..], fields[1..], later, field);
      lives := [d] + rest;
      assert Turn(lib, store, changes[0], fields[0] == field, d, rest[0]);
      LivesCons(lib, store, changes, fields, field, d, rest);
    }
  }

  lemma LivesCons(lib: Library, store: StoreSchema, changes: seq<EntityPatch>, fields: seq<Bytes>, field: Bytes,
      d: Document, rest: seq<Document>)
    requires |fields| == |changes| && changes != [] && Lives(lib, store, changes[1..], fields[1..], field, rest)
    requires Turn(lib, store, changes[0], fields[0] == field, d, rest[0])
    ensures Lives(lib, store, changes, fields, field, [d] + rest)
  {
    hide Turn;
    var lives := [d] + rest;
    forall i | 0 <= i < |changes| ensures Turn(lib, store, changes[i], fields[i] == field, lives[i], lives[i + 1]) {
      if i > 0 {
        assert changes[i] == changes[1..][i - 1] && fields[i] == fields[1..][i - 1];
        assert lives[i] == rest[i - 1] && lives[i + 1] == rest[i];
      }
    }
  }

  /** What the hash holds for a field, as a document. */
  function Held(hash: Hash, field: Bytes): Document {
    if field in hash && hash[field] != [] && Decode(hash[field]).Ok? then Decode(hash[field]).value else EMPTY
  }

  lemma {:induction false} LoadedHeld(order: seq<Bytes>, snapshot: Snapshot, total: nat, hash: Hash, field: Bytes)
    requires (forall f | f in order :: f in snapshot && snapshot[f] == Look(hash, f)) && field in order
    requires LoadAll(order, snapshot, total).Ok?
    ensures DocumentAt(LoadAll(order, snapshot, total).value, field) == Held(hash, field)
  {
    hide Decode;
    var next := total + if snapshot[order[0]].Some? then |snapshot[order[0]].value| else 0;
    if field in order[1..] {
      LoadedHeld(order[1..], snapshot, next, hash, field);
    } else if LoadAll(order[1..], snapshot, next).Ok? {
      NotLoaded(order[1..], snapshot, next, field);
    }
  }

  lemma {:induction false} NotLoaded(order: seq<Bytes>, snapshot: Snapshot, total: nat, field: Bytes)
    requires (forall f | f in order :: f in snapshot) && field !in order && LoadAll(order, snapshot, total).Ok?
    ensures field !in LoadAll(order, snapshot, total).value
  {
    hide Decode;
    if order != [] {
      NotLoaded(order[1..], snapshot, total + if snapshot[order[0]].Some? then |snapshot[order[0]].value|
        else 0, field);
    }
  }

  lemma AdmittedNames(lib: Library, store: StoreSchema, request: SaveRequest)
    requires Admit(lib, store, request).Ok?
    ensures DistinctChanges(request.changes)
  {
    hide ObjectFields, Signature, LedgerField;
    forall i | 0 <= i < |request.changes| ensures DistinctNames(request.changes[i].fields) {
      assert request.changes[i] in request.changes;
    }
  }

  lemma OutcomeLives(lib: Library, store: StoreSchema, request: SaveRequest, admission: Admission, hash: Hash,
      field: Bytes) returns (lives: seq<Document>)
    requires |admission.fields| == |request.changes| && DistinctStore(store) && DistinctChanges(request.changes)
    requires Outcome(lib, store, request, admission, hash).Ok? && field in admission.fields
    ensures Lives(lib, store, request.changes, admission.fields, field, lives) && lives[0] == Held(hash, field)
    ensures var batch := Outcome(lib, store, request, admission, hash).value;
      && lives[|request.changes|] == DocumentAt(batch.documents, field) && |batch.entities| == |request.changes|
      && forall i | 0 <= i < |request.changes| && admission.fields[i] == field ::
           batch.entities[i].version == lives[i + 1].version
  {
    hide LoadAll, ApplyAll, Sorted, Lives, Held;
    var order, snapshot := Sorted(FieldSet(admission.fields)), Read(hash, admission.fields);
    var documents := LoadAll(order, snapshot, 0).value;
    LoadedHeld(order, snapshot, 0, hash, field);
    lives := BatchLives(lib, store, request.changes, admission.fields, documents, field);
  }

  lemma ServedEntities(lib: Library, store: StoreSchema, request: SaveRequest, hash: Hash, admission: Admission)
    requires Serve(lib, store, request, hash).Ok? && Admit(lib, store, request) == Ok(admission)
    ensures Outcome(lib, store, request, admission, hash).Ok?
    ensures Serve(lib, store, request, hash).value.entities
      == Outcome(lib, store, request, admission, hash).value.entities
  {
    hide Outcome, Admit, Publish, Ledger, FieldSet;
    var batch := Outcome(lib, store, request, admission, hash);
    assert batch.Ok?;
  }

  /**
   A committed request and the next load of an entity it changed: what was stored lives through the
   request's changes of it, each exactly as the change says, the request reports these versions, and
   the load finds the last of them in canonical form, if it can be read.
   */
  lemma CommitThenLoad(lib: Library, store: StoreSchema, request: SaveRequest, hash: Hash, admission: Admission, i: nat)
      returns (lives: seq<Document>)
    requires Serve(lib, store, request, hash).Ok? && Admit(lib, store, request) == Ok(admission)
    requires LastAt(admission.fields, i) && DistinctStore(store)
    ensures var served := Serve(lib, store, request, hash).value; var field := admission.fields[i];
      && Lives(lib, store, request.changes, admission.fields, field, lives) && lives[0] == Held(hash, field)
      && |served.entities| == |request.changes|
      && (forall j | 0 <= j < |request.changes| && admission.fields[j] == field ::
            served.entities[j].version == lives[j + 1].version)
      && request.changes[i].target.entity in store.entities
      && var schema, d := store.entities[request.changes[i].target.entity], lives[|request.changes|];
         LoadDocument(lib, schema, served.hash, field)
         == if d.version == 0 then Err(NotFound)
            else if |d.fields| <= MAX_FIELDS && Rereads(d, schema) then Ok(CanonDocument(d)) else Err(InternalError)
  {
    hide Outcome, Admit, Lives, Held, LoadDocument, Rereads, CanonDocument, Serve, DistinctStore;
    AdmittedNames(lib, store, request);
    ServeStores(lib, store, request, hash, admission, i);
    ServedEntities(lib, store, request, hash, admission);
    lives := OutcomeLives(lib, store, request, admission, hash, admission.fields[i]);
  }
}
