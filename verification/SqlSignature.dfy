/** `request_signature`, `encode_versions` and `decode_versions` of the SQL entity store. */
module SqlSignature {
  import opened ByteStrings
  import opened Results
  import opened DecimalTexts
  import opened Entities
  import opened Codec
  import opened Records
  import opened Increments

  const COLON: byte := 58
  const COMMA: byte := 44
  const ONE: Bytes := [49]
  const ZERO_TEXT: Bytes := [48]

  // ---- Tokens ----------------------------------------------------------------------

  /** Length in decimal, a colon, the content. */
  function Token(text: Bytes): Bytes { ToChars(|text|) + [COLON] + text }

  function Flat(tokens: seq<Bytes>): Bytes {
    if tokens == [] then [] else Token(tokens[0]) + Flat(tokens[1..])
  }

  lemma ToCharsInjective(m: int, n: int)
    requires ToChars(m) == ToChars(n)
    ensures m == n
  {
    hide ToChars, FromChars;
    var high: int := Abs(m) + Abs(n);
    var low := -high;
    FromToChars(m, low, high);
    FromToChars(n, low, high);
  }

  function Abs(n: int): nat { if n < 0 then -n else n }

  lemma ToCharsDigits(n: nat)
    ensures ToChars(n) != [] && AllDigits(ToChars(n))
  {
    hide FromChars;
    var low, high := 0, n;
    FromToChars(n, low, high);
    assert FromChars(ToChars(n), 0, n) == Some(n);
    NatChars(ToChars(n), n);
  }

  lemma NatChars(text: Bytes, n: nat)
    requires FromChars(text, 0, n) == Some(n)
    ensures text != [] && AllDigits(text)
  {
  }

  /** Texts without the separator in front of a separator are determined by the whole. */
  lemma SplitCancel(x: Bytes, y: Bytes, mark: byte, r: Bytes, s: Bytes)
    requires mark !in x && mark !in y && x + [mark] + r == y + [mark] + s
    ensures x == y && r == s
  {
    var a, b := x + [mark] + r, y + [mark] + s;
    assert a[|x|] == mark && b[|y|] == mark;
    assert forall i | 0 <= i < |y| :: b[i] == y[i] != mark;
    assert forall i | 0 <= i < |x| :: a[i] == x[i] != mark;
    assert x == a[..|x|] && y == b[..|y|];
    assert r == a[|x| + 1..] && s == b[|y| + 1..];
  }

  lemma TokenCancel(a: Bytes, b: Bytes, r: Bytes, s: Bytes)
    requires Token(a) + r == Token(b) + s
    ensures a == b && r == s
  {
    hide ToChars;
    ToCharsDigits(|a|);
    ToCharsDigits(|b|);
    assert Token(a) + r == ToChars(|a|) + [COLON] + (a + r);
    assert Token(b) + s == ToChars(|b|) + [COLON] + (b + s);
    SplitCancel(ToChars(|a|), ToChars(|b|), COLON, a + r, b + s);
    ToCharsInjective(|a|, |b|);
    assert a == (a + r)[..|a|] && r == (a + r)[|a|..];
    assert b == (b + s)[..|b|] && s == (b + s)[|b|..];
  }

  /** A concatenation of tokens determines the tokens. */
  lemma {:induction false} FlatInjective(a: seq<Bytes>, b: seq<Bytes>)
    requires Flat(a) == Flat(b)
    ensures a == b
  {
    hide ToChars;
    if a != [] && b != [] {
      TokenCancel(a[0], b[0], Flat(a[1..]), Flat(b[1..]));
      FlatInjective(a[1..], b[1..]);
      assert a == [a[0]] + a[1..] && b == [b[0]] + b[1..];
    }
  }

  lemma {:induction false} FlatAppend(a: seq<Bytes>, b: seq<Bytes>)
    ensures Flat(a + b) == Flat(a) + Flat(b)
  {
    hide Token;
    if a == [] {
      assert a + b == b;
    } else {
      FlatAppend(a[1..], b);
      assert (a + b)[1..] == a[1..] + b && (a + b)[0] == a[0];
      Associate(Token(a[0]), Flat(a[1..]), Flat(b));
    }
  }

  lemma Associate(a: Bytes, b: Bytes, c: Bytes)
    ensures a + (b + c) == (a + b) + c
  {
  }

  lemma FlatEmpty()
    ensures Flat([]) == []
  {
  }

  // ---- The token list of a request ---------------------------------------------------

  /** How a double is printed: with 17 significant digits in the classic locale. */
  type Printer = uint64 -> Bytes

  predicate Nan(bits: uint64) { !Finite(bits) && bits % MANTISSA != 0 }

  /** Seventeen digits tell every number from every other pattern. Only patterns of NaN print alike. */
  ghost predicate Faithful(printer: Printer) {
    forall x: uint64, y: uint64 | !Nan(x) && printer(x) == printer(y) :: x == y
  }

  function Bit(b: bool): Bytes { if b then ONE else ZERO_TEXT }

  function Content(printer: Printer, v: Value): Bytes {
    match v
    case NullValue => []
    case BooleanValue(b) => Bit(b)
    case SignedValue(n) => ToChars(n)
    case UnsignedValue(n) => ToChars(n)
    case RealValue(bits) => printer(bits)
    case DecimalValue(t) => t
    case TextValue(t) => t
    case JsonValue(t) => t
    case BlobValue(t) => t
  }

  function ValueTokens(printer: Printer, v: Value): (r: seq<Bytes>)
    ensures |r| == 2
  {
    [ToChars(Tag(KindOf(v))), Content(printer, v)]
  }

  function KeyTokens(printer: Printer, keys: seq<NamedValue>): seq<Bytes> {
    if keys == [] then [] else [keys[0].name] + ValueTokens(printer, keys[0].data) + KeyTokens(printer, keys[1..])
  }

  function FieldTokens(printer: Printer, fields: seq<FieldPatch>): seq<Bytes> {
    if fields == [] then []
    else
      [ToChars(OpByte(fields[0].operation)), fields[0].name] + ValueTokens(printer, fields[0].data)
      + FieldTokens(printer, fields[1..])
  }

  function HeadTokens(c: EntityPatch): (r: seq<Bytes>)
    ensures |r| == 4
  {
    [c.target.store, c.target.partition, c.target.entity, ToChars(|c.target.key|)]
  }

  function GuardTokens(c: EntityPatch): (r: seq<Bytes>)
    ensures |r| == 4
  {
    [Bit(c.createIfMissing), Bit(c.checkVersion), ToChars(c.expectedVersion), ToChars(|c.fields|)]
  }

  function ChangeTokens(printer: Printer, c: EntityPatch): seq<Bytes> {
    HeadTokens(c) + (KeyTokens(printer, c.target.key) + (GuardTokens(c) + FieldTokens(printer, c.fields)))
  }

  function ChangesTokens(printer: Printer, changes: seq<EntityPatch>): seq<Bytes> {
    if changes == [] then [] else ChangeTokens(printer, changes[0]) + ChangesTokens(printer, changes[1..])
  }

  function OperationTokens(changes: seq<EntityPatch>): (r: seq<Bytes>)
    ensures |r| == |changes|
    ensures forall i | 0 <= i < |r| :: r[i] == ToChars(OperationByte(changes[i].operation))
  {
    if changes == [] then [] else [ToChars(OperationByte(changes[0].operation))] + OperationTokens(changes[1..])
  }

  /** Requests of legacy patches alone keep the signature they had before operations existed. */
  function StrictTokens(changes: seq<EntityPatch>): seq<Bytes> {
    if AnyStrict(changes) then [STRICT_MARK] + OperationTokens(changes) else []
  }

  function RequestTokens(printer: Printer, changes: seq<EntityPatch>): seq<Bytes> {
    [ToChars(|changes|)] + (ChangesTokens(printer, changes) + StrictTokens(changes))
  }

  function RequestSignature(printer: Printer, changes: seq<EntityPatch>): Bytes {
    Flat(RequestTokens(printer, changes))
  }

  // ---- Requests that print alike ---------------------------------------------------------

  predicate SameValue(printer: Printer, v: Value, w: Value) {
    v == w || (v.RealValue? && w.RealValue? && printer(v.bits) == printer(w.bits))
  }

  predicate SameKeys(printer: Printer, a: seq<NamedValue>, b: seq<NamedValue>) {
    |a| == |b| && forall i | 0 <= i < |a| :: a[i].name == b[i].name && SameValue(printer, a[i].data, b[i].data)
  }

  predicate SameFields(printer: Printer, a: seq<FieldPatch>, b: seq<FieldPatch>) {
    |a| == |b| && forall i | 0 <= i < |a| ::
      a[i].name == b[i].name && a[i].operation == b[i].operation && SameValue(printer, a[i].data, b[i].data)
  }

  predicate SameChange(printer: Printer, c: EntityPatch, d: EntityPatch) {
    && c == d.(target := d.target.(key := c.target.key), fields := c.fields)
    && SameKeys(printer, c.target.key, d.target.key) && SameFields(printer, c.fields, d.fields)
  }

  predicate SameChanges(printer: Printer, a: seq<EntityPatch>, b: seq<EntityPatch>) {
    |a| == |b| && forall i | 0 <= i < |a| :: SameChange(printer, a[i], b[i])
  }

  // ---- Injectivity ---------------------------------------------------------------------

  /** Token lists of equal length in front of token lists. */
  lemma ListCancel(a: seq<Bytes>, b: seq<Bytes>, r: seq<Bytes>, s: seq<Bytes>)
    requires |a| == |b| && a + r == b + s
    ensures a == b && r == s
  {
    assert a == (a + r)[..|a|] && r == (a + r)[|a|..];
    assert b == (b + s)[..|b|] && s == (b + s)[|b|..];
  }

  lemma TagInjective(j: Kind, k: Kind)
    requires Tag(j) == Tag(k)
    ensures j == k
  {
  }

  lemma BitInjective(a: bool, b: bool)
    requires Bit(a) == Bit(b)
    ensures a == b
  {
    assert ONE[0] != ZERO_TEXT[0];
  }

  lemma ValueTokensSame(printer: Printer, v: Value, w: Value)
    ensures ValueTokens(printer, v) == ValueTokens(printer, w) <==> SameValue(printer, v, w)
  {
    hide ToChars, Tag, Bit;
    if ValueTokens(printer, v) == ValueTokens(printer, w) {
      assert ToChars(Tag(KindOf(v))) == ValueTokens(printer, w)[0];
      assert Content(printer, v) == ValueTokens(printer, w)[1];
      ToCharsInjective(Tag(KindOf(v)), Tag(KindOf(w)));
      TagInjective(KindOf(v), KindOf(w));
      match v
      case BooleanValue(b) => BitInjective(b, w.flag);
      case SignedValue(n) => ToCharsInjective(n, w.signed);
      case UnsignedValue(n) => ToCharsInjective(n, w.unsigned);
      case _ =>
    }
  }

  lemma {:induction false} KeyTokensCancel(
    printer: Printer, a: seq<NamedValue>, b: seq<NamedValue>, r: seq<Bytes>, s: seq<Bytes>)
    requires |a| == |b| && KeyTokens(printer, a) + r == KeyTokens(printer, b) + s
    ensures SameKeys(printer, a, b) && r == s
  {
    hide ValueTokens, SameValue;
    if a == [] {
      ListCancel([], [], r, s);
    } else {
      var h, g := [a[0].name] + ValueTokens(printer, a[0].data), [b[0].name] + ValueTokens(printer, b[0].data);
      var x, y := KeyTokens(printer, a[1..]) + r, KeyTokens(printer, b[1..]) + s;
      assert KeyTokens(printer, a) + r == h + x && KeyTokens(printer, b) + s == g + y;
      ListCancel(h, g, x, y);
      assert ValueTokens(printer, a[0].data) == h[1..] && ValueTokens(printer, b[0].data) == g[1..];
      assert a[0].name == h[0] && b[0].name == g[0];
      ValueTokensSame(printer, a[0].data, b[0].data);
      KeyTokensCancel(printer, a[1..], b[1..], r, s);
      assert forall i | 1 <= i < |a| :: a[i] == a[1..][i - 1] && b[i] == b[1..][i - 1];
    }
  }

  lemma {:induction false} KeyTokensSame(printer: Printer, a: seq<NamedValue>, b: seq<NamedValue>)
    requires SameKeys(printer, a, b)
    ensures KeyTokens(printer, a) == KeyTokens(printer, b)
  {
    hide ValueTokens, SameValue;
    if a != [] {
      ValueTokensSame(printer, a[0].data, b[0].data);
      KeyTokensSame(printer, a[1..], b[1..]);
    }
  }

  lemma OpInjective(a: PatchOp, b: PatchOp)
    requires ToChars(OpByte(a)) == ToChars(OpByte(b))
    ensures a == b
  {
    hide ToChars;
    ToCharsInjective(OpByte(a), OpByte(b));
  }

  lemma OperationInjective(a: Operation, b: Operation)
    requires ToChars(OperationByte(a)) == ToChars(OperationByte(b))
    ensures a == b
  {
    hide ToChars;
    ToCharsInjective(OperationByte(a), OperationByte(b));
  }

  lemma {:induction false} FieldTokensCancel(
    printer: Printer, a: seq<FieldPatch>, b: seq<FieldPatch>, r: seq<Bytes>, s: seq<Bytes>)
    requires |a| == |b| && FieldTokens(printer, a) + r == FieldTokens(printer, b) + s
    ensures SameFields(printer, a, b) && r == s
  {
    hide ValueTokens, ToChars, OpByte, SameValue;
    if a == [] {
      ListCancel([], [], r, s);
    } else {
      var h := [ToChars(OpByte(a[0].operation)), a[0].name] + ValueTokens(printer, a[0].data);
      var g := [ToChars(OpByte(b[0].operation)), b[0].name] + ValueTokens(printer, b[0].data);
      var x, y := FieldTokens(printer, a[1..]) + r, FieldTokens(printer, b[1..]) + s;
      assert FieldTokens(printer, a) + r == h + x && FieldTokens(printer, b) + s == g + y;
      ListCancel(h, g, x, y);
      assert ValueTokens(printer, a[0].data) == h[2..] && ValueTokens(printer, b[0].data) == g[2..];
      assert a[0].name == h[1] && b[0].name == g[1];
      assert ToChars(OpByte(a[0].operation)) == h[0] && ToChars(OpByte(b[0].operation)) == g[0];
      ValueTokensSame(printer, a[0].data, b[0].data);
      OpInjective(a[0].operation, b[0].operation);
      FieldTokensCancel(printer, a[1..], b[1..], r, s);
      assert forall i | 1 <= i < |a| :: a[i] == a[1..][i - 1] && b[i] == b[1..][i - 1];
    }
  }

  lemma {:induction false} FieldTokensSame(printer: Printer, a: seq<FieldPatch>, b: seq<FieldPatch>)
    requires SameFields(printer, a, b)
    ensures FieldTokens(printer, a) == FieldTokens(printer, b)
  {
    hide ValueTokens, ToChars, OpByte, SameValue;
    if a != [] {
      ValueTokensSame(printer, a[0].data, b[0].data);
      FieldTokensSame(printer, a[1..], b[1..]);
    }
  }

  lemma HeadInjective(c: EntityPatch, d: EntityPatch)
    requires HeadTokens(c) == HeadTokens(d)
    ensures c.target == d.target.(key := c.target.key) && |c.target.key| == |d.target.key|
  {
    hide ToChars;
    var h, g := HeadTokens(c), HeadTokens(d);
    assert h[0] == g[0] && h[1] == g[1] && h[2] == g[2] && h[3] == g[3];
    ToCharsInjective(|c.target.key|, |d.target.key|);
  }

  lemma GuardInjective(c: EntityPatch, d: EntityPatch)
    requires GuardTokens(c) == GuardTokens(d)
    ensures c.createIfMissing == d.createIfMissing && c.checkVersion == d.checkVersion
    ensures c.expectedVersion == d.expectedVersion && |c.fields| == |d.fields|
  {
    hide ToChars, Bit;
    var h, g := GuardTokens(c), GuardTokens(d);
    assert h[0] == g[0] && h[1] == g[1] && h[2] == g[2] && h[3] == g[3];
    BitInjective(c.createIfMissing, d.createIfMissing);
    BitInjective(c.checkVersion, d.checkVersion);
    ToCharsInjective(c.expectedVersion, d.expectedVersion);
    ToCharsInjective(|c.fields|, |d.fields|);
  }

  /** A change is determined but for its operation. */
  lemma ChangeTokensCancel(printer: Printer, c: EntityPatch, d: EntityPatch, r: seq<Bytes>, s: seq<Bytes>)
    requires ChangeTokens(printer, c) + r == ChangeTokens(printer, d) + s
    ensures SameChange(printer, c, d.(operation := c.operation)) && r == s
  {
    hide SameKeys, SameFields, HeadTokens, KeyTokens, GuardTokens, FieldTokens;
    var fc, fd := FieldTokens(printer, c.fields) + r, FieldTokens(printer, d.fields) + s;
    var gc, gd := GuardTokens(c) + fc, GuardTokens(d) + fd;
    var kc, kd := KeyTokens(printer, c.target.key) + gc, KeyTokens(printer, d.target.key) + gd;
    assert ChangeTokens(printer, c) + r == HeadTokens(c) + kc;
    assert ChangeTokens(printer, d) + s == HeadTokens(d) + kd;
    ListCancel(HeadTokens(c), HeadTokens(d), kc, kd);
    HeadInjective(c, d);
    KeyTokensCancel(printer, c.target.key, d.target.key, gc, gd);
    ListCancel(GuardTokens(c), GuardTokens(d), fc, fd);
    GuardInjective(c, d);
    FieldTokensCancel(printer, c.fields, d.fields, r, s);
  }

  lemma {:induction false} ChangesTokensSame(printer: Printer, a: seq<EntityPatch>, b: seq<EntityPatch>)
    requires SameChanges(printer, a, b)
    ensures ChangesTokens(printer, a) == ChangesTokens(printer, b) && OperationTokens(a) == OperationTokens(b)
    ensures AnyStrict(a) == AnyStrict(b)
  {
    hide HeadTokens, KeyTokens, GuardTokens, FieldTokens, SameKeys, SameFields, OperationByte, ToChars;
    forall i | 0 <= i < |a| ensures a[i].operation == b[i].operation { assert SameChange(printer, a[i], b[i]); }
    StrictFollows(a, b);
    StrictFollows(b, a);
    if a != [] {
      assert SameChange(printer, a[0], b[0]);
      KeyTokensSame(printer, a[0].target.key, b[0].target.key);
      FieldTokensSame(printer, a[0].fields, b[0].fields);
      assert HeadTokens(a[0]) == HeadTokens(b[0])
        && GuardTokens(a[0]) == GuardTokens(b[0]) by { SameHead(printer, a[0], b[0]); }
      ChangesTokensSame(printer, a[1..], b[1..]);
    }
  }

  lemma StrictFollows(a: seq<EntityPatch>, b: seq<EntityPatch>)
    requires |a| == |b| && forall i | 0 <= i < |a| :: a[i].operation == b[i].operation
    ensures AnyStrict(a) ==> AnyStrict(b)
  {
    if AnyStrict(a) {
      var c :| c in a && !c.operation.LegacyPatch?;
      var i :| 0 <= i < |a| && a[i] == c;
      assert b[i] in b;
    }
  }

  lemma SameHead(printer: Printer, c: EntityPatch, d: EntityPatch)
    requires SameChange(printer, c, d)
    ensures HeadTokens(c) == HeadTokens(d) && GuardTokens(c) == GuardTokens(d)
  {
    hide ToChars, Bit, SameValue;
  }

  lemma {:induction false} ChangesTokensCancel(printer: Printer, a: seq<EntityPatch>, b: seq<EntityPatch>,
      r: seq<Bytes>, s: seq<Bytes>)
    requires |a| == |b| && ChangesTokens(printer, a) + r == ChangesTokens(printer, b) + s
    ensures r == s && forall i | 0 <= i < |a| :: SameChange(printer, a[i], b[i].(operation := a[i].operation))
  {
    hide ChangeTokens, SameChange;
    if a == [] {
      ListCancel([], [], r, s);
    } else {
      var x, y := ChangesTokens(printer, a[1..]) + r, ChangesTokens(printer, b[1..]) + s;
      assert ChangesTokens(printer, a) + r == ChangeTokens(printer, a[0]) + x;
      assert ChangesTokens(printer, b) + s == ChangeTokens(printer, b[0]) + y;
      ChangeTokensCancel(printer, a[0], b[0], x, y);
      ChangesTokensCancel(printer, a[1..], b[1..], r, s);
      assert forall i | 1 <= i < |a| :: a[i] == a[1..][i - 1] && b[i] == b[1..][i - 1];
    }
  }

  lemma StrictInjective(a: seq<EntityPatch>, b: seq<EntityPatch>)
    requires |a| == |b| && StrictTokens(a) == StrictTokens(b)
    ensures forall i | 0 <= i < |a| :: a[i].operation == b[i].operation
  {
    hide ToChars, OperationByte;
    if AnyStrict(a) {
      assert StrictTokens(a) != [];
      assert OperationTokens(a) == StrictTokens(a)[1..] && OperationTokens(b) == StrictTokens(b)[1..];
      forall i | 0 <= i < |a| ensures a[i].operation == b[i].operation {
        assert OperationTokens(a)[i] == OperationTokens(b)[i];
        OperationInjective(a[i].operation, b[i].operation);
      }
    } else {
      assert StrictTokens(b) == [];
      forall i | 0 <= i < |a| ensures a[i].operation == b[i].operation {
        assert a[i] in a && b[i] in b;
      }
    }
  }

  /** Equal signatures mean equal change lists, operations included, but for doubles that print alike. */
  lemma SignatureExact(printer: Printer, a: seq<EntityPatch>, b: seq<EntityPatch>)
    ensures RequestSignature(printer, a) == RequestSignature(printer, b) <==> SameChanges(printer, a, b)
  {
    hide Flat, ToChars, ChangesTokens, StrictTokens, SameChange;
    if RequestSignature(printer, a) == RequestSignature(printer, b) {
      FlatInjective(RequestTokens(printer, a), RequestTokens(printer, b));
      var x, y := ChangesTokens(printer, a) + StrictTokens(a), ChangesTokens(printer, b) + StrictTokens(b);
      ListCancel([ToChars(|a|)], [ToChars(|b|)], x, y);
      assert [ToChars(|a|)][0] == [ToChars(|b|)][0];
      ToCharsInjective(|a|, |b|);
      ChangesTokensCancel(printer, a, b, StrictTokens(a), StrictTokens(b));
      StrictInjective(a, b);
      forall i | 0 <= i < |a| ensures SameChange(printer, a[i], b[i]) {
        assert SameChange(printer, a[i], b[i].(operation := a[i].operation)) && a[i].operation == b[i].operation;
      }
    }
    if SameChanges(printer, a, b) {
      ChangesTokensSame(printer, a, b);
      assert StrictTokens(a) == StrictTokens(b) by { StrictSame(a, b); }
    }
  }

  lemma StrictSame(a: seq<EntityPatch>, b: seq<EntityPatch>)
    requires OperationTokens(a) == OperationTokens(b) && AnyStrict(a) == AnyStrict(b)
    ensures StrictTokens(a) == StrictTokens(b)
  {
    hide OperationTokens;
  }

  predicate FreeOfNan(changes: seq<EntityPatch>) {
    forall i | 0 <= i < |changes| ::
      && (forall k | 0 <= k < |changes[i].target.key| :: NotNan(changes[i].target.key[k].data))
      && (forall f | 0 <= f < |changes[i].fields| :: NotNan(changes[i].fields[f].data))
  }

  predicate NotNan(v: Value) { v.RealValue? ==> !Nan(v.bits) }

  lemma SameIsEqual(printer: Printer, a: seq<EntityPatch>, b: seq<EntityPatch>)
    requires Faithful(printer) && FreeOfNan(a) && SameChanges(printer, a, b)
    ensures a == b
  {
    hide Nan;
    forall i | 0 <= i < |a| ensures a[i] == b[i] {
      assert SameChange(printer, a[i], b[i]);
      forall k | 0 <= k < |a[i].target.key| ensures a[i].target.key[k] == b[i].target.key[k] {
        assert NotNan(a[i].target.key[k].data);
        assert SameValue(printer, a[i].target.key[k].data, b[i].target.key[k].data);
      }
      forall f | 0 <= f < |a[i].fields| ensures a[i].fields[f] == b[i].fields[f] {
        assert NotNan(a[i].fields[f].data);
        assert SameValue(printer, a[i].fields[f].data, b[i].fields[f].data);
      }
    }
  }

  /** A request free of NaN shares its signature with no other request at all. */
  lemma SignatureInjective(printer: Printer, a: seq<EntityPatch>, b: seq<EntityPatch>)
    requires Faithful(printer) && FreeOfNan(a)
    ensures RequestSignature(printer, a) == RequestSignature(printer, b) <==> a == b
  {
    hide RequestSignature, SameChanges, FreeOfNan;
    SignatureExact(printer, a, b);
    if SameChanges(printer, a, b) { SameIsEqual(printer, a, b); }
  }

  /** Two patterns that print alike, as those of NaN do, give different requests one signature. */
  lemma NanSignaturesMeet(printer: Printer, change: EntityPatch, name: Bytes, x: uint64, y: uint64)
    requires printer(x) == printer(y) && x != y
    ensures var a := change.(fields := [FieldPatch(PatchOp.Set, name, RealValue(x))]);
      var b := change.(fields := [FieldPatch(PatchOp.Set, name, RealValue(y))]);
      a != b && RequestSignature(printer, [a]) == RequestSignature(printer, [b])
  {
    hide RequestSignature;
    var a := change.(fields := [FieldPatch(PatchOp.Set, name, RealValue(x))]);
    var b := change.(fields := [FieldPatch(PatchOp.Set, name, RealValue(y))]);
    SignatureExact(printer, [a], [b]);
    assert a.fields[0].data != b.fields[0].data;
    assert SameChange(printer, a, b);
  }

  // ---- Loops -------------------------------------------------------------------------------

  /** The `token` closure: appends to the string being built. */
  class Signer {
    var text: Bytes

    constructor ()
      ensures text == []
    {
      text := [];
    }

    method Add(content: Bytes)
      modifies this
      ensures text == old(text) + Token(content)
    {
      text := text + ToChars(|content|) + [COLON];
      text := text + content;
    }

    method AddAll(tokens: seq<Bytes>)
      modifies this
      ensures text == old(text) + Flat(tokens)
    {
      hide Token;
      var i := 0;
      while i < |tokens|
        invariant 0 <= i <= |tokens|
        invariant text == old(text) + Flat(tokens[..i])
      {
        FlatAppend(tokens[..i], [tokens[i]]);
        assert tokens[..i + 1] == tokens[..i] + [tokens[i]];
        assert Flat([tokens[i]]) == Token(tokens[i]);
        Add(tokens[i]);
        i := i + 1;
      }
      assert tokens[..i] == tokens;
    }

    method AddChange(printer: Printer, c: EntityPatch)
      modifies this
      ensures text == old(text) + Flat(ChangeTokens(printer, c))
    {
      hide Flat, HeadTokens, GuardTokens, ValueTokens, ToChars;
      var head, guards := HeadTokens(c), GuardTokens(c);
      ghost var keys, fields := KeyTokens(printer, c.target.key), FieldTokens(printer, c.fields);
      FlatAppend(head, keys + (guards + fields));
      FlatAppend(keys, guards + fields);
      FlatAppend(guards, fields);
      AddAll(head);
      AddKeys(printer, c.target.key);
      AddAll(guards);
      AddFields(printer, c.fields);
    }

    method AddKeys(printer: Printer, keys: seq<NamedValue>)
      modifies this
      ensures text == old(text) + Flat(KeyTokens(printer, keys))
    {
      hide Flat, ValueTokens;
      var i := 0;
      assert keys[0..] == keys;
      ghost var whole := old(text) + Flat(KeyTokens(printer, keys));
      while i < |keys|
        invariant 0 <= i <= |keys|
        invariant text + Flat(KeyTokens(printer, keys[i..])) == whole
      {
        var here := [keys[i].name] + ValueTokens(printer, keys[i].data);
        assert keys[i..][1..] == keys[i + 1..];
        FlatAppend(here, KeyTokens(printer, keys[i + 1..]));
        AddAll(here);
        i := i + 1;
      }
      FlatEmpty();
    }

    method AddFields(printer: Printer, fields: seq<FieldPatch>)
      modifies this
      ensures text == old(text) + Flat(FieldTokens(printer, fields))
    {
      hide Flat, ValueTokens, ToChars;
      var i := 0;
      assert fields[0..] == fields;
      ghost var whole := old(text) + Flat(FieldTokens(printer, fields));
      while i < |fields|
        invariant 0 <= i <= |fields|
        invariant text + Flat(FieldTokens(printer, fields[i..])) == whole
      {
        var here := [ToChars(OpByte(fields[i].operation)), fields[i].name] + ValueTokens(printer, fields[i].data);
        assert fields[i..][1..] == fields[i + 1..];
        FlatAppend(here, FieldTokens(printer, fields[i + 1..]));
        AddAll(here);
        i := i + 1;
      }
      FlatEmpty();
    }

    method AddChanges(printer: Printer, changes: seq<EntityPatch>)
      modifies this
      ensures text == old(text) + Flat(ChangesTokens(printer, changes))
    {
      hide Flat, ChangeTokens;
      var i := 0;
      assert changes[0..] == changes;
      ghost var whole := old(text) + Flat(ChangesTokens(printer, changes));
      while i < |changes|
        invariant 0 <= i <= |changes|
        invariant text + Flat(ChangesTokens(printer, changes[i..])) == whole
      {
        assert changes[i..][1..] == changes[i + 1..];
        FlatAppend(ChangeTokens(printer, changes[i]), ChangesTokens(printer, changes[i + 1..]));
        AddChange(printer, changes[i]);
        i := i + 1;
      }
      FlatEmpty();
    }
  }

  method Sign(printer: Printer, changes: seq<EntityPatch>) returns (signature: Bytes)
    ensures signature == RequestSignature(printer, changes)
  {
    hide Flat, ChangesTokens, StrictTokens, ToChars;
    var signer := new Signer();
    ghost var count, body, tail := [ToChars(|changes|)], ChangesTokens(printer, changes), StrictTokens(changes);
    FlatAppend(count, body + tail);
    FlatAppend(body, tail);
    signer.AddAll([ToChars(|changes|)]);
    signer.AddChanges(printer, changes);
    signer.AddAll(StrictTokens(changes));
    return signer.text;
  }

  // ---- Versions ------------------------------------------------------------------------

  function ParseUint64(text: Bytes): (r: Option<uint64>)
  {
    match FromChars(text, 0, U64 - 1)
    case None => None
    case Some(n) => Some(n)
  }

  lemma ParsePrinted(v: uint64)
    ensures ParseUint64(ToChars(v)) == Some(v)
  {
    hide FromChars, ToChars;
    FromToChars(v, 0, U64 - 1);
  }

  function EncodeVersions(versions: seq<uint64>): Bytes {
    if versions == [] then []
    else if |versions| == 1 then ToChars(versions[0])
    else ToChars(versions[0]) + [COMMA] + EncodeVersions(versions[1..])
  }

  /** The position of the first comma, or the length. */
  function FindComma(text: Bytes): (r: nat)
    ensures r <= |text| && COMMA !in text[..r] && (r < |text| ==> text[r] == COMMA)
  {
    if text == [] || text[0] == COMMA then 0
    else
      assert forall i: nat | i <= |text[1..]| :: text[..i + 1] == [text[0]] + text[1..][..i];
      1 + FindComma(text[1..])
  }

  function DecodeVersions(text: Bytes, expected: nat): Option<seq<uint64>>
    decreases expected
  {
    if expected == 0 then None
    else
      var end := FindComma(text);
      match (if end == 0 then None else ParseUint64(text[..end]))
      case None => None
      case Some(version) =>
        if end == |text| then (if expected == 1 then Some([version]) else None)
        else match DecodeVersions(text[end + 1..], expected - 1)
          case None => None
          case Some(rest) => Some([version] + rest)
  }

  lemma FindAfter(text: Bytes, rest: Bytes)
    requires COMMA !in text && (rest == [] || rest[0] == COMMA)
    ensures FindComma(text + rest) == |text|
  {
    hide FindComma;
    var whole := text + rest;
    var r := FindComma(whole);
    assert rest != [] ==> whole[|text|] == rest[0];
    assert forall i | 0 <= i < |text| :: whole[i] == text[i] != COMMA;
    assert forall i | 0 <= i < r :: whole[i] == whole[..r][i] != COMMA;
  }

  /** What was encoded is read back under its own count, and under no other. */
  lemma {:induction false} DecodeEncodeVersions(versions: seq<uint64>, expected: nat)
    ensures DecodeVersions(EncodeVersions(versions), expected)
         == if expected == |versions| && versions != [] then Some(versions) else None
    decreases versions
  {
    hide ToChars, ParseUint64, FindComma;
    var text := EncodeVersions(versions);
    if versions == [] {
      FindAfter([], []);
    } else if expected != 0 {
      var head := ToChars(versions[0]);
      ToCharsDigits(versions[0]);
      ParsePrinted(versions[0]);
      if |versions| == 1 {
        assert text == head + [] == head;
        FindAfter(head, []);
        assert text[..|head|] == head;
        assert versions == [versions[0]];
      } else {
        var rest := EncodeVersions(versions[1..]);
        assert text == head + ([COMMA] + rest);
        FindAfter(head, [COMMA] + rest);
        assert text[..|head|] == head && text[|head| + 1..] == rest;
        DecodeEncodeVersions(versions[1..], expected - 1);
        assert versions == [versions[0]] + versions[1..];
      }
    }
  }

  lemma {:induction false} EncodeAppend(versions: seq<uint64>, v: uint64)
    requires versions != []
    ensures EncodeVersions(versions + [v]) == EncodeVersions(versions) + [COMMA] + ToChars(v)
  {
    hide ToChars;
    var more := versions + [v];
    assert more[1..] == versions[1..] + [v];
    if |versions| == 1 {
      assert more[1..] == [v];
    } else {
      EncodeAppend(versions[1..], v);
    }
  }

  method EncodeVersionList(versions: seq<uint64>) returns (text: Bytes)
    ensures text == EncodeVersions(versions)
  {
    hide ToChars;
    text := [];
    var i := 0;
    while i < |versions|
      invariant 0 <= i <= |versions|
      invariant text == EncodeVersions(versions[..i])
    {
      assert versions[..i + 1] == versions[..i] + [versions[i]];
      if i != 0 {
        EncodeAppend(versions[..i], versions[i]);
        text := text + [COMMA];
      }
      text := text + ToChars(versions[i]);
      i := i + 1;
    }
    assert versions[..i] == versions;
  }

  method DecodeVersionList(text: Bytes, expected: nat) returns (versions: Option<seq<uint64>>)
    ensures versions == DecodeVersions(text, expected)
  {
    hide ParseUint64, FindComma, DecodeVersions, Listed;
    var output, begin := [], 0;
    assert text[0..] == text;
    ListedNothing(DecodeVersions(text, expected));
    while |output| < expected
      invariant 0 <= begin <= |text| && |output| <= expected
      invariant DecodeVersions(text, expected) == Listed(output, DecodeVersions(text[begin..], expected - |output|))
      decreases expected - |output|
    {
      ListedNext(text, begin, output, expected - |output|);
      var rest := text[begin..];
      var end := FindComma(rest);
      var version := ParseUint64(rest[..end]);
      if end == 0 || version.None? {
        return None;
      }
      output := output + [version.value];
      if end == |rest| {
        return if |output| == expected then Some(output) else None;
      }
      begin := begin + end + 1;
    }
    ListedEnd(output, text[begin..]);
    return None;
  }

  lemma ListedEnd(output: seq<uint64>, text: Bytes)
    ensures Listed(output, DecodeVersions(text, 0)) == None
  {
  }

  /** One turn of the decoding loop. */
  lemma ListedNext(text: Bytes, begin: nat, output: seq<uint64>, wanted: nat)
    requires begin <= |text| && wanted > 0
    ensures var rest := text[begin..]; var end := FindComma(rest); var version := ParseUint64(rest[..end]);
      Listed(output, DecodeVersions(rest, wanted))
      == if end == 0 || version.None? then None
         else if end == |rest| then (if wanted == 1 then Some(output + [version.value]) else None)
         else Listed(output + [version.value], DecodeVersions(text[begin + end + 1..], wanted - 1))
  {
    hide ParseUint64, FindComma;
    var rest := text[begin..];
    var end := FindComma(rest);
    var version := ParseUint64(rest[..end]);
    if end != 0 && version.Some? && end < |rest| {
      assert rest[end + 1..] == text[begin + end + 1..];
      ListedOne(output, version.value, DecodeVersions(rest[end + 1..], wanted - 1));
    }
  }

  function Listed(output: seq<uint64>, rest: Option<seq<uint64>>): Option<seq<uint64>> {
    match rest case None => None case Some(more) => Some(output + more)
  }

  lemma ListedNothing(rest: Option<seq<uint64>>)
    ensures Listed([], rest) == rest
  {
    if rest.Some? { assert [] + rest.value == rest.value; }
  }

  lemma ListedOne(output: seq<uint64>, v: uint64, rest: Option<seq<uint64>>)
    ensures Listed(output, match rest case None => None case Some(more) => Some([v] + more))
      == Listed(output + [v], rest)
  {
    if rest.Some? { assert output + ([v] + rest.value) == (output + [v]) + rest.value; }
  }
}
