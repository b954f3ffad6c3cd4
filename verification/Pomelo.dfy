/** The Pomelo wire format: packages, messages, and the buffered parse loop of a TCP connection. */
module Pomelo {
  import opened ByteStrings
  import opened Results

  type uint32 = x: int | 0 <= x < 0x1_0000_0000 witness 0

  const MAX_BODY := 16 * 1024 * 1024
  const WORD := 0x1_0000_0000

  const REQUEST: byte := 0
  const NOTIFY: byte := 1
  const RESPONSE: byte := 2
  const PUSH: byte := 3
  const DATA: byte := 4

  // ---- Packages ---------------------------------------------------------------------------------

  datatype Package = Package(kind: byte, body: Bytes)

  /** Type octet and 24-bit length; a longer body keeps only the low 24 bits of its length. */
  function EncodePackage(p: Package): Bytes {
    var length := |p.body|;
    [p.kind, length / 65536 % 256, length / 256 % 256, length % 256] + p.body
  }

  datatype Parse =
    | More
    | Malformed
    | Parsed(package: Package, consumed: nat)

  function Big24(high: byte, middle: byte, low: byte): nat {
    (high as int) * 65536 + (middle as int) * 256 + (low as int)
  }

  function ParsePackage(buffer: Bytes): (r: Parse)
    ensures r.Parsed? ==> 4 <= r.consumed <= |buffer| && r.consumed == 4 + |r.package.body|
  {
    if |buffer| < 4 then More
    else
      var length := Big24(buffer[1], buffer[2], buffer[3]);
      if length > MAX_BODY then Malformed
      else if |buffer| < 4 + length then More
      else Parsed(Package(buffer[0], buffer[4..4 + length]), 4 + length)
  }

  /** A 24-bit length is always within the limit: the error branch is never taken. */
  lemma NeverMalformed(buffer: Bytes)
    ensures !ParsePackage(buffer).Malformed?
  {
  }

  lemma Length24(n: nat)
    requires n < MAX_BODY
    ensures n / 65536 % 256 * 65536 + n / 256 % 256 * 256 + n % 256 == n
  {
    assert n == n / 256 * 256 + n % 256;
    assert n / 256 == n / 65536 * 256 + n / 256 % 256 by { assert n / 256 / 256 == n / 65536; }
  }

  /** A package is read back from the front of any buffer, exactly when its body is shorter than 2^24. */
  lemma PackageBack(p: Package, rest: Bytes)
    ensures |p.body| < MAX_BODY <==> ParsePackage(EncodePackage(p) + rest) == Parsed(p, |EncodePackage(p)|)
  {
    var buffer := EncodePackage(p) + rest;
    if |p.body| < MAX_BODY {
      Length24(|p.body|);
      assert buffer[4..4 + |p.body|] == p.body;
    }
  }

  lemma Octets24(high: byte, middle: byte, low: byte)
    ensures var n := Big24(high, middle, low);
      n < MAX_BODY && n / 65536 % 256 == high && n / 256 % 256 == middle && n % 256 == low
  {
    var n := Big24(high, middle, low);
    assert n / 256 == (high as int) * 256 + (middle as int);
    assert n / 65536 == n / 256 / 256 == high;
  }

  /** A package is found exactly when the buffer begins with its encoding: no other octets are taken for it. */
  lemma PackageExact(buffer: Bytes, p: Package, consumed: nat)
    ensures ParsePackage(buffer) == Parsed(p, consumed)
      <==> |p.body| < MAX_BODY && EncodePackage(p) <= buffer && consumed == |EncodePackage(p)|
  {
    if |p.body| < MAX_BODY && EncodePackage(p) <= buffer {
      PackageBack(p, buffer[|EncodePackage(p)|..]);
      assert EncodePackage(p) + buffer[|EncodePackage(p)|..] == buffer;
    }
    if ParsePackage(buffer) == Parsed(p, consumed) {
      Octets24(buffer[1], buffer[2], buffer[3]);
      assert buffer[..consumed] == buffer[..4] + p.body;
    }
  }

  // ---- Messages -----------------------------------------------------------------------------------

  datatype Message = Message(id: uint32, kind: byte, route: Bytes, body: Bytes)

  predicate HasId(kind: byte) { kind == REQUEST || kind == RESPONSE }
  predicate HasRoute(kind: byte) { kind == REQUEST || kind == NOTIFY || kind == PUSH }

  /** Seven bits an octet, low group first, the high bit on all but the last. */
  function Varint(v: nat): (r: Bytes)
    ensures r != []
  {
    if v < 128 then [v] else [v % 128 + 128] + Varint(v / 128)
  }

  function Routed(route: Bytes): Bytes
    requires |route| <= 255
  {
    [|route|] + route
  }

  /** Nothing when the route is too long. */
  function EncodeMessage(m: Message): Bytes {
    if HasRoute(m.kind) && |m.route| > 255 then []
    else
      [m.kind * 2 % 256] + (if HasId(m.kind) then Varint(m.id) else [])
        + ((if HasRoute(m.kind) then Routed(m.route) else []) + m.body)
  }

  datatype Taken = Taken(value: nat, rest: Bytes)

  /** The low seven bits of an octet at their place. */
  function Group(octet: byte, group: nat): nat { (octet as int) % 128 * Pow(128, group) }

  /** At most five groups, summed in 32 bits. */
  function TakeVarint(data: Bytes, group: nat): Option<Taken>
    requires group <= 5
    decreases 5 - group
  {
    if group == 5 || data == [] then None
    else if data[0] < 128 then Some(Taken(Group(data[0], group) % WORD, data[1..]))
    else match TakeVarint(data[1..], group + 1)
      case None => None
      case Some(t) => Some(Taken((Group(data[0], group) + t.value) % WORD, t.rest))
  }

  function TakeRoute(data: Bytes): Option<(Bytes, Bytes)> {
    if data == [] then None
    else
      var end: nat := 1 + (data[0] as int);
      if |data| < end then None else Some((data[1..end], data[end..]))
  }

  function ParseMessage(data: Bytes): Option<Message> {
    if data == [] then None
    else
      var flag, kind := data[0], data[0] / 2 % 8;
      if flag % 2 == 1 || flag / 16 % 2 == 1 || kind > PUSH then None
      else match (if HasId(kind) then TakeVarint(data[1..], 0) else Some(Taken(0, data[1..])))
        case None => None
        case Some(id) =>
          match (if HasRoute(kind) then TakeRoute(id.rest) else Some(([], id.rest)))
          case None => None
          case Some(routed) => Some(Message(id.value % WORD, kind, routed.0, routed.1))
  }

  /** What a receiver can know of a message: ids and routes only where the kind carries them. */
  function Received(m: Message): Message {
    Message(if HasId(m.kind) then m.id else 0, m.kind, if HasRoute(m.kind) then m.route else [], m.body)
  }

  lemma PowValues()
    ensures Pow(128, 0) == 1 && Pow(128, 1) == 128 && Pow(128, 2) == 16384 && Pow(128, 3) == 2097152
    ensures Pow(128, 4) == 268435456
    ensures Pow(128, 5) == 34359738368
  {
    assert Pow(128, 1) == 128 * Pow(128, 0);
    assert Pow(128, 2) == 128 * Pow(128, 1);
    assert Pow(128, 3) == 128 * Pow(128, 2);
    assert Pow(128, 4) == 128 * Pow(128, 3);
    assert Pow(128, 5) == 128 * Pow(128, 4);
  }

  lemma GroupUp(v: nat, p: nat)
    ensures v % 128 * p + v / 128 * (128 * p) == v * p
  {
    assert v == v / 128 * 128 + v % 128;
    assert v * p == (v / 128 * 128 + v % 128) * p == v / 128 * 128 * p + v % 128 * p;
    assert v / 128 * (128 * p) == v / 128 * 128 * p;
  }

  /** A number below 2^32 is read back from its groups, wherever they start. */
  lemma {:induction false} VarintBack(v: nat, group: nat, rest: Bytes)
    requires group < 5 && v * Pow(128, group) < WORD
    ensures TakeVarint(Varint(v) + rest, group) == Some(Taken(v * Pow(128, group), rest))
    decreases v
  {
    hide Pow, Group;
    var data := Varint(v) + rest;
    if v < 128 {
      assert data[0] == v && data[1..] == rest;
      LowGroup(v, group);
    } else {
      LastGroup(v, group);
      HighGroup(v, group);
      VarintBack(v / 128, group + 1, rest);
      assert data[0] == v % 128 + 128 && data[1..] == Varint(v / 128) + rest;
    }
  }

  lemma LowGroup(v: nat, group: nat)
    requires v < 128 && v * Pow(128, group) < WORD
    ensures Group(v, group) % WORD == v * Pow(128, group)
  {
    hide Pow;
    assert v % 128 == v;
  }

  lemma HighGroup(v: nat, group: nat)
    requires v * Pow(128, group) < WORD
    ensures v / 128 * Pow(128, group + 1) < WORD
    ensures (Group(v % 128 + 128, group) + v / 128 * Pow(128, group + 1)) % WORD == v * Pow(128, group)
  {
    hide Pow;
    NextPow(group);
    GroupUp(v, Pow(128, group));
    HighBit(v);
  }

  lemma HighBit(v: nat)
    ensures (v % 128 + 128) % 128 == v % 128
  {
  }

  lemma NextPow(group: nat)
    ensures Pow(128, group + 1) == 128 * Pow(128, group)
  {
  }

  /** The fifth group holds the top four bits: no number below 2^32 needs a sixth. */
  lemma LastGroup(v: nat, group: nat)
    requires group < 5 && v >= 128 && v * Pow(128, group) < WORD
    ensures group < 4
  {
    PowValues();
  }

  lemma RouteBack(route: Bytes, rest: Bytes)
    requires |route| <= 255
    ensures TakeRoute(Routed(route) + rest) == Some((route, rest))
  {
    var data := Routed(route) + rest;
    assert data[1..1 + |route|] == route && data[1 + |route|..] == rest;
  }

  /** Decoding an encoded message returns it exactly for the four kinds and routes of at most 255 octets. */
  lemma MessageBack(m: Message)
    ensures ParseMessage(EncodeMessage(m)) == Some(Received(m)) <==>
      m.kind <= PUSH && (HasRoute(m.kind) ==> |m.route| <= 255)
  {
    hide TakeVarint, TakeRoute, Varint, Routed, Pow;
    if m.kind <= PUSH && (HasRoute(m.kind) ==> |m.route| <= 255) {
      var tail := (if HasRoute(m.kind) then Routed(m.route) else []) + m.body;
      var data := EncodeMessage(m);
      assert data[1..] == (if HasId(m.kind) then Varint(m.id) else []) + tail;
      if HasId(m.kind) {
        PowValues();
        VarintBack(m.id, 0, tail);
      } else {
        assert data[1..] == tail;
      }
      if HasRoute(m.kind) { RouteBack(m.route, m.body); } else { assert tail == m.body; }
    }
  }

  // ---- What the message parser accepts --------------------------------------------------------------------

  /** One to `most` groups, the high bit on all but the last. */
  predicate IsVarint(groups: Bytes, most: nat) {
    && 1 <= |groups| <= most && groups[|groups| - 1] < 128
    && forall i | 0 <= i < |groups| - 1 :: groups[i] >= 128
  }

  /** The number the groups denote, the low one first. */
  function Worth(groups: Bytes): nat {
    if groups == [] then 0 else (groups[0] as int) % 128 + 128 * Worth(groups[1..])
  }

  lemma WorthAt(octet: byte, rest: nat, group: nat)
    ensures (Group(octet, group) + rest * Pow(128, group + 1) % WORD) % WORD
      == ((octet as int) % 128 + 128 * rest) * Pow(128, group) % WORD
  {
    hide Pow;
    var low: nat, p := (octet as int) % 128, Pow(128, group);
    NextPow(group);
    WrapSum(low * p, rest * (128 * p));
    assert low * p + rest * (128 * p) == (low + 128 * rest) * p;
  }

  lemma {:induction false} VarintTaken(groups: Bytes, rest: Bytes, group: nat)
    requires group <= 5 && IsVarint(groups, 5 - group)
    ensures TakeVarint(groups + rest, group) == Some(Taken(Worth(groups) * Pow(128, group) % WORD, rest))
    decreases groups
  {
    hide Pow, Group, Worth;
    var data := groups + rest;
    assert data[0] == groups[0];
    if |groups| == 1 {
      assert data[1..] == rest;
      OneGroup(groups, group);
    } else {
      WorthMore(groups);
      WorthAt(groups[0], Worth(groups[1..]), group);
      VarintTaken(groups[1..], rest, group + 1);
      assert data[1..] == groups[1..] + rest;
    }
  }

  lemma WorthMore(groups: Bytes)
    requires groups != []
    ensures Worth(groups) == (groups[0] as int) % 128 + 128 * Worth(groups[1..])
  {
  }

  lemma OneGroup(groups: Bytes, group: nat)
    requires |groups| == 1
    ensures Worth(groups) * Pow(128, group) == Group(groups[0], group)
  {
    hide Pow;
    assert Worth(groups[1..]) == 0;
  }

  lemma {:induction false} VarintFound(data: Bytes, group: nat) returns (groups: Bytes)
    requires group <= 5 && TakeVarint(data, group).Some?
    ensures IsVarint(groups, 5 - group) && data == groups + TakeVarint(data, group).value.rest
    decreases data
  {
    hide Pow, Group;
    if data[0] < 128 {
      groups := data[..1];
    } else {
      var more := VarintFound(data[1..], group + 1);
      groups := [data[0]] + more;
    }
  }

  /** An id is read exactly from one to five groups, and is what they denote in 32 bits. */
  lemma VarintExact(data: Bytes, value: nat, rest: Bytes)
    ensures TakeVarint(data, 0) == Some(Taken(value, rest))
      <==> exists groups :: IsVarint(groups, 5) && data == groups + rest && value == Worth(groups) % WORD
  {
    hide TakeVarint, IsVarint, Worth;
    assert Pow(128, 0) == 1;
    if TakeVarint(data, 0) == Some(Taken(value, rest)) {
      var groups := VarintFound(data, 0);
      VarintTaken(groups, rest, 0);
    }
    forall groups | IsVarint(groups, 5) && data == groups + rest
      ensures TakeVarint(data, 0) == Some(Taken(Worth(groups) % WORD, rest))
    {
      VarintTaken(groups, rest, 0);
    }
  }

  /** The octets of a message with these groups for its id: even flag without the gzip bit, kind, id, route, body. */
  predicate Spells(data: Bytes, m: Message, groups: Bytes) {
    && m.kind <= PUSH && (HasRoute(m.kind) ==> |m.route| <= 255)
    && data != [] && data[0] % 2 == 0 && data[0] / 16 % 2 == 0 && data[0] / 2 % 8 == m.kind
    && (if HasId(m.kind) then IsVarint(groups, 5) && m.id == Worth(groups) % WORD else groups == [] && m.id == 0)
    && (HasRoute(m.kind) || m.route == [])
    && data[1..] == groups + ((if HasRoute(m.kind) then Routed(m.route) else []) + m.body)
  }

  lemma RouteExact(data: Bytes, route: Bytes, rest: Bytes)
    ensures TakeRoute(data) == Some((route, rest)) <==> |route| <= 255 && data == Routed(route) + rest
  {
    if |route| <= 255 && data == Routed(route) + rest { RouteBack(route, rest); }
    if TakeRoute(data) == Some((route, rest)) {
      assert data == [data[0]] + data[1..1 + |route|] + data[1 + |route|..];
    }
  }

  lemma SpellsFound(data: Bytes) returns (groups: Bytes)
    requires ParseMessage(data).Some?
    ensures Spells(data, ParseMessage(data).value, groups)
  {
    hide TakeVarint, TakeRoute, IsVarint, Worth, Routed;
    var m := ParseMessage(data).value;
    var after := if HasId(m.kind) then TakeVarint(data[1..], 0).value.rest else data[1..];
    if HasRoute(m.kind) { RouteExact(after, m.route, m.body); }
    if HasId(m.kind) {
      var id := TakeVarint(data[1..], 0).value;
      VarintExact(data[1..], id.value, id.rest);
      groups :| IsVarint(groups, 5) && data[1..] == groups + id.rest && id.value == Worth(groups) % WORD;
    } else {
      groups := [];
    }
  }

  lemma SpellsParsed(data: Bytes, m: Message, groups: Bytes)
    requires Spells(data, m, groups)
    ensures ParseMessage(data) == Some(m)
  {
    hide TakeVarint, TakeRoute, IsVarint, Worth, Routed;
    var tail := (if HasRoute(m.kind) then Routed(m.route) else []) + m.body;
    if HasId(m.kind) { VarintExact(data[1..], m.id, tail); } else { assert data[1..] == tail; }
    if HasRoute(m.kind) { RouteExact(tail, m.route, m.body); } else { assert tail == m.body; }
  }

  /** The parser accepts exactly the octets that spell a message, and finds that message. */
  lemma MessageExact(data: Bytes, m: Message)
    ensures ParseMessage(data) == Some(m) <==> exists groups :: Spells(data, m, groups)
  {
    hide ParseMessage, Spells;
    if ParseMessage(data) == Some(m) { var groups := SpellsFound(data); }
    forall groups | Spells(data, m, groups) ensures ParseMessage(data) == Some(m) { SpellsParsed(data, m, groups); }
  }

  // ---- Streams ----------------------------------------------------------------------------------------

  datatype Drained = Drained(packages: seq<Package>, rest: Bytes)

  /** The parse loop run on a buffer until more data is needed. */
  function Drain(buffer: Bytes): Drained {
    var r := ParsePackage(buffer);
    if !r.Parsed? then Drained([], buffer)
    else
      var d := Drain(buffer[r.consumed..]);
      Drained([r.package] + d.packages, d.rest)
  }

  /** A complete package at the front of a buffer does not depend on what follows. */
  lemma ParseMonotone(buffer: Bytes, more: Bytes)
    requires ParsePackage(buffer).Parsed?
    ensures ParsePackage(buffer + more) == ParsePackage(buffer)
  {
    var r := ParsePackage(buffer);
    assert (buffer + more)[4..r.consumed] == buffer[4..r.consumed];
  }

  /** Draining early changes nothing: the bytes may come in any portions. */
  lemma {:induction false} DrainSplits(a: Bytes, b: Bytes)
    ensures var first := Drain(a); var second := Drain(first.rest + b);
      Drain(a + b) == Drained(first.packages + second.packages, second.rest)
    decreases |a|
  {
    hide ParsePackage;
    var r := ParsePackage(a);
    if r.Parsed? {
      ParseMonotone(a, b);
      DrainSplits(a[r.consumed..], b);
      assert (a + b)[r.consumed..] == a[r.consumed..] + b;
      Regroup(r.package, Drain(a[r.consumed..]).packages, Drain(Drain(a).rest + b).packages);
    } else {
      assert [] + Drain(a + b).packages == Drain(a + b).packages;
    }
  }

  lemma Regroup(p: Package, a: seq<Package>, b: seq<Package>)
    ensures [p] + (a + b) == ([p] + a) + b
  {
  }

  function Stream(packages: seq<Package>): Bytes {
    if packages == [] then [] else EncodePackage(packages[0]) + Stream(packages[1..])
  }

  predicate Short(packages: seq<Package>) { forall i | 0 <= i < |packages| :: |packages[i].body| < MAX_BODY }

  lemma {:induction false} DrainStream(packages: seq<Package>)
    requires Short(packages)
    ensures Drain(Stream(packages)) == Drained(packages, [])
  {
    hide ParsePackage, EncodePackage;
    if packages == [] {
      EmptyBuffer();
    } else {
      var p, rest := packages[0], Stream(packages[1..]);
      PackageBack(p, rest);
      DrainStream(packages[1..]);
      assert Stream(packages)[|EncodePackage(p)|..] == rest;
      assert packages == [p] + packages[1..];
    }
  }

  lemma EmptyBuffer()
    ensures ParsePackage([]) == More
  {
  }

  /** No complete package at the front. */
  ghost predicate Unfinished(buffer: Bytes) {
    forall p: Package | |p.body| < MAX_BODY :: !(EncodePackage(p) <= buffer)
  }

  lemma NoneParsed(buffer: Bytes)
    requires !ParsePackage(buffer).Parsed?
    ensures Unfinished(buffer)
  {
    hide ParsePackage, EncodePackage;
    forall p: Package | |p.body| < MAX_BODY ensures !(EncodePackage(p) <= buffer) {
      PackageExact(buffer, p, |EncodePackage(p)|);
    }
  }

  lemma StreamMore(p: Package, packages: seq<Package>)
    requires |p.body| < MAX_BODY && Short(packages)
    ensures Short([p] + packages) && Stream([p] + packages) == EncodePackage(p) + Stream(packages)
  {
    hide EncodePackage;
    assert ([p] + packages)[1..] == packages;
  }

  lemma DrainMore(buffer: Bytes)
    requires ParsePackage(buffer).Parsed?
    ensures var r := ParsePackage(buffer); var d := Drain(buffer[r.consumed..]);
      Drain(buffer) == Drained([r.package] + d.packages, d.rest)
      && |r.package.body| < MAX_BODY && buffer == EncodePackage(r.package) + buffer[r.consumed..]
  {
    hide ParsePackage, EncodePackage;
    var r := ParsePackage(buffer);
    PackageExact(buffer, r.package, r.consumed);
  }

  lemma Reassociate(a: Bytes, b: Bytes, c: Bytes)
    ensures a + (b + c) == (a + b) + c
  {
  }

  /** Whatever a buffer holds, it is the packages found, one after the other, and a rest without a complete one. */
  lemma {:induction false} DrainExact(buffer: Bytes)
    ensures var d := Drain(buffer); Short(d.packages) && buffer == Stream(d.packages) + d.rest && Unfinished(d.rest)
  {
    hide ParsePackage, EncodePackage, Unfinished, Stream, Short, Drain;
    var r := ParsePackage(buffer);
    if r.Parsed? {
      DrainMore(buffer);
      DrainExact(buffer[r.consumed..]);
      var rest := Drain(buffer[r.consumed..]);
      StreamMore(r.package, rest.packages);
      Reassociate(EncodePackage(r.package), Stream(rest.packages), rest.rest);
    } else {
      NoneParsed(buffer);
      DrainNone(buffer);
    }
  }

  lemma DrainNone(buffer: Bytes)
    requires !ParsePackage(buffer).Parsed?
    ensures Drain(buffer) == Drained([], buffer) && Stream([]) + buffer == buffer && Short([])
  {
    hide ParsePackage;
  }

  function Joined(chunks: seq<Bytes>): Bytes {
    if chunks == [] then [] else Joined(chunks[..|chunks| - 1]) + chunks[|chunks| - 1]
  }

  /** One connection after some chunks: everything handled so far, and what waits in the buffer. */
  function After(chunks: seq<Bytes>): Drained {
    if chunks == [] then Drained([], [])
    else
      var before := After(chunks[..|chunks| - 1]);
      var now := Drain(before.rest + chunks[|chunks| - 1]);
      Drained(before.packages + now.packages, now.rest)
  }

  /** Whatever the bytes and however they are cut, the connection has handled what one buffer would have given. */
  lemma {:induction false} ChunksDoNotMatter(chunks: seq<Bytes>)
    ensures After(chunks) == Drain(Joined(chunks))
  {
    hide Drain;
    if chunks == [] {
      EmptyDrain();
    } else {
      var early := chunks[..|chunks| - 1];
      ChunksDoNotMatter(early);
      DrainSplits(Joined(early), chunks[|chunks| - 1]);
    }
  }

  lemma EmptyDrain()
    ensures Drain([]) == Drained([], [])
  {
  }

  /** The packages sent are the packages handled, in order, for every split of the stream. */
  lemma StreamArrives(packages: seq<Package>, chunks: seq<Bytes>)
    requires Short(packages) && Joined(chunks) == Stream(packages)
    ensures After(chunks) == Drained(packages, [])
  {
    hide Drain, Stream, Joined, After;
    ChunksDoNotMatter(chunks);
    DrainStream(packages);
  }

  predicate Sendable(m: Message) {
    m.kind <= PUSH && (HasRoute(m.kind) ==> |m.route| <= 255) && |EncodeMessage(m)| < MAX_BODY
  }

  function Frames(messages: seq<Message>): (r: seq<Package>)
    ensures |r| == |messages| && forall i | 0 <= i < |r| :: r[i] == Package(DATA, EncodeMessage(messages[i]))
  {
    seq(|messages|, i requires 0 <= i < |messages| => Package(DATA, EncodeMessage(messages[i])))
  }

  /** Every list of encodable messages, cut anywhere, is handled as exactly those messages in order. */
  lemma MessagesArrive(messages: seq<Message>, chunks: seq<Bytes>)
    requires forall i | 0 <= i < |messages| :: Sendable(messages[i])
    requires Joined(chunks) == Stream(Frames(messages))
    ensures var done := After(chunks);
      && done.rest == [] && |done.packages| == |messages|
      && forall i | 0 <= i < |messages| ::
        done.packages[i].kind == DATA && ParseMessage(done.packages[i].body) == Some(Received(messages[i]))
  {
    hide Joined, Stream, After, EncodeMessage, ParseMessage, Received;
    var frames := Frames(messages);
    forall i | 0 <= i < |frames| ensures |frames[i].body| < MAX_BODY { assert Sendable(messages[i]); }
    StreamArrives(frames, chunks);
    forall i | 0 <= i < |messages| ensures ParseMessage(frames[i].body) == Some(Received(messages[i])) {
      assert Sendable(messages[i]);
      MessageBack(messages[i]);
    }
  }

  // ---- The loops ---------------------------------------------------------------------------------------

  method WriteVarint(id: uint32) returns (octets: Bytes)
    ensures octets == Varint(id)
  {
    octets := [];
    var v := id;
    while v >= 128
      invariant 0 <= v && octets + Varint(v) == Varint(id)
    {
      assert Varint(v) == [v % 128 + 128] + Varint(v / 128);
      octets := octets + [v % 128 + 128];
      v := v / 128;
    }
    octets := octets + [v];
  }

  method ReadVarint(data: Bytes) returns (taken: Option<Taken>)
    ensures taken == TakeVarint(data, 0)
  {
    hide Pow, Group, TakeVarint;
    var id, i := 0, 0;
    assert data[0..] == data;
    SumStart(data);
    while i < 5
      invariant 0 <= i <= 5 && i <= |data| && 0 <= id < WORD
      invariant TakeVarint(data, 0) == Sum(id, TakeVarint(data[i..], i))
    {
      if i >= |data| {
        assert data[i..] == [];
        SumShort(id, i);
        return None;
      }
      var m := data[i];
      assert data[i..][0] == m && data[i..][1..] == data[i + 1..];
      SumStep(id, data[i..], i);
      id := (id + Group(m, i)) % WORD;
      if m < 128 {
        return Some(Taken(id, data[i + 1..]));
      }
      i := i + 1;
    }
    SumEnd(id, data[i..]);
    return None;
  }

  lemma SumEnd(id: nat, data: Bytes)
    ensures Sum(id, TakeVarint(data, 5)) == None
  {
  }

  function Sum(id: nat, rest: Option<Taken>): Option<Taken> {
    match rest case None => None case Some(t) => Some(Taken((id + t.value) % WORD, t.rest))
  }

  lemma SumStart(data: Bytes)
    ensures Sum(0, TakeVarint(data, 0)) == TakeVarint(data, 0)
  {
    hide Pow, Group;
  }

  lemma SumShort(id: nat, group: nat)
    requires group <= 5
    ensures Sum(id, TakeVarint([], group)) == None
  {
  }

  lemma SumStep(id: nat, data: Bytes, group: nat)
    requires group < 5 && data != []
    ensures data[0] < 128 ==>
      Sum(id, TakeVarint(data, group)) == Some(Taken((id + Group(data[0], group)) % WORD, data[1..]))
    ensures data[0] >= 128 ==>
      Sum(id, TakeVarint(data, group)) == Sum((id + Group(data[0], group)) % WORD, TakeVarint(data[1..], group + 1))
  {
    hide Group, Pow;
    var a := Group(data[0], group);
    WrapSum(id, a);
    var rest := TakeVarint(data[1..], group + 1);
    if rest.Some? {
      WrapSum(id, a + rest.value.value);
      WrapSum(rest.value.value, id + a);
    }
  }

  lemma WrapSum(x: nat, y: nat)
    ensures (x + y % WORD) % WORD == (x + y) % WORD
  {
  }

  /** A TCP connection: its receive buffer and the packages it has handed on. */
  class Connection {
    var buffer: Bytes
    ghost var handled: seq<Package>
    ghost var chunks: seq<Bytes>

    ghost predicate Valid()
      reads this
    {
      After(chunks) == Drained(handled, buffer)
    }

    constructor ()
      ensures Valid() && chunks == [] && handled == []
    {
      buffer, handled, chunks := [], [], [];
    }

    method OnData(chunk: Bytes)
      requires Valid()
      modifies this
      ensures Valid() && chunks == old(chunks) + [chunk]
    {
      hide ParsePackage;
      ghost var start := buffer + chunk;
      buffer := buffer + chunk;
      while true
        invariant chunks == old(chunks)
        invariant Drained(old(handled) + Drain(start).packages, Drain(start).rest)
          == Drained(handled + Drain(buffer).packages, Drain(buffer).rest)
        decreases |buffer|
      {
        NeverMalformed(buffer);
        var r := ParsePackage(buffer);
        if !r.Parsed? {
          break;
        }
        assert handled + ([r.package] + Drain(buffer[r.consumed..]).packages)
          == (handled + [r.package]) + Drain(buffer[r.consumed..]).packages;
        buffer := buffer[r.consumed..];
        handled := handled + [r.package];
      }
      chunks := chunks + [chunk];
      assert chunks[..|chunks| - 1] == old(chunks);
    }
  }
}
