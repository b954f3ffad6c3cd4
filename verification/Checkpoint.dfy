/** The checkpoint file: header, name and data as `save_state` writes them and `restore_state` reads them. */
module Checkpoint {
  import opened Results
  import opened ByteStrings
  import opened Crc32
  import opened OctetNumbers

  const MAGIC: Octets := [0x43, 0x4B, 0x50, 0x54]
  const VERSION := 1
  const HEADER := 28
  const NAME_LIMIT := 0x1_0000

  // ---- Little-endian numbers ---------------------------------------------------------------------

  function Le(n: nat, width: nat): (r: Octets)
    ensures |r| == width
    decreases width
  {
    if width == 0 then [] else [Octet(n % 256)] + Le(n / 256, width - 1)
  }

  function UnLe(octets: Octets): nat { if octets == [] then 0 else Number(octets[0]) + 256 * UnLe(octets[1..]) }

  lemma {:induction false} UnLeLe(n: nat, width: nat)
    requires n < Pow(256, width)
    ensures UnLe(Le(n, width)) == n
    decreases width
  {
    hide Octet, Number;
    if width > 0 {
      NumberOctet(n % 256);
      DividePow(n, width);
      UnLeLe(n / 256, width - 1);
      assert Le(n, width)[1..] == Le(n / 256, width - 1);
    }
  }

  lemma {:induction false} LeUnLe(octets: Octets)
    ensures Le(UnLe(octets), |octets|) == octets && UnLe(octets) < Pow(256, |octets|)
  {
    hide Octet, Number;
    if octets != [] {
      var low, high := Number(octets[0]), UnLe(octets[1..]);
      LeUnLe(octets[1..]);
      OctetNumber(octets[0]);
      assert (low + 256 * high) % 256 == low && (low + 256 * high) / 256 == high;
      assert octets == [octets[0]] + octets[1..];
    }
  }

  lemma DividePow(n: nat, width: nat)
    requires width > 0 && n < Pow(256, width)
    ensures n / 256 < Pow(256, width - 1)
  {
    assert Pow(256, width) == 256 * Pow(256, width - 1);
  }

  lemma Widths()
    ensures Pow(256, 2) == NAME_LIMIT && Pow(256, 4) == 0x1_0000_0000 && Pow(256, 8) == U64
  {
    assert Pow(256, 1) == 256 * Pow(256, 0);
    assert Pow(256, 2) == 256 * Pow(256, 1);
    assert Pow(256, 3) == 256 * Pow(256, 2);
    assert Pow(256, 4) == 256 * Pow(256, 3);
    assert Pow(256, 5) == 256 * Pow(256, 4);
    assert Pow(256, 6) == 256 * Pow(256, 5);
    assert Pow(256, 7) == 256 * Pow(256, 6);
    assert Pow(256, 8) == 256 * Pow(256, 7);
  }

  function Bits(c: bv32): (n: nat)
    ensures n < 0x1_0000_0000
  {
    c as nat
  }

  lemma BitsInjective(c: bv32, d: bv32)
    requires Bits(c) == Bits(d)
    ensures c == d
  {
    assert (c as nat) as bv32 == c && (d as nat) as bv32 == d;
  }

  // ---- Writing and reading ---------------------------------------------------------------------------

  /** The name is cut to what its 16-bit length can say. */
  function StoredName(name: Octets): Octets { name[..|name| % NAME_LIMIT] }

  function Head(name: Octets, timestamp: uint64, checksum: nat, length: nat): (r: Octets)
    ensures |r| == HEADER
  {
    MAGIC + Le(VERSION, 2) + Le(|name| % NAME_LIMIT, 2) + Le(timestamp, 8) + Le(checksum, 4) + Le(length, 8)
  }

  function Saved(name: Octets, timestamp: uint64, data: Octets): Octets {
    Head(name, timestamp, Bits(Crc(data)), |data|) + (StoredName(name) + data)
  }

  /** What `restore_state` finds in a file; nothing when it gives up. */
  function Restored(file: Octets): Option<Octets> {
    if |file| < HEADER || file[..4] != MAGIC || UnLe(file[4..6]) != VERSION then None
    else
      var nameLength, checksum, length := UnLe(file[6..8]), UnLe(file[16..20]), UnLe(file[20..28]);
      if |file| < HEADER + nameLength + length then None
      else
        var data := file[HEADER + nameLength..HEADER + nameLength + length];
        if Bits(Crc(data)) != checksum then None else Some(data)
  }

  /** The reply of `restore_state`: an empty vector also stands for every failure. */
  function Reply(file: Octets): Octets { match Restored(file) case None => [] case Some(data) => data }

  lemma HeadParts(name: Octets, timestamp: uint64, checksum: nat, length: nat, rest: Octets)
    ensures var file := Head(name, timestamp, checksum, length) + rest;
      && file[..4] == MAGIC && file[4..6] == Le(VERSION, 2) && file[6..8] == Le(|name| % NAME_LIMIT, 2)
      && file[16..20] == Le(checksum, 4) && file[20..28] == Le(length, 8)
  {
    hide Le;
  }

  /** A file with an intact header is judged by its data alone. */
  lemma Judged(name: Octets, timestamp: uint64, checksum: bv32, data: Octets)
    requires |data| < U64
    ensures Restored(Head(name, timestamp, Bits(checksum), |data|) + (StoredName(name) + data))
         == if Crc(data) == checksum then Some(data) else None
  {
    hide Head, Le, UnLe, Crc, Bits;
    var rest := StoredName(name) + data;
    var file := Head(name, timestamp, Bits(checksum), |data|) + rest;
    HeadParts(name, timestamp, Bits(checksum), |data|, rest);
    Widths();
    UnLeLe(VERSION, 2);
    UnLeLe(|name| % NAME_LIMIT, 2);
    UnLeLe(Bits(checksum), 4);
    UnLeLe(|data|, 8);
    var n := |name| % NAME_LIMIT;
    assert file[HEADER + n..HEADER + n + |data|] == data;
    if Bits(Crc(data)) == Bits(checksum) { BitsInjective(Crc(data), checksum); }
  }

  /** Restore after save returns the data, whatever the name and the time. */
  lemma RestoreSaved(name: Octets, timestamp: uint64, data: Octets)
    requires |data| < U64
    ensures Restored(Saved(name, timestamp, data)) == Some(data) && Reply(Saved(name, timestamp, data)) == data
  {
    hide Head, Crc, Restored, Bits;
    Judged(name, timestamp, Crc(data), data);
  }

  lemma ReadsOnlyFront(file: Octets, extra: Octets)
    requires Restored(file).Some?
    ensures Restored(file + extra) == Restored(file)
  {
    hide UnLe, Crc, Bits;
    var longer := file + extra;
    assert longer[..4] == file[..4] && longer[4..6] == file[4..6] && longer[6..8] == file[6..8];
    assert longer[16..20] == file[16..20] && longer[20..28] == file[20..28];
    var n, length := UnLe(file[6..8]), UnLe(file[20..28]);
    assert longer[HEADER + n..HEADER + n + length] == file[HEADER + n..HEADER + n + length];
  }

  /** A file that is restored begins with what saving its data wrote. */
  lemma RestoredWasSaved(file: Octets) returns (name: Octets, timestamp: uint64)
    requires Restored(file).Some?
    ensures |Restored(file).value| < U64 && Saved(name, timestamp, Restored(file).value) <= file
  {
    hide Le, UnLe, Crc, Bits;
    var n, length := UnLe(file[6..8]), UnLe(file[20..28]);
    var data := Restored(file).value;
    Widths();
    LeUnLe(file[4..6]);
    LeUnLe(file[6..8]);
    LeUnLe(file[8..16]);
    LeUnLe(file[16..20]);
    LeUnLe(file[20..28]);
    name, timestamp := file[HEADER..HEADER + n], UnLe(file[8..16]);
    assert StoredName(name) == name;
    assert file[..HEADER] == file[..4] + file[4..6] + file[6..8] + file[8..16] + file[16..20] + file[20..28];
    assert Head(name, timestamp, Bits(Crc(data)), |data|) == file[..HEADER];
    assert file[..HEADER] + (file[HEADER..HEADER + n] + data) == file[..HEADER + n + length];
  }

  /** A file restores to the data exactly when it begins with a saved form of it. */
  lemma RestoreExact(file: Octets, data: Octets)
    requires |data| < U64
    ensures Restored(file) == Some(data) <==> exists name: Octets, timestamp: uint64 ::
      Saved(name, timestamp, data) <= file
  {
    hide Restored, Saved;
    if Restored(file) == Some(data) { var name, timestamp := RestoredWasSaved(file); }
    forall name: Octets, timestamp: uint64 | Saved(name, timestamp, data) <= file ensures Restored(file) == Some(data) {
      RestoreSaved(name, timestamp, data);
      var saved := Saved(name, timestamp, data);
      ReadsOnlyFront(saved, file[|saved|..]);
      assert saved + file[|saved|..] == file;
    }
  }

  /** Octets changed within any four consecutive places of the data: the file is rejected. */
  lemma BurstRejected(name: Octets, timestamp: uint64, before: Octets, v: Octets, w: Octets, after: Octets)
    requires |v| == |w| <= 4 && v != w && |before + v + after| < U64
    ensures var data, damaged := before + v + after, before + w + after;
      var file := Saved(name, timestamp, data);
      var at := HEADER + |StoredName(name)| + |before|;
      && file[at..at + |v|] == v
      && Restored(file[..at] + w + file[at + |w|..]) == None
      && Reply(file[..at] + w + file[at + |w|..]) == []
  {
    hide Head, Crc, Restored, Bits;
    var data, damaged := before + v + after, before + w + after;
    var head := Head(name, timestamp, Bits(Crc(data)), |data|);
    Splice(head, StoredName(name), before, v, w, after);
    BurstDetected(before, v, w, after);
    Judged(name, timestamp, Crc(data), damaged);
  }

  lemma Splice(head: Octets, name: Octets, before: Octets, v: Octets, w: Octets, after: Octets)
    requires |v| == |w|
    ensures var file := head + (name + (before + v + after)); var at := |head| + |name| + |before|;
      file[at..at + |v|] == v && file[..at] + w + file[at + |w|..] == head + (name + (before + w + after))
  {
    var file := head + (name + (before + v + after));
    var at := |head| + |name| + |before|;
    assert file == (head + name + before) + v + after;
    assert file[..at] == head + name + before && file[at + |w|..] == after;
  }

  /** The name is not protected: files that differ only there are restored alike. */
  lemma NameIsFree(name: Octets, other: Octets, timestamp: uint64, data: Octets)
    requires |data| < U64 && |name| == |other|
    ensures Restored(Head(name, timestamp, Bits(Crc(data)), |data|) + (StoredName(other) + data)) == Some(data)
  {
    hide Head, Crc, Restored, Bits;
    SameHead(name, other, timestamp, Bits(Crc(data)), |data|);
    RestoreSaved(other, timestamp, data);
  }

  lemma SameHead(name: Octets, other: Octets, timestamp: uint64, checksum: nat, length: nat)
    requires |name| == |other|
    ensures Head(name, timestamp, checksum, length) == Head(other, timestamp, checksum, length)
  {
  }

  // ---- The stream loops ---------------------------------------------------------------------------------

  /** An output file. */
  class Output {
    var octets: Octets

    constructor ()
      ensures octets == []
    {
      octets := [];
    }

    method WriteLe(value: nat, width: nat)
      modifies this
      ensures octets == old(octets) + Le(value, width)
    {
      hide Octet;
      var v, i := value, 0;
      while i < width
        invariant 0 <= i <= width && 0 <= v
        invariant octets + Le(v, width - i) == old(octets) + Le(value, width)
      {
        assert Le(v, width - i) == [Octet(v % 256)] + Le(v / 256, width - i - 1);
        octets := octets + [Octet(v % 256)];
        v := v / 256;
        i := i + 1;
      }
    }

    method Write(text: Octets)
      modifies this
      ensures octets == old(octets) + text
    {
      octets := octets + text;
    }
  }

  /** An input file with its read position. */
  class Input {
    const file: Octets
    var at: nat

    constructor (file: Octets)
      ensures this.file == file && at == 0
    {
      this.file, at := file, 0;
    }

    method ReadLe(width: nat) returns (value: Option<nat>)
      requires at <= |file|
      modifies this
      ensures old(at) + width <= |file| ==> value == Some(UnLe(file[old(at)..old(at) + width])) && at == old(at) + width
      ensures old(at) + width > |file| ==> value == None && at <= |file|
    {
      hide Number, UnLe;
      var start := at;
      UnLeEmpty();
      var sum, scale, i := 0, 1, 0;
      while i < width
        invariant 0 <= i <= width && at == start + i <= |file| && 0 <= sum && 0 <= scale
        invariant start + width <= |file| ==>
          sum + scale * UnLe(file[at..start + width]) == UnLe(file[start..start + width])
      {
        if at == |file| {
          return None;
        }
        if start + width <= |file| { Place(sum, scale, file, at, start + width); }
        sum := sum + scale * Number(file[at]);
        scale := scale * 256;
        at := at + 1;
        i := i + 1;
      }
      assert file[at..start + width] == [];
      return Some(sum);
    }
  }

  lemma UnLeEmpty()
    ensures UnLe([]) == 0
  {
  }

  /** One octet moves from the unread part into the sum. */
  lemma Place(sum: nat, scale: nat, file: Octets, at: nat, end: nat)
    requires at < end <= |file|
    ensures sum + scale * UnLe(file[at..end])
      == (sum + scale * Number(file[at])) + (scale * 256) * UnLe(file[at + 1..end])
  {
    hide Number;
    assert file[at..end][1..] == file[at + 1..end];
    PlaceValue(sum, scale, Number(file[at]), UnLe(file[at + 1..end]));
  }

  lemma PlaceValue(sum: nat, scale: nat, low: nat, high: nat)
    ensures sum + scale * (low + 256 * high) == (sum + scale * low) + (scale * 256) * high
  {
  }

  method SaveState(name: Octets, timestamp: uint64, data: Octets) returns (file: Octets)
    ensures file == Saved(name, timestamp, data)
  {
    hide Le, Bits, Crc, TableEntry;
    var table := BuildTable();
    var crc := ComputeCrc32(table, data);
    var out := new Output();
    out.Write(MAGIC);
    out.WriteLe(VERSION, 2);
    out.WriteLe(|name| % NAME_LIMIT, 2);
    out.WriteLe(timestamp, 8);
    out.WriteLe(Bits(crc), 4);
    out.WriteLe(|data|, 8);
    ghost var head := out.octets;
    out.Write(name[..|name| % NAME_LIMIT]);
    out.Write(data);
    assert head == Head(name, timestamp, Bits(Crc(data)), |data|);
    assert out.octets == head + (StoredName(name) + data);
    return out.octets;
  }

  method RestoreState(file: Octets) returns (data: Octets)
    ensures data == Reply(file)
  {
    hide UnLe, Bits, Crc, TableEntry, Number;
    if |file| < 4 || file[..4] != MAGIC {
      return [];
    }
    var input := new Input(file);
    input.at := 4;
    var version := input.ReadLe(2);
    if version.None? { return []; }
    var nameLength := input.ReadLe(2);
    if nameLength.None? { return []; }
    var timestamp := input.ReadLe(8);
    if timestamp.None? { return []; }
    var checksum := input.ReadLe(4);
    if checksum.None? { return []; }
    var length := input.ReadLe(8);
    if length.None? { return []; }
    if version.value != VERSION { return []; }
    assert input.at == HEADER;
    // A short name leaves nothing to read for the data.
    if |file| < HEADER + nameLength.value + length.value { return []; }
    data := file[HEADER + nameLength.value..HEADER + nameLength.value + length.value];
    var table := BuildTable();
    var crc := ComputeCrc32(table, data);
    if Bits(crc) != checksum.value { return []; }
  }
}
