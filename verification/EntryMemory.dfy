/** Byte ranges over a memory device whose entries hold one to four bytes. */
module EntryMemory {

  type Bytes = seq<bv8>

  /** Byte number lane of an entry, the least significant first. */
  function Lane(entry: bv32, lane: nat): bv8
    requires lane < 4
  {
    if lane == 0 then (entry & 0xFF) as bv8
    else if lane == 1 then ((entry >> 8) & 0xFF) as bv8
    else if lane == 2 then ((entry >> 16) & 0xFF) as bv8
    else ((entry >> 24) & 0xFF) as bv8
  }

  function SetLane(entry: bv32, lane: nat, byte: bv8): bv32
    requires lane < 4
  {
    if lane == 0 then (entry & 0xFFFF_FF00) | (byte as bv32)
    else if lane == 1 then (entry & 0xFFFF_00FF) | ((byte as bv32) << 8)
    else if lane == 2 then (entry & 0xFF00_FFFF) | ((byte as bv32) << 16)
    else (entry & 0x00FF_FFFF) | ((byte as bv32) << 24)
  }

  lemma {:induction false} LaneOfSet(entry: bv32, lane: nat, byte: bv8, other: nat)
    requires lane < 4 && other < 4
    ensures Lane(SetLane(entry, lane, byte), other) == if lane == other then byte else Lane(entry, other)
  {
    if lane == 0 {
      SetZero(entry, byte);
      if other == 0 {} else if other == 1 {} else if other == 2 {} else {}
    } else if lane == 1 {
      SetOne(entry, byte);
      if other == 0 {} else if other == 1 {} else if other == 2 {} else {}
    } else if lane == 2 {
      SetTwo(entry, byte);
      if other == 0 {} else if other == 1 {} else if other == 2 {} else {}
    } else {
      SetThree(entry, byte);
      if other == 0 {} else if other == 1 {} else if other == 2 {} else {}
    }
  }

  lemma {:induction false} SetZero(e: bv32, b: bv8)
    ensures var s := (e & 0xFFFF_FF00) | (b as bv32);
            && (s & 0xFF) as bv8 == b
            && ((s >> 8) & 0xFF) as bv8 == ((e >> 8) & 0xFF) as bv8
            && ((s >> 16) & 0xFF) as bv8 == ((e >> 16) & 0xFF) as bv8
            && ((s >> 24) & 0xFF) as bv8 == ((e >> 24) & 0xFF) as bv8
  {
  }

  lemma {:induction false} SetOne(e: bv32, b: bv8)
    ensures var s := (e & 0xFFFF_00FF) | ((b as bv32) << 8);
            && (s & 0xFF) as bv8 == (e & 0xFF) as bv8
            && ((s >> 8) & 0xFF) as bv8 == b
            && ((s >> 16) & 0xFF) as bv8 == ((e >> 16) & 0xFF) as bv8
            && ((s >> 24) & 0xFF) as bv8 == ((e >> 24) & 0xFF) as bv8
  {
  }

  lemma {:induction false} SetTwo(e: bv32, b: bv8)
    ensures var s := (e & 0xFF00_FFFF) | ((b as bv32) << 16);
            && (s & 0xFF) as bv8 == (e & 0xFF) as bv8
            && ((s >> 8) & 0xFF) as bv8 == ((e >> 8) & 0xFF) as bv8
            && ((s >> 16) & 0xFF) as bv8 == b
            && ((s >> 24) & 0xFF) as bv8 == ((e >> 24) & 0xFF) as bv8
  {
  }

  lemma {:induction false} SetThree(e: bv32, b: bv8)
    ensures var s := (e & 0x00FF_FFFF) | ((b as bv32) << 24);
            && (s & 0xFF) as bv8 == (e & 0xFF) as bv8
            && ((s >> 8) & 0xFF) as bv8 == ((e >> 8) & 0xFF) as bv8
            && ((s >> 16) & 0xFF) as bv8 == ((e >> 16) & 0xFF) as bv8
            && ((s >> 24) & 0xFF) as bv8 == b
  {
  }

  // ----------------------------------------------------------------------- locations

  /** The place of a byte inside its entry. */
  function LaneOf(size: nat, bigEndian: bool, place: nat): (lane: nat)
    requires 1 <= size <= 4 && place < size
    ensures lane < size
  {
    if bigEndian then size - 1 - place else place
  }

  function Location(size: nat, entry: nat, place: nat): nat {
    entry * size + place
  }

  lemma {:induction false} Located(size: nat, entry: nat, place: nat)
    requires 1 <= size <= 4 && place < size
    ensures Location(size, entry, place) / size == entry && Location(size, entry, place) % size == place
  {
    if size == 1 {} else if size == 2 {} else if size == 3 {} else {}
  }

  lemma {:induction false} Relocated(size: nat, location: nat)
    requires 1 <= size <= 4
    ensures Location(size, location / size, location % size) == location && location % size < size
  {
    if size == 1 {} else if size == 2 {} else if size == 3 {} else {}
  }

  lemma {:induction false} InRange(size: nat, entries: nat, location: nat)
    requires 1 <= size <= 4 && location < entries * size
    ensures location / size < entries
  {
    if size == 1 {} else if size == 2 {} else if size == 3 {} else {}
  }

  /** What the byte orders mean: the first byte of an entry is the most significant one in one order and
      the least significant one in the other. */
  lemma {:induction false} ByteOrders(entry: bv32)
    ensures Lane(entry, LaneOf(4, true, 0)) == ((entry >> 24) & 0xFF) as bv8
    ensures Lane(entry, LaneOf(4, true, 1)) == ((entry >> 16) & 0xFF) as bv8
    ensures Lane(entry, LaneOf(4, true, 2)) == ((entry >> 8) & 0xFF) as bv8
    ensures Lane(entry, LaneOf(4, true, 3)) == (entry & 0xFF) as bv8
    ensures Lane(entry, LaneOf(2, true, 0)) == ((entry >> 8) & 0xFF) as bv8
    ensures Lane(entry, LaneOf(2, true, 1)) == (entry & 0xFF) as bv8
    ensures Lane(entry, LaneOf(2, false, 0)) == (entry & 0xFF) as bv8
    ensures Lane(entry, LaneOf(2, false, 1)) == ((entry >> 8) & 0xFF) as bv8
    ensures Lane(entry, LaneOf(4, false, 0)) == (entry & 0xFF) as bv8
    ensures Lane(entry, LaneOf(4, false, 3)) == ((entry >> 24) & 0xFF) as bv8
  {
  }

  /** The byte view of a device: what the catalog promises about its space. */
  function ByteAt(memory: seq<bv32>, size: nat, bigEndian: bool, location: nat): bv8
    requires 1 <= size <= 4 && location < |memory| * size
  {
    InRange(size, |memory|, location);
    Lane(memory[location / size], LaneOf(size, bigEndian, location % size))
  }

  // --------------------------------------------------------------------------- write

  /** What a byte should be once the first n bytes of the input are written. */
  function Wanted(
    memory: seq<bv32>, size: nat, bigEndian: bool, address: nat, input: Bytes, n: nat, entry: nat, place: nat): bv8
    requires 1 <= size <= 4 && entry < |memory| && place < size && n <= |input|
  {
    var location := Location(size, entry, place);
    if address <= location < address + n then input[location - address]
    else Lane(memory[entry], LaneOf(size, bigEndian, place))
  }

  ghost predicate WrittenUpTo(
    before: seq<bv32>, after: seq<bv32>, size: nat, bigEndian: bool, address: nat, input: Bytes, n: nat)
    requires 1 <= size <= 4 && n <= |input| && |before| == |after|
  {
    forall e: nat, p: nat :: e < |after| && p < size ==>
      Lane(after[e], LaneOf(size, bigEndian, p)) == Wanted(before, size, bigEndian, address, input, n, e, p)
  }

  /** The bytes of one entry while it is being patched. */
  ghost predicate Patched(
    before: seq<bv32>, value: bv32, size: nat, bigEndian: bool, address: nat, input: Bytes, n: nat, entry: nat)
    requires 1 <= size <= 4 && n <= |input| && entry < |before|
  {
    forall p: nat :: p < size ==>
      Lane(value, LaneOf(size, bigEndian, p)) == Wanted(before, size, bigEndian, address, input, n, entry, p)
  }

  lemma {:induction false} PatchOne(
    before: seq<bv32>, value: bv32, size: nat, bigEndian: bool, address: nat, input: Bytes, n: nat, entry: nat)
    requires 1 <= size <= 4 && n < |input| && entry < |before| && (address + n) / size == entry
    requires Patched(before, value, size, bigEndian, address, input, n, entry)
    ensures (address + n) % size < size
    ensures Patched(before, SetLane(value, LaneOf(size, bigEndian, (address + n) % size), input[n]),
                    size, bigEndian, address, input, n + 1, entry)
  {
    Relocated(size, address + n);
    var place := (address + n) % size;
    var lane := LaneOf(size, bigEndian, place);
    forall p: nat | p < size
      ensures Lane(SetLane(value, lane, input[n]), LaneOf(size, bigEndian, p))
              == Wanted(before, size, bigEndian, address, input, n + 1, entry, p)
    {
      LaneOfSet(value, lane, input[n], LaneOf(size, bigEndian, p));
      assert Location(size, entry, p) - Location(size, entry, place) == p - place;
    }
  }

  lemma {:induction false} Apart(size: nat, entry: nat, place: nat, other: nat)
    requires 1 <= size <= 4 && place < size && entry != other
    ensures Location(size, entry, place) < other * size || Location(size, entry, place) >= (other + 1) * size
  {
    if size == 1 {} else if size == 2 {} else if size == 3 {} else {}
  }

  /** Writing back a patched entry: the others were not concerned. */
  lemma {:induction false} WroteBack(
    before: seq<bv32>, during: seq<bv32>, value: bv32, size: nat, bigEndian: bool, address: nat, input: Bytes,
    n: nat, m: nat, entry: nat)
    requires 1 <= size <= 4 && n <= m <= |input| && |before| == |during| && entry < |before|
    requires WrittenUpTo(before, during, size, bigEndian, address, input, n)
    requires Patched(before, value, size, bigEndian, address, input, m, entry)
    requires entry * size <= address + n && address + m <= (entry + 1) * size
    ensures WrittenUpTo(before, during[entry := value], size, bigEndian, address, input, m)
  {
    forall e: nat, p: nat | e < |before| && p < size
      ensures Lane(during[entry := value][e], LaneOf(size, bigEndian, p))
              == Wanted(before, size, bigEndian, address, input, m, e, p)
    {
      if e != entry {
        Apart(size, e, p, entry);
        assert Lane(during[e], LaneOf(size, bigEndian, p)) == Wanted(before, size, bigEndian, address, input, n, e, p);
      }
    }
  }

  lemma {:induction false} EntryBounds(size: nat, location: nat)
    requires 1 <= size <= 4
    ensures location / size * size <= location < (location / size + 1) * size
  {
    if size == 1 {} else if size == 2 {} else if size == 3 {} else {}
  }

  lemma {:induction false} SameEntry(size: nat, entry: nat, location: nat)
    requires 1 <= size <= 4 && entry * size <= location < (entry + 1) * size
    ensures location / size == entry
  {
    if size == 1 {} else if size == 2 {} else if size == 3 {} else {}
  }

  method PatchByte(
    value: bv32, size: nat, bigEndian: bool, address: nat, input: Bytes, n: nat, ghost before: seq<bv32>, ghost entry: nat)
      returns (patched: bv32)
    requires 1 <= size <= 4 && n < |input| && entry < |before| && (address + n) / size == entry
    requires Patched(before, value, size, bigEndian, address, input, n, entry)
    ensures Patched(before, patched, size, bigEndian, address, input, n + 1, entry)
  {
    PatchOne(before, value, size, bigEndian, address, input, n, entry);
    patched := SetLane(value, LaneOf(size, bigEndian, (address + n) % size), input[n]);
  }

  /** Patches the bytes of the input that fall into the entry of the next one. */
  method PatchEntry(
    value: bv32, size: nat, bigEndian: bool, address: nat, input: Bytes, offset: nat, ghost before: seq<bv32>)
      returns (patched: bv32, next: nat)
    requires 1 <= size <= 4 && offset < |input| && address + |input| <= |before| * size
    requires (address + offset) / size < |before|
    requires Patched(before, value, size, bigEndian, address, input, offset, (address + offset) / size)
    ensures var entry := (address + offset) / size;
            && offset < next <= |input| && address + next <= (entry + 1) * size
            && (next == |input| || address + next == (entry + 1) * size)
            && Patched(before, patched, size, bigEndian, address, input, next, entry)
  {
    var entry := (address + offset) / size;
    var entryEnd := (entry + 1) * size;
    patched, next := value, offset;
    EntryBounds(size, address + offset);
    while next < |input| && address + next < entryEnd
      invariant offset <= next <= |input| && address + next <= entryEnd
      invariant next == offset ==> address + next < entryEnd
      invariant Patched(before, patched, size, bigEndian, address, input, next, entry)
    {
      SameEntry(size, entry, address + next);
      patched := PatchByte(patched, size, bigEndian, address, input, next, before, entry);
      next := next + 1;
    }
  }

  /** The bytes inside the range become the input and every byte outside keeps its value. */
  method WriteMemoryEntries(memory: array<bv32>, size: nat, bigEndian: bool, address: nat, input: Bytes)
    requires 1 <= size <= 4 && address + |input| <= memory.Length * size
    modifies memory
    ensures Written(old(memory[..]), memory[..], size, bigEndian, address, input)
  {
    ghost var before := memory[..];
    var offset := 0;
    while offset < |input|
      invariant 0 <= offset <= |input|
      invariant WrittenUpTo(before, memory[..], size, bigEndian, address, input, offset)
    {
      var location := address + offset;
      InRange(size, memory.Length, location);
      EntryBounds(size, location);
      var entry := location / size;
      var value := memory[entry];
      assert memory[..][entry] == value;
      var patched, next := PatchEntry(value, size, bigEndian, address, input, offset, before);
      WroteBack(before, memory[..], patched, size, bigEndian, address, input, offset, next, entry);
      ghost var during := memory[..];
      memory[entry] := patched;
      assert memory[..] == during[entry := patched];
      offset := next;
    }
    WrittenIs(before, memory[..], size, bigEndian, address, input);
  }

  ghost predicate Written(before: seq<bv32>, after: seq<bv32>, size: nat, bigEndian: bool, address: nat, input: Bytes)
    requires 1 <= size <= 4
  {
    |before| == |after| &&
    forall location: nat :: location < |after| * size ==>
      ByteAt(after, size, bigEndian, location)
      == if address <= location < address + |input| then input[location - address]
         else ByteAt(before, size, bigEndian, location)
  }

  lemma {:induction false} WrittenIs(
    before: seq<bv32>, after: seq<bv32>, size: nat, bigEndian: bool, address: nat, input: Bytes)
    requires 1 <= size <= 4 && |before| == |after|
    requires WrittenUpTo(before, after, size, bigEndian, address, input, |input|)
    ensures Written(before, after, size, bigEndian, address, input)
  {
    forall location: nat | location < |after| * size
      ensures ByteAt(after, size, bigEndian, location)
              == if address <= location < address + |input| then input[location - address]
                 else ByteAt(before, size, bigEndian, location)
    {
      WrittenAt(before, after, size, bigEndian, address, input, location);
    }
  }

  lemma {:induction false} WrittenAt(
    before: seq<bv32>, after: seq<bv32>, size: nat, bigEndian: bool, address: nat, input: Bytes, location: nat)
    requires 1 <= size <= 4 && |before| == |after| && location < |after| * size
    requires WrittenUpTo(before, after, size, bigEndian, address, input, |input|)
    ensures ByteAt(after, size, bigEndian, location)
            == if address <= location < address + |input| then input[location - address]
               else ByteAt(before, size, bigEndian, location)
  {
    var e, p := location / size, location % size;
    InRange(size, |after|, location);
    Relocated(size, location);
    assert Lane(after[e], LaneOf(size, bigEndian, p)) == Wanted(before, size, bigEndian, address, input, |input|, e, p);
  }

  // ---------------------------------------------------------------------------- read

  /** Reads bytes most significant first, fetching an entry only when it changes; the entry
      at hand is always the current one. */
  method ReadMemoryEntries(memory: array<bv32>, size: nat, address: nat, length: nat) returns (output: Bytes)
    requires 1 <= size <= 4 && address + length <= memory.Length * size
    ensures |output| == length
    ensures forall i :: 0 <= i < length ==> output[i] == ByteAt(memory[..], size, true, address + i)
  {
    output := [];
    var entryValue: bv32, lastEntry: int := 0, -1;
    var offset := 0;
    while offset < length
      invariant 0 <= offset <= length && |output| == offset
      invariant lastEntry >= 0 ==> lastEntry < memory.Length && entryValue == memory[lastEntry]
      invariant forall i :: 0 <= i < offset ==> output[i] == ByteAt(memory[..], size, true, address + i)
    {
      var location := address + offset;
      InRange(size, memory.Length, location);
      Relocated(size, location);
      var entry := location / size;
      if entry != lastEntry {
        entryValue := memory[entry];
        lastEntry := entry;
      }
      assert entryValue == memory[..][entry];
      output := output + [Lane(entryValue, LaneOf(size, true, location % size))];
      offset := offset + 1;
    }
  }

  /** The catalog's byte order for entries of up to four bytes. */
  predicate CatalogBigEndian(size: nat) {
    size > 1
  }

  /** Writing a range with the catalog's byte order and reading any range afterwards gives
      the written bytes inside the first and the old bytes outside it. */
  method WriteThenRead(memory: array<bv32>, size: nat, address: nat, input: Bytes, from: nat, length: nat)
      returns (output: Bytes)
    requires 1 <= size <= 4 && address + |input| <= memory.Length * size && from + length <= memory.Length * size
    modifies memory
    ensures |output| == length
    ensures forall i :: 0 <= i < length ==>
              output[i] == if address <= from + i < address + |input| then input[from + i - address]
                           else ByteAt(old(memory[..]), size, true, from + i)
  {
    ghost var before := memory[..];
    WriteMemoryEntries(memory, size, CatalogBigEndian(size), address, input);
    output := ReadMemoryEntries(memory, size, from, length);
    forall i | 0 <= i < length
      ensures output[i] == if address <= from + i < address + |input| then input[from + i - address]
                           else ByteAt(before, size, true, from + i)
    {
      AnyOrderOfOne(before, size, from + i);
      AnyOrderOfOne(memory[..], size, from + i);
    }
  }

  /** With one byte an entry the order makes no difference. */
  lemma {:induction false} AnyOrderOfOne(memory: seq<bv32>, size: nat, location: nat)
    requires 1 <= size <= 4 && location < |memory| * size
    ensures ByteAt(memory, size, CatalogBigEndian(size), location) == ByteAt(memory, size, true, location)
  {
    Relocated(size, location);
  }

  /** The reader knows only one byte order: it sees an entry laid down in the other one mirrored. */
  lemma {:induction false} OtherOrderReadsMirrored(memory: seq<bv32>, size: nat, entry: nat, place: nat)
    requires 1 <= size <= 4 && entry < |memory| && place < size
    ensures Location(size, entry, place) < |memory| * size && Location(size, entry, size - 1 - place) < |memory| * size
    ensures ByteAt(memory, size, true, Location(size, entry, place))
            == ByteAt(memory, size, false, Location(size, entry, size - 1 - place))
  {
    Located(size, entry, place);
    Located(size, entry, size - 1 - place);
    assert (entry + 1) * size <= |memory| * size by {
      if size == 1 {} else if size == 2 {} else if size == 3 {} else {}
    }
  }
}
