/** Resolving bus addresses to symbols: a hash map and a binary search against a linear scan. */
module SymbolIndex {
  import opened Basics
  import Annotations

  const UINT64: nat := 0x1_0000_0000_0000_0000
  const M68K_LIMIT: nat := 0x1_0000
  const Z80_LIMIT: nat := 0x800
  const Z80_SPAN: nat := 0x1_0000

  /** bus is the recorded bus coordinate; symbols stored by older builds have none. */
  datatype Symbol = Symbol(name: string, spaceId: string, address: nat, bus: Option<Target>)

  /** An untyped target has an empty space and applies to every bus. */
  datatype Target = Target(spaceId: string, address: nat)

  /** Where a space lies on a processor bus. */
  datatype Mapping = Mapping(busSpaceId: string, base: nat)

  datatype Entry = Entry(name: string, address: nat)

  function TargetFor(symbol: Symbol, mappings: map<string, Mapping>): Option<Target> {
    if symbol.bus.Some? then symbol.bus
    else if Annotations.Trim(symbol.spaceId) == "" then Some(Target("", symbol.address))
    else if symbol.spaceId !in mappings then None
    else
      var mapping := mappings[symbol.spaceId];
      if symbol.address + mapping.base >= UINT64 then None
      else Some(Target(mapping.busSpaceId, mapping.base + symbol.address))
  }

  /** The entry a symbol makes in the index of one bus; span is one more than the bus mask. */
  function EntryFor(symbol: Symbol, mappings: map<string, Mapping>, busSpaceId: string, span: nat): Option<Entry>
    requires span > 0
  {
    var target := TargetFor(symbol, mappings);
    if target.None? then None
    else if target.value.spaceId != "" && target.value.spaceId != busSpaceId then None
    else Some(Entry(symbol.name, target.value.address % span))
  }

  /** A symbol of a mapped space makes the same entry whether its bus coordinate was recorded or
      has to be derived, and none on another bus; an untyped one makes an entry on every bus. */
  lemma {:induction false} RecordedAgrees(
    symbol: Symbol, mappings: map<string, Mapping>, busSpaceId: string, other: string, span: nat)
    requires span > 0 && symbol.bus.None?
    ensures Annotations.Trim(symbol.spaceId) != "" && symbol.spaceId in mappings ==>
              var mapping := mappings[symbol.spaceId];
              var recorded := symbol.(bus := Some(Target(mapping.busSpaceId, mapping.base + symbol.address)));
              && (mapping.base + symbol.address < UINT64 ==>
                    EntryFor(symbol, mappings, busSpaceId, span) == EntryFor(recorded, mappings, busSpaceId, span))
              && (mapping.busSpaceId != "" && mapping.busSpaceId != other ==> EntryFor(symbol, mappings, other, span).None?)
    ensures Annotations.Trim(symbol.spaceId) == "" ==>
              EntryFor(symbol, mappings, busSpaceId, span) == Some(Entry(symbol.name, symbol.address % span))
  {
  }

  /** Which symbols make an entry on a bus, and where: a recorded coordinate decides; without one an untyped
      symbol lies on every bus at its own address, and a typed one where its space is mapped,
      if it is and the sum fits 64 bits. */
  lemma {:induction false} EntryExactly(symbol: Symbol, mappings: map<string, Mapping>, busSpaceId: string, span: nat)
    requires span > 0
    ensures var entry, untyped := EntryFor(symbol, mappings, busSpaceId, span), Annotations.Trim(symbol.spaceId) == "";
            && (entry.Some? ==> entry.value.name == symbol.name)
            && (symbol.bus.Some? ==>
                  && (entry.Some? <==> symbol.bus.value.spaceId == "" || symbol.bus.value.spaceId == busSpaceId)
                  && (entry.Some? ==> entry.value.address == symbol.bus.value.address % span))
            && (symbol.bus.None? && untyped ==> entry.Some? && entry.value.address == symbol.address % span)
            && (symbol.bus.None? && !untyped ==>
                  && (entry.Some? <==>
                        && symbol.spaceId in mappings
                        && symbol.address + mappings[symbol.spaceId].base < 0x1_0000_0000_0000_0000
                        && (mappings[symbol.spaceId].busSpaceId == "" || mappings[symbol.spaceId].busSpaceId == busSpaceId))
                  && (entry.Some? ==>
                        symbol.spaceId in mappings &&
                        entry.value.address == (symbol.address + mappings[symbol.spaceId].base) % span))
  {
  }

  /** All entries of one bus, in store order. */
  function Entries(symbols: seq<Symbol>, mappings: map<string, Mapping>, busSpaceId: string, span: nat): seq<Entry>
    requires span > 0
  {
    if symbols == [] then []
    else
      var init, last := symbols[..|symbols| - 1], EntryFor(symbols[|symbols| - 1], mappings, busSpaceId, span);
      Entries(init, mappings, busSpaceId, span) + if last.Some? then [last.value] else []
  }

  // --------------------------------------------------------------------- linear scan

  /** The first entry in store order at exactly the address. */
  function FirstAt(entries: seq<Entry>, address: nat): Option<string> {
    if entries == [] then None
    else if entries[0].address == address then Some(entries[0].name)
    else FirstAt(entries[1..], address)
  }

  /** The last entry in store order among those at the greatest address not above the one asked for. */
  function NearestBelow(entries: seq<Entry>, address: nat): (best: Option<Entry>)
    ensures best.Some? ==> best.value.address <= address
  {
    if entries == [] then None
    else Closer(NearestBelow(entries[..|entries| - 1], address), entries[|entries| - 1], address)
  }

  function Closer(best: Option<Entry>, entry: Entry, address: nat): Option<Entry> {
    if entry.address <= address && (best.None? || best.value.address <= entry.address) then Some(entry) else best
  }

  /** A name and the distance from it; an empty name for none. */
  datatype Answer = Answer(name: string, offset: nat)

  /** The answer for a masked address. */
  function Scan(entries: seq<Entry>, address: nat, limit: nat): Answer {
    var exact, nearest := FirstAt(entries, address), NearestBelow(entries, address);
    if exact.Some? then Answer(exact.value, 0)
    else if nearest.None? || address - nearest.value.address > limit then Answer("", 0)
    else Answer(nearest.value.name, address - nearest.value.address)
  }

  lemma {:induction false} NearestBelowIs(entries: seq<Entry>, address: nat)
    ensures var best := NearestBelow(entries, address);
            && (best.Some? ==> best.value in entries && best.value.address <= address)
            && forall e :: e in entries && e.address <= address ==> best.Some? && e.address <= best.value.address
  {
    if entries != [] {
      var init := entries[..|entries| - 1];
      NearestBelowIs(init, address);
      assert forall e :: e in entries <==> e in init || e == entries[|entries| - 1];
    }
  }

  lemma {:induction false} FirstAtIs(entries: seq<Entry>, address: nat)
    ensures FirstAt(entries, address).Some? <==> exists e :: e in entries && e.address == address
    ensures FirstAt(entries, address).Some? ==> Entry(FirstAt(entries, address).value, address) in entries
  {
    if entries != [] {
      FirstAtIs(entries[1..], address);
      assert forall e :: e in entries <==> e == entries[0] || e in entries[1..];
      assert entries[0].address == address ==> entries[0] == Entry(entries[0].name, address);
    }
  }

  /** What a scan means: within the limit the closest entry at or below the address, an exact
      one at distance zero; and no name exactly when no entry lies within the limit below. */
  lemma {:induction false} ScanIs(entries: seq<Entry>, address: nat, limit: nat)
    requires forall e :: e in entries ==> e.name != ""
    ensures var Answer(name, offset) := Scan(entries, address, limit);
            && (name == "" <==> forall e :: e in entries && e.address <= address ==> address - e.address > limit)
            && (name != "" ==>
                  && offset <= limit && offset <= address && Entry(name, address - offset) in entries
                  && forall e :: e in entries && e.address <= address ==> e.address <= address - offset)
  {
    FirstAtIs(entries, address);
    NearestBelowIs(entries, address);
  }

  // --------------------------------------------------------------------------- index

  /** Puts an entry behind every entry that is not above it. */
  function Insert(entry: Entry, sorted: seq<Entry>): (r: seq<Entry>)
    ensures |r| == |sorted| + 1
  {
    if sorted == [] then [entry]
    else
      var last := sorted[|sorted| - 1];
      if last.address > entry.address then Insert(entry, sorted[..|sorted| - 1]) + [last] else sorted + [entry]
  }

  /** Stable, by address. */
  function SortStable(entries: seq<Entry>): (r: seq<Entry>)
    ensures |r| == |entries|
  {
    if entries == [] then [] else Insert(entries[|entries| - 1], SortStable(entries[..|entries| - 1]))
  }

  ghost predicate Ascending(entries: seq<Entry>) {
    forall i, j :: 0 <= i < j < |entries| ==> entries[i].address <= entries[j].address
  }

  lemma {:induction false} InsertAscending(entry: Entry, sorted: seq<Entry>)
    requires Ascending(sorted)
    ensures Ascending(Insert(entry, sorted))
    ensures forall e :: e in Insert(entry, sorted) ==> e == entry || e in sorted
  {
    if sorted != [] && sorted[|sorted| - 1].address > entry.address {
      var init, last := sorted[..|sorted| - 1], sorted[|sorted| - 1];
      InsertAscending(entry, init);
      var front := Insert(entry, init);
      forall i | 0 <= i < |front| ensures front[i].address <= last.address {
        assert front[i] in front;
      }
    }
  }

  /** Stable insertion does not change which entry is nearest. */
  lemma {:induction false} InsertKeepsNearest(entry: Entry, sorted: seq<Entry>, address: nat)
    requires Ascending(sorted)
    ensures NearestBelow(Insert(entry, sorted), address) == NearestBelow(sorted + [entry], address)
  {
    assert (sorted + [entry])[..|sorted|] == sorted;
    if sorted != [] && sorted[|sorted| - 1].address > entry.address {
      var init, last := sorted[..|sorted| - 1], sorted[|sorted| - 1];
      InsertKeepsNearest(entry, init, address);
      assert (init + [entry])[..|init|] == init;
      var front := Insert(entry, init);
      assert (front + [last])[..|front|] == front;
      NearestBelowIs(init, address);
    }
  }

  lemma {:induction false} SortKeepsNearest(entries: seq<Entry>, address: nat)
    ensures Ascending(SortStable(entries))
    ensures NearestBelow(SortStable(entries), address) == NearestBelow(entries, address)
  {
    if entries != [] {
      var init, last := entries[..|entries| - 1], entries[|entries| - 1];
      SortKeepsNearest(init, address);
      var sorted := SortStable(init);
      InsertAscending(last, sorted);
      InsertKeepsNearest(last, sorted, address);
      assert (sorted + [last])[..|sorted|] == sorted;
    }
  }

  /** Of a sorted list the nearest entry is the last one not above the address. */
  lemma {:induction false} NearestOfSorted(sorted: seq<Entry>, address: nat, n: nat)
    requires Ascending(sorted) && n <= |sorted|
    requires forall i :: 0 <= i < n ==> sorted[i].address <= address
    requires forall i :: n <= i < |sorted| ==> sorted[i].address > address
    ensures NearestBelow(sorted, address) == if n == 0 then None else Some(sorted[n - 1])
  {
    if sorted != [] {
      var init := sorted[..|sorted| - 1];
      NearestOfSorted(init, address, if n == |sorted| then n - 1 else n);
    }
  }

  ghost predicate Maps(byAddress: map<nat, string>, entries: seq<Entry>) {
    forall a: nat :: FirstAt(entries, a) == if a in byAddress then Some(byAddress[a]) else None
  }

  lemma {:induction false} FirstAtMore(entries: seq<Entry>, entry: Entry, address: nat)
    ensures FirstAt(entries + [entry], address)
            == if FirstAt(entries, address).Some? then FirstAt(entries, address)
               else if entry.address == address then Some(entry.name) else None
  {
    if entries == [] {
      assert [entry][1..] == [];
      assert entries + [entry] == [entry];
    } else {
      FirstAtMore(entries[1..], entry, address);
      assert (entries + [entry])[1..] == entries[1..] + [entry];
    }
  }

  class SymbolBusIndex {
    var byAddress: map<nat, string>
    var sorted: seq<Entry>
    var span: nat

    ghost predicate Indexes(entries: seq<Entry>)
      reads this
    {
      span > 0 && Maps(byAddress, entries) && sorted == SortStable(entries)
    }

    constructor (symbols: seq<Symbol>, mappings: map<string, Mapping>, busSpaceId: string, span_: nat)
      requires span_ > 0
      ensures Indexes(Entries(symbols, mappings, busSpaceId, span_)) && span == span_
    {
      span, byAddress := span_, map[];
      new;
      var entries := [];
      var k := 0;
      while k < |symbols|
        invariant 0 <= k <= |symbols| && span == span_
        invariant entries == Entries(symbols[..k], mappings, busSpaceId, span_)
        invariant Maps(byAddress, entries)
      {
        assert symbols[..k + 1][..k] == symbols[..k];
        var entry := EntryFor(symbols[k], mappings, busSpaceId, span_);
        if entry.Some? {
          forall a: nat ensures FirstAt(entries + [entry.value], a)
            == if FirstAt(entries, a).Some? then FirstAt(entries, a)
               else if entry.value.address == a then Some(entry.value.name) else None
          {
            FirstAtMore(entries, entry.value, a);
          }
          if entry.value.address !in byAddress {
            byAddress := byAddress[entry.value.address := entry.value.name];
          }
          entries := entries + [entry.value];
        }
        k := k + 1;
      }
      assert symbols[..k] == symbols;
      sorted := SortStable(entries);
    }

    /** How many of the sorted entries are not above the address. */
    method CountUpTo(address: nat) returns (lo: nat)
      requires Ascending(sorted)
      ensures lo <= |sorted|
      ensures forall i :: 0 <= i < lo ==> sorted[i].address <= address
      ensures forall i :: lo <= i < |sorted| ==> sorted[i].address > address
    {
      var hi := |sorted|;
      lo := 0;
      while lo < hi
        invariant 0 <= lo <= hi <= |sorted|
        invariant forall i :: 0 <= i < lo ==> sorted[i].address <= address
        invariant forall i :: hi <= i < |sorted| ==> sorted[i].address > address
      {
        var mid := (lo + hi) / 2;
        if sorted[mid].address <= address {
          lo := mid + 1;
        } else {
          hi := mid;
        }
      }
    }

    /** A query already masked to the bus. */
    method Lookup(masked: nat, limit: nat, ghost entries: seq<Entry>) returns (answer: Answer)
      requires Indexes(entries)
      ensures answer == Scan(entries, masked, limit)
    {
      if masked in byAddress {
        return Answer(byAddress[masked], 0);
      }
      SortKeepsNearest(entries, masked);
      var lo := CountUpTo(masked);
      NearestOfSorted(sorted, masked, lo);
      if lo == 0 {
        return Answer("", 0);
      }
      var best := sorted[lo - 1];
      if masked - best.address > limit {
        return Answer("", 0);
      }
      return Answer(best.name, masked - best.address);
    }

    /** Any query gets the answer of the linear scan at its masked address. */
    method Resolve(address: nat, ghost entries: seq<Entry>) returns (answer: Answer)
      requires Indexes(entries)
      ensures answer == Scan(entries, address % span, M68K_LIMIT)
    {
      answer := Lookup(address % span, M68K_LIMIT, entries);
    }

    /** The Z80 has its own mask, whatever the index was built with, and a shorter reach. */
    method ResolveZ80(address: nat, ghost entries: seq<Entry>) returns (answer: Answer)
      requires Indexes(entries)
      ensures answer == Scan(entries, address % Z80_SPAN, Z80_LIMIT)
    {
      answer := Lookup(address % Z80_SPAN, Z80_LIMIT, entries);
    }
  }

  /** The last entry in store order at exactly the address. */
  function LastAt(entries: seq<Entry>, address: nat): Option<string> {
    if entries == [] then None
    else if entries[|entries| - 1].address == address then Some(entries[|entries| - 1].name)
    else LastAt(entries[..|entries| - 1], address)
  }

  /** The nearest entry is the last one at its address, where an exact query takes the first. */
  lemma {:induction false} NearestIsLast(entries: seq<Entry>, address: nat)
    ensures var best := NearestBelow(entries, address);
            best.Some? ==> LastAt(entries, best.value.address) == Some(best.value.name)
  {
    if entries != [] {
      NearestIsLast(entries[..|entries| - 1], address);
    }
  }

  lemma {:induction false} NearestAt(entries: seq<Entry>, base: nat, query: nat)
    requires base <= query && FirstAt(entries, base).Some?
    requires forall e :: e in entries ==> !(base < e.address <= query)
    ensures NearestBelow(entries, query).Some? && NearestBelow(entries, query).value.address == base
  {
    FirstAtIs(entries, base);
    NearestBelowIs(entries, query);
  }

  /** An exact query and one a little above it, with nothing in between, name the same symbol
      exactly when the first and the last entry at the address carry the same name. */
  lemma {:induction false} SharedAddress(entries: seq<Entry>, base: nat, query: nat, limit: nat)
    requires base < query <= base + limit && FirstAt(entries, base).Some?
    requires forall e :: e in entries ==> !(base < e.address <= query)
    ensures LastAt(entries, base).Some?
    ensures Scan(entries, base, limit) == Answer(FirstAt(entries, base).value, 0)
    ensures Scan(entries, query, limit) == Answer(LastAt(entries, base).value, query - base)
    ensures Scan(entries, base, limit).name == Scan(entries, query, limit).name
            <==> FirstAt(entries, base) == LastAt(entries, base)
  {
    NearestAt(entries, base, query);
    NearestIsLast(entries, query);
    FirstAtIs(entries, query);
  }

  // ------------------------------------------------------- two symbols at one address

  predicate At(symbol: Symbol, mappings: map<string, Mapping>, busSpaceId: string, span: nat, address: nat)
    requires span > 0
  {
    var entry := EntryFor(symbol, mappings, busSpaceId, span);
    entry.Some? && entry.value.address == address
  }

  /** An entry comes from a symbol at its address. */
  lemma {:induction false} EntryOf(
    symbols: seq<Symbol>, mappings: map<string, Mapping>, busSpaceId: string, span: nat, e: Entry)
    requires span > 0 && e in Entries(symbols, mappings, busSpaceId, span)
    ensures exists k :: 0 <= k < |symbols| && At(symbols[k], mappings, busSpaceId, span, e.address)
  {
    var n := |symbols| - 1;
    if e in Entries(symbols[..n], mappings, busSpaceId, span) {
      EntryOf(symbols[..n], mappings, busSpaceId, span, e);
      var k :| 0 <= k < n && At(symbols[..n][k], mappings, busSpaceId, span, e.address);
      assert At(symbols[k], mappings, busSpaceId, span, e.address);
    } else {
      assert At(symbols[n], mappings, busSpaceId, span, e.address);
    }
  }

  lemma {:induction false} FirstAtConcat(a: seq<Entry>, b: seq<Entry>, address: nat)
    ensures FirstAt(a + b, address) == if FirstAt(a, address).Some? then FirstAt(a, address) else FirstAt(b, address)
  {
    if a == [] {
      assert a + b == b;
    } else {
      FirstAtConcat(a[1..], b, address);
      assert (a + b)[1..] == a[1..] + b;
    }
  }

  lemma {:induction false} FirstSymbol(
    symbols: seq<Symbol>, mappings: map<string, Mapping>, busSpaceId: string, span: nat, address: nat, i: nat)
    requires span > 0 && i < |symbols| && At(symbols[i], mappings, busSpaceId, span, address)
    requires forall k :: 0 <= k < i ==> !At(symbols[k], mappings, busSpaceId, span, address)
    ensures FirstAt(Entries(symbols, mappings, busSpaceId, span), address) == Some(symbols[i].name)
  {
    var n := |symbols| - 1;
    var before, last := Entries(symbols[..n], mappings, busSpaceId, span), EntryFor(symbols[n], mappings, busSpaceId, span);
    FirstAtConcat(before, if last.Some? then [last.value] else [], address);
    if i < n {
      FirstSymbol(symbols[..n], mappings, busSpaceId, span, address, i);
    } else {
      FirstAtIs(before, address);
      if e :| e in before && e.address == address { EntryOf(symbols[..n], mappings, busSpaceId, span, e); }
    }
  }

  lemma {:induction false} LastSymbol(
    symbols: seq<Symbol>, mappings: map<string, Mapping>, busSpaceId: string, span: nat, address: nat, j: nat)
    requires span > 0 && j < |symbols| && At(symbols[j], mappings, busSpaceId, span, address)
    requires forall k :: j < k < |symbols| ==> !At(symbols[k], mappings, busSpaceId, span, address)
    ensures LastAt(Entries(symbols, mappings, busSpaceId, span), address) == Some(symbols[j].name)
  {
    var n := |symbols| - 1;
    var before, last := Entries(symbols[..n], mappings, busSpaceId, span), EntryFor(symbols[n], mappings, busSpaceId, span);
    if last.Some? {
      LastAtMore(before, last.value, address);
    } else {
      assert before + [] == before;
    }
    if j < n {
      assert !At(symbols[n], mappings, busSpaceId, span, address);
      LastSymbol(symbols[..n], mappings, busSpaceId, span, address, j);
    }
  }

  lemma {:induction false} LastAtMore(entries: seq<Entry>, entry: Entry, address: nat)
    ensures LastAt(entries + [entry], address) == if entry.address == address then Some(entry.name) else LastAt(entries, address)
  {
    assert (entries + [entry])[..|entries|] == entries;
  }

  /** A duplicated address in any store: an exact query names the first symbol at it, which the
      comment on the index promises, a nearby one the last. They differ exactly when those two
      symbols have different names. */
  lemma {:induction false} SecondNameFound(
    symbols: seq<Symbol>, mappings: map<string, Mapping>, busSpaceId: string, span: nat,
    address: nat, query: nat, limit: nat, i: nat, j: nat)
    requires span > 0 && i <= j < |symbols| && address < query <= address + limit
    requires At(symbols[i], mappings, busSpaceId, span, address) && At(symbols[j], mappings, busSpaceId, span, address)
    requires forall k :: 0 <= k < i || j < k < |symbols| ==> !At(symbols[k], mappings, busSpaceId, span, address)
    requires forall k, near :: 0 <= k < |symbols| && address < near <= query ==> !At(symbols[k], mappings, busSpaceId, span, near)
    ensures var entries := Entries(symbols, mappings, busSpaceId, span);
            && Scan(entries, address, limit) == Answer(symbols[i].name, 0)
            && Scan(entries, query, limit) == Answer(symbols[j].name, query - address)
            && (Scan(entries, address, limit).name == Scan(entries, query, limit).name <==> symbols[i].name == symbols[j].name)
  {
    var entries := Entries(symbols, mappings, busSpaceId, span);
    FirstSymbol(symbols, mappings, busSpaceId, span, address, i);
    LastSymbol(symbols, mappings, busSpaceId, span, address, j);
    forall e | e in entries ensures !(address < e.address <= query) {
      EntryOf(symbols, mappings, busSpaceId, span, e);
    }
    SharedAddress(entries, address, query, limit);
  }
}
