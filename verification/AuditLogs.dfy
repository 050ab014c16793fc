/** The bounded audit stream: records drop oldest first and keep consecutive ids. */
module AuditLogs {
  import opened Basics
  import MutationSteps

  const MAX_ENTRIES: nat := 2000

  datatype AuditEntry = AuditEntry(
    operationId: nat, timestamp: int, tool: string, contextId: string, controlId: string, body: MutationSteps.Entry)

  /** Zero and empty fields are open, as in the source; None is the zero time. */
  datatype Filter = Filter(
    contextId: string, tool: string, controlId: string,
    generationMin: nat, generationMax: nat, since: Option<int>, until: Option<int>)

  datatype Window = Window(oldestId: nat, newestId: nat, generationMin: nat, generationMax: nat)

  predicate InRange(value: nat, min: nat, max: nat) {
    (min == 0 || min <= value) && (max == 0 || value <= max)
  }

  predicate GenerationMatches(body: MutationSteps.Entry, min: nat, max: nat) {
    || (min == 0 && max == 0)
    || (body.before.Some? && InRange(body.before.value, min, max))
    || (body.after.Some? && InRange(body.after.value, min, max))
  }

  predicate Matches(entry: AuditEntry, filter: Filter) {
    && (filter.contextId == "" || entry.contextId == filter.contextId)
    && (filter.tool == "" || entry.tool == filter.tool)
    && (filter.controlId == "" || entry.controlId == filter.controlId)
    && (filter.since.Some? ==> filter.since.value <= entry.timestamp)
    && (filter.until.Some? ==> entry.timestamp <= filter.until.value)
    && GenerationMatches(entry.body, filter.generationMin, filter.generationMax)
  }

  /** The generations an entry names. */
  predicate Names(body: MutationSteps.Entry, generation: nat) {
    body.before == Some(generation) || body.after == Some(generation)
  }

  predicate NamedIn(entries: seq<AuditEntry>, generation: nat) {
    exists i :: 0 <= i < |entries| && Names(entries[i].body, generation)
  }

  /** A generation range selects the entries that name a generation inside it; zero leaves an end open, and
      with both ends open it selects all. */
  lemma {:induction false} RangeExactly(body: MutationSteps.Entry, min: nat, max: nat)
    ensures GenerationMatches(body, min, max)
            <==> (min == 0 && max == 0)
                 || exists g: nat :: Names(body, g) && min <= g && (max == 0 || g <= max)
  {
    if body.before.Some? { assert Names(body, body.before.value); }
    if body.after.Some? { assert Names(body, body.after.value); }
  }

  /** An entry is left out exactly when it differs in something the filter asks for: a text, a time bound, or
      a range none of its generations lies in. */
  lemma {:induction false} FilterExactly(entry: AuditEntry, filter: Filter)
    ensures !Matches(entry, filter)
            <==> || (filter.contextId != "" && filter.contextId != entry.contextId)
                 || (filter.tool != "" && filter.tool != entry.tool)
                 || (filter.controlId != "" && filter.controlId != entry.controlId)
                 || (filter.since.Some? && entry.timestamp < filter.since.value)
                 || (filter.until.Some? && filter.until.value < entry.timestamp)
                 || ((filter.generationMin > 0 || filter.generationMax > 0) &&
                     forall g: nat :: Names(entry.body, g) ==>
                       g < filter.generationMin || 0 < filter.generationMax < g)
  {
    RangeExactly(entry.body, filter.generationMin, filter.generationMax);
  }

  /** What a scheduler run records never names generation zero. */
  lemma {:induction false} RunNamesNoZero(steps: seq<MutationSteps.Step>, entries: seq<AuditEntry>)
    requires forall i :: 0 <= i < |entries| ==> entries[i].body in MutationSteps.Run(MutationSteps.Init, steps).audit
    ensures !NamedIn(entries, 0)
  {
    MutationSteps.NoGenerationZero(steps);
  }

  /** The matching entries of a list, last first. */
  function MatchingNewest(entries: seq<AuditEntry>, filter: Filter): seq<AuditEntry> {
    if entries == [] then []
    else MatchingNewest(entries[1..], filter) + if Matches(entries[0], filter) then [entries[0]] else []
  }

  lemma {:induction false} NewestHolds(entries: seq<AuditEntry>, filter: Filter)
    requires forall i, j :: 0 <= i < j < |entries| ==> entries[i].operationId < entries[j].operationId
    ensures var found := MatchingNewest(entries, filter);
            && (forall e :: e in found <==> e in entries && Matches(e, filter))
            && forall i, j :: 0 <= i < j < |found| ==> found[j].operationId < found[i].operationId
  {
    if entries != [] {
      var rest := MatchingNewest(entries[1..], filter);
      NewestHolds(entries[1..], filter);
      assert entries == [entries[0]] + entries[1..];
      forall i | 0 <= i < |rest| ensures entries[0].operationId < rest[i].operationId {
        assert rest[i] in rest;
        var k :| 0 <= k < |entries[1..]| && entries[1..][k] == rest[i];
        assert entries[k + 1] == rest[i];
      }
    }
  }

  class AuditLog {
    var entries: seq<AuditEntry>
    var nextId: nat
    ghost var stream: seq<MutationSteps.Entry>   // everything ever recorded

    /** The retained entries are the last MAX_ENTRIES of the stream, numbered from one. */
    ghost predicate Valid()
      reads this
    {
      && nextId == |stream| + 1
      && |entries| == (if |stream| <= MAX_ENTRIES then |stream| else MAX_ENTRIES)
      && forall i :: 0 <= i < |entries| ==>
           entries[i].operationId == |stream| - |entries| + i + 1 && entries[i].body == stream[|stream| - |entries| + i]
    }

    constructor ()
      ensures Valid() && stream == []
    {
      entries, nextId, stream := [], 1, [];
    }

    method Record(entry: AuditEntry, now: int) returns (id: nat)
      requires Valid()
      modifies this
      ensures Valid() && stream == old(stream) + [entry.body] && id == |stream|
      ensures entries[|entries| - 1] == entry.(operationId := id, timestamp := now)
      ensures entries == old(entries) + [entries[|entries| - 1]] ||
              (|old(entries)| == MAX_ENTRIES && entries == old(entries)[1..] + [entries[|entries| - 1]])
    {
      id := nextId;
      nextId := nextId + 1;
      var recorded := entry.(operationId := id, timestamp := now);
      entries := entries + [recorded];
      if |entries| > MAX_ENTRIES {
        var dropped := |entries| - MAX_ENTRIES;
        entries := entries[dropped..];
        assert entries == old(entries)[1..] + [recorded];
      }
      stream := stream + [entry.body];
    }

    /** The matching retained entries, newest first: nothing else, nothing missing, and
        strictly falling ids, so nothing twice. */
    method Query(filter: Filter) returns (found: seq<AuditEntry>)
      requires Valid()
      ensures forall i :: 0 <= i < |found| ==> found[i] in entries && Matches(found[i], filter)
      ensures forall k :: 0 <= k < |entries| && Matches(entries[k], filter) ==> entries[k] in found
      ensures forall i, j :: 0 <= i < j < |found| ==> found[j].operationId < found[i].operationId
    {
      found := [];
      var index := |entries|;
      assert entries[index..] == [];
      while index > 0
        invariant 0 <= index <= |entries|
        invariant found == MatchingNewest(entries[index..], filter)
      {
        index := index - 1;
        var entry := entries[index];
        assert entries[index..][1..] == entries[index + 1..];
        if Matches(entry, filter) {
          found := found + [entry];
        }
      }
      assert entries[0..] == entries;
      NewestHolds(entries, filter);
    }

    /** The oldest and newest retained ids and, as no scheduler run names generation zero, the
        least and greatest generation named by a retained entry, or zero when none is named. */
    method RetainedWindow() returns (window: Window)
      requires Valid()
      ensures entries == [] ==> window == Window(0, 0, 0, 0)
      ensures entries != [] ==> window.newestId == |stream| && window.oldestId == |stream| - |entries| + 1
      ensures !NamedIn(entries, 0) ==>
                forall g: nat :: NamedIn(entries, g) ==> 0 < window.generationMin <= g <= window.generationMax
      ensures !NamedIn(entries, 0) && (window.generationMin != 0 || window.generationMax != 0) ==>
                NamedIn(entries, window.generationMin) && NamedIn(entries, window.generationMax)
    {
      if entries == [] {
        return Window(0, 0, 0, 0);
      }
      var min: nat, max: nat, k := 0, 0, 0;
      while k < |entries|
        invariant 0 <= k <= |entries|
        invariant !NamedIn(entries, 0) ==> (min == 0 <==> max == 0)
        invariant !NamedIn(entries, 0) && min != 0 ==> NamedIn(entries, min) && NamedIn(entries, max)
        invariant !NamedIn(entries, 0) ==>
                    forall i, g: nat :: 0 <= i < k && Names(entries[i].body, g) ==> 0 < min <= g <= max
      {
        var body := entries[k].body;
        if body.before.Some? {
          assert Names(body, body.before.value);
          min, max := MinWindow(min, body.before.value), MaxWindow(max, body.before.value);
        }
        if body.after.Some? {
          assert Names(body, body.after.value);
          min, max := MinWindow(min, body.after.value), MaxWindow(max, body.after.value);
        }
        k := k + 1;
      }
      window := Window(entries[0].operationId, entries[|entries| - 1].operationId, min, max);
    }
  }

  function MinWindow(current: nat, candidate: nat): nat {
    if current == 0 || candidate < current then candidate else current
  }

  function MaxWindow(current: nat, candidate: nat): nat {
    if candidate > current then candidate else current
  }
}
