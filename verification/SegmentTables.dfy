/**
 The segment vector and counters of one stream, updated in place under the session
 lock. View() is the stream value these fields represent; each method is one of the
 operations of SegmentStreams.
*/
module SegmentTables {
  import opened Basics
  import opened SegmentStreams

  /** A segment table entry: its size is recorded when it is sealed. */
  datatype Entry = Entry(index: nat, file: seq<octet>, bytes: nat, sealed: bool)

  predicate HasOpen(entries: seq<Entry>) {
    entries != [] && !entries[|entries| - 1].sealed
  }

  function SealedEntries(entries: seq<Entry>): (n: nat)
    ensures n <= |entries|
  {
    if HasOpen(entries) then |entries| - 1 else |entries|
  }

  function Retained(entries: seq<Entry>): (r: seq<Segment>)
    ensures |r| == SealedEntries(entries)
  {
    seq(SealedEntries(entries), i requires 0 <= i < SealedEntries(entries) => Segment(entries[i].index, entries[i].file))
  }

  function OpenEntry(entries: seq<Entry>): Option<Segment> {
    if HasOpen(entries) then Some(Segment(entries[|entries| - 1].index, entries[|entries| - 1].file)) else None
  }

  class SegmentTable {
    var entries: seq<Entry>
    var next: nat
    var drainSegment: nat
    var drainOffset: nat
    var bytesWritten: nat
    var evictedSegments: nat
    var evictedBytes: nat
    var evictedUnread: nat
    ghost var history: History

    /** Only the last entry may be open, and a sealed entry records its file's size. */
    ghost predicate Valid()
      reads this
    {
      forall i :: 0 <= i < SealedEntries(entries) ==> entries[i].sealed && entries[i].bytes == |entries[i].file|
    }

    ghost function View(): Log
      reads this
    {
      Log(Stream(Retained(entries), OpenEntry(entries), next, drainSegment, drainOffset,
                 bytesWritten, evictedSegments, evictedBytes, evictedUnread),
          history)
    }

    constructor ()
      ensures Valid() && View() == EmptyLog
    {
      entries, next, drainSegment, drainOffset := [], 0, 1, 0;
      bytesWritten, evictedSegments, evictedBytes, evictedUnread := 0, 0, 0, 0;
      history := EmptyLog.history;
    }

    /** Clears the table, the cursor and the counters for a new session. */
    method Reset()
      modifies this
      ensures Valid() && View() == EmptyLog
    {
      entries, next, drainSegment, drainOffset := [], 0, 1, 0;
      bytesWritten, evictedSegments, evictedBytes, evictedUnread := 0, 0, 0, 0;
      history := EmptyLog.history;
    }

    /** Deletes every segment file; the loss counters stay readable. */
    method DeleteFiles()
      modifies this
      ensures Valid() && View() == Deleted(old(View()))
    {
      entries, next, drainSegment, drainOffset := [], 0, 1, 0;
      history := EmptyLog.history;
    }

    /** The engine commits bytes to the open file. */
    method Append(data: seq<octet>)
      requires Valid()
      modifies this
      ensures Valid() && View() == SegmentStreams.Append(old(View()), data)
    {
      if HasOpen(entries) {
        var last := entries[|entries| - 1];
        entries := entries[..|entries| - 1] + [last.(file := last.file + data)];
        assert Retained(entries) == Retained(old(entries));
      }
    }

    method Seal()
      requires Valid()
      modifies this
      ensures Valid() && View() == SegmentStreams.Seal(old(View()))
    {
      if HasOpen(entries) {
        var last := entries[|entries| - 1];
        var closed := last.(sealed := true, bytes := |last.file|);
        entries := entries[..|entries| - 1] + [closed];
        bytesWritten := bytesWritten + closed.bytes;
        history := history.(sealed := history.sealed + [Segment(last.index, last.file)]);
        assert Retained(entries) == Retained(old(entries)) + [Segment(last.index, last.file)];
      }
    }

    method TakeIndex()
      requires Valid()
      modifies this
      ensures Valid() && View() == SegmentStreams.TakeIndex(old(View()))
    {
      next := next + 1;
    }

    method Open()
      requires Valid() && View().stream.open.None?
      modifies this
      ensures Valid() && View() == SegmentStreams.Open(old(View()))
    {
      entries := entries + [Entry(next, [], 0, false)];
      assert Retained(entries) == Retained(old(entries));
    }

    /** Scans the table for what the retention caps are compared with. */
    method SealedTotals() returns (count: nat, bytes: nat, oldest: Option<nat>)
      requires Valid()
      ensures count == |Retained(entries)| && bytes == TotalBytes(Retained(entries))
      ensures oldest == if count == 0 then None else Some(0)
    {
      count, bytes, oldest := 0, 0, None;
      var i := 0;
      ghost var retained := Retained(entries);
      while i < |entries|
        invariant i <= |entries|
        invariant count == Min(i, |retained|)
        invariant bytes == TotalBytes(retained[..count])
        invariant oldest == if count == 0 then None else Some(0)
      {
        if entries[i].sealed {
          TotalSplit(retained[..i + 1], i);
          assert retained[..i + 1][..i] == retained[..i] && retained[..i + 1][i..] == [retained[i]];
          bytes := bytes + entries[i].bytes;
          count := count + 1;
          if oldest.None? {
            oldest := Some(i);
          }
        }
        i := i + 1;
      }
      assert retained[..count] == retained;
    }

    /** Retention: removes the oldest sealed entry until the caps hold. */
    method Evict(caps: Caps)
      requires Valid()
      modifies this
      ensures Valid() && View() == SegmentStreams.Evict(old(View()), caps)
    {
      while true
        invariant Valid() && SegmentStreams.Evict(View(), caps) == SegmentStreams.Evict(old(View()), caps)
        decreases |entries|
      {
        var count, bytes, oldest := SealedTotals();
        if count == 0 || (count <= caps.maxSegments && bytes <= caps.maxBytes) {
          return;
        }
        EvictAt(oldest.value);
      }
    }

    method EvictAt(k: nat)
      requires Valid() && k == 0 && Retained(entries) != []
      modifies this
      ensures Valid() && View() == EvictOldest(old(View()))
      ensures |entries| < |old(entries)|
    {
      var victim := entries[k];
      if victim.index >= drainSegment {
        evictedUnread := evictedUnread + 1;
        history := history.(fates := history.fates + [Fate(true, drainOffset)]);
      }
      evictedSegments := evictedSegments + 1;
      evictedBytes := evictedBytes + victim.bytes;
      entries := entries[..k] + entries[k + 1..];
      if drainSegment <= victim.index {
        drainSegment := victim.index + 1;
        drainOffset := 0;
      }
      assert Retained(entries) == Retained(old(entries))[1..];
    }

    /** Closes the open entry, opens one at the index just taken, and applies retention. */
    method Rotate(caps: Caps)
      requires Valid()
      modifies this
      ensures Valid()
      ensures View() == SegmentStreams.Evict(SegmentStreams.Open(SegmentStreams.Seal(old(View()))), caps)
    {
      Seal();
      Open();
      Evict(caps);
    }

    /** Finds the first sealed entry at or after an index. */
    method FirstSealed(from: nat) returns (found: Option<nat>)
      requires Valid()
      ensures found == (var k := Position(Retained(entries), from); if k < |Retained(entries)| then Some(k) else None)
    {
      found := None;
      var i := 0;
      while i < |entries|
        invariant i <= |entries|
        invariant forall k :: 0 <= k < i && k < |Retained(entries)| ==> Retained(entries)[k].index < from
      {
        if entries[i].sealed && entries[i].index >= from {
          assert Retained(entries)[i].index >= from;
          return Some(i);
        }
        i := i + 1;
      }
    }

    /** One read of at most maxBytes at the cursor; the cursor stays when the file cannot be read. */
    method Drain(maxBytes: nat, readable: bool) returns (reply: Reply)
      requires Valid()
      modifies this
      ensures Valid() && (View(), reply) == SegmentStreams.Drain(old(View()), maxBytes, readable)
    {
      var found := FirstSealed(drainSegment);
      if found.None? {
        return Nothing;
      }
      var chosen := entries[found.value];
      assert Segment(chosen.index, chosen.file) == Retained(entries)[found.value];
      if !readable || drainOffset > |chosen.file| {
        return Unreadable(chosen.index);
      }
      reply := ReadAt(found.value, maxBytes);
    }

    method ReadAt(k: nat, maxBytes: nat) returns (reply: Reply)
      requires Valid() && k == Position(Retained(entries), drainSegment) < |Retained(entries)|
      requires drainOffset <= |entries[k].file|
      modifies this
      ensures Valid() && (View(), reply) == SegmentStreams.Drain(old(View()), maxBytes, true)
    {
      var chosen := entries[k];
      assert Retained(entries)[k] == Segment(chosen.index, chosen.file);
      var end := Min(drainOffset + maxBytes, |chosen.file|);
      var chunk := Chunk(chosen.index, drainOffset, chosen.file[drainOffset..end]);
      MoveCursor(chosen, end);
      history := history.(replies := history.replies + [chunk]);
      var more := FirstSealed(drainSegment);
      return Data(chunk, |chosen.file|, more.None?);
    }

    method MoveCursor(chosen: Entry, end: nat)
      requires Valid()
      modifies `drainSegment, `drainOffset, `history
      ensures drainSegment == if end >= |chosen.file| then chosen.index + 1 else old(drainSegment)
      ensures drainOffset == if end >= |chosen.file| then 0 else end
      ensures history == if end >= |chosen.file| then old(history).(fates := old(history).fates + [Fate(false, end)])
                         else old(history)
    {
      if end >= |chosen.file| {
        drainSegment, drainOffset := chosen.index + 1, 0;
        history := history.(fates := history.fates + [Fate(false, end)]);
      } else {
        drainOffset := end;
      }
    }
  }
}
