/**
 One rotated segment stream of a trace session, as a value: what is on disk, the
 drain cursor, the loss counters, and what happened to every segment so far. The
 native plugin keeps two streams with the same code (execution trace and
 memory-access log). Module SegmentTables holds the vectors that implement this.

 A segment is its index and its file: the path is a function of the index, and a
 sealed file never changes again.
*/
module SegmentStreams {
  import opened Basics

  datatype Segment = Segment(index: nat, file: seq<octet>)

  datatype Stream = Stream(
    sealed: seq<Segment>,     // retained sealed segments, oldest first
    open: Option<Segment>,    // the segment the engine writes to
    next: nat,                // last index handed out
    drainSegment: nat,        // the persistent drain cursor
    drainOffset: nat,
    bytesWritten: nat,
    evictedSegments: nat,
    evictedBytes: nat,
    evictedUnread: nat)

  const EmptyStream := Stream([], None, 0, 1, 0, 0, 0, 0, 0)

  datatype Caps = Caps(maxSegments: nat, maxBytes: nat)

  datatype Chunk = Chunk(index: nat, offset: nat, data: seq<octet>)

  /** What became of a segment the cursor has moved past: evicted first, or read to its
      end; and how many of its bytes had been delivered by then. */
  datatype Fate = Fate(lost: bool, read: nat)

  /** Everything a session sealed, the fate of the part the cursor has passed, and the replies. */
  datatype History = History(sealed: seq<Segment>, fates: seq<Fate>, replies: seq<Chunk>)

  datatype Log = Log(stream: Stream, history: History)

  const EmptyLog := Log(EmptyStream, History([], [], []))

  // ------------------------------------------------------------- the operations

  function TotalBytes(segments: seq<Segment>): nat {
    if segments == [] then 0 else |segments[0].file| + TotalBytes(segments[1..])
  }

  predicate WithinCaps(segments: seq<Segment>, caps: Caps) {
    segments == [] || (|segments| <= caps.maxSegments && TotalBytes(segments) <= caps.maxBytes)
  }

  /** The engine commits more bytes to the open file. */
  function Append(log: Log, data: seq<octet>): Log {
    match log.stream.open
    case None => log
    case Some(open) => log.(stream := log.stream.(open := Some(open.(file := open.file + data))))
  }

  /** Seals the open segment, if there is one. */
  function Seal(log: Log): Log {
    match log.stream.open
    case None => log
    case Some(open) =>
      Log(log.stream.(sealed := log.stream.sealed + [open], open := None,
                      bytesWritten := log.stream.bytesWritten + |open.file|),
          log.history.(sealed := log.history.sealed + [open]))
  }

  /** A rotation takes an index even when the engine then refuses the path. */
  function TakeIndex(log: Log): Log {
    log.(stream := log.stream.(next := log.stream.next + 1))
  }

  function Open(log: Log): Log {
    log.(stream := log.stream.(open := Some(Segment(log.stream.next, []))))
  }

  /** Deleting the files ends the history; the loss counters stay readable. */
  function Deleted(log: Log): Log {
    var s := log.stream;
    EmptyLog.(stream := EmptyStream.(bytesWritten := s.bytesWritten, evictedSegments := s.evictedSegments,
                                     evictedBytes := s.evictedBytes, evictedUnread := s.evictedUnread))
  }

  /** Removes the oldest sealed segment; if the cursor had not passed it, it is lost. */
  function EvictOldest(log: Log): Log
    requires log.stream.sealed != []
  {
    var s, victim := log.stream, log.stream.sealed[0];
    var gone := s.(sealed := s.sealed[1..],
                   evictedSegments := s.evictedSegments + 1,
                   evictedBytes := s.evictedBytes + |victim.file|);
    if victim.index < s.drainSegment then log.(stream := gone)
    else
      Log(gone.(evictedUnread := s.evictedUnread + 1, drainSegment := victim.index + 1, drainOffset := 0),
          log.history.(fates := log.history.fates + [Fate(true, s.drainOffset)]))
  }

  function Evict(log: Log, caps: Caps): (after: Log)
    ensures |after.stream.sealed| <= |log.stream.sealed|
    decreases |log.stream.sealed|
  {
    if WithinCaps(log.stream.sealed, caps) then log else Evict(EvictOldest(log), caps)
  }

  /** How many sealed segments lie before the cursor. */
  function Position(sealed: seq<Segment>, from: nat): (k: nat)
    ensures k <= |sealed|
    ensures forall i :: 0 <= i < k ==> sealed[i].index < from
    ensures k < |sealed| ==> sealed[k].index >= from
  {
    if sealed == [] || sealed[0].index >= from then 0 else 1 + Position(sealed[1..], from)
  }

  datatype Reply = Nothing | Unreadable(index: nat) | Data(chunk: Chunk, size: nat, done: bool)

  function Min(a: nat, b: nat): nat { if a < b then a else b }

  /** One drain request: at most maxBytes of the first sealed segment at or after the cursor. */
  function Drain(log: Log, maxBytes: nat, readable: bool): (Log, Reply) {
    var s, h := log.stream, log.history;
    var k := Position(s.sealed, s.drainSegment);
    if k == |s.sealed| then (log, Nothing)
    else if !readable || s.drainOffset > |s.sealed[k].file| then (log, Unreadable(s.sealed[k].index))
    else
      var chosen := s.sealed[k];
      var end := Min(s.drainOffset + maxBytes, |chosen.file|);
      var chunk := Chunk(chosen.index, s.drainOffset, chosen.file[s.drainOffset..end]);
      var replies := h.replies + [chunk];
      if end >= |chosen.file| then
        (Log(s.(drainSegment := chosen.index + 1, drainOffset := 0),
             h.(fates := h.fates + [Fate(false, end)], replies := replies)),
         Data(chunk, |chosen.file|, Position(s.sealed, chosen.index + 1) == |s.sealed|))
      else
        (Log(s.(drainOffset := end), h.(replies := replies)),
         Data(chunk, |chosen.file|, Position(s.sealed, s.drainSegment) == |s.sealed|))
  }

  // --------------------------------------------------------------- the invariant

  /** One delivered byte with the segment and file position it was labelled with. */
  datatype Mark = Mark(index: nat, position: nat, value: octet)

  function Marked(index: nat, from: nat, data: seq<octet>): (r: seq<Mark>)
    ensures |r| == |data|
  {
    seq(|data|, i requires 0 <= i < |data| => Mark(index, from + i, data[i]))
  }

  /** All bytes handed out, in the order of the replies. */
  function Output(replies: seq<Chunk>): seq<Mark> {
    if replies == [] then []
    else
      var c := replies[|replies| - 1];
      Output(replies[..|replies| - 1]) + Marked(c.index, c.offset, c.data)
  }

  /** The prefix of each segment that had been read when the cursor moved past it. */
  function ReadParts(segments: seq<Segment>, fates: seq<Fate>): seq<Mark>
    requires FatesOk(segments, fates)
  {
    if fates == [] then []
    else
      var n := |fates| - 1;
      ReadParts(segments, fates[..n]) + Marked(segments[n].index, 0, segments[n].file[..fates[n].read])
  }

  function LostCount(fates: seq<Fate>): nat {
    if fates == [] then 0
    else LostCount(fates[..|fates| - 1]) + if fates[|fates| - 1].lost then 1 else 0
  }

  ghost predicate Increasing(segments: seq<Segment>) {
    forall i, j :: 0 <= i < j < |segments| ==> segments[i].index < segments[j].index
  }

  /** A passed segment was read whole, or it is lost: then something of it was not read. */
  ghost predicate FateOk(segment: Segment, fate: Fate) {
    if fate.lost then fate.read < |segment.file| || fate.read == |segment.file| == 0 else fate.read == |segment.file|
  }

  ghost predicate FatesOk(segments: seq<Segment>, fates: seq<Fate>) {
    |fates| <= |segments| && forall i :: 0 <= i < |fates| ==> FateOk(segments[i], fates[i])
  }

  ghost predicate LostWereEvicted(fates: seq<Fate>, evicted: nat) {
    forall i :: 0 <= i < |fates| && fates[i].lost ==> i < evicted
  }

  /** Indices only grow, gaps included, and the open segment is the newest. */
  ghost predicate Ordered(all: seq<Segment>, open: Option<Segment>, next: nat, cursor: nat) {
    && Increasing(all)
    && cursor <= next + 1
    && (all != [] ==> all[|all| - 1].index <= next)
    && (open.Some? ==> cursor <= open.value.index <= next)
    && (open.Some? && all != [] ==> all[|all| - 1].index < open.value.index)
  }

  /** Conservation: what was sealed is what is retained plus what was evicted, and the
      byte counters say so. */
  ghost predicate Accounted(all: seq<Segment>, retained: seq<Segment>, evicted: nat, written: nat, evictedBytes: nat) {
    && evicted <= |all|
    && retained == all[evicted..]
    && written == TotalBytes(retained) + evictedBytes
    && evictedBytes == TotalBytes(all[..evicted])
  }

  /** The cursor splits the sealed segments into passed and pending, and stands within the
      first pending one; only passed ones were evicted. */
  ghost predicate Split(all: seq<Segment>, passed: nat, cursor: nat, offset: nat, evicted: nat) {
    && evicted <= passed <= |all|
    && (passed > 0 ==> all[passed - 1].index < cursor)
    && (passed < |all| ==> all[passed].index >= cursor)
    && (offset > 0 ==> passed < |all| && offset < |all[passed].file|)
  }

  /** The replies joined in order are the read parts of the passed segments and of the one
      being read. */
  ghost predicate Handed(all: seq<Segment>, fates: seq<Fate>, replies: seq<Chunk>, offset: nat) {
    && FatesOk(all, fates)
    && (offset > 0 ==> |fates| < |all| && offset <= |all[|fates|].file|)
    && Output(replies) == ReadParts(all, fates) + Partial(all, |fates|, offset)
  }

  /** Delivery; the lost segments are evicted ones and number exactly the evicted-unread count. */
  ghost predicate Delivered(h: History, cursor: nat, offset: nat, evicted: nat, unread: nat) {
    && Split(h.sealed, |h.fates|, cursor, offset, evicted)
    && LostWereEvicted(h.fates, evicted)
    && LostCount(h.fates) == unread
    && Handed(h.sealed, h.fates, h.replies, offset)
  }

  function Partial(all: seq<Segment>, p: nat, offset: nat): seq<Mark>
    requires offset > 0 ==> p < |all| && offset <= |all[p].file|
  {
    if offset == 0 then [] else Marked(all[p].index, 0, all[p].file[..offset])
  }

  ghost predicate Inv(log: Log) {
    var s, h := log.stream, log.history;
    && Ordered(h.sealed, s.open, s.next, s.drainSegment)
    && Accounted(h.sealed, s.sealed, s.evictedSegments, s.bytesWritten, s.evictedBytes)
    && Delivered(h, s.drainSegment, s.drainOffset, s.evictedSegments, s.evictedUnread)
  }

  // ------------------------------------------------- every operation keeps the invariant

  lemma {:induction false} TotalSplit(segments: seq<Segment>, k: nat)
    requires k <= |segments|
    ensures TotalBytes(segments) == TotalBytes(segments[..k]) + TotalBytes(segments[k..])
  {
    if k > 0 {
      TotalSplit(segments[1..], k - 1);
      assert segments[..k][1..] == segments[1..][..k - 1];
      assert segments[k..] == segments[1..][k - 1..];
    } else {
      assert segments[k..] == segments;
    }
  }

  lemma {:induction false} ReadPartsFrame(before: seq<Segment>, after: seq<Segment>, fates: seq<Fate>)
    requires FatesOk(before, fates) && |before| <= |after| && after[..|before|] == before
    ensures FatesOk(after, fates) && ReadParts(after, fates) == ReadParts(before, fates)
  {
    assert forall i :: 0 <= i < |before| ==> after[i] == before[i];
    if fates != [] {
      ReadPartsFrame(before, after, fates[..|fates| - 1]);
    }
  }

  lemma {:induction false} AppendKeeps(log: Log, data: seq<octet>)
    requires Inv(log)
    ensures Inv(Append(log, data))
  {
    var s := log.stream;
    if s.open.Some? { LongerOrdered(log.history.sealed, s.open.value, data, s.next, s.drainSegment); }
  }

  lemma {:induction false} LongerOrdered(all: seq<Segment>, open: Segment, data: seq<octet>, next: nat, cursor: nat)
    requires Ordered(all, Some(open), next, cursor)
    ensures Ordered(all, Some(open.(file := open.file + data)), next, cursor)
  {
  }

  lemma {:induction false} SealKeeps(log: Log)
    requires Inv(log)
    ensures Inv(Seal(log)) && Seal(log).stream.open.None?
  {
    var s, h := log.stream, log.history;
    if s.open.Some? {
      SealOrdered(h.sealed, s.open.value, s.next, s.drainSegment);
      SealAccounted(h.sealed, s.sealed, s.open.value, s.evictedSegments, s.bytesWritten, s.evictedBytes);
      SealDelivered(h, s.open.value, s.drainSegment, s.drainOffset, s.evictedSegments, s.evictedUnread);
    }
  }

  lemma {:induction false} SealOrdered(all: seq<Segment>, open: Segment, next: nat, cursor: nat)
    requires Ordered(all, Some(open), next, cursor)
    ensures Ordered(all + [open], None, next, cursor)
  {
  }

  lemma {:induction false} SealAccounted(
    all: seq<Segment>, retained: seq<Segment>, open: Segment, evicted: nat, written: nat, gone: nat)
    requires Accounted(all, retained, evicted, written, gone)
    ensures Accounted(all + [open], retained + [open], evicted, written + |open.file|, gone)
  {
    TotalSplit(retained + [open], |retained|);
    assert (retained + [open])[..|retained|] == retained;
    assert (retained + [open])[|retained|..] == [open];
    assert (all + [open])[..evicted] == all[..evicted];
  }

  lemma {:induction false} SealDelivered(h: History, open: Segment, cursor: nat, offset: nat, evicted: nat, unread: nat)
    requires Delivered(h, cursor, offset, evicted, unread) && cursor <= open.index
    ensures Delivered(h.(sealed := h.sealed + [open]), cursor, offset, evicted, unread)
  {
    SealHanded(h.sealed, h.fates, h.replies, offset, open);
  }

  lemma {:induction false} SealHanded(
    all: seq<Segment>, fates: seq<Fate>, replies: seq<Chunk>, offset: nat, open: Segment)
    requires Handed(all, fates, replies, offset)
    ensures Handed(all + [open], fates, replies, offset)
  {
    ReadPartsFrame(all, all + [open], fates);
  }

  lemma {:induction false} OpenKeeps(log: Log)
    requires Inv(log)
    ensures Inv(TakeIndex(log))
    ensures log.stream.open.None? ==> Inv(Open(TakeIndex(log)))
  {
  }

  /** The cursor leaves the segment it stands on, whose read part becomes a passed one. */
  lemma {:induction false} PassHanded(all: seq<Segment>, fates: seq<Fate>, replies: seq<Chunk>, fate: Fate)
    requires Handed(all, fates, replies, fate.read) && |fates| < |all| && FateOk(all[|fates|], fate)
    ensures Handed(all, fates + [fate], replies, 0)
  {
    var current := all[|fates|];
    FatesSnoc(all, fates, fate);
    PartialIs(all, |fates|, fate.read);
    assert ReadParts(all, fates + [fate]) + [] == ReadParts(all, fates + [fate]);
  }

  lemma {:induction false} FatesSnoc(all: seq<Segment>, fates: seq<Fate>, fate: Fate)
    requires FatesOk(all, fates) && |fates| < |all| && FateOk(all[|fates|], fate)
    ensures var current := all[|fates|];
            && FatesOk(all, fates + [fate])
            && ReadParts(all, fates + [fate]) ==
                 ReadParts(all, fates) + Marked(current.index, 0, current.file[..fate.read])
  {
    assert (fates + [fate])[..|fates + [fate]| - 1] == fates;
  }

  lemma {:induction false} LostSnoc(fates: seq<Fate>, fate: Fate)
    ensures LostCount(fates + [fate]) == LostCount(fates) + (if fate.lost then 1 else 0)
  {
    assert (fates + [fate])[..|fates + [fate]| - 1] == fates;
  }

  lemma {:induction false} PartialIs(all: seq<Segment>, p: nat, offset: nat)
    requires p < |all| && offset <= |all[p].file|
    ensures Partial(all, p, offset) == Marked(all[p].index, 0, all[p].file[..offset])
  {
  }

  lemma {:induction false} PassSplit(all: seq<Segment>, passed: nat, cursor: nat, offset: nat, evicted: nat)
    requires Split(all, passed, cursor, offset, evicted) && passed < |all| && Increasing(all)
    ensures Split(all, passed + 1, all[passed].index + 1, 0, evicted)
    ensures evicted == passed ==> Split(all, passed + 1, all[passed].index + 1, 0, evicted + 1)
  {
  }

  lemma {:induction false} EvictOldestKeeps(log: Log)
    requires Inv(log) && log.stream.sealed != []
    ensures Inv(EvictOldest(log))
  {
    var s, h := log.stream, log.history;
    var e := s.evictedSegments;
    EvictAccounted(h.sealed, s.sealed, e, s.bytesWritten, s.evictedBytes);
    if s.sealed[0].index < s.drainSegment {
      EvictPassed(h, s.drainSegment, s.drainOffset, e, s.evictedUnread);
    } else {
      EvictDelivered(h, s.drainSegment, s.drainOffset, e, s.evictedUnread);
    }
  }

  lemma {:induction false} EvictAccounted(
    all: seq<Segment>, retained: seq<Segment>, evicted: nat, written: nat, gone: nat)
    requires Accounted(all, retained, evicted, written, gone) && retained != []
    ensures retained[0] == all[evicted]
    ensures Accounted(all, retained[1..], evicted + 1, written, gone + |retained[0].file|)
  {
    TotalSplit(all[..evicted + 1], evicted);
    assert all[..evicted + 1][..evicted] == all[..evicted];
    assert all[..evicted + 1][evicted..] == [all[evicted]];
    assert retained[1..] == all[evicted + 1..];
  }

  lemma {:induction false} FirstPending(all: seq<Segment>, cursor: nat, p: nat, k: nat)
    requires Increasing(all) && k < |all| && k <= p <= |all|
    requires (p > 0 ==> all[p - 1].index < cursor) && all[k].index >= cursor
    ensures p == k
  {
  }

  lemma {:induction false} EvictPassed(h: History, cursor: nat, offset: nat, evicted: nat, unread: nat)
    requires Delivered(h, cursor, offset, evicted, unread)
    requires evicted < |h.sealed| && h.sealed[evicted].index < cursor
    ensures Delivered(h, cursor, offset, evicted + 1, unread)
  {
  }

  /** Evicting a segment the cursor has not passed: it is the current one, and it is lost. */
  lemma {:induction false} EvictDelivered(h: History, cursor: nat, offset: nat, evicted: nat, unread: nat)
    requires Delivered(h, cursor, offset, evicted, unread) && Increasing(h.sealed)
    requires evicted < |h.sealed| && h.sealed[evicted].index >= cursor
    ensures |h.fates| == evicted
    ensures Delivered(h.(fates := h.fates + [Fate(true, offset)]), h.sealed[evicted].index + 1, 0, evicted + 1, unread + 1)
  {
    var fate := Fate(true, offset);
    FirstPending(h.sealed, cursor, |h.fates|, evicted);
    PassSplit(h.sealed, evicted, cursor, offset, evicted);
    PassHanded(h.sealed, h.fates, h.replies, fate);
    LostSnoc(h.fates, fate);
  }

  lemma {:induction false} EvictKeeps(log: Log, caps: Caps)
    requires Inv(log)
    ensures Inv(Evict(log, caps))
    decreases |log.stream.sealed|
  {
    if !WithinCaps(log.stream.sealed, caps) {
      EvictOldestKeeps(log);
      EvictKeeps(EvictOldest(log), caps);
    }
  }

  lemma {:induction false} PositionAt(sealed: seq<Segment>, from: nat, p: nat)
    requires Increasing(sealed) && p <= |sealed|
    requires p > 0 ==> sealed[p - 1].index < from
    requires p < |sealed| ==> sealed[p].index >= from
    ensures Position(sealed, from) == p
  {
  }

  lemma {:induction false} PositionIs(log: Log)
    requires Inv(log)
    ensures Position(log.stream.sealed, log.stream.drainSegment) == |log.history.fates| - log.stream.evictedSegments
  {
    var s, all := log.stream, log.history.sealed;
    var p := |log.history.fates| - s.evictedSegments;
    assert p > 0 ==> s.sealed[p - 1] == all[|log.history.fates| - 1];
    assert p < |s.sealed| ==> s.sealed[p] == all[|log.history.fates|];
    PositionAt(s.sealed, s.drainSegment, p);
  }

  lemma {:induction false} OutputSnoc(replies: seq<Chunk>, chunk: Chunk)
    ensures Output(replies + [chunk]) == Output(replies) + Marked(chunk.index, chunk.offset, chunk.data)
  {
    assert (replies + [chunk])[..|replies + [chunk]| - 1] == replies;
  }

  lemma {:induction false} MarkedSplit(index: nat, file: seq<octet>, mid: nat, end: nat)
    requires mid <= end <= |file|
    ensures Marked(index, 0, file[..end]) == Marked(index, 0, file[..mid]) + Marked(index, mid, file[mid..end])
  {
  }

  /** A successful read appends the bytes between the old and the new cursor offset. */
  lemma {:induction false} ReadHanded(
    all: seq<Segment>, fates: seq<Fate>, replies: seq<Chunk>, offset: nat, end: nat)
    requires Handed(all, fates, replies, offset) && |fates| < |all|
    requires offset <= end <= |all[|fates|].file|
    ensures var current := all[|fates|];
            Handed(all, fates, replies + [Chunk(current.index, offset, current.file[offset..end])], end)
  {
    var current, parts := all[|fates|], ReadParts(all, fates);
    OutputSnoc(replies, Chunk(current.index, offset, current.file[offset..end]));
    MarkedSplit(current.index, current.file, offset, end);
    PartialIs(all, |fates|, offset);
    PartialIs(all, |fates|, end);
    Regroup(parts, Partial(all, |fates|, offset), Marked(current.index, offset, current.file[offset..end]));
  }

  lemma {:induction false} Regroup(a: seq<Mark>, b: seq<Mark>, c: seq<Mark>)
    ensures (a + b) + c == a + (b + c)
  {
  }

  /** The log after the current segment was read up to `end`. */
  function ReadUpTo(log: Log, end: nat): Log
    requires |log.history.fates| < |log.history.sealed|
    requires log.stream.drainOffset <= end <= |log.history.sealed[|log.history.fates|].file|
  {
    var s, h := log.stream, log.history;
    var current := h.sealed[|h.fates|];
    var replies := h.replies + [Chunk(current.index, s.drainOffset, current.file[s.drainOffset..end])];
    if end == |current.file| then
      Log(s.(drainSegment := current.index + 1, drainOffset := 0),
          History(h.sealed, h.fates + [Fate(false, end)], replies))
    else
      Log(s.(drainOffset := end), History(h.sealed, h.fates, replies))
  }

  /** How far a drain request of maxBytes reads. */
  function ReadEnd(log: Log, maxBytes: nat): nat
    requires |log.history.fates| < |log.history.sealed|
  {
    Min(log.stream.drainOffset + maxBytes, |log.history.sealed[|log.history.fates|].file|)
  }

  /** The segment at the cursor is the first pending one, and the offset lies within it. */
  lemma {:induction false} CurrentSegment(log: Log)
    requires Inv(log) && |log.history.fates| < |log.history.sealed|
    ensures var s, k := log.stream, Position(log.stream.sealed, log.stream.drainSegment);
            k < |s.sealed| && s.sealed[k] == log.history.sealed[|log.history.fates|] && s.drainOffset <= |s.sealed[k].file|
  {
    PositionIs(log);
    var s, h := log.stream, log.history;
    assert s.sealed[|h.fates| - s.evictedSegments] == h.sealed[|h.fates|];
  }

  /** What a successful drain request does, in terms of the current segment. */
  lemma {:induction false} DrainMoves(log: Log, maxBytes: nat)
    requires Inv(log) && |log.history.fates| < |log.history.sealed|
    ensures log.stream.drainOffset <= ReadEnd(log, maxBytes) <= |log.history.sealed[|log.history.fates|].file|
    ensures var (after, reply) := Drain(log, maxBytes, true);
            && after == ReadUpTo(log, ReadEnd(log, maxBytes))
            && reply.Data? && after.history.replies == log.history.replies + [reply.chunk]
            && reply.size == |log.history.sealed[|log.history.fates|].file|
  {
    CurrentSegment(log);
    DrainReads(log, maxBytes);
  }

  lemma {:induction false} DrainReads(log: Log, maxBytes: nat)
    requires |log.history.fates| < |log.history.sealed|
    requires var s, k := log.stream, Position(log.stream.sealed, log.stream.drainSegment);
             k < |s.sealed| && s.sealed[k] == log.history.sealed[|log.history.fates|] && s.drainOffset <= |s.sealed[k].file|
    ensures var (after, reply) := Drain(log, maxBytes, true);
            && after == ReadUpTo(log, ReadEnd(log, maxBytes))
            && reply.Data? && after.history.replies == log.history.replies + [reply.chunk]
            && reply.size == |log.history.sealed[|log.history.fates|].file|
  {
  }

  /** Something is at or behind the cursor exactly when some sealed segment has no fate yet. */
  lemma {:induction false} PendingExactly(log: Log)
    requires Inv(log)
    ensures Position(log.stream.sealed, log.stream.drainSegment) == |log.stream.sealed|
            <==> |log.history.fates| == |log.history.sealed|
  {
    PositionIs(log);
  }

  lemma {:induction false} DrainKeeps(log: Log, maxBytes: nat, readable: bool)
    requires Inv(log)
    ensures Inv(Drain(log, maxBytes, readable).0)
  {
    PositionIs(log);
    if readable && |log.history.fates| < |log.history.sealed| {
      DrainMoves(log, maxBytes);
      ReadKeeps(log, ReadEnd(log, maxBytes));
    }
  }

  lemma {:induction false} ReadKeeps(log: Log, end: nat)
    requires Inv(log) && |log.history.fates| < |log.history.sealed|
    requires log.stream.drainOffset <= end <= |log.history.sealed[|log.history.fates|].file|
    ensures Inv(ReadUpTo(log, end))
  {
    var s, h := log.stream, log.history;
    ReadOrdered(h.sealed, s.open, s.next, s.drainSegment, |h.fates|);
    ReadDelivered(h, s.drainSegment, s.drainOffset, s.evictedSegments, s.evictedUnread, end);
  }

  lemma {:induction false} ReadOrdered(all: seq<Segment>, open: Option<Segment>, next: nat, cursor: nat, p: nat)
    requires Ordered(all, open, next, cursor) && p < |all|
    ensures Ordered(all, open, next, all[p].index + 1)
  {
  }

  lemma {:induction false} ReadDelivered(h: History, cursor: nat, offset: nat, evicted: nat, unread: nat, end: nat)
    requires Delivered(h, cursor, offset, evicted, unread) && Increasing(h.sealed) && |h.fates| < |h.sealed|
    requires offset <= end <= |h.sealed[|h.fates|].file|
    ensures var current := h.sealed[|h.fates|];
            var replies := h.replies + [Chunk(current.index, offset, current.file[offset..end])];
            && (end == |current.file| ==>
                  Delivered(History(h.sealed, h.fates + [Fate(false, end)], replies), current.index + 1, 0, evicted, unread))
            && (end < |current.file| ==>
                  Delivered(History(h.sealed, h.fates, replies), cursor, end, evicted, unread))
  {
    var current, fate := h.sealed[|h.fates|], Fate(false, end);
    ReadHanded(h.sealed, h.fates, h.replies, offset, end);
    if end == |current.file| {
      PassSplit(h.sealed, |h.fates|, cursor, offset, evicted);
      PassHanded(h.sealed, h.fates, h.replies + [Chunk(current.index, offset, current.file[offset..end])], fate);
      LostSnoc(h.fates, fate);
    }
  }

  // ------------------------------------------------------------- what it all means

  function Evictions(log: Log, caps: Caps): nat {
    |log.stream.sealed| - |Evict(log, caps).stream.sealed|
  }

  /** Retention removes the shortest oldest prefix after which both caps hold, and counts
      exactly that prefix. */
  lemma {:induction false} EvictShortestPrefix(log: Log, caps: Caps)
    ensures var s, after, k := log.stream, Evict(log, caps).stream, Evictions(log, caps);
            && 0 <= k && after.sealed == s.sealed[k..]
            && WithinCaps(after.sealed, caps)
            && (forall j :: 0 <= j < k ==> !WithinCaps(s.sealed[j..], caps))
            && after.evictedSegments == s.evictedSegments + k
            && after.evictedBytes == s.evictedBytes + TotalBytes(s.sealed[..k])
    decreases |log.stream.sealed|
  {
    var s := log.stream;
    assert s.sealed == s.sealed[0..];
    if !WithinCaps(s.sealed, caps) {
      var next := EvictOldest(log);
      EvictShortestPrefix(next, caps);
      var k := Evictions(log, caps);
      assert s.sealed[1..][k - 1..] == s.sealed[k..];
      assert s.sealed[..k][1..] == s.sealed[1..][..k - 1];
      forall j | 0 < j < k
        ensures !WithinCaps(s.sealed[j..], caps)
      {
        assert s.sealed[j..] == s.sealed[1..][j - 1..];
      }
    }
  }

  /** Of the evicted prefix, exactly the part the cursor had not passed is counted as
      unread; the cursor then stands right after the last victim, at its start. */
  lemma {:induction false} EvictCountsUnread(log: Log, caps: Caps)
    requires Increasing(log.stream.sealed)
    ensures var s, after, k := log.stream, Evict(log, caps).stream, Evictions(log, caps);
            var passed := Min(k, Position(s.sealed, s.drainSegment));
            && 0 <= passed <= k <= |s.sealed|
            && after.evictedUnread == s.evictedUnread + k - passed
            && after.drainSegment == (if k == passed then s.drainSegment else s.sealed[k - 1].index + 1)
            && after.drainOffset == (if k == passed then s.drainOffset else 0)
    decreases |log.stream.sealed|
  {
    var s := log.stream;
    if !WithinCaps(s.sealed, caps) {
      RestIncreasing(s.sealed);
      EvictCountsUnread(EvictOldest(log), caps);
      var k := Evictions(log, caps);
      assert k > 1 ==> s.sealed[1..][k - 2] == s.sealed[k - 1];
      if s.sealed[0].index >= s.drainSegment {
        NothingBefore(s.sealed);
      }
    }
  }

  lemma {:induction false} RestIncreasing(sealed: seq<Segment>)
    requires Increasing(sealed) && sealed != []
    ensures Increasing(sealed[1..])
  {
  }

  lemma {:induction false} NothingBefore(sealed: seq<Segment>)
    requires Increasing(sealed) && sealed != []
    ensures Position(sealed[1..], sealed[0].index + 1) == 0
  {
  }

  predicate Before(a: Mark, b: Mark) {
    a.index < b.index || (a.index == b.index && a.position < b.position)
  }

  ghost predicate StrictlyForward(marks: seq<Mark>) {
    forall i, j :: 0 <= i < j < |marks| ==> Before(marks[i], marks[j])
  }

  /** The marks stay within the first n segments and are bytes of their files. */
  ghost predicate Genuine(marks: seq<Mark>, segments: seq<Segment>) {
    forall m :: m in marks ==>
      exists f :: f in segments && f.index == m.index && m.position < |f.file| && m.value == f.file[m.position]
  }

  lemma {:induction false} ForwardConcat(head: seq<Mark>, segment: Segment, end: nat, segments: seq<Segment>)
    requires StrictlyForward(head) && Genuine(head, segments)
    requires segment in segments && end <= |segment.file|
    requires forall m :: m in head ==> m.index < segment.index
    ensures var marks := head + Marked(segment.index, 0, segment.file[..end]);
            StrictlyForward(marks) && Genuine(marks, segments) && forall m :: m in marks ==> m.index <= segment.index
  {
    var tail := Marked(segment.index, 0, segment.file[..end]);
    assert forall m :: m in tail ==>
      m.index == segment.index && m.position < |segment.file| && m.value == segment.file[m.position];
  }

  lemma {:induction false} ReadPartsForward(all: seq<Segment>, fates: seq<Fate>)
    requires Increasing(all) && FatesOk(all, fates)
    ensures StrictlyForward(ReadParts(all, fates)) && Genuine(ReadParts(all, fates), all)
    ensures |fates| < |all| ==> forall m :: m in ReadParts(all, fates) ==> m.index < all[|fates|].index
  {
    if fates != [] {
      var n := |fates| - 1;
      ReadPartsForward(all, fates[..n]);
      assert all[n] in all;
      ForwardConcat(ReadParts(all, fates[..n]), all[n], fates[n].read, all);
    }
  }

  /** No byte is handed out twice or out of order, and each is the byte that the labelled
      segment holds at the labelled position. */
  lemma {:induction false} NothingTwice(log: Log)
    requires Inv(log)
    ensures StrictlyForward(Output(log.history.replies))
    ensures Genuine(Output(log.history.replies), log.history.sealed)
  {
    var h, offset := log.history, log.stream.drainOffset;
    ReadPartsForward(h.sealed, h.fates);
    if offset > 0 {
      assert h.sealed[|h.fates|] in h.sealed;
      ForwardConcat(ReadParts(h.sealed, h.fates), h.sealed[|h.fates|], offset, h.sealed);
    }
  }

  /** The files of the segments, end to end. */
  function WholeFiles(segments: seq<Segment>): seq<Mark> {
    if segments == [] then []
    else
      var n := |segments| - 1;
      WholeFiles(segments[..n]) + Marked(segments[n].index, 0, segments[n].file)
  }

  lemma {:induction false} AllRead(all: seq<Segment>, fates: seq<Fate>)
    requires FatesOk(all, fates) && LostCount(fates) == 0
    ensures ReadParts(all, fates) == WholeFiles(all[..|fates|])
  {
    if fates != [] {
      var n := |fates| - 1;
      AllRead(all, fates[..n]);
      assert all[..|fates|][..n] == all[..n];
      assert all[n].file[..fates[n].read] == all[n].file;
    }
  }

  lemma {:induction false} AllHanded(all: seq<Segment>, fates: seq<Fate>, replies: seq<Chunk>, offset: nat)
    requires Handed(all, fates, replies, offset) && LostCount(fates) == 0 && |fates| == |all|
    ensures Output(replies) == WholeFiles(all)
  {
    AllRead(all, fates);
    assert all[..|fates|] == all;
  }

  /** With nothing pending and no unread eviction counted, the replies are everything
      that was ever sealed. */
  lemma {:induction false} NothingMissing(log: Log)
    requires Inv(log) && log.stream.evictedUnread == 0
    requires Position(log.stream.sealed, log.stream.drainSegment) == |log.stream.sealed|
    ensures Output(log.history.replies) == WholeFiles(log.history.sealed)
  {
    PendingExactly(log);
    AllHanded(log.history.sealed, log.history.fates, log.history.replies, log.stream.drainOffset);
  }

  function Bytes(marks: seq<Mark>): (r: seq<octet>)
    ensures |r| == |marks|
  {
    seq(|marks|, i requires 0 <= i < |marks| => marks[i].value)
  }

  function Content(segments: seq<Segment>): seq<octet> {
    if segments == [] then []
    else Content(segments[..|segments| - 1]) + segments[|segments| - 1].file
  }

  /** Everything the engine has put into the files of a session, sealed or open. */
  function Written(log: Log): seq<octet> {
    Content(log.history.sealed) + if log.stream.open.Some? then log.stream.open.value.file else []
  }

  lemma {:induction false} BytesConcat(a: seq<Mark>, b: seq<Mark>)
    ensures Bytes(a + b) == Bytes(a) + Bytes(b)
  {
  }

  lemma {:induction false} BytesOfMarked(index: nat, from: nat, data: seq<octet>)
    ensures Bytes(Marked(index, from, data)) == data
  {
  }

  lemma {:induction false} WholeBytes(segments: seq<Segment>)
    ensures Bytes(WholeFiles(segments)) == Content(segments)
  {
    if segments != [] {
      var n := |segments| - 1;
      WholeBytes(segments[..n]);
      BytesConcat(WholeFiles(segments[..n]), Marked(segments[n].index, 0, segments[n].file));
      BytesOfMarked(segments[n].index, 0, segments[n].file);
    }
  }

  lemma {:induction false} ContentNext(segments: seq<Segment>, k: nat)
    requires k < |segments|
    ensures Content(segments[..k + 1]) == Content(segments[..k]) + segments[k].file
  {
    assert segments[..k + 1][..k] == segments[..k];
  }

  lemma {:induction false} ContentPrefix(segments: seq<Segment>, k: nat)
    requires k <= |segments|
    ensures Content(segments[..k]) <= Content(segments)
    decreases |segments| - k
  {
    if k < |segments| {
      ContentNext(segments, k);
      ContentPrefix(segments, k + 1);
    } else {
      assert segments[..k] == segments;
    }
  }

  lemma {:induction false} HandedPrefix(all: seq<Segment>, fates: seq<Fate>, replies: seq<Chunk>, offset: nat)
    requires Handed(all, fates, replies, offset) && LostCount(fates) == 0
    ensures Bytes(Output(replies)) <= Content(all)
  {
    var p := |fates|;
    AllRead(all, fates);
    BytesConcat(ReadParts(all, fates), Partial(all, p, offset));
    WholeBytes(all[..p]);
    if offset > 0 {
      BytesOfMarked(all[p].index, 0, all[p].file[..offset]);
      ContentNext(all, p);
      ContentPrefix(all, p + 1);
    } else {
      ContentPrefix(all, p);
    }
  }

  /** While no unread eviction is counted the bytes handed out are a prefix of the bytes written,
      and all of them once nothing is pending or open. */
  lemma {:induction false} RepliesArePrefix(log: Log)
    requires Inv(log) && log.stream.evictedUnread == 0
    ensures Bytes(Output(log.history.replies)) <= Written(log)
    ensures Position(log.stream.sealed, log.stream.drainSegment) == |log.stream.sealed| && log.stream.open.None? ==>
              Bytes(Output(log.history.replies)) == Written(log)
  {
    var h := log.history;
    HandedPrefix(h.sealed, h.fates, h.replies, log.stream.drainOffset);
    if Position(log.stream.sealed, log.stream.drainSegment) == |log.stream.sealed| {
      NothingMissing(log);
      WholeBytes(h.sealed);
    }
  }

  /** Every byte of the segment has been handed out. */
  ghost predicate HandedOut(segment: Segment, replies: seq<Chunk>) {
    forall i :: 0 <= i < |segment.file| ==> Mark(segment.index, i, segment.file[i]) in Output(replies)
  }

  /** A segment is behind the cursor exactly when it has a fate. One that is lost was evicted,
      and, unless it is empty, not handed out whole; all others were handed out whole. The lost
      ones number exactly evictedUnread. */
  ghost predicate PassedOrLost(log: Log) {
    var h := log.history;
    && |h.fates| <= |h.sealed|
    && LostCount(h.fates) == log.stream.evictedUnread
    && (forall i :: 0 <= i < |h.sealed| ==> (h.sealed[i].index < log.stream.drainSegment <==> i < |h.fates|))
    && forall i :: 0 <= i < |h.fates| ==> LostOrWhole(h.sealed[i], h.fates[i], h.replies, i < log.stream.evictedSegments)
  }

  ghost predicate LostOrWhole(segment: Segment, fate: Fate, replies: seq<Chunk>, evicted: bool) {
    if fate.lost then evicted && (segment.file == [] || !HandedOut(segment, replies)) else HandedOut(segment, replies)
  }

  lemma {:induction false} ReadPartsHold(all: seq<Segment>, fates: seq<Fate>, k: nat, i: nat)
    requires FatesOk(all, fates) && k < |fates| && !fates[k].lost && i < |all[k].file|
    ensures Mark(all[k].index, i, all[k].file[i]) in ReadParts(all, fates)
  {
    var n := |fates| - 1;
    if k < n {
      ReadPartsHold(all, fates[..n], k, i);
    } else {
      assert Marked(all[k].index, 0, all[k].file[..fates[k].read])[i] == Mark(all[k].index, i, all[k].file[i]);
    }
  }

  /** Of a passed segment nothing behind its read part is among the marks. */
  lemma {:induction false} NothingBehind(all: seq<Segment>, fates: seq<Fate>, k: nat, mark: Mark)
    requires Increasing(all) && FatesOk(all, fates) && k < |all|
    requires mark in ReadParts(all, fates) && mark.index == all[k].index
    ensures k < |fates| && mark.position < fates[k].read
  {
    var n := |fates| - 1;
    if mark in ReadParts(all, fates[..n]) {
      NothingBehind(all, fates[..n], k, mark);
    } else {
      assert mark in Marked(all[n].index, 0, all[n].file[..fates[n].read]);
    }
  }

  lemma {:induction false} LostNotWhole(all: seq<Segment>, fates: seq<Fate>, replies: seq<Chunk>, offset: nat, k: nat)
    requires Increasing(all) && Handed(all, fates, replies, offset) && k < |fates| && fates[k].lost && all[k].file != []
    ensures !HandedOut(all[k], replies)
  {
    var last := |all[k].file| - 1;
    var mark := Mark(all[k].index, last, all[k].file[last]);
    assert FateOk(all[k], fates[k]);
    if mark in ReadParts(all, fates) {
      NothingBehind(all, fates, k, mark);
    }
    assert mark !in Partial(all, |fates|, offset);
    assert mark !in Output(replies);
  }

  lemma {:induction false} WholeHandedOut(all: seq<Segment>, fates: seq<Fate>, replies: seq<Chunk>, offset: nat, k: nat)
    requires Handed(all, fates, replies, offset) && k < |fates| && !fates[k].lost
    ensures HandedOut(all[k], replies)
  {
    forall i | 0 <= i < |all[k].file| ensures Mark(all[k].index, i, all[k].file[i]) in Output(replies) {
      ReadPartsHold(all, fates, k, i);
    }
  }

  lemma {:induction false} EverySegmentPassed(log: Log)
    requires Inv(log)
    ensures PassedOrLost(log)
  {
    var s, h := log.stream, log.history;
    forall k | 0 <= k < |h.fates| ensures LostOrWhole(h.sealed[k], h.fates[k], h.replies, k < s.evictedSegments) {
      FateTells(h.sealed, h.fates, h.replies, s.drainOffset, s.evictedSegments, k);
    }
    BehindCursor(h.sealed, |h.fates|, s.drainSegment, s.drainOffset, s.evictedSegments);
  }

  lemma {:induction false} FateTells(
    all: seq<Segment>, fates: seq<Fate>, replies: seq<Chunk>, offset: nat, evicted: nat, k: nat)
    requires Increasing(all) && Handed(all, fates, replies, offset) && LostWereEvicted(fates, evicted) && k < |fates|
    ensures LostOrWhole(all[k], fates[k], replies, k < evicted)
  {
    if !fates[k].lost {
      WholeHandedOut(all, fates, replies, offset, k);
    } else if all[k].file != [] {
      LostNotWhole(all, fates, replies, offset, k);
    }
  }

  lemma {:induction false} BehindCursor(all: seq<Segment>, passed: nat, cursor: nat, offset: nat, evicted: nat)
    requires Increasing(all) && Split(all, passed, cursor, offset, evicted)
    ensures forall i :: 0 <= i < |all| ==> (all[i].index < cursor <==> i < passed)
  {
  }

  /** Bytes still to be handed out, plus one per pending segment. */
  function Remaining(log: Log): int
    requires Inv(log)
  {
    TotalBytes(log.history.sealed[|log.history.fates|..]) + |log.history.sealed| - |log.history.fates|
    - log.stream.drainOffset
  }

  /** Reading changes neither the table nor the counters. */
  lemma {:induction false} DrainFrame(log: Log, maxBytes: nat, readable: bool)
    ensures var after := Drain(log, maxBytes, readable).0;
            && after.history.sealed == log.history.sealed
            && after.stream == log.stream.(drainSegment := after.stream.drainSegment, drainOffset := after.stream.drainOffset)
  {
  }

  lemma {:induction false} DrainProgress(log: Log, maxBytes: nat)
    requires Inv(log) && maxBytes > 0 && |log.history.fates| < |log.history.sealed|
    ensures Inv(Drain(log, maxBytes, true).0)
    ensures 0 <= Remaining(Drain(log, maxBytes, true).0) < Remaining(log)
  {
    DrainMoves(log, maxBytes);
    ReadKeeps(log, ReadEnd(log, maxBytes));
    Smaller(log.history.sealed, |log.history.fates|);
  }

  lemma {:induction false} Smaller(all: seq<Segment>, p: nat)
    requires p < |all|
    ensures TotalBytes(all[p..]) == |all[p].file| + TotalBytes(all[p + 1..])
  {
    assert all[p..][1..] == all[p + 1..];
  }

  lemma {:induction false} DrainReplies(log: Log, maxBytes: nat)
    requires Inv(log)
    ensures !Drain(log, maxBytes, true).1.Unreadable?
    ensures Drain(log, maxBytes, true).1.Nothing? <==> |log.history.fates| == |log.history.sealed|
  {
    PendingExactly(log);
    if |log.history.fates| < |log.history.sealed| {
      CurrentSegment(log);
      DrainReads(log, maxBytes);
    }
  }

  /** A client that keeps asking until it is told there is nothing more. */
  function DrainUntilDone(log: Log, maxBytes: nat): Log
    requires Inv(log) && maxBytes > 0
    decreases Remaining(log)
  {
    DrainReplies(log, maxBytes);
    var (after, reply) := Drain(log, maxBytes, true);
    match reply
    case Data(_, _, done) => DrainProgress(log, maxBytes); if done then after else DrainUntilDone(after, maxBytes)
    case _ => after
  }

  /** Unless the file could not be read, the client is told to go on exactly when
      something is still pending. */
  lemma {:induction false} DrainEnds(log: Log, maxBytes: nat, readable: bool)
    requires !Drain(log, maxBytes, readable).1.Unreadable?
    ensures var (after, reply) := Drain(log, maxBytes, readable);
            (reply.Data? && !reply.done) <==> Position(after.stream.sealed, after.stream.drainSegment) < |after.stream.sealed|
  {
  }

  /** Draining a fixed table ends, evicts nothing, and hands out exactly what was pending. */
  lemma {:induction false} DrainTerminates(log: Log, maxBytes: nat)
    requires Inv(log) && maxBytes > 0
    ensures var after := DrainUntilDone(log, maxBytes);
            && Inv(after)
            && after.history.sealed == log.history.sealed
            && after.stream.sealed == log.stream.sealed
            && after.stream.evictedUnread == log.stream.evictedUnread
            && Position(after.stream.sealed, after.stream.drainSegment) == |after.stream.sealed|
    decreases Remaining(log)
  {
    DrainReplies(log, maxBytes);
    DrainFrame(log, maxBytes, true);
    DrainKeeps(log, maxBytes, true);
    DrainEnds(log, maxBytes, true);
    var (after, reply) := Drain(log, maxBytes, true);
    if reply.Data? && !reply.done {
      DrainProgress(log, maxBytes);
      DrainTerminates(after, maxBytes);
    }
  }
}
