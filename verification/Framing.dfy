/** Length-prefixed responses: the plugin's chunked writer and the client's reader. */
module Framing {
  import opened Basics

  const MAX_WRITE_CHUNK: nat := 32 * 1024
  const MAX_RESPONSE: nat := 64 * 1024 * 1024
  const MAX_HEADER: nat := 0xFFFF_FFFF
  const PREFIX: nat := 8

  type Bytes = seq<octet>

  // ------------------------------------------------------------------------- header

  function HexDigit(d: int): octet
    requires 0 <= d < 16
  {
    if d < 10 then 48 + d else 55 + d
  }

  /** The low-order hexadecimal digits of n, most significant first. */
  function Hex(n: nat, digits: nat): (h: Bytes)
    ensures |h| == digits
  {
    if digits == 0 then [] else Hex(n / 16, digits - 1) + [HexDigit(n % 16)]
  }

  function Header(size: nat): (h: Bytes)
    ensures |h| == PREFIX
  {
    Hex(if size > MAX_HEADER then MAX_HEADER else size, PREFIX)
  }

  lemma {:induction false} HexStep(n: nat, digits: nat, tail: Bytes)
    requires digits > 0
    ensures Hex(n, digits) + tail == Hex(n / 16, digits - 1) + ([HexDigit(n % 16)] + tail)
  {
  }

  method MakeFrameHeader(size: nat) returns (text: Bytes)
    ensures text == Header(size)
  {
    var header := new octet[8](_ => 0);
    var remaining: nat := if size > MAX_HEADER then MAX_HEADER else size;
    var index := 7;
    while index >= 0
      invariant -1 <= index <= 7
      invariant Header(size) == Hex(remaining, index + 1) + header[index + 1..]
    {
      ghost var tail := header[index + 1..];
      HexStep(remaining, index + 1, tail);
      header[index] := HexDigit(remaining % 16);
      assert header[index..] == [HexDigit(remaining % 16)] + tail;
      remaining := remaining / 16;
      index := index - 1;
    }
    text := header[..];
  }

  function HexValue(c: octet): Option<nat> {
    if 48 <= c <= 57 then Some(c - 48)
    else if 65 <= c <= 70 then Some(c - 55)
    else if 97 <= c <= 102 then Some(c - 87)
    else None
  }

  /** strconv.ParseUint with base 16 on at most sixteen digits. */
  function ParseHex(text: Bytes): Option<nat> {
    if text == [] then Some(0)
    else
      var high, low := ParseHex(text[..|text| - 1]), HexValue(text[|text| - 1]);
      if high.None? || low.None? then None else Some(high.value * 16 + low.value)
  }

  function Power16(digits: nat): nat {
    if digits == 0 then 1 else 16 * Power16(digits - 1)
  }

  lemma {:induction false} HexRoundTrip(n: nat, digits: nat)
    requires n < Power16(digits)
    ensures ParseHex(Hex(n, digits)) == Some(n)
  {
    if digits > 0 {
      HexRoundTrip(n / 16, digits - 1);
      assert Hex(n, digits)[..digits - 1] == Hex(n / 16, digits - 1);
    }
  }

  /** The client reads the size back, or the cap for a size that does not fit eight digits. */
  lemma {:induction false} HeaderRoundTrip(size: nat)
    ensures ParseHex(Header(size)) == Some(if size > MAX_HEADER then MAX_HEADER else size)
  {
    assert Power16(4) == 0x1_0000;
    assert Power16(8) == MAX_HEADER + 1;
    HexRoundTrip(if size > MAX_HEADER then MAX_HEADER else size, PREFIX);
  }

  /** Every digit of the prefix is one of 0-9 and A-F. */
  lemma {:induction false} HexIsUpper(n: nat, digits: nat)
    ensures forall i :: 0 <= i < digits ==> 48 <= Hex(n, digits)[i] <= 57 || 65 <= Hex(n, digits)[i] <= 70
  {
    if digits > 0 { HexIsUpper(n / 16, digits - 1); }
  }

  function Frame(payload: Bytes): Bytes {
    Header(|payload|) + payload
  }

  // ------------------------------------------------------------------------- writing

  /** One turn of the writer's loop: the stop event, or what the pipe said. */
  datatype Turn =
    | StopRequested
    | Wrote(count: nat)
    | MoreData(count: nat)
    | NoData
    | WriteError

  datatype Writing = Complete | Aborted | Ongoing

  /** A pipe never reports more bytes than it was given. */
  function Accepted(length: nat, offset: nat, count: nat): nat
    requires offset <= length
  {
    var chunk := if length - offset < MAX_WRITE_CHUNK then length - offset else MAX_WRITE_CHUNK;
    if count < chunk then count else chunk
  }

  /** Where one turn leaves the writer, and whether it goes on. */
  function OneTurn(length: nat, offset: nat, turn: Turn): (r: (nat, bool))
    requires offset <= length
    ensures offset <= r.0 <= length
  {
    match turn
    case StopRequested => (offset, false)
    case WriteError => (offset, false)
    case NoData => (offset, true)
    case Wrote(count) => (offset + Accepted(length, offset, count), true)
    case MoreData(count) => (offset + Accepted(length, offset, count), Accepted(length, offset, count) > 0)
  }

  /** Where the writer stands after the given turns: bytes sent, and whether it is done. */
  function WriteRun(length: nat, offset: nat, turns: seq<Turn>): (r: (nat, Writing))
    requires offset <= length
    ensures offset <= r.0 <= length && (r.0 == length <==> r.1.Complete?)
    decreases |turns|
  {
    if offset == length then (offset, Complete)
    else if turns == [] then (offset, Ongoing)
    else if OneTurn(length, offset, turns[0]).1 then WriteRun(length, OneTurn(length, offset, turns[0]).0, turns[1..])
    else (offset, Aborted)
  }

  class Pipe {
    var sent: Bytes

    constructor ()
      ensures sent == []
    {
      sent := [];
    }

    /** Takes count bytes from the offset on. */
    method WriteFile(data: Bytes, offset: nat, count: nat)
      requires offset + count <= |data|
      modifies this
      ensures sent == old(sent) + data[offset..offset + count]
    {
      sent := sent + data[offset..offset + count];
    }
  }

  method TakeTurn(pipe: Pipe, framed: Bytes, offset: nat, turn: Turn, ghost before: Bytes)
      returns (next: nat, on: bool)
    requires offset < |framed| && pipe.sent == before + framed[..offset]
    modifies pipe
    ensures (next, on) == OneTurn(|framed|, offset, turn)
    ensures pipe.sent == before + framed[..next]
  {
    match turn
    case StopRequested => return offset, false;
    case WriteError => return offset, false;
    case NoData => return offset, true;
    case Wrote(count) =>
      var written := Accepted(|framed|, offset, count);
      pipe.WriteFile(framed, offset, written);
      return offset + written, true;
    case MoreData(count) =>
      var written := Accepted(|framed|, offset, count);
      pipe.WriteFile(framed, offset, written);
      return offset + written, written > 0;
  }

  /** What is on the pipe is always a prefix of the frame: also after a stop or an error. */
  method WriteAll(pipe: Pipe, data: Bytes, turns: seq<Turn>) returns (outcome: Writing)
    modifies pipe
    ensures var run := WriteRun(|Frame(data)|, 0, turns);
            outcome == run.1 && pipe.sent == old(pipe.sent) + Frame(data)[..run.0]
  {
    var header := MakeFrameHeader(|data|);
    var framed := header + data;
    var offset, turn := 0, 0;
    while offset < |framed|
      invariant 0 <= offset <= |framed| && 0 <= turn <= |turns|
      invariant pipe.sent == old(pipe.sent) + framed[..offset]
      invariant WriteRun(|framed|, offset, turns[turn..]) == WriteRun(|framed|, 0, turns)
      decreases |turns| - turn
    {
      if turn == |turns| {
        return Ongoing;
      }
      assert turns[turn..][1..] == turns[turn + 1..];
      var on;
      offset, on := TakeTurn(pipe, framed, offset, turns[turn], old(pipe.sent));
      turn := turn + 1;
      if !on {
        return Aborted;
      }
    }
    outcome := Complete;
  }

  predicate Moves(turn: Turn) {
    (turn.Wrote? || turn.MoreData?) && turn.count > 0
  }

  predicate Harmless(turn: Turn) {
    Moves(turn) || turn.NoData? || turn == Wrote(0)
  }

  function MovingTurns(turns: seq<Turn>): nat {
    if turns == [] then 0 else (if Moves(turns[0]) then 1 else 0) + MovingTurns(turns[1..])
  }

  /** A full pipe only delays: without a stop or an error, enough turns that move anything
      complete the frame, however many empty ones come in between. */
  lemma {:induction false} WriteProgress(length: nat, offset: nat, turns: seq<Turn>)
    requires offset <= length && forall k :: 0 <= k < |turns| ==> Harmless(turns[k])
    requires MovingTurns(turns) >= length - offset
    ensures WriteRun(length, offset, turns).1.Complete?
    decreases |turns|
  {
    if offset < length {
      if Moves(turns[0]) {
        WriteProgress(length, offset + Accepted(length, offset, turns[0].count), turns[1..]);
      } else {
        WriteProgress(length, offset, turns[1..]);
      }
    }
  }

  predicate Breaks(turn: Turn) {
    turn.StopRequested? || turn.WriteError? || turn == MoreData(0)
  }

  /** A stop, an error, or a pipe that wants more and took nothing ends the writing where it stands,
      whatever would come after. */
  lemma {:induction false} BreakEnds(length: nat, offset: nat, before: seq<Turn>, turn: Turn, more: seq<Turn>)
    requires offset <= length && Breaks(turn) && WriteRun(length, offset, before).1.Ongoing?
    ensures WriteRun(length, offset, before + [turn] + more) == (WriteRun(length, offset, before).0, Aborted)
    decreases |before|
  {
    var turns := before + [turn] + more;
    if before == [] {
      assert turns[0] == turn;
    } else {
      assert turns[0] == before[0] && turns[1..] == before[1..] + [turn] + more;
      BreakEnds(length, OneTurn(length, offset, before[0]).0, before[1..], turn, more);
    }
  }

  /** How much a turn moves when it is given all that is asked for. */
  function Count(turn: Turn): nat {
    if turn.Wrote? || turn.MoreData? then turn.count else 0
  }

  function Counts(turns: seq<Turn>): nat {
    if turns == [] then 0 else Count(turns[0]) + Counts(turns[1..])
  }

  /** Without a stop or an error the writer stands behind exactly the bytes that the pipe says it took, as
      long as it takes no more than a chunk at a time and no more than there is. */
  lemma {:induction false} CountsAddUp(length: nat, offset: nat, turns: seq<Turn>)
    requires offset + Counts(turns) <= length
    requires forall k :: 0 <= k < |turns| ==> Harmless(turns[k]) && Count(turns[k]) <= 32768
    ensures var run := WriteRun(length, offset, turns);
            run == (offset + Counts(turns), if offset + Counts(turns) == length then Complete else Ongoing)
    decreases |turns|
  {
    if turns != [] && offset < length {
      assert OneTurn(length, offset, turns[0]) == (offset + Count(turns[0]), true);
      CountsAddUp(length, offset + Count(turns[0]), turns[1..]);
    } else if turns != [] {
      CountsAddUp(length, offset, turns[1..]);
    }
  }

  // ------------------------------------------------------------------------- reading

  /** One Read: some bytes, or none, and whether it also returned an error. */
  datatype Read = Read(data: Bytes, failed: bool)

  datatype Reading =
    | Payload(payload: Bytes)
    | BadLength
    | TooLarge
    | ReadFailed
    | Waiting

  /** What the reader makes of its buffer; None when it wants more. */
  function Inspect(buffer: Bytes): Option<Reading> {
    if |buffer| < PREFIX then None
    else
      var target := ParseHex(buffer[..PREFIX]);
      if target.None? then Some(BadLength)
      else if target.value > MAX_RESPONSE then Some(TooLarge)
      else if |buffer| >= target.value + PREFIX then Some(Payload(buffer[PREFIX..PREFIX + target.value]))
      else None
  }

  function ReadRun(buffer: Bytes, arrivals: seq<Read>): Reading
    decreases |arrivals|
  {
    var verdict := Inspect(buffer);
    if verdict.Some? then verdict.value
    else if arrivals == [] then Waiting
    else if arrivals[0].data != [] then ReadRun(buffer + arrivals[0].data, arrivals[1..])
    else if arrivals[0].failed then ReadFailed
    else ReadRun(buffer, arrivals[1..])
  }

  method ReadFramedResponse(arrivals: seq<Read>) returns (result: Reading)
    ensures result == ReadRun([], arrivals)
  {
    var buffer: Bytes, next := [], 0;
    while true
      invariant 0 <= next <= |arrivals|
      invariant ReadRun(buffer, arrivals[next..]) == ReadRun([], arrivals)
      decreases |arrivals| - next
    {
      if |buffer| >= PREFIX {
        var target := ParseHex(buffer[..PREFIX]);
        if target.None? {
          return BadLength;
        }
        if target.value > MAX_RESPONSE {
          return TooLarge;
        }
        if |buffer| >= target.value + PREFIX {
          return Payload(buffer[PREFIX..PREFIX + target.value]);
        }
      }
      if next == |arrivals| {
        return Waiting;
      }
      var read := arrivals[next];
      assert arrivals[next..][1..] == arrivals[next + 1..];
      next := next + 1;
      if read.data != [] {
        buffer := buffer + read.data;
      } else if read.failed {
        return ReadFailed;
      }
    }
  }

  /** The bytes that arrive before a read brings nothing but an error. */
  function Delivered(arrivals: seq<Read>): Bytes {
    if arrivals == [] || (arrivals[0].data == [] && arrivals[0].failed) then []
    else arrivals[0].data + Delivered(arrivals[1..])
  }

  /** However the stream is cut into reads, the reader decides on the bytes alone. */
  lemma {:induction false} SplitIndependent(buffer: Bytes, arrivals: seq<Read>)
    ensures var all := Inspect(buffer + Delivered(arrivals));
            if all.Some? && !Inspect(buffer).Some? then ReadRun(buffer, arrivals) == all.value
            else if Inspect(buffer).Some? then ReadRun(buffer, arrivals) == Inspect(buffer).value
            else ReadRun(buffer, arrivals).Waiting? || ReadRun(buffer, arrivals).ReadFailed?
    ensures Inspect(buffer).Some? ==> Inspect(buffer + Delivered(arrivals)) == Inspect(buffer)
    decreases |arrivals|
  {
    if Inspect(buffer).Some? {
      InspectStable(buffer, Delivered(arrivals));
    } else {
      if arrivals == [] || (arrivals[0].data == [] && arrivals[0].failed) {
        assert buffer + Delivered(arrivals) == buffer;
      } else {
        assert buffer + Delivered(arrivals) == buffer + arrivals[0].data + Delivered(arrivals[1..]);
        SplitIndependent(buffer + arrivals[0].data, arrivals[1..]);
        if arrivals[0].data == [] { assert buffer + arrivals[0].data == buffer; }
      }
    }
  }

  /** A verdict on a prefix of the stream stands. */
  lemma {:induction false} InspectStable(buffer: Bytes, more: Bytes)
    requires Inspect(buffer).Some?
    ensures Inspect(buffer + more) == Inspect(buffer)
  {
    assert (buffer + more)[..PREFIX] == buffer[..PREFIX];
    var target := ParseHex(buffer[..PREFIX]);
    if target.Some? && target.value <= MAX_RESPONSE {
      assert (buffer + more)[PREFIX..PREFIX + target.value] == buffer[PREFIX..PREFIX + target.value];
    }
  }

  predicate IsHexDigit(c: octet) {
    48 <= c <= 57 || 65 <= c <= 70 || 97 <= c <= 102
  }

  lemma {:induction false} HexExactly(text: Bytes)
    ensures ParseHex(text).Some? <==> forall i :: 0 <= i < |text| ==> IsHexDigit(text[i])
  {
    if text != [] { HexExactly(text[..|text| - 1]); }
  }

  /** The stream ends in an error while the reader still wants more. */
  predicate Fails(arrivals: seq<Read>) {
    arrivals != [] && ((arrivals[0].data == [] && arrivals[0].failed) || Fails(arrivals[1..]))
  }

  /** What the reader answers to any stream at all, in terms of the bytes that arrive: a bad length exactly
      when eight bytes are there and one is no hexadecimal digit, too large exactly when they
      say so, the payload exactly when as many bytes follow; otherwise it fails exactly when
      the stream does, and waits for more. */
  lemma {:induction false} VerdictExactly(arrivals: seq<Read>)
    ensures var stream, result := Delivered(arrivals), ReadRun([], arrivals);
            if |stream| < 8 then result == if Fails(arrivals) then ReadFailed else Waiting
            else if exists i :: 0 <= i < 8 && !IsHexDigit(stream[i]) then result == BadLength
            else
              ParseHex(stream[..8]).Some? &&
              var size := ParseHex(stream[..8]).value;
              if size > 64 * 1024 * 1024 then result == TooLarge
              else if |stream| >= size + 8 then result == Payload(stream[8..size + 8])
              else result == if Fails(arrivals) then ReadFailed else Waiting
  {
    var stream := Delivered(arrivals);
    assert [] + stream == stream;
    SplitIndependent([], arrivals);
    InspectExactly(stream);
    if Inspect(stream).None? { UndecidedExactly([], arrivals); }
  }

  lemma {:induction false} InspectExactly(stream: Bytes)
    ensures Inspect(stream) ==
            if |stream| < 8 then None
            else if exists i :: 0 <= i < 8 && !IsHexDigit(stream[i]) then Some(BadLength)
            else
              assert ParseHex(stream[..8]).Some? by { HexExactly(stream[..8]); }
              var size := ParseHex(stream[..8]).value;
              if size > 64 * 1024 * 1024 then Some(TooLarge)
              else if |stream| >= size + 8 then Some(Payload(stream[8..size + 8])) else None
  {
    if |stream| >= 8 {
      HexExactly(stream[..8]);
      assert forall i :: 0 <= i < 8 ==> stream[..8][i] == stream[i];
    }
  }

  lemma {:induction false} UndecidedExactly(buffer: Bytes, arrivals: seq<Read>)
    requires Inspect(buffer + Delivered(arrivals)).None?
    ensures ReadRun(buffer, arrivals) == if Fails(arrivals) then ReadFailed else Waiting
    decreases |arrivals|
  {
    if Inspect(buffer).Some? {
      InspectStable(buffer, Delivered(arrivals));
    } else if arrivals != [] && !(arrivals[0].data == [] && arrivals[0].failed) {
      var more := buffer + arrivals[0].data;
      assert buffer + Delivered(arrivals) == more + Delivered(arrivals[1..]);
      UndecidedExactly(more, arrivals[1..]);
      assert arrivals[0].data == [] ==> more == buffer;
    }
  }

  // ---------------------------------------------------------------------- end to end

  /** Of a stream that agrees with a frame, the verdict is the payload exactly when the
      whole frame is there and it is no larger than the reader allows. */
  lemma {:induction false} InspectFrame(payload: Bytes, stream: Bytes)
    requires stream <= Frame(payload) || Frame(payload) <= stream
    ensures Inspect(stream)
            == if |stream| < PREFIX then None
               else if |payload| > MAX_RESPONSE then Some(TooLarge)
               else if Frame(payload) <= stream then Some(Payload(payload))
               else None
  {
    if |stream| >= PREFIX {
      assert stream[..PREFIX] == Header(|payload|);
      HeaderRoundTrip(|payload|);
      if |payload| <= MAX_RESPONSE {
        if Frame(payload) <= stream {
          assert stream[PREFIX..PREFIX + |payload|] == Frame(payload)[PREFIX..] == payload;
        } else {
          assert |stream| < |Frame(payload)|;
        }
      }
    }
  }

  /** Any turns of the writer, any cut of what it sent into reads: the reader returns the
      payload exactly when everything was delivered and the payload is within the limit;
      it returns no other payload, so never one from a strict prefix. */
  lemma {:induction false} EndToEnd(payload: Bytes, turns: seq<Turn>, arrivals: seq<Read>)
    requires var run := WriteRun(|Frame(payload)|, 0, turns);
             Delivered(arrivals) <= Frame(payload)[..run.0]
    ensures var run, result := WriteRun(|Frame(payload)|, 0, turns), ReadRun([], arrivals);
            && (result.Payload? <==> |payload| <= MAX_RESPONSE && Delivered(arrivals) == Frame(payload))
            && (result.Payload? ==> result.payload == payload && run.1.Complete?)
            && (result.TooLarge? <==> |payload| > MAX_RESPONSE && |Delivered(arrivals)| >= PREFIX)
            && !result.BadLength?
  {
    var stream := Delivered(arrivals);
    assert [] + stream == stream;
    InspectFrame(payload, stream);
    SplitIndependent([], arrivals);
  }
}
