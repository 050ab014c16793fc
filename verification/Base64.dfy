/** The plugin's base64, section 4 of RFC 4648: bytes in groups of three, text in groups of four. */
module Base64 {
  import opened Basics

  type Bytes = seq<bv8>

  const PAD: bv8 := 61

  /** The alphabet, at a six-bit value. */
  function Char(v: bv8): bv8 {
    if v < 26 then 65 + v
    else if v < 52 then 71 + v
    else if v < 62 then v - 4
    else if v == 62 then 43
    else 47
  }

  /** Table 1 of section 4 of RFC 4648: A to Z, a to z, 0 to 9, plus and slash. */
  const UPPER: Bytes := [
    65, 66, 67, 68, 69, 70, 71, 72, 73, 74, 75, 76, 77, 78, 79, 80, 81, 82, 83, 84, 85, 86, 87, 88, 89, 90]

  const LOWER: Bytes := [
    97, 98, 99, 100, 101, 102, 103, 104, 105, 106, 107, 108, 109, 110, 111, 112, 113, 114, 115, 116, 117, 118,
    119, 120, 121, 122]

  const OTHERS: Bytes := [48, 49, 50, 51, 52, 53, 54, 55, 56, 57, 43, 47]

  lemma {:induction false} AlphabetIs()
    ensures [Char(0), Char(1), Char(2), Char(3), Char(4), Char(5), Char(6), Char(7), Char(8), Char(9),
             Char(10), Char(11), Char(12), Char(13), Char(14), Char(15), Char(16), Char(17), Char(18),
             Char(19), Char(20), Char(21), Char(22), Char(23), Char(24), Char(25)] == UPPER
    ensures [Char(26), Char(27), Char(28), Char(29), Char(30), Char(31), Char(32), Char(33), Char(34),
             Char(35), Char(36), Char(37), Char(38), Char(39), Char(40), Char(41), Char(42), Char(43),
             Char(44), Char(45), Char(46), Char(47), Char(48), Char(49), Char(50), Char(51)] == LOWER
    ensures [Char(52), Char(53), Char(54), Char(55), Char(56), Char(57), Char(58), Char(59), Char(60),
             Char(61), Char(62), Char(63)] == OTHERS
  {
  }

  /** The decode table; None is its -1. */
  function Value(c: bv8): (v: Option<bv8>)
    ensures v.Some? ==> v.value < 64
  {
    if 65 <= c <= 90 then Some(c - 65)
    else if 97 <= c <= 122 then Some(c - 71)
    else if 48 <= c <= 57 then Some(c + 4)
    else if c == 43 then Some(62)
    else if c == 47 then Some(63)
    else None
  }

  /** The table inverts the alphabet, and only the alphabet has values. */
  lemma {:induction false} ValueOfChar(v: bv8)
    requires v < 64
    ensures Value(Char(v)) == Some(v) && Char(v) != PAD && Value(PAD).None?
  {
  }

  lemma {:induction false} CharOfValue(c: bv8)
    requires Value(c).Some?
    ensures Char(Value(c).value) == c
  {
  }

  function Triple(b0: bv8, b1: bv8, b2: bv8): bv32 {
    ((b0 as bv32) << 16) | ((b1 as bv32) << 8) | (b2 as bv32)
  }

  function Sixth(triple: bv32, shift: bv8): (v: bv8)
    requires shift <= 18
    ensures v < 64
  {
    ((triple >> shift) & 0x3F) as bv8
  }

  function Joined(a: bv8, b: bv8, c: bv8, d: bv8): bv32 {
    ((a as bv32) << 18) | ((b as bv32) << 12) | ((c as bv32) << 6) | (d as bv32)
  }

  function ByteOf(triple: bv32, shift: bv8): bv8
    requires shift <= 16
  {
    ((triple >> shift) & 0xFF) as bv8
  }

  lemma {:induction false} SplitAndJoin(b0: bv8, b1: bv8, b2: bv8)
    ensures var t := Triple(b0, b1, b2);
            && Joined(Sixth(t, 18), Sixth(t, 12), Sixth(t, 6), Sixth(t, 0)) == t
            && ByteOf(t, 16) == b0 && ByteOf(t, 8) == b1 && ByteOf(t, 0) == b2
  {
  }

  lemma {:induction false} JoinAndSplit(a: bv8, b: bv8, c: bv8, d: bv8)
    requires a < 64 && b < 64 && c < 64 && d < 64
    ensures var t := Joined(a, b, c, d);
            && Sixth(t, 18) == a && Sixth(t, 12) == b && Sixth(t, 6) == c && Sixth(t, 0) == d
  {
  }

  lemma {:induction false} TripleOfBytes(t: bv32)
    requires t <= 0xFF_FFFF
    ensures Triple(ByteOf(t, 16), ByteOf(t, 8), ByteOf(t, 0)) == t
  {
  }

  lemma {:induction false} JoinedIsSmall(a: bv8, b: bv8, c: bv8, d: bv8)
    requires a < 64 && b < 64 && c < 64 && d < 64
    ensures Joined(a, b, c, d) <= 0xFF_FFFF
  {
  }

  // ------------------------------------------------------------------------ encoding

  /** Four characters for one to three bytes. */
  function Quad(bytes: Bytes): (q: Bytes)
    requires 1 <= |bytes|
    ensures |q| == 4
  {
    var t := Triple(bytes[0], if |bytes| > 1 then bytes[1] else 0, if |bytes| > 2 then bytes[2] else 0);
    [Char(Sixth(t, 18)),
     Char(Sixth(t, 12)),
     if |bytes| > 1 then Char(Sixth(t, 6)) else PAD,
     if |bytes| > 2 then Char(Sixth(t, 0)) else PAD]
  }

  function Drop(s: Bytes, n: nat): Bytes {
    if n <= |s| then s[n..] else []
  }

  function Encode(bytes: Bytes): (text: Bytes)
    ensures |text| % 4 == 0
    decreases |bytes|
  {
    if bytes == [] then [] else Quad(bytes) + Encode(Drop(bytes, 3))
  }

  /** One turn of the encoder's loop. */
  method EncodeGroup(data: Bytes, offset: nat) returns (quad: Bytes)
    requires offset < |data|
    ensures quad == Quad(data[offset..])
  {
    var remaining := |data| - offset;
    var b0 := data[offset];
    var b1: bv8 := if remaining > 1 then data[offset + 1] else 0;
    var b2: bv8 := if remaining > 2 then data[offset + 2] else 0;
    var triple := Triple(b0, b1, b2);
    quad := [Char(Sixth(triple, 18)),
             Char(Sixth(triple, 12)),
             if remaining > 1 then Char(Sixth(triple, 6)) else PAD,
             if remaining > 2 then Char(Sixth(triple, 0)) else PAD];
  }

  lemma {:induction false} EncodeStep(data: Bytes, offset: nat, encoded: Bytes)
    requires offset < |data|
    ensures encoded + Encode(Drop(data, offset)) == encoded + Quad(data[offset..]) + Encode(Drop(data, offset + 3))
  {
    assert Drop(data[offset..], 3) == Drop(data, offset + 3);
  }

  method Base64Encode(data: Bytes) returns (encoded: Bytes)
    ensures encoded == Encode(data)
  {
    encoded := [];
    var offset := 0;
    while offset < |data|
      invariant 0 <= offset
      invariant Encode(data) == encoded + Encode(Drop(data, offset))
      decreases |data| - offset
    {
      var quad := EncodeGroup(data, offset);
      EncodeStep(data, offset, encoded);
      encoded := encoded + quad;
      offset := offset + 3;
    }
  }

  /** Test vectors of section 10 of RFC 4648: "f", "fo", "foo" and "foob". */
  lemma {:induction false} StandardVectors()
    ensures Encode([102]) == [90, 103, PAD, PAD]
    ensures Encode([102, 111]) == [90, 109, 56, PAD]
    ensures Encode([102, 111, 111]) == [90, 109, 57, 118]
    ensures Encode([102, 111, 111, 98]) == [90, 109, 57, 118, 89, 103, PAD, PAD]
  {
    EncodeShort([102]);
    EncodeShort([102, 111]);
    EncodeShort([102, 111, 111]);
    EncodeShort([98]);
    assert Drop([102, 111, 111, 98], 3) == [98];
    assert Quad([102, 111, 111, 98]) == Quad([102, 111, 111]);
  }

  lemma {:induction false} EncodeShort(bytes: Bytes)
    requires 1 <= |bytes| <= 3
    ensures Encode(bytes) == Quad(bytes)
  {
    assert Drop(bytes, 3) == [];
    assert Encode([]) == [];
  }

  // ------------------------------------------------------------------------ decoding

  function ValueAt(data: Bytes, i: nat): (v: Option<bv8>)
    ensures v.Some? ==> v.value < 64
  {
    if i < |data| then Value(data[i]) else Some(0)
  }

  /** The bytes a group of n characters stands for, or None. */
  function Group(a: Option<bv8>, b: Option<bv8>, c: Option<bv8>, d: Option<bv8>, n: nat): (g: Option<Bytes>)
    requires (a.Some? ==> a.value < 64) && (b.Some? ==> b.value < 64)
    requires (c.Some? ==> c.value < 64) && (d.Some? ==> d.value < 64)
    ensures g.Some? ==> |g.value| == if n == 2 then 1 else if n == 3 then 2 else 3
  {
    if a.None? || b.None? || c.None? || d.None? then None
    else
      var t := Joined(a.value, b.value, c.value, d.value);
      Some(if n == 2 then [ByteOf(t, 16)]
           else if n == 3 then [ByteOf(t, 16), ByteOf(t, 8)]
           else [ByteOf(t, 16), ByteOf(t, 8), ByteOf(t, 0)])
  }

  function FirstGroup(data: Bytes): (g: Option<Bytes>)
    requires |data| >= 2
    ensures g.Some? ==> |g.value| == if |data| == 2 then 1 else if |data| == 3 then 2 else 3
  {
    Group(ValueAt(data, 0), ValueAt(data, 1), ValueAt(data, 2), ValueAt(data, 3), |data|)
  }

  function DecodeData(data: Bytes): Option<Bytes>
    requires |data| % 4 != 1
    decreases |data|
  {
    if data == [] then Some([])
    else
      var first := FirstGroup(data);
      if first.None? then None else After(first.value, DecodeData(Drop(data, 4)))
  }

  /** The source counts '=' in the last two places, whatever is between them. */
  function Padding(text: Bytes): (p: nat)
    ensures p <= 2
  {
    (if |text| >= 2 && text[|text| - 1] == PAD then 1 else 0) + (if |text| >= 2 && text[|text| - 2] == PAD then 1 else 0)
  }

  function Decode(text: Bytes): Option<Bytes> {
    if |text| % 4 != 0 then None
    else if text == [] then Some([])
    else DecodeData(text[..|text| - Padding(text)])
  }

  function After(output: Bytes, rest: Option<Bytes>): Option<Bytes> {
    if rest.None? then None else Some(output + rest.value)
  }

  lemma {:induction false} AfterNothing(rest: Option<Bytes>)
    ensures After([], rest) == rest
  {
    assert rest.Some? ==> [] + rest.value == rest.value;
  }

  lemma {:induction false} AfterBoth(a: Bytes, b: Bytes, rest: Option<Bytes>)
    ensures After(a + b, rest) == After(a, After(b, rest))
  {
    assert rest.Some? ==> a + b + rest.value == a + (b + rest.value);
  }

  /** One turn of the decoder's loop. */
  method DecodeGroup(data: Bytes, offset: nat) returns (bytes: Option<Bytes>)
    requires offset + 2 <= |data|
    ensures bytes == FirstGroup(data[offset..])
  {
    var a := Value(data[offset]);
    var b := Value(data[offset + 1]);
    var c := if offset + 2 < |data| then Value(data[offset + 2]) else Some(0);
    var d := if offset + 3 < |data| then Value(data[offset + 3]) else Some(0);
    assert a == ValueAt(data[offset..], 0) && b == ValueAt(data[offset..], 1);
    assert c == ValueAt(data[offset..], 2) && d == ValueAt(data[offset..], 3);
    if a.None? || b.None? || c.None? || d.None? {
      return None;
    }
    var triple := Joined(a.value, b.value, c.value, d.value);
    var output := [ByteOf(triple, 16)];
    if offset + 2 < |data| {
      output := output + [ByteOf(triple, 8)];
    }
    if offset + 3 < |data| {
      output := output + [ByteOf(triple, 0)];
    }
    assert |data| - offset == 2 ==> output == [ByteOf(triple, 16)];
    assert |data| - offset == 3 ==> output == [ByteOf(triple, 16), ByteOf(triple, 8)];
    assert |data| - offset >= 4 ==> output == [ByteOf(triple, 16), ByteOf(triple, 8), ByteOf(triple, 0)];
    bytes := Some(output);
  }

  lemma {:induction false} DecodeFirst(data: Bytes)
    requires |data| % 4 != 1 && data != []
    ensures DecodeData(data) == if FirstGroup(data).None? then None
                                else After(FirstGroup(data).value, DecodeData(Drop(data, 4)))
  {
  }

  /** The output so far, one group, and the rest. */
  function Grown(output: Bytes, group: Option<Bytes>, rest: Option<Bytes>): Option<Bytes> {
    if group.None? then None else After(output + group.value, rest)
  }

  lemma {:induction false} GrownIs(output: Bytes, group: Option<Bytes>, rest: Option<Bytes>)
    ensures Grown(output, group, rest) == After(output, if group.None? then None else After(group.value, rest))
  {
    if group.Some? { AfterBoth(output, group.value, rest); }
  }

  lemma {:induction false} DecodeStep(data: Bytes, offset: nat, output: Bytes, group: Option<Bytes>)
    requires offset + 2 <= |data| && |Drop(data, offset)| % 4 != 1 && |Drop(data, offset + 4)| % 4 != 1
    requires group == FirstGroup(data[offset..])
    ensures After(output, DecodeData(Drop(data, offset))) == Grown(output, group, DecodeData(Drop(data, offset + 4)))
  {
    assert Drop(data[offset..], 4) == Drop(data, offset + 4);
    DecodeFirst(data[offset..]);
    GrownIs(output, group, DecodeData(Drop(data, offset + 4)));
  }

  /** Counting in fours, one character is never left over. */
  lemma {:induction false} NeverOneLeft(data: Bytes, offset: nat)
    requires offset < |data| && |Drop(data, offset)| % 4 != 1
    ensures offset + 2 <= |data| && |Drop(data, offset + 4)| % 4 != 1
  {
    var left := |data| - offset;
    assert left >= 4 ==> (left - 4) % 4 == left % 4;
  }

  /** The decoder's loop over the characters before the padding. */
  method DecodeGroups(data: Bytes) returns (ok: bool, output: Bytes)
    requires |data| % 4 != 1
    ensures ok == DecodeData(data).Some? && (ok ==> output == DecodeData(data).value)
  {
    output := [];
    var offset := 0;
    AfterNothing(DecodeData(data));
    while offset < |data|
      invariant 0 <= offset && |Drop(data, offset)| % 4 != 1
      invariant DecodeData(data) == After(output, DecodeData(Drop(data, offset)))
      decreases |data| - offset
    {
      NeverOneLeft(data, offset);
      var bytes := DecodeGroup(data, offset);
      DecodeStep(data, offset, output, bytes);
      if bytes.None? {
        return false, output;
      }
      output := output + bytes.value;
      offset := offset + 4;
    }
    ok := true;
  }

  /** On failure the output holds the groups decoded so far, which the caller discards. */
  method Base64Decode(input: Bytes) returns (ok: bool, output: Bytes)
    ensures ok == Decode(input).Some? && (ok ==> output == Decode(input).value)
  {
    if input == [] {
      return true, [];
    }
    if |input| % 4 != 0 {
      return false, [];
    }
    var padding := 0;
    if |input| >= 2 && input[|input| - 1] == PAD {
      padding := padding + 1;
    }
    if |input| >= 2 && input[|input| - 2] == PAD {
      padding := padding + 1;
    }
    ok, output := DecodeGroups(input[..|input| - padding]);
  }

  // ---------------------------------------------------------------------- round trip

  /** A quad with its padding taken off. */
  function Bare(bytes: Bytes): (q: Bytes)
    requires 1 <= |bytes|
  {
    Quad(bytes)[..if |bytes| == 1 then 2 else if |bytes| == 2 then 3 else 4]
  }

  lemma {:induction false} ZeroBytes(b0: bv8, b1: bv8)
    ensures Sixth(Triple(b0, b1, 0), 0) == 0
    ensures Sixth(Triple(b0, 0, 0), 6) == 0
  {
  }

  lemma {:induction false} GroupOfQuad(bytes: Bytes, rest: Bytes)
    requires 1 <= |bytes| && (|bytes| < 3 ==> rest == [])
    ensures FirstGroup(Bare(bytes) + rest) == Some(bytes[..if |bytes| < 3 then |bytes| else 3])
  {
    var b1: bv8 := if |bytes| > 1 then bytes[1] else 0;
    var b2: bv8 := if |bytes| > 2 then bytes[2] else 0;
    var t := Triple(bytes[0], b1, b2);
    SplitAndJoin(bytes[0], b1, b2);
    ZeroBytes(bytes[0], b1);
    ValueOfChar(Sixth(t, 18));
    ValueOfChar(Sixth(t, 12));
    ValueOfChar(Sixth(t, 6));
    ValueOfChar(Sixth(t, 0));
    var data := Bare(bytes) + rest;
    assert ValueAt(data, 0) == Some(Sixth(t, 18)) && ValueAt(data, 1) == Some(Sixth(t, 12));
    assert ValueAt(data, 2) == Some(Sixth(t, 6));
    assert ValueAt(data, 3) == Some(Sixth(t, 0));
    assert |bytes| == 1 ==> bytes[..1] == [bytes[0]];
    assert |bytes| == 2 ==> bytes[..2] == [bytes[0], b1];
    assert |bytes| >= 3 ==> bytes[..3] == [bytes[0], b1, b2];
  }

  function BareText(bytes: Bytes): Bytes
    decreases |bytes|
  {
    if bytes == [] then [] else Bare(bytes) + BareText(Drop(bytes, 3))
  }

  function Pads(n: nat): (s: Bytes)
    ensures |s| == n && forall i :: 0 <= i < n ==> s[i] == PAD
  {
    seq(n, _ => PAD)
  }

  function PadCount(n: nat): nat {
    if n == 0 then 0 else if n == 1 then 2 else if n == 2 then 1 else PadCount(n - 3)
  }

  lemma {:induction false} QuadIsPadded(bytes: Bytes)
    requires 1 <= |bytes|
    ensures Quad(bytes) == Bare(bytes) + Pads(if |bytes| == 1 then 2 else if |bytes| == 2 then 1 else 0)
    ensures |bytes| >= 2 ==> Quad(bytes)[2] != PAD
    ensures |bytes| >= 3 ==> Quad(bytes)[3] != PAD
  {
    var b1: bv8 := if |bytes| > 1 then bytes[1] else 0;
    var b2: bv8 := if |bytes| > 2 then bytes[2] else 0;
    var t := Triple(bytes[0], b1, b2);
    ValueOfChar(Sixth(t, 6));
    ValueOfChar(Sixth(t, 0));
  }

  lemma {:induction false} EncodeIsPadded(bytes: Bytes)
    ensures Encode(bytes) == BareText(bytes) + Pads(PadCount(|bytes|))
    decreases |bytes|
  {
    if |bytes| > 3 {
      var rest := Drop(bytes, 3);
      EncodeIsPadded(rest);
      assert Bare(bytes) == Quad(bytes);
      assert Quad(bytes) + (BareText(rest) + Pads(PadCount(|rest|))) == Quad(bytes) + BareText(rest) + Pads(PadCount(|rest|));
    } else if bytes != [] {
      QuadIsPadded(bytes);
      BareOfLast(bytes);
      EncodeShort(bytes);
    }
  }

  lemma {:induction false} PaddingOfEncode(bytes: Bytes)
    requires bytes != []
    ensures |Encode(bytes)| >= 4 && Padding(Encode(bytes)) == PadCount(|bytes|)
    decreases |bytes|
  {
    if |bytes| > 3 {
      PaddingOfEncode(Drop(bytes, 3));
      PaddingOfTail(Quad(bytes), Encode(Drop(bytes, 3)));
    } else {
      EncodeShort(bytes);
      PaddingOfQuad(bytes);
    }
  }

  lemma {:induction false} PaddingOfTail(a: Bytes, b: Bytes)
    requires |b| >= 2
    ensures Padding(a + b) == Padding(b)
  {
  }

  lemma {:induction false} PaddingOfQuad(bytes: Bytes)
    requires 1 <= |bytes| <= 3
    ensures Padding(Quad(bytes)) == PadCount(|bytes|)
  {
    QuadIsPadded(bytes);
  }

  lemma {:induction false} DecodeBare(bytes: Bytes)
    ensures |BareText(bytes)| % 4 != 1
    ensures DecodeData(BareText(bytes)) == Some(bytes)
    decreases |bytes|
  {
    if bytes != [] {
      var rest := BareText(Drop(bytes, 3));
      DecodeBare(Drop(bytes, 3));
      GroupOfQuad(bytes, rest);
      assert Drop(BareText(bytes), 4) == rest;
      assert bytes == bytes[..if |bytes| < 3 then |bytes| else 3] + Drop(bytes, 3);
    }
  }

  /** Decoding an encoding gives the bytes back, at every length. */
  lemma {:induction false} RoundTrip(bytes: Bytes)
    ensures Decode(Encode(bytes)) == Some(bytes)
  {
    if bytes != [] {
      EncodeIsPadded(bytes);
      PaddingOfEncode(bytes);
      DecodeBare(bytes);
      assert Encode(bytes)[..|Encode(bytes)| - PadCount(|bytes|)] == BareText(bytes);
    }
  }

  // ---------------------------------------------------------------------- acceptance

  ghost predicate AllValues(data: Bytes) {
    forall i :: 0 <= i < |data| ==> Value(data[i]).Some?
  }

  lemma {:induction false} FirstGroupAccepts(data: Bytes)
    requires |data| >= 2
    ensures FirstGroup(data).Some? <==> AllValues(data[..if |data| < 4 then |data| else 4])
  {
    var first := data[..if |data| < 4 then |data| else 4];
    assert AllValues(first) <==>
      Value(data[0]).Some? && Value(data[1]).Some? &&
      (|data| > 2 ==> Value(data[2]).Some?) && (|data| > 3 ==> Value(data[3]).Some?);
  }

  lemma {:induction false} AllValuesSplit(data: Bytes, n: nat)
    requires n <= |data|
    ensures AllValues(data) <==> AllValues(data[..n]) && AllValues(data[n..])
  {
    assert forall i :: n <= i < |data| ==> data[i] == data[n..][i - n];
    assert forall i :: 0 <= i < n ==> data[i] == data[..n][i];
  }

  lemma {:induction false} DecodeDataAccepts(data: Bytes)
    requires |data| % 4 != 1
    ensures DecodeData(data).Some? <==> AllValues(data)
    decreases |data|
  {
    if data != [] {
      var n := if |data| < 4 then |data| else 4;
      assert Drop(data, 4) == data[n..];
      DecodeFirst(data);
      DecodeDataAccepts(data[n..]);
      FirstGroupAccepts(data);
      AllValuesSplit(data, n);
    }
  }

  /** Alphabet characters and then p padding characters. */
  ghost predicate PaddedBy(text: Bytes, p: nat) {
    && p <= |text|
    && AllValues(text[..|text| - p])
    && forall i :: |text| - p <= i < |text| ==> text[i] == PAD
  }

  /** Accepted is exactly: a multiple of four, alphabet characters, then at most two '='. */
  lemma {:induction false} AcceptsExactly(text: Bytes)
    ensures Decode(text).Some? <==> |text| % 4 == 0 && (PaddedBy(text, 0) || PaddedBy(text, 1) || PaddedBy(text, 2))
  {
    if |text| % 4 == 0 && text != [] {
      var p := Padding(text);
      DecodeDataAccepts(text[..|text| - p]);
      PaddingIsCounted(text);
      if AllValues(text[..|text| - p]) { LastIsNotPad(text, p); }
    }
  }

  lemma {:induction false} LastIsNotPad(text: Bytes, p: nat)
    requires |text| >= 4 && p == Padding(text) && AllValues(text[..|text| - p])
    ensures PaddedBy(text, p)
  {
    if p == 1 {
      assert text[..|text| - 1][|text| - 2] == text[|text| - 2];
    }
  }

  lemma {:induction false} PaddingIsCounted(text: Bytes)
    requires |text| >= 4
    ensures forall p :: 0 <= p <= 2 && PaddedBy(text, p) ==> p == Padding(text)
  {
    forall p | 0 <= p <= 2 && PaddedBy(text, p) ensures p == Padding(text) {
      var data := text[..|text| - p];
      assert p < 2 ==> data[|text| - 2] == text[|text| - 2];
      assert p < 1 ==> data[|text| - 1] == text[|text| - 1];
    }
  }

  // ------------------------------------------------------------------ canonical form

  /** The bits of the last data character that no byte uses are zero. */
  predicate SpareBitsZero(data: Bytes)
    requires |data| % 4 != 1
  {
    && (|data| % 4 == 2 ==> Value(data[|data| - 1]).Some? && Value(data[|data| - 1]).value & 0xF == 0)
    && (|data| % 4 == 3 ==> Value(data[|data| - 1]).Some? && Value(data[|data| - 1]).value & 0x3 == 0)
  }

  lemma {:induction false} QuadOfGroup(data: Bytes)
    requires |data| >= 2 && FirstGroup(data).Some?
    ensures var bytes := FirstGroup(data).value;
            Bare(bytes) == data[..if |data| < 4 then |data| else 4] <==> (|data| < 4 ==> SpareBitsZero(data))
  {
    var a, b, c, d := ValueAt(data, 0).value, ValueAt(data, 1).value, ValueAt(data, 2).value, ValueAt(data, 3).value;
    CharOfValue(data[0]);
    CharOfValue(data[1]);
    JoinAndSplit(a, b, c, d);
    if |data| == 2 {
      SpareOfTwo(a, b);
      ValueOfChar(b & 0x30);
    } else if |data| == 3 {
      CharOfValue(data[2]);
      SpareOfThree(a, b, c);
      ValueOfChar(c & 0x3C);
    } else {
      CharOfValue(data[2]);
      CharOfValue(data[3]);
      JoinedIsSmall(a, b, c, d);
      TripleOfBytes(Joined(a, b, c, d));
    }
  }

  lemma {:induction false} SpareOfTwo(a: bv8, b: bv8)
    requires a < 64 && b < 64
    ensures var t := Triple(ByteOf(Joined(a, b, 0, 0), 16), 0, 0);
            Sixth(t, 18) == a && Sixth(t, 12) == b & 0x30
    ensures b & 0x30 == b <==> b & 0xF == 0
  {
  }

  lemma {:induction false} SpareOfThree(a: bv8, b: bv8, c: bv8)
    requires a < 64 && b < 64 && c < 64
    ensures var u := Joined(a, b, c, 0);
            var t := Triple(ByteOf(u, 16), ByteOf(u, 8), 0);
            Sixth(t, 18) == a && Sixth(t, 12) == b && Sixth(t, 6) == c & 0x3C
    ensures c & 0x3C == c <==> c & 0x3 == 0
  {
    var u := Joined(a, b, c, 0);
    JoinAndSplit(a, b, c, 0);
    JoinedIsSmall(a, b, c, 0);
    TwoBytes(u);
    Masked(u);
  }

  lemma {:induction false} TwoBytes(u: bv32)
    requires u <= 0xFF_FFFF
    ensures Triple(ByteOf(u, 16), ByteOf(u, 8), 0) == u & 0xFF_FF00
  {
  }

  lemma {:induction false} Masked(u: bv32)
    ensures var t := u & 0xFF_FF00;
            Sixth(t, 18) == Sixth(u, 18) && Sixth(t, 12) == Sixth(u, 12) && Sixth(t, 6) == Sixth(u, 6) & 0x3C
  {
  }

  function DecodedSize(n: nat): nat
    requires n % 4 != 1
  {
    if n == 0 then 0 else if n == 2 then 1 else if n == 3 then 2 else 3 + DecodedSize(n - 4)
  }

  lemma {:induction false} DecodedLength(data: Bytes)
    requires |data| % 4 != 1 && DecodeData(data).Some?
    ensures |DecodeData(data).value| == DecodedSize(|data|)
    decreases |data|
  {
    if |data| >= 4 {
      DecodedLength(Drop(data, 4));
    } else if data != [] {
      DecodeLast(data);
    }
  }

  /** Encoding what was decoded gives the characters back exactly when the spare bits are zero. */
  ghost predicate BareAgain(data: Bytes)
    requires |data| % 4 != 1 && DecodeData(data).Some?
  {
    BareText(DecodeData(data).value) == data <==> SpareBitsZero(data)
  }

  lemma {:induction false} BareOfDecode(data: Bytes)
    requires |data| % 4 != 1 && DecodeData(data).Some?
    ensures BareAgain(data)
    decreases |data|
  {
    if data != [] {
      if |data| >= 4 {
        RestDecodes(data);
        BareOfDecode(Drop(data, 4));
        BareOfLonger(data);
      } else {
        BareOfShort(data);
      }
    }
  }

  lemma {:induction false} RestDecodes(data: Bytes)
    requires |data| % 4 != 1 && data != [] && DecodeData(data).Some?
    ensures |data| >= 2 && |Drop(data, 4)| % 4 != 1
    ensures FirstGroup(data).Some? && DecodeData(Drop(data, 4)).Some?
  {
    DecodeFirst(data);
  }

  lemma {:induction false} BareOfLonger(data: Bytes)
    requires |data| >= 4 && |data| % 4 != 1 && |Drop(data, 4)| % 4 != 1
    requires DecodeData(data).Some? && DecodeData(Drop(data, 4)).Some? && BareAgain(Drop(data, 4))
    ensures BareAgain(data)
  {
    DecodeFirst(data);
    QuadOfGroup(data);
    BareOfFirst(data, FirstGroup(data).value, DecodeData(Drop(data, 4)).value);
    SpareBitsOfRest(data);
  }

  lemma {:induction false} BareOfShort(data: Bytes)
    requires 2 <= |data| <= 3 && DecodeData(data).Some?
    ensures BareAgain(data)
  {
    RestDecodes(data);
    assert data[..|data|] == data;
    QuadOfGroup(data);
    DecodeLast(data);
    BareOfLast(FirstGroup(data).value);
  }

  lemma {:induction false} BareOfFirst(data: Bytes, first: Bytes, more: Bytes)
    requires |data| >= 4 && |first| == 3 && Bare(first) == data[..4]
    ensures BareText(first + more) == data <==> BareText(more) == Drop(data, 4)
  {
    BareOfMore(first, more);
    JoinedEqual(Bare(first), BareText(more), data[..4], Drop(data, 4));
    assert data == data[..4] + Drop(data, 4);
  }

  lemma {:induction false} SpareBitsOfRest(data: Bytes)
    requires |data| >= 4 && |data| % 4 != 1
    ensures SpareBitsZero(data) == SpareBitsZero(Drop(data, 4))
  {
  }

  lemma {:induction false} DecodeLast(data: Bytes)
    requires 2 <= |data| <= 3 && FirstGroup(data).Some?
    ensures DecodeData(data) == FirstGroup(data)
  {
    var first := FirstGroup(data).value;
    assert Drop(data, 4) == [] && DecodeData([]) == Some([]) && first + [] == first;
  }

  lemma {:induction false} BareOfMore(first: Bytes, more: Bytes)
    requires |first| == 3
    ensures BareText(first + more) == Bare(first) + BareText(more)
  {
    assert Drop(first + more, 3) == more;
  }

  lemma {:induction false} BareOfLast(first: Bytes)
    requires 1 <= |first| <= 3
    ensures BareText(first) == Bare(first)
  {
    assert Drop(first, 3) == [];
    assert BareText([]) == [];
  }

  lemma {:induction false} JoinedEqual(a: Bytes, b: Bytes, c: Bytes, d: Bytes)
    requires |a| == |c|
    ensures a + b == c + d <==> a == c && b == d
  {
    if a + b == c + d {
      assert (a + b)[..|a|] == a && (c + d)[..|c|] == c;
      assert (a + b)[|a|..] == b && (c + d)[|c|..] == d;
    }
  }

  /** The decoder also takes texts no encoder writes; encoding what it read gives the text
      back exactly when the spare bits of the last character were zero. */
  lemma {:induction false} CanonicalExactly(text: Bytes)
    requires Decode(text).Some?
    ensures |text[..|text| - Padding(text)]| % 4 != 1
    ensures Encode(Decode(text).value) == text <==> SpareBitsZero(text[..|text| - Padding(text)])
  {
    if text != [] {
      var p := Padding(text);
      var data, bytes := text[..|text| - p], Decode(text).value;
      BareOfDecode(data);
      DecodedLength(data);
      EncodeIsPadded(bytes);
      DecodeDataAccepts(data);
      LastIsNotPad(text, p);
      PadOfDecoded(|data|, p);
      assert text == data + Pads(p);
      assert Encode(bytes) == BareText(bytes) + Pads(p);
      SamePadding(BareText(bytes), data, Pads(p));
    }
  }

  lemma {:induction false} SamePadding(a: Bytes, b: Bytes, pads: Bytes)
    ensures a + pads == b + pads <==> a == b
  {
    if a + pads == b + pads {
      assert |a| == |b| && (a + pads)[..|a|] == a && (b + pads)[..|b|] == b;
    }
  }

  lemma {:induction false} PadOfDecoded(n: nat, p: nat)
    requires (n + p) % 4 == 0 && p <= 2
    ensures PadCount(DecodedSize(n)) == p
  {
    if n >= 4 { PadOfDecoded(n - 4, p); }
  }

  /** Two texts, one byte: "QQ==" and "QR==" both read as 'A'. */
  lemma {:induction false} TwoTextsOneByte()
    ensures Decode([81, 81, PAD, PAD]) == Some([65]) && Decode([81, 82, PAD, PAD]) == Some([65])
  {
    DecodesToA(81);
    DecodesToA(82);
  }

  lemma {:induction false} DecodesToA(c: bv8)
    requires c == 81 || c == 82
    ensures Decode([81, c, PAD, PAD]) == Some([65])
  {
    var data := [81, c];
    assert [81, c, PAD, PAD][..2] == data;
    assert Value(81) == Some(16) && (Value(c) == Some(16) || Value(c) == Some(17));
    assert ByteOf(Joined(16, Value(c).value, 0, 0), 16) == 65;
    assert FirstGroup(data) == Some([65]);
    assert Drop(data, 4) == [];
    assert DecodeData([]) == Some([]) && [65] + [] == [65 as bv8];
  }
}
