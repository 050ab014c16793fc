/** The streaming cartridge checksum: words are summed as they arrive, whatever the reads. */
module Checksum {
  import opened Basics

  type Bytes = seq<octet>

  const WORDS: int := 0x1_0000

  type word16 = x: int | 0 <= x < WORDS

  function Word(high: octet, low: octet): word16 {
    var h: nat := high;
    h * 256 + low
  }

  /** Addition in sixteen bits. */
  function Plus(a: word16, b: word16): word16 {
    if a + b < WORDS then a + b else a + b - WORDS
  }

  /** The definition: the sum of the big-endian words, an odd last byte counting as a high byte. */
  function WordSum(data: Bytes): (sum: word16)
  {
    if data == [] then 0
    else if |data| == 1 then Word(data[0], 0)
    else Plus(Word(data[0], data[1]), WordSum(data[2..]))
  }

  /** The bytes at even places and at odd places, added up. */
  function EvenBytes(data: Bytes): nat {
    if data == [] then 0 else var first: nat := data[0]; first + OddBytes(data[1..])
  }

  function OddBytes(data: Bytes): nat {
    if data == [] then 0 else EvenBytes(data[1..])
  }

  /** The sum is that of the bytes, those at even places counting 256 times, in sixteen bits. */
  lemma {:induction false} SumOfBytes(data: Bytes)
    ensures WordSum(data) == (256 * EvenBytes(data) + OddBytes(data)) % WORDS
    decreases |data|
  {
    if |data| == 1 {
      assert data[1..] == [];
    } else if data != [] {
      SumOfBytes(data[2..]);
      assert data[1..][1..] == data[2..];
      AddedInBits(256 * EvenBytes(data[2..]) + OddBytes(data[2..]), Word(data[0], data[1]));
    }
  }

  lemma {:induction false} AddedInBits(n: nat, word: word16)
    ensures Plus(word, n % WORDS) == (n + word) % WORDS
  {
    assert n == n / WORDS * WORDS + n % WORDS;
    if n % WORDS + word < WORDS {
      Remainder(n / WORDS, n % WORDS + word, n + word);
    } else {
      Remainder(n / WORDS + 1, n % WORDS + word - WORDS, n + word);
    }
  }

  lemma {:induction false} Remainder(q: nat, r: nat, n: nat)
    requires r < WORDS && n == q * WORDS + r
    ensures n % WORDS == r
  {
  }

  function Concat(chunks: seq<Bytes>): Bytes {
    if chunks == [] then [] else chunks[0] + Concat(chunks[1..])
  }

  /** A whole number of words in front adds its own sum. */
  lemma {:induction false} SumInFront(front: Bytes, rest: Bytes)
    requires |front| % 2 == 0
    ensures WordSum(front + rest) == Plus(WordSum(front), WordSum(rest))
    decreases |front|
  {
    if front == [] {
      assert front + rest == rest;
    } else {
      var word, more := Word(front[0], front[1]), front[2..];
      SumInFront(more, rest);
      assert (front + rest)[2..] == more + rest;
      assert WordSum(front + rest) == Plus(word, WordSum(more + rest));
      assert WordSum(front) == Plus(word, WordSum(more));
    }
  }

  lemma {:induction false} OneWord(high: octet, low: octet)
    ensures WordSum([high, low]) == Word(high, low)
  {
    assert [high, low][2..] == [];
  }

  /** What is known between reads: the sum of all whole words so far, and an odd byte kept back. */
  ghost predicate Summed(read: Bytes, sum: word16, pending: Option<octet>) {
    if pending.Some? then |read| % 2 == 1 && pending.value == read[|read| - 1] && sum == WordSum(read[..|read| - 1])
    else |read| % 2 == 0 && sum == WordSum(read)
  }

  lemma {:induction false} OneMoreWord(read: Bytes, sum: word16, high: octet, low: octet)
    requires Summed(read, sum, None)
    ensures Summed(read + [high, low], Plus(sum, Word(high, low)), None)
  {
    SumInFront(read, [high, low]);
    OneWord(high, low);
  }

  lemma {:induction false} KeptBack(read: Bytes, sum: word16, last: octet)
    requires Summed(read, sum, None)
    ensures Summed(read + [last], sum, Some(last))
  {
    assert (read + [last])[..|read|] == read;
  }

  /** Adds the words of one read, less a byte that completes the pending one. */
  method AddWords(
    data: Bytes, start: nat, sum0: word16, ghost before: Bytes) returns (sum: word16, pending: Option<octet>)
    requires start <= |data| && Summed(before, sum0, None)
    ensures Summed(before + data[start..], sum, pending)
  {
    sum := sum0;
    var index := start;
    ghost var read := before;
    assert before + data[start..start] == before;
    while index + 1 < |data|
      invariant start <= index <= |data|
      invariant read == before + data[start..index] && Summed(read, sum, None)
    {
      OneMoreWord(read, sum, data[index], data[index + 1]);
      read := read + [data[index], data[index + 1]];
      sum := Plus(sum, Word(data[index], data[index + 1]));
      index := index + 2;
    }
    if index < |data| {
      pending := Some(data[|data| - 1]);
      KeptBack(read, sum, data[|data| - 1]);
      assert before + data[start..] == read + [data[|data| - 1]];
    } else {
      pending := None;
      assert data[start..index] == data[start..];
    }
  }

  /** Any cut of the range into reads, odd and empty ones included. */
  method ComputeFileChecksum(chunks: seq<Bytes>) returns (sum: word16)
    ensures sum == WordSum(Concat(chunks))
  {
    sum := 0;
    var pending: Option<octet> := None;
    ghost var read: Bytes := [];
    var k := 0;
    while k < |chunks|
      invariant 0 <= k <= |chunks|
      invariant Concat(chunks) == read + Concat(chunks[k..])
      invariant Summed(read, sum, pending)
    {
      var data := chunks[k];
      assert chunks[k..][1..] == chunks[k + 1..];
      if |data| > 0 {
        sum, pending := AddChunk(data, sum, pending, read);
        read := read + data;
      }
      k := k + 1;
    }
    assert Concat(chunks) == read;
    if pending.Some? {
      ghost var front, last := read[..|read| - 1], [pending.value];
      SumInFront(front, last);
      assert read == front + last;
      sum := Plus(sum, Word(pending.value, 0));
    }
  }

  method AddChunk(data: Bytes, sum0: word16, pending0: Option<octet>, ghost read: Bytes)
      returns (sum: word16, pending: Option<octet>)
    requires |data| > 0 && Summed(read, sum0, pending0)
    ensures Summed(read + data, sum, pending)
  {
    if pending0.Some? {
      ghost var front := read[..|read| - 1];
      OneMoreWord(front, sum0, pending0.value, data[0]);
      sum := Plus(sum0, Word(pending0.value, data[0]));
      ghost var before := front + [pending0.value, data[0]];
      assert before + data[1..] == read + data;
      sum, pending := AddWords(data, 1, sum, before);
    } else {
      assert data[0..] == data;
      sum, pending := AddWords(data, 0, sum0, read);
    }
  }
}
