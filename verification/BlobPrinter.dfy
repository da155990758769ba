/**
 The blob encoder of the repository's tests, as a loop over rounds with a read cursor: it writes
 the blob that the codec's printer describes.
 */
module BlobPrinter {
  import opened BlobCodec

  /** The payload byte at a position, or the padding after it. */
  function At(payload: seq<byte>, position: nat): byte {
    if position < |payload| then payload[position] else 0
  }

  function Padded(payload: seq<byte>, position: nat, n: nat): (s: seq<byte>)
    ensures |s| == n
    ensures forall i :: 0 <= i < n ==> s[i] == At(payload, position + i)
  {
    seq(n, i requires 0 <= i < n => At(payload, position + i))
  }

  /** The read cursor stops at the end of the payload. */
  function Cursor(payload: seq<byte>, position: nat): nat {
    if position < |payload| then position else |payload|
  }

  method Read1(payload: seq<byte>, readOffset: nat, ghost position: nat) returns (value: byte, next: nat)
    requires readOffset == Cursor(payload, position)
    ensures value == At(payload, position) && next == Cursor(payload, position + 1)
  {
    if readOffset >= |payload| {
      return 0, readOffset;
    }
    return payload[readOffset], readOffset + 1;
  }

  method Read31(payload: seq<byte>, readOffset: nat, ghost position: nat) returns (out: seq<byte>, next: nat)
    requires readOffset == Cursor(payload, position)
    ensures out == Padded(payload, position, 31) && next == Cursor(payload, position + 31)
  {
    if readOffset >= |payload| {
      return Zeros(31), readOffset;
    }
    var n := if |payload| - readOffset < 31 then |payload| - readOffset else 31;
    return payload[readOffset..readOffset + n] + Zeros(31 - n), readOffset + n;
  }

  /** One round as written: a six-bit header in front of every 31 bytes. */
  function Written(b0: seq<byte>, x: byte, b1: seq<byte>, y: byte, b2: seq<byte>, z: byte, b3: seq<byte>): seq<byte> {
    [LowBits(x)] + b0 + [SecondHeader(y, x)] + b1 + [LowBits(z)] + b2 + [FourthHeader(z, y)] + b3
  }

  function Read(b0: seq<byte>, x: byte, b1: seq<byte>, y: byte, b2: seq<byte>, z: byte, b3: seq<byte>): seq<byte> {
    b0 + [x] + b1 + [y] + b2 + [z] + b3
  }

  lemma WrittenIsPacked(b0: seq<byte>, x: byte, b1: seq<byte>, y: byte, b2: seq<byte>, z: byte, b3: seq<byte>)
    requires |b0| == 31 && |b1| == 31 && |b2| == 31 && |b3| == 31
    ensures Written(b0, x, b1, y, b2, z, b3) == PackRound(Read(b0, x, b1, y, b2, z, b3))
  {
    var b, w := Read(b0, x, b1, y, b2, z, b3), Written(b0, x, b1, y, b2, z, b3);
    assert b[31] == x && b[63] == y && b[95] == z;
    assert w[0] == LowBits(x) && w[32] == SecondHeader(y, x) && w[64] == LowBits(z) && w[96] == FourthHeader(z, y);
    forall i | 0 <= i < 128 && i % 32 != 0 ensures w[i] == b[i - 1] {
      if i < 32 {
        assert w[i] == b0[i - 1] == b[i - 1];
      } else if i < 64 {
        assert w[i] == b1[i - 33] == b[i - 1];
      } else if i < 96 {
        assert w[i] == b2[i - 65] == b[i - 1];
      } else {
        assert w[i] == b3[i - 97] == b[i - 1];
      }
    }
  }

  lemma ContentAt(payload: seq<byte>, i: nat)
    requires |payload| <= BLOB_MAX_DATA_SIZE && i < 127 * BLOB_ENCODING_ROUNDS
    ensures Content(payload)[i] == if i < 4 then Preamble(|payload|)[i] else At(payload, i - 4)
  {
  }

  lemma FirstChunk(payload: seq<byte>)
    requires |payload| <= BLOB_MAX_DATA_SIZE
    ensures Chunk(Content(payload), 0) == Preamble(|payload|) + Padded(payload, 0, 123)
  {
    forall i | 0 <= i < 127
      ensures Chunk(Content(payload), 0)[i] == (Preamble(|payload|) + Padded(payload, 0, 123))[i]
    {
      ContentAt(payload, i);
    }
  }

  lemma LaterChunk(payload: seq<byte>, k: nat)
    requires |payload| <= BLOB_MAX_DATA_SIZE && 0 < k < BLOB_ENCODING_ROUNDS
    ensures Chunk(Content(payload), k) == Padded(payload, 127 * k - 4, 127)
  {
    forall i | 0 <= i < 127 ensures Chunk(Content(payload), k)[i] == Padded(payload, 127 * k - 4, 127)[i] {
      ContentAt(payload, 127 * k + i);
    }
  }

  /** The content position that round k starts to read its payload bytes from. */
  function Position(k: nat): nat {
    if k == 0 then 0 else 127 * k - 4
  }

  lemma PaddedJoin(payload: seq<byte>, p: nat, m: nat, n: nat)
    ensures Padded(payload, p, m) + Padded(payload, p + m, n) == Padded(payload, p, m + n)
  {
  }

  /** One header's byte and the 31 after it. */
  lemma PaddedElement(payload: seq<byte>, p: nat)
    ensures [At(payload, p)] + Padded(payload, p + 1, 31) == Padded(payload, p, 32)
  {
  }

  lemma ReadElements(b0: seq<byte>, x: byte, b1: seq<byte>, y: byte, b2: seq<byte>, z: byte, b3: seq<byte>)
    ensures Read(b0, x, b1, y, b2, z, b3) == b0 + (([x] + b1) + (([y] + b2) + ([z] + b3)))
  {
  }

  lemma PaddedPieces(payload: seq<byte>, b0: seq<byte>, p: nat)
    ensures Read(b0, At(payload, p), Padded(payload, p + 1, 31), At(payload, p + 32), Padded(payload, p + 33, 31),
                 At(payload, p + 64), Padded(payload, p + 65, 31))
            == b0 + Padded(payload, p, 96)
  {
    ReadElements(b0, At(payload, p), Padded(payload, p + 1, 31), At(payload, p + 32), Padded(payload, p + 33, 31),
                 At(payload, p + 64), Padded(payload, p + 65, 31));
    PaddedElement(payload, p);
    PaddedElement(payload, p + 32);
    PaddedElement(payload, p + 64);
    PaddedJoin(payload, p + 32, 32, 32);
    PaddedJoin(payload, p, 32, 64);
  }

  lemma FirstBuffer(payload: seq<byte>, toCopy: nat)
    requires toCopy == if |payload| < 27 then |payload| else 27
    ensures Preamble(|payload|) + payload[..toCopy] + Zeros(27 - toCopy) == Preamble(|payload|) + Padded(payload, 0, 27)
  {
    assert payload[..toCopy] + Zeros(27 - toCopy) == Padded(payload, 0, 27);
  }

  lemma RoundChunk(payload: seq<byte>, k: nat, b0: seq<byte>)
    requires |payload| <= BLOB_MAX_DATA_SIZE && k < BLOB_ENCODING_ROUNDS
    requires b0 == if k == 0 then Preamble(|payload|) + Padded(payload, 0, 27) else Padded(payload, 127 * k - 4, 31)
    ensures Chunk(Content(payload), k) == b0 + Padded(payload, Position(k + 1) - 96, 96)
  {
    if k == 0 {
      FirstChunk(payload);
      PaddedJoin(payload, 0, 27, 96);
      assert b0 + Padded(payload, 27, 96) == Preamble(|payload|) + (Padded(payload, 0, 27) + Padded(payload, 27, 96));
    } else {
      LaterChunk(payload, k);
      PaddedJoin(payload, 127 * k - 4, 31, 96);
    }
  }

  method PrintRound(payload: seq<byte>, k: nat, readOffset: nat) returns (round: seq<byte>, next: nat)
    requires |payload| <= BLOB_MAX_DATA_SIZE && k < BLOB_ENCODING_ROUNDS
    requires readOffset == Cursor(payload, Position(k))
    ensures round == PackRound(Chunk(Content(payload), k)) && next == Cursor(payload, Position(k + 1))
  {
    ghost var p := Position(k + 1) - 96;
    var b0, b1, b2, b3, x, y, z;
    next := readOffset;
    if k == 0 {
      var toCopy := if |payload| < 27 then |payload| else 27;
      b0 := Preamble(|payload|) + payload[..toCopy] + Zeros(27 - toCopy);
      FirstBuffer(payload, toCopy);
      next := toCopy;
    } else {
      b0, next := Read31(payload, next, p - 31);
    }
    x, next := Read1(payload, next, p);
    b1, next := Read31(payload, next, p + 1);
    y, next := Read1(payload, next, p + 32);
    b2, next := Read31(payload, next, p + 33);
    z, next := Read1(payload, next, p + 64);
    b3, next := Read31(payload, next, p + 65);
    round := Written(b0, x, b1, y, b2, z, b3);
    WrittenIsPacked(b0, x, b1, y, b2, z, b3);
    PaddedPieces(payload, b0, p);
    RoundChunk(payload, k, b0);
  }

  lemma ZeroChunk(payload: seq<byte>, k: nat)
    requires |payload| <= BLOB_MAX_DATA_SIZE && k < BLOB_ENCODING_ROUNDS && |payload| <= Position(k)
    ensures Chunk(Content(payload), k) == Zeros(127)
  {
    if k == 0 {
      FirstChunk(payload);
      assert Preamble(0) == Zeros(4);
      assert Preamble(0) + Padded(payload, 0, 123) == Zeros(127);
    } else {
      ZeroRound(payload, Zeros(BYTES_PER_BLOB), k);
    }
  }

  lemma ZerosJoin(m: nat, n: nat)
    ensures Zeros(m) + Zeros(n) == Zeros(m + n)
  {
  }

  lemma {:induction false} ZeroRest(s: seq<byte>, k: nat, n: nat)
    requires k <= n && 127 * n <= |s|
    requires forall j: nat :: k <= j < n ==> Chunk(s, j) == Zeros(127)
    ensures PackRounds(s, n) == PackRounds(s, k) + Zeros(128 * (n - k))
  {
    if k < n {
      ZeroRest(s, k, n - 1);
      assert Chunk(s, n - 1) == Zeros(127);
      PackZeros();
      ZerosJoin(128 * (n - 1 - k), 128);
    }
  }

  lemma RestIsZero(payload: seq<byte>, k: nat)
    requires |payload| <= BLOB_MAX_DATA_SIZE && k <= BLOB_ENCODING_ROUNDS && |payload| <= Position(k)
    ensures EncodeBlob(payload) == PackRounds(Content(payload), k) + Zeros(BYTES_PER_BLOB - 128 * k)
  {
    forall j: nat | k <= j < BLOB_ENCODING_ROUNDS ensures Chunk(Content(payload), j) == Zeros(127) {
      ZeroChunk(payload, j);
    }
    ZeroRest(Content(payload), k, BLOB_ENCODING_ROUNDS);
  }

  method PrintBlob(payload: seq<byte>) returns (blob: seq<byte>)
    requires |payload| <= BLOB_MAX_DATA_SIZE
    ensures blob == EncodeBlob(payload)
  {
    blob := [];
    var readOffset := 0;
    var round := 0;
    while round < BLOB_ENCODING_ROUNDS
      invariant 0 <= round <= BLOB_ENCODING_ROUNDS
      invariant readOffset == Cursor(payload, Position(round))
      invariant blob == PackRounds(Content(payload), round)
    {
      if readOffset >= |payload| {
        break;
      }
      var bytes;
      bytes, readOffset := PrintRound(payload, round, readOffset);
      blob := blob + bytes;
      round := round + 1;
    }
    RestIsZero(payload, round);
    blob := blob + Zeros(BYTES_PER_BLOB - 128 * round);
  }
}
