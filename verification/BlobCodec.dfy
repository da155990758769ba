/**
 The Shasta blob packing: 4096 field elements of 32 bytes, taken four at a time.  A round of
 four elements carries 127 content bytes: four runs of 31 bytes, and three more bytes whose
 bits are spread over the four six-bit element headers.
 */
module BlobCodec {
  import opened Wrappers

  type byte = bv8

  const BYTES_PER_BLOB := 131072
  const BLOB_ENCODING_ROUNDS := 1024
  const BLOB_MAX_DATA_SIZE := (4 * 31 + 3) * 1024 - 4

  datatype BlobError = InvalidLength | InvalidEncoding

  // ---------- One round, as values ----------

  /** The three bytes hidden in the headers e0..e3 of a round. */
  function FirstSpread(e0: byte, e1: byte): byte {
    (e0 & 0x3f) | ((e1 & 0x30) << 2)
  }

  function SecondSpread(e1: byte, e3: byte): byte {
    (e1 & 0x0f) | ((e3 & 0x0f) << 4)
  }

  function ThirdSpread(e2: byte, e3: byte): byte {
    (e2 & 0x3f) | ((e3 & 0x30) << 2)
  }

  /** The headers a printer writes for the spread bytes x, y and z. */
  function LowBits(x: byte): byte {
    x & 0x3f
  }

  function SecondHeader(y: byte, x: byte): byte {
    (y & 0x0f) | ((x & 0xc0) >> 2)
  }

  function FourthHeader(z: byte, y: byte): byte {
    ((z & 0xc0) >> 2) | ((y & 0xf0) >> 4)
  }

  /** The printer's round: 127 content bytes become four field elements. */
  function PackRound(b: seq<byte>): (g: seq<byte>)
    requires |b| == 127
    ensures |g| == 128
  {
    var x, y, z := b[31], b[63], b[95];
    seq(128, i requires 0 <= i < 128 =>
      if i == 0 then LowBits(x)
      else if i == 32 then SecondHeader(y, x)
      else if i == 64 then LowBits(z)
      else if i == 96 then FourthHeader(z, y)
      else b[i - 1])
  }

  function UnpackRound(g: seq<byte>): (b: seq<byte>)
    requires |g| == 128
    ensures |b| == 127
  {
    seq(127, i requires 0 <= i < 127 =>
      if i == 31 then FirstSpread(g[0], g[32])
      else if i == 63 then SecondSpread(g[32], g[96])
      else if i == 95 then ThirdSpread(g[64], g[96])
      else g[i + 1])
  }

  predicate SixBit(e: byte) {
    e & 0xc0 == 0
  }

  predicate RoundHeadersClear(g: seq<byte>)
    requires |g| == 128
  {
    SixBit(g[0]) && SixBit(g[32]) && SixBit(g[64]) && SixBit(g[96])
  }

  lemma SpreadBits(x: byte, y: byte, z: byte)
    ensures FirstSpread(LowBits(x), SecondHeader(y, x)) == x
    ensures SecondSpread(SecondHeader(y, x), FourthHeader(z, y)) == y
    ensures ThirdSpread(LowBits(z), FourthHeader(z, y)) == z
    ensures SixBit(LowBits(x)) && SixBit(SecondHeader(y, x)) && SixBit(LowBits(z)) && SixBit(FourthHeader(z, y))
  {
  }

  lemma GatherBits(e0: byte, e1: byte, e2: byte, e3: byte)
    requires SixBit(e0) && SixBit(e1) && SixBit(e2) && SixBit(e3)
    ensures LowBits(FirstSpread(e0, e1)) == e0
    ensures SecondHeader(SecondSpread(e1, e3), FirstSpread(e0, e1)) == e1
    ensures LowBits(ThirdSpread(e2, e3)) == e2
    ensures FourthHeader(ThirdSpread(e2, e3), SecondSpread(e1, e3)) == e3
  {
  }

  lemma UnpackPackRound(b: seq<byte>)
    requires |b| == 127
    ensures UnpackRound(PackRound(b)) == b
    ensures RoundHeadersClear(PackRound(b))
  {
    SpreadBits(b[31], b[63], b[95]);
    var g := PackRound(b);
    forall i | 0 <= i < 127 ensures UnpackRound(g)[i] == b[i] {
      if i == 31 || i == 63 || i == 95 {
      } else {
        assert g[i + 1] == b[i];
      }
    }
  }

  lemma PackUnpackRound(g: seq<byte>)
    requires |g| == 128 && RoundHeadersClear(g)
    ensures PackRound(UnpackRound(g)) == g
  {
    GatherBits(g[0], g[32], g[64], g[96]);
  }

  // ---------- A whole blob, as values ----------

  function Zeros(n: nat): (z: seq<byte>)
    ensures |z| == n
    ensures forall i :: 0 <= i < n ==> z[i] == 0
  {
    seq(n, i => 0)
  }

  /** The byte with value n, by counting up to it. */
  function ByteOf(n: nat): byte
    requires n < 256
  {
    if n == 0 then 0 else ByteOf(n - 1) + 1
  }

  lemma NextByte(b: byte)
    requires b as nat < 255
    ensures (b + 1) as nat == b as nat + 1
  {
  }

  lemma {:induction false} ByteOfValue(n: nat)
    requires n < 256
    ensures ByteOf(n) as nat == n
  {
    if n > 0 {
      ByteOfValue(n - 1);
      NextByte(ByteOf(n - 1));
    }
  }

  /** The 24-bit big-endian length stored in the first element. */
  function LengthBytes(n: nat): (b: seq<byte>)
    ensures |b| == 3
  {
    [ByteOf(n / 65536 % 256), ByteOf(n / 256 % 256), ByteOf(n % 256)]
  }

  function DeclaredLength(hi: byte, mid: byte, lo: byte): nat {
    JoinLength(hi as nat, mid as nat, lo as nat)
  }

  function JoinLength(h: nat, m: nat, l: nat): nat {
    h * 65536 + m * 256 + l
  }

  lemma SplitLength(n: nat)
    requires n < 0x100_0000
    ensures JoinLength(n / 65536 % 256, n / 256 % 256, n % 256) == n
  {
    assert n / 65536 % 256 == n / 65536;
    assert n / 256 == n / 65536 * 256 + n / 256 % 256;
  }

  lemma SplitOfJoin(h: nat, m: nat, l: nat)
    requires h < 256 && m < 256 && l < 256
    ensures var n := JoinLength(h, m, l);
            n < 0x100_0000 && n / 65536 % 256 == h && n / 256 % 256 == m && n % 256 == l
  {
    var n := JoinLength(h, m, l);
    assert n / 65536 == h && n / 256 == h * 256 + m;
  }

  lemma DeclaredOfLengthBytes(n: nat)
    requires n < 0x100_0000
    ensures DeclaredLength(LengthBytes(n)[0], LengthBytes(n)[1], LengthBytes(n)[2]) == n
  {
    SplitLength(n);
    ByteOfValue(n / 65536 % 256);
    ByteOfValue(n / 256 % 256);
    ByteOfValue(n % 256);
  }

  lemma LengthBytesInjective(n: nat, m: nat)
    requires n < 0x100_0000 && m < 0x100_0000 && LengthBytes(n) == LengthBytes(m)
    ensures n == m
  {
    DeclaredOfLengthBytes(n);
    DeclaredOfLengthBytes(m);
  }

  lemma SameValue(a: byte, b: byte)
    requires a as nat == b as nat
    ensures a == b
  {
  }

  lemma ByteRange(b: byte)
    ensures (b as nat) < 256
  {
  }

  lemma ByteOfIs(n: nat, b: byte)
    requires n < 256 && n == b as nat
    ensures ByteOf(n) == b
  {
    ByteOfValue(n);
    SameValue(ByteOf(n), b);
  }

  lemma LengthBytesAre(n: nat, hi: byte, mid: byte, lo: byte)
    requires n / 65536 % 256 == hi as nat && n / 256 % 256 == mid as nat && n % 256 == lo as nat
    ensures LengthBytes(n) == [hi, mid, lo]
  {
    ByteOfIs(n / 65536 % 256, hi);
    ByteOfIs(n / 256 % 256, mid);
    ByteOfIs(n % 256, lo);
  }

  lemma LengthBytesOfDeclared(hi: byte, mid: byte, lo: byte)
    ensures DeclaredLength(hi, mid, lo) < 0x100_0000
    ensures LengthBytes(DeclaredLength(hi, mid, lo)) == [hi, mid, lo]
  {
    ByteRange(hi);
    ByteRange(mid);
    ByteRange(lo);
    SplitOfJoin(hi as nat, mid as nat, lo as nat);
    LengthBytesAre(DeclaredLength(hi, mid, lo), hi, mid, lo);
  }

  /** The four bytes in front of the payload. */
  function Preamble(length: nat): (b: seq<byte>)
    ensures |b| == 4
  {
    [0 as byte] + LengthBytes(length)
  }

  /** The 127 * 1024 content bytes of a blob: version, length, payload, padding. */
  function Content(payload: seq<byte>): (s: seq<byte>)
    requires |payload| <= BLOB_MAX_DATA_SIZE
    ensures |s| == 127 * BLOB_ENCODING_ROUNDS
  {
    Preamble(|payload|) + payload + Zeros(BLOB_MAX_DATA_SIZE - |payload|)
  }

  function Chunk(s: seq<byte>, k: nat): (c: seq<byte>)
    requires 127 * k + 127 <= |s|
    ensures |c| == 127
  {
    s[127 * k..127 * k + 127]
  }

  function Group(blob: seq<byte>, k: nat): (g: seq<byte>)
    requires 128 * k + 128 <= |blob|
    ensures |g| == 128
  {
    blob[128 * k..128 * k + 128]
  }

  function PackRounds(s: seq<byte>, n: nat): (blob: seq<byte>)
    requires 127 * n <= |s|
    ensures |blob| == 128 * n
  {
    if n == 0 then [] else PackRounds(s, n - 1) + PackRound(Chunk(s, n - 1))
  }

  function UnpackRounds(blob: seq<byte>, n: nat): (s: seq<byte>)
    requires 128 * n <= |blob|
    ensures |s| == 127 * n
  {
    if n == 0 then [] else UnpackRounds(blob, n - 1) + UnpackRound(Group(blob, n - 1))
  }

  /** The printer: the blob that carries a payload. */
  function EncodeBlob(payload: seq<byte>): (blob: seq<byte>)
    requires |payload| <= BLOB_MAX_DATA_SIZE
    ensures |blob| == BYTES_PER_BLOB
  {
    PackRounds(Content(payload), BLOB_ENCODING_ROUNDS)
  }

  /** The decoder ignores the two top bits of the very first byte. */
  function MaskFirst(raw: seq<byte>): (m: seq<byte>)
    requires |raw| > 0
    ensures |m| == |raw|
  {
    raw[0 := LowBits(raw[0])]
  }

  /** raw carries payload: it is the printed blob, up to the ignored bits. */
  ghost predicate Carries(raw: seq<byte>, payload: seq<byte>) {
    && |raw| == BYTES_PER_BLOB
    && |payload| <= BLOB_MAX_DATA_SIZE
    && MaskFirst(raw) == EncodeBlob(payload)
  }

  /** Round by round, blob is the packing of s. */
  ghost predicate RoundsMatch(s: seq<byte>, blob: seq<byte>, n: nat)
    requires 127 * n <= |s| && 128 * n <= |blob|
  {
    forall k: nat :: k < n ==> Group(blob, k) == PackRound(Chunk(s, k))
  }

  lemma {:induction false} PackRoundsMatch(s: seq<byte>, n: nat)
    requires 127 * n <= |s|
    ensures RoundsMatch(s, PackRounds(s, n), n)
  {
    if n > 0 {
      PackRoundsMatch(s, n - 1);
      var shorter, longer := PackRounds(s, n - 1), PackRounds(s, n);
      forall k: nat | k < n ensures Group(longer, k) == PackRound(Chunk(s, k)) {
        if k < n - 1 {
          assert Group(longer, k) == Group(shorter, k);
        } else {
          assert longer == shorter + PackRound(Chunk(s, k));
        }
      }
    }
  }

  lemma {:induction false} MatchIsPackRounds(s: seq<byte>, blob: seq<byte>, n: nat)
    requires 127 * n <= |s| && 128 * n <= |blob|
    requires RoundsMatch(s, blob, n)
    ensures blob[..128 * n] == PackRounds(s, n)
  {
    if n > 0 {
      MatchIsPackRounds(s, blob, n - 1);
      assert blob[..128 * n] == blob[..128 * (n - 1)] + Group(blob, n - 1);
    }
  }

  lemma {:induction false} MatchUnpacks(s: seq<byte>, blob: seq<byte>, n: nat)
    requires 127 * n <= |s| && 128 * n <= |blob|
    requires RoundsMatch(s, blob, n)
    ensures UnpackRounds(blob, n) == s[..127 * n]
  {
    if n > 0 {
      MatchUnpacks(s, blob, n - 1);
      UnpackPackRound(Chunk(s, n - 1));
      assert s[..127 * n] == s[..127 * (n - 1)] + Chunk(s, n - 1);
    }
  }

  lemma {:induction false} UnpackRoundsChunk(blob: seq<byte>, n: nat, k: nat)
    requires 128 * n <= |blob| && k < n
    ensures Chunk(UnpackRounds(blob, n), k) == UnpackRound(Group(blob, k))
  {
    if k < n - 1 {
      UnpackRoundsChunk(blob, n - 1, k);
      assert Chunk(UnpackRounds(blob, n), k) == Chunk(UnpackRounds(blob, n - 1), k);
    }
  }

  lemma PackZeros()
    ensures PackRound(Zeros(127)) == Zeros(128)
  {
    assert LowBits(0) == 0 && SecondHeader(0, 0) == 0 && FourthHeader(0, 0) == 0;
  }

  lemma CarriesIffMatch(raw: seq<byte>, payload: seq<byte>)
    requires |raw| == BYTES_PER_BLOB && |payload| <= BLOB_MAX_DATA_SIZE
    ensures Carries(raw, payload) <==> RoundsMatch(Content(payload), MaskFirst(raw), BLOB_ENCODING_ROUNDS)
  {
    var s, m, n := Content(payload), MaskFirst(raw), BLOB_ENCODING_ROUNDS;
    if Carries(raw, payload) {
      PackRoundsMatch(s, n);
    }
    if RoundsMatch(s, m, n) {
      MatchIsPackRounds(s, m, n);
      assert m[..128 * n] == m;
    }
  }

  // ---------- What a decoding run has established after r rounds ----------

  ghost predicate HeadersClear(blob: seq<byte>, r: nat)
    requires 128 * r <= |blob|
  {
    forall k: nat :: k < r ==> RoundHeadersClear(Group(blob, k))
  }

  ghost predicate AllZero(s: seq<byte>) {
    forall i :: 0 <= i < |s| ==> s[i] == 0
  }

  /** Rounds 0 .. r-1 of the (masked) blob are well formed and in the output, and nothing else is. */
  ghost predicate Progress(blob: seq<byte>, output: seq<byte>, r: nat) {
    && 1 <= r <= BLOB_ENCODING_ROUNDS
    && |blob| == BYTES_PER_BLOB
    && |output| == BLOB_MAX_DATA_SIZE
    && output[..127 * r - 4] == UnpackRounds(blob, r)[4..]
    && AllZero(output[127 * r - 4..])
    && HeadersClear(blob, r)
  }

  lemma FirstRoundProgress(blob: seq<byte>, output: seq<byte>)
    requires |blob| == BYTES_PER_BLOB && |output| == BLOB_MAX_DATA_SIZE
    requires forall i :: 4 <= i < 127 ==> UnpackRound(Group(blob, 0))[i] == output[i - 4]
    requires forall i :: 123 <= i < |output| ==> output[i] == 0
    requires RoundHeadersClear(Group(blob, 0))
    ensures Progress(blob, output, 1)
  {
    assert UnpackRounds(blob, 1) == UnpackRounds(blob, 0) + UnpackRound(Group(blob, 0)) == UnpackRound(Group(blob, 0));
  }

  ghost predicate Spliced(before: seq<byte>, piece: seq<byte>, after: seq<byte>, start: nat) {
    && |after| == |before|
    && start + |piece| <= |before|
    && after == before[..start] + piece + before[start + |piece|..]
  }

  lemma SplicePoints(before: seq<byte>, piece: seq<byte>, after: seq<byte>, start: nat)
    requires |after| == |before| && start + |piece| <= |before|
    requires forall i :: 0 <= i < |piece| ==> piece[i] == after[start + i]
    requires forall i :: 0 <= i < |after| && !(start <= i < start + |piece|) ==> after[i] == before[i]
    ensures Spliced(before, piece, after, start)
  {
    assert after[..start] == before[..start];
    assert after[start..start + |piece|] == piece;
    assert after[start + |piece|..] == before[start + |piece|..];
    assert after == after[..start] + after[start..start + |piece|] + after[start + |piece|..];
  }

  lemma NextRoundProgress(blob: seq<byte>, before: seq<byte>, after: seq<byte>, k: nat)
    requires Progress(blob, before, k) && k < BLOB_ENCODING_ROUNDS
    requires Spliced(before, UnpackRound(Group(blob, k)), after, 127 * k - 4)
    requires RoundHeadersClear(Group(blob, k))
    ensures Progress(blob, after, k + 1)
  {
    var p, round := 127 * k - 4, UnpackRound(Group(blob, k));
    var u := UnpackRounds(blob, k);
    assert UnpackRounds(blob, k + 1) == u + round;
    assert after[..p + 127] == before[..p] + round == u[4..] + round == (u + round)[4..];
    AllZeroDrop(before[p..], 127);
    assert after[p + 127..] == before[p + 127..] == before[p..][127..];
  }

  lemma AllZeroDrop(s: seq<byte>, n: nat)
    requires AllZero(s) && n <= |s|
    ensures AllZero(s[n..])
  {
  }

  lemma FirstBytes(blob: seq<byte>, r: nat)
    requires 1 <= r && 128 * r <= |blob|
    ensures UnpackRounds(blob, r)[..4] == blob[1..5]
  {
    UnpackRoundsChunk(blob, r, 0);
    var u, c := UnpackRounds(blob, r), UnpackRound(Group(blob, 0));
    forall i | 0 <= i < 4 ensures u[..4][i] == blob[1..5][i] {
      assert u[i] == Chunk(u, 0)[i] == c[i] == Group(blob, 0)[i + 1];
    }
  }

  lemma ZeroRound(payload: seq<byte>, blob: seq<byte>, k: nat)
    requires |payload| <= BLOB_MAX_DATA_SIZE && |blob| == BYTES_PER_BLOB
    requires k < BLOB_ENCODING_ROUNDS && |payload| + 4 <= 127 * k
    ensures Chunk(Content(payload), k) == Zeros(127)
    ensures Group(blob, k) == PackRound(Chunk(Content(payload), k)) <==> AllZero(Group(blob, k))
  {
    PackZeros();
    assert AllZero(Group(blob, k)) ==> Group(blob, k) == Zeros(128);
  }

  lemma ContentParts(output: seq<byte>, length: nat)
    requires |output| == BLOB_MAX_DATA_SIZE && length <= |output| && AllZero(output[length..])
    ensures Content(output[..length])[..4] == Preamble(length)
    ensures Content(output[..length])[4..] == output
  {
    var payload, pad := output[..length], Zeros(BLOB_MAX_DATA_SIZE - length);
    assert output[length..] == pad;
    assert output == payload + pad;
    assert Content(payload) == Preamble(length) + (payload + pad);
  }

  lemma SplitAtFour(u: seq<byte>, c: seq<byte>, n: nat)
    requires 4 <= n == |u| <= |c|
    requires u[..4] == c[..4] && u[4..] == c[4..][..n - 4]
    ensures u == c[..n]
  {
    assert u == u[..4] + u[4..];
    assert c[..n] == c[..4] + c[4..][..n - 4];
  }

  /** The content an accepting run has read is the content of the payload it returns. */
  lemma AcceptedContent(blob: seq<byte>, output: seq<byte>, r: nat, length: nat)
    requires Progress(blob, output, r)
    requires blob[1..5] == Preamble(length)
    requires length <= 127 * r - 4 && AllZero(output[length..])
    ensures UnpackRounds(blob, r) == Content(output[..length])[..127 * r]
  {
    FirstBytes(blob, r);
    ContentParts(output, length);
    SplitAtFour(UnpackRounds(blob, r), Content(output[..length]), 127 * r);
  }

  lemma ReadRoundMatches(s: seq<byte>, blob: seq<byte>, r: nat, k: nat)
    requires 127 * r <= |s| && 128 * r <= |blob| && k < r
    requires UnpackRounds(blob, r) == s[..127 * r]
    requires RoundHeadersClear(Group(blob, k))
    ensures Group(blob, k) == PackRound(Chunk(s, k))
  {
    UnpackRoundsChunk(blob, r, k);
    assert Chunk(s, k) == s[..127 * r][127 * k..127 * k + 127];
    PackUnpackRound(Group(blob, k));
  }

  lemma UnreadRoundMatches(raw: seq<byte>, payload: seq<byte>, r: nat, k: nat)
    requires |raw| == BYTES_PER_BLOB && |payload| <= BLOB_MAX_DATA_SIZE
    requires 1 <= r <= k < BLOB_ENCODING_ROUNDS && |payload| <= 127 * r - 4
    requires AllZero(raw[128 * r..])
    ensures Group(MaskFirst(raw), k) == PackRound(Chunk(Content(payload), k))
  {
    var m := MaskFirst(raw);
    forall i | 0 <= i < 128 ensures Group(m, k)[i] == 0 {
      assert raw[128 * r..][128 * (k - r) + i] == 0;
    }
    ZeroRound(payload, m, k);
  }

  lemma AcceptedCarries(raw: seq<byte>, output: seq<byte>, r: nat, length: nat)
    requires |raw| == BYTES_PER_BLOB
    requires raw[1..5] == Preamble(length)
    requires Progress(MaskFirst(raw), output, r)
    requires length <= 127 * r - 4
    requires AllZero(output[length..]) && AllZero(raw[128 * r..])
    ensures Carries(raw, output[..length])
  {
    var m, payload := MaskFirst(raw), output[..length];
    assert m[1..5] == raw[1..5];
    AcceptedContent(m, output, r, length);
    forall k: nat | k < BLOB_ENCODING_ROUNDS ensures Group(m, k) == PackRound(Chunk(Content(payload), k)) {
      if k < r {
        ReadRoundMatches(Content(payload), m, r, k);
      } else {
        UnreadRoundMatches(raw, payload, r, k);
      }
    }
    CarriesIffMatch(raw, payload);
  }

  /** Every check of the decoder passes on a blob that carries a payload: its fixed header, ... */
  lemma CarriedHeader(raw: seq<byte>, payload: seq<byte>)
    requires Carries(raw, payload)
    ensures raw[1..5] == Preamble(|payload|)
  {
    var m, s := MaskFirst(raw), Content(payload);
    CarriesIffMatch(raw, payload);
    MatchUnpacks(s, m, 1);
    FirstBytes(m, 1);
    assert s[..127][..4] == Preamble(|payload|);
    assert m[1..5] == raw[1..5];
  }

  /** ... its element headers and contents, ... */
  lemma CarriedRounds(raw: seq<byte>, payload: seq<byte>, r: nat)
    requires Carries(raw, payload) && r <= BLOB_ENCODING_ROUNDS
    ensures HeadersClear(MaskFirst(raw), r)
    ensures UnpackRounds(MaskFirst(raw), r) == Content(payload)[..127 * r]
  {
    var m, s := MaskFirst(raw), Content(payload);
    CarriesIffMatch(raw, payload);
    MatchUnpacks(s, m, r);
    forall k: nat | k < r ensures RoundHeadersClear(Group(m, k)) {
      UnpackPackRound(Chunk(s, k));
    }
  }

  /** ... and the zeros after its last round. */
  lemma CarriedBlobTail(raw: seq<byte>, payload: seq<byte>, r: nat)
    requires Carries(raw, payload) && 1 <= r <= BLOB_ENCODING_ROUNDS && |payload| <= 127 * r - 4
    ensures AllZero(raw[128 * r..])
  {
    var m := MaskFirst(raw);
    CarriesIffMatch(raw, payload);
    forall i | 0 <= i < |raw| - 128 * r ensures raw[128 * r..][i] == 0 {
      var k := r + i / 128;
      ZeroRound(payload, m, k);
      assert Group(m, k)[i % 128] == 0;
    }
  }

  /** So a run that has read r rounds of a carrying blob sees zeros after the payload. */
  lemma CarriedTail(raw: seq<byte>, payload: seq<byte>, output: seq<byte>, r: nat)
    requires Carries(raw, payload) && Progress(MaskFirst(raw), output, r)
    ensures AllZero(output[|payload|..])
  {
    CarriedRounds(raw, payload, r);
    var s := Content(payload);
    forall i | |payload| <= i < |output| ensures output[i] == 0 {
      if i < 127 * r - 4 {
        assert output[i] == output[..127 * r - 4][i] == s[..127 * r][4..][i] == s[i + 4];
      } else {
        assert output[i] == output[127 * r - 4..][i - (127 * r - 4)];
      }
    }
  }

  ghost predicate Undecodable(raw: seq<byte>) {
    forall payload :: !Carries(raw, payload)
  }

  lemma BadHeader(raw: seq<byte>, length: nat)
    requires |raw| == BYTES_PER_BLOB && length < 0x100_0000 && raw[2..5] == LengthBytes(length)
    requires raw[1] != 0 || length > BLOB_MAX_DATA_SIZE
    ensures Undecodable(raw)
  {
    forall payload | Carries(raw, payload) ensures false {
      CarriedHeader(raw, payload);
      assert raw[1] == raw[1..5][0] == 0;
      assert raw[2..5] == raw[1..5][1..] == LengthBytes(|payload|);
      LengthBytesInjective(length, |payload|);
    }
  }

  lemma BadRound(raw: seq<byte>, k: nat)
    requires |raw| == BYTES_PER_BLOB && k < BLOB_ENCODING_ROUNDS
    requires !RoundHeadersClear(Group(MaskFirst(raw), k))
    ensures Undecodable(raw)
  {
    forall payload | Carries(raw, payload) ensures false {
      CarriedRounds(raw, payload, k + 1);
    }
  }

  lemma BadTail(raw: seq<byte>, output: seq<byte>, r: nat, length: nat)
    requires |raw| == BYTES_PER_BLOB && Progress(MaskFirst(raw), output, r)
    requires raw[1..5] == Preamble(length) && length <= BLOB_MAX_DATA_SIZE && length <= 127 * r - 4
    requires !AllZero(output[length..]) || !AllZero(raw[128 * r..])
    ensures Undecodable(raw)
  {
    forall payload | Carries(raw, payload) ensures false {
      CarriedHeader(raw, payload);
      assert LengthBytes(length) == Preamble(length)[1..] && LengthBytes(|payload|) == Preamble(|payload|)[1..];
      LengthBytesInjective(length, |payload|);
      CarriedTail(raw, payload, output, r);
      CarriedBlobTail(raw, payload, r);
    }
  }

  // ---------- The decoder ----------

  /** The write counts after the n bytes from start on were written once more. */
  ghost function Counted(writes: seq<nat>, start: nat, n: nat): seq<nat> {
    seq(|writes|, i requires 0 <= i < |writes| => writes[i] + if start <= i < start + n then 1 else 0)
  }

  /** The decoder writes to its output through Copy and Put alone; both count what they write. */
  method Copy(bytes: seq<byte>, output: array<byte>, start: nat, ghost writes: seq<nat>) returns (ghost counts: seq<nat>)
    requires start + |bytes| <= output.Length
    modifies output
    ensures forall i :: 0 <= i < output.Length ==>
              output[i] == if start <= i < start + |bytes| then bytes[i - start] else old(output[i])
    ensures counts == Counted(writes, start, |bytes|)
  {
    forall i | 0 <= i < |bytes| {
      output[start + i] := bytes[i];
    }
    counts := Counted(writes, start, |bytes|);
  }

  method Put(b: byte, output: array<byte>, position: nat, ghost writes: seq<nat>) returns (ghost counts: seq<nat>)
    requires position < output.Length
    modifies output
    ensures forall i :: 0 <= i < output.Length ==> output[i] == if i == position then b else old(output[i])
    ensures counts == Counted(writes, position, 1)
  {
    output[position] := b;
    counts := Counted(writes, position, 1);
  }

  /** Every byte below n was written exactly once so far, every other byte not at all. */
  ghost predicate WrittenOnce(writes: seq<nat>, n: nat) {
    |writes| == BLOB_MAX_DATA_SIZE && forall i :: 0 <= i < |writes| ==> writes[i] == if i < n then 1 else 0
  }

  /** Copies the 31 content bytes of one element and hands back its header. */
  method DecodeFieldElement(data: seq<byte>, output: array<byte>, outputPos: nat, inputPos: nat, ghost writes: seq<nat>)
    returns (header: byte, newOutputPos: nat, newInputPos: nat, ok: bool, ghost counts: seq<nat>)
    modifies output
    ensures ok <==> inputPos + 32 <= |data| && outputPos + 31 <= output.Length && SixBit(data[inputPos])
    ensures ok ==> header == data[inputPos] && newOutputPos == outputPos + 32 && newInputPos == inputPos + 32
    ensures forall i :: 0 <= i < output.Length ==>
              output[i] == if ok && outputPos <= i < outputPos + 31
                           then data[inputPos + 1 + (i - outputPos)] else old(output[i])
    ensures counts == if ok then Counted(writes, outputPos, 31) else writes
  {
    counts := writes;
    if inputPos + 32 > |data| || outputPos + 31 > output.Length {
      return 0, 0, 0, false, writes;
    }
    header := data[inputPos];
    if !SixBit(header) {
      return 0, 0, 0, false, writes;
    }
    counts := Copy(data[inputPos + 1..inputPos + 32], output, outputPos, writes);
    return header, outputPos + 32, inputPos + 32, true, counts;
  }

  /** Fills the three holes left in front of the elements of a finished round. */
  method ReassembleBytes(outputPos: nat, encoded: seq<byte>, output: array<byte>, ghost writes: seq<nat>)
    returns (newPos: nat, ghost counts: seq<nat>)
    requires |encoded| == 4 && 97 <= outputPos && outputPos - 33 < output.Length
    modifies output
    ensures newPos == outputPos - 1
    ensures forall i :: 0 <= i < output.Length ==>
              output[i] == if i == newPos - 96 then FirstSpread(encoded[0], encoded[1])
                           else if i == newPos - 64 then SecondSpread(encoded[1], encoded[3])
                           else if i == newPos - 32 then ThirdSpread(encoded[2], encoded[3])
                           else old(output[i])
    ensures counts == Counted(Counted(Counted(writes, newPos - 32, 1), newPos - 64, 1), newPos - 96, 1)
  {
    newPos := outputPos - 1;
    var x := (encoded[0] & 0x3f) | ((encoded[1] & 0x30) << 2);
    var y := (encoded[1] & 0x0f) | ((encoded[3] & 0x0f) << 4);
    var z := (encoded[2] & 0x3f) | ((encoded[3] & 0x30) << 2);
    counts := Put(z, output, newPos - 32, writes);
    counts := Put(y, output, newPos - 64, counts);
    counts := Put(x, output, newPos - 96, counts);
  }

  lemma MaskedHeader(x: byte, e: byte)
    ensures FirstSpread(LowBits(x), e) == FirstSpread(x, e) && SixBit(LowBits(x))
  {
  }

  /** Where the spread bytes of a round go. */
  predicate Hole(i: int) {
    i == 31 || i == 63 || i == 95
  }

  /** The write counts after the elements first .. e-1 of round k were copied; holes are still open. */
  ghost function ElementsCounted(writes: seq<nat>, k: nat, first: nat, e: nat): seq<nat>
    requires first == (if k == 0 then 1 else 0)
  {
    if e <= first then writes
    else Counted(ElementsCounted(writes, k, first, e - 1), 127 * k - 4 + 32 * (e - 1), 31)
  }

  lemma {:induction false} ElementsCountedAt(writes: seq<nat>, k: nat, first: nat, e: nat)
    requires first == (if k == 0 then 1 else 0) && first <= e <= 4
    ensures var start, counts := 127 * k - 4, ElementsCounted(writes, k, first, e);
            && |counts| == |writes|
            && forall i :: 0 <= i < |writes| ==>
                 counts[i] == writes[i] + if start + 32 * first <= i < start + 32 * e - 1 && !Hole(i - start) then 1 else 0
  {
    if e > first {
      ElementsCountedAt(writes, k, first, e - 1);
    }
  }

  /** Round k, without what was copied before its elements, was written once more. */
  ghost predicate RoundCounted(writes: seq<nat>, counts: seq<nat>, k: nat) {
    && |counts| == |writes|
    && forall i :: 0 <= i < |writes| ==>
         counts[i] == writes[i] + if (if k == 0 then 27 else 127 * k - 4) <= i < 127 * k + 123 then 1 else 0
  }

  lemma HolesCounted(writes: seq<nat>, k: nat, first: nat)
    requires first == (if k == 0 then 1 else 0)
    ensures var counts, end := ElementsCounted(writes, k, first, 4), 127 * k + 123;
            RoundCounted(writes, Counted(Counted(Counted(counts, end - 32, 1), end - 64, 1), end - 96, 1), k)
  {
    ElementsCountedAt(writes, k, first, 4);
  }

  /** The elements before e of round k are in place; outside the round the output is as it was. */
  ghost predicate Placed(data: seq<byte>, was: seq<byte>, output: seq<byte>, k: nat, e: nat) {
    var start := 127 * k - 4;
    && |data| == BYTES_PER_BLOB && |output| == |was| == BLOB_MAX_DATA_SIZE && k < BLOB_ENCODING_ROUNDS && e <= 4
    && (forall i | 0 <= i < |output| && start <= i < start + 32 * e - 1 :: !Hole(i - start) ==> output[i] == data[i + k + 5])
    && (forall i | 0 <= i < |output| && !(start <= i < start + 127) :: output[i] == was[i])
  }

  lemma PlacedStep(data: seq<byte>, was: seq<byte>, before: seq<byte>, after: seq<byte>, k: nat, e: nat)
    requires e < 4 && 127 * k - 4 + 32 * e >= 0 && Placed(data, was, before, k, e) && |after| == |before|
    requires var outputPos, inputPos := 127 * k - 4 + 32 * e, 128 * k + 32 * e;
             forall i :: 0 <= i < |after| ==>
               after[i] == if outputPos <= i < outputPos + 31 then data[inputPos + 1 + (i - outputPos)] else before[i]
    ensures Placed(data, was, after, k, e + 1)
  {
  }

  /** Element e of round k, on an output that has the elements before it. */
  method DecodeElement(data: seq<byte>, output: array<byte>, ghost was: seq<byte>, ghost k: nat, ghost e: nat,
                       outputPos: nat, inputPos: nat, ghost writes: seq<nat>)
    returns (header: byte, newOutputPos: nat, newInputPos: nat, ok: bool, ghost counts: seq<nat>)
    requires e < 4 && Placed(data, was, output[..], k, e)
    requires outputPos == 127 * k - 4 + 32 * e && inputPos == 128 * k + 32 * e
    modifies output
    ensures ok <==> SixBit(data[128 * k + 32 * e])
    ensures ok ==> header == data[128 * k + 32 * e] && newOutputPos == outputPos + 32 && newInputPos == inputPos + 32
    ensures ok ==> counts == Counted(writes, outputPos, 31)
    ensures Placed(data, was, output[..], k, if ok then e + 1 else e)
  {
    ghost var before := output[..];
    header, newOutputPos, newInputPos, ok, counts := DecodeFieldElement(data, output, outputPos, inputPos, writes);
    if ok {
      PlacedStep(data, was, before, output[..], k, e);
    } else {
      assert output[..] == before;
    }
  }

  function ElementHeader(data: seq<byte>, k: nat, e: nat): byte
    requires 128 * k + 128 <= |data| && e < 4
  {
    data[128 * k + 32 * e]
  }

  /** The loop over the elements of a round. */
  method DecodeElementsFrom(data: seq<byte>, output: array<byte>, ghost was: seq<byte>, ghost k: nat, first: nat,
                            head: byte, outputPos: nat, inputPos: nat, ghost writes: seq<nat>)
    returns (encoded: seq<byte>, newOutputPos: nat, newInputPos: nat, ok: bool, ghost counts: seq<nat>)
    requires first == (if k == 0 then 1 else 0) && Placed(data, was, output[..], k, first)
    requires outputPos == 127 * k - 4 + 32 * first && inputPos == 128 * k + 32 * first
    modifies output
    ensures ok <==> forall j: nat :: first <= j < 4 ==> SixBit(ElementHeader(data, k, j))
    ensures |encoded| == 4 && (first == 1 ==> encoded[0] == head)
    ensures ok ==> newOutputPos == 127 * k + 124 && newInputPos == 128 * (k + 1)
    ensures ok ==> forall j: nat :: first <= j < 4 ==> encoded[j] == ElementHeader(data, k, j)
    ensures ok ==> counts == ElementsCounted(writes, k, first, 4)
    ensures exists e :: Placed(data, was, output[..], k, e) && (ok ==> e == 4)
  {
    encoded := [head, 0, 0, 0];
    counts := writes;
    newOutputPos, newInputPos := outputPos, inputPos;
    var e := first;
    while e < 4
      invariant first <= e <= 4 && |encoded| == 4
      invariant newOutputPos == 127 * k - 4 + 32 * e && newInputPos == 128 * k + 32 * e
      invariant first == 1 ==> encoded[0] == head
      invariant forall j: nat :: first <= j < e ==> SixBit(ElementHeader(data, k, j)) && encoded[j] == ElementHeader(data, k, j)
      invariant Placed(data, was, output[..], k, e)
      invariant counts == ElementsCounted(writes, k, first, e)
    {
      ghost var next;
      var header, nextOut, nextIn, good;
      header, nextOut, nextIn, good, next := DecodeElement(data, output, was, k, e, newOutputPos, newInputPos, counts);
      if !good {
        assert !SixBit(ElementHeader(data, k, e));
        return encoded, newOutputPos, newInputPos, false, counts;
      }
      counts := next;
      encoded := encoded[e := header];
      newOutputPos, newInputPos, e := nextOut, nextIn, e + 1;
    }
    ok := true;
  }

  /**
   Elements first .. 3 of round k.  The round's 127 bytes belong at start .. start + 126 with
   start == 127 * k - 4; round 0 starts four bytes before the output, because its first four
   content bytes are the version and the length, and its first element is read beforehand.
   The cursors never leave the buffers, so ok is false only for a header with high bits set.
   */
  method DecodeElements(data: seq<byte>, output: array<byte>, ghost k: nat, first: nat, head: byte,
                        outputPos: nat, inputPos: nat, ghost writes: seq<nat>)
    returns (encoded: seq<byte>, newOutputPos: nat, newInputPos: nat, ok: bool, ghost counts: seq<nat>)
    requires |data| == BYTES_PER_BLOB && output.Length == BLOB_MAX_DATA_SIZE
    requires k < BLOB_ENCODING_ROUNDS && first == (if k == 0 then 1 else 0)
    requires outputPos == 127 * k - 4 + 32 * first && inputPos == 128 * k + 32 * first
    requires first == 1 ==> forall i :: 0 <= i < 27 ==> output[i] == data[i + 5]
    modifies output
    ensures var g := Group(data, k);
            ok <==> (first == 1 || SixBit(g[0])) && SixBit(g[32]) && SixBit(g[64]) && SixBit(g[96])
    ensures ok ==> newOutputPos == 127 * k + 124 && newInputPos == 128 * (k + 1)
    ensures ok ==> encoded == [if first == 1 then head else Group(data, k)[0],
                               Group(data, k)[32], Group(data, k)[64], Group(data, k)[96]]
    ensures ok ==> forall i | 0 <= i < output.Length && 127 * k - 4 <= i < 127 * k + 123 ::
              !Hole(i - (127 * k - 4)) ==> output[i] == data[i + k + 5]
    ensures forall i :: 0 <= i < output.Length && !(127 * k - 4 <= i < 127 * k + 123) ==> output[i] == old(output[i])
    ensures ok ==> counts == ElementsCounted(writes, k, first, 4)
  {
    ghost var was, g := output[..], Group(data, k);
    encoded, newOutputPos, newInputPos, ok, counts :=
      DecodeElementsFrom(data, output, was, k, first, head, outputPos, inputPos, writes);
    assert g[0] == data[128 * k] && g[32] == data[128 * k + 32] && g[64] == data[128 * k + 64] && g[96] == data[128 * k + 96];
    assert ElementHeader(data, k, 0) == g[0] && ElementHeader(data, k, 1) == g[32]
           && ElementHeader(data, k, 2) == g[64] && ElementHeader(data, k, 3) == g[96];
  }

  /** A whole round: the elements, then the holes between them. */
  method DecodeRound(data: seq<byte>, output: array<byte>, ghost k: nat, first: nat, head: byte,
                     outputPos: nat, inputPos: nat, ghost writes: seq<nat>)
    returns (newOutputPos: nat, newInputPos: nat, ok: bool, ghost counts: seq<nat>)
    requires |data| == BYTES_PER_BLOB && output.Length == BLOB_MAX_DATA_SIZE
    requires k < BLOB_ENCODING_ROUNDS && first == (if k == 0 then 1 else 0)
    requires outputPos == 127 * k - 4 + 32 * first && inputPos == 128 * k + 32 * first
    requires first == 1 ==> head == data[0]
    requires first == 1 ==> forall i :: 0 <= i < 27 ==> output[i] == data[i + 5]
    modifies output
    ensures ok <==> RoundHeadersClear(Group(MaskFirst(data), k))
    ensures ok ==> newOutputPos == 127 * (k + 1) - 4 && newInputPos == 128 * (k + 1)
    ensures ok ==> forall i :: 0 <= i < 127 && 127 * k - 4 + i >= 0 ==>
              UnpackRound(Group(MaskFirst(data), k))[i] == output[127 * k - 4 + i]
    ensures forall i :: 0 <= i < output.Length && !(127 * k - 4 <= i < 127 * (k + 1) - 4) ==>
              output[i] == old(output[i])
    ensures ok ==> RoundCounted(writes, counts, k)
  {
    var encoded;
    encoded, newOutputPos, newInputPos, ok, counts :=
      DecodeElements(data, output, k, first, head, outputPos, inputPos, writes);
    ghost var g := Group(MaskFirst(data), k);
    MaskedHeader(data[0], data[32]);
    assert forall i :: 1 <= i < 128 ==> g[i] == data[128 * k + i];
    assert g[0] == if k == 0 then LowBits(data[0]) else data[128 * k];
    if ok {
      HolesCounted(writes, k, first);
      newOutputPos, counts := ReassembleBytes(newOutputPos, encoded, output, counts);
    }
  }

  method DecodeFirstRound(raw: seq<byte>, output: array<byte>, ghost writes: seq<nat>)
    returns (outputPos: nat, inputPos: nat, ok: bool, ghost counts: seq<nat>)
    requires |raw| == BYTES_PER_BLOB && output.Length == BLOB_MAX_DATA_SIZE && AllZero(output[..])
    requires WrittenOnce(writes, 0)
    modifies output
    ensures ok <==> RoundHeadersClear(Group(MaskFirst(raw), 0))
    ensures ok ==> outputPos == 123 && inputPos == 128 && Progress(MaskFirst(raw), output[..], 1)
    ensures ok ==> WrittenOnce(counts, 123)
  {
    assert forall i :: 0 <= i < output.Length ==> output[i] == output[..][i] == 0;
    ghost var copied := Copy(raw[5..32], output, 0, writes);
    outputPos, inputPos, ok, counts := DecodeRound(raw, output, 0, 1, raw[0], 28, 32, copied);
    if ok {
      FirstRoundProgress(MaskFirst(raw), output[..]);
    }
  }

  method DecodeNextRound(raw: seq<byte>, output: array<byte>, ghost k: nat, outputPos: nat, inputPos: nat,
                         ghost writes: seq<nat>)
    returns (newOutputPos: nat, newInputPos: nat, ok: bool, ghost counts: seq<nat>)
    requires |raw| == BYTES_PER_BLOB && Progress(MaskFirst(raw), output[..], k) && k < BLOB_ENCODING_ROUNDS
    requires outputPos == 127 * k - 4 && inputPos == 128 * k
    requires WrittenOnce(writes, 127 * k - 4)
    modifies output
    ensures ok <==> RoundHeadersClear(Group(MaskFirst(raw), k))
    ensures ok ==> newOutputPos == 127 * (k + 1) - 4 && newInputPos == 128 * (k + 1)
    ensures ok ==> Progress(MaskFirst(raw), output[..], k + 1)
    ensures ok ==> WrittenOnce(counts, 127 * (k + 1) - 4)
  {
    ghost var before := output[..];
    newOutputPos, newInputPos, ok, counts := DecodeRound(raw, output, k, 0, 0, outputPos, inputPos, writes);
    if ok {
      SplicePoints(before, UnpackRound(Group(MaskFirst(raw), k)), output[..], 127 * k - 4);
      NextRoundProgress(MaskFirst(raw), before, output[..], k);
    }
  }

  method FirstNonZero(s: seq<byte>, from: nat) returns (found: bool)
    requires from <= |s|
    ensures found <==> !AllZero(s[from..])
  {
    var i := from;
    while i < |s|
      invariant from <= i <= |s|
      invariant forall j :: from <= j < i ==> s[j] == 0
    {
      if s[i] != 0 {
        assert s[from..][i - from] != 0;
        return true;
      }
      i := i + 1;
    }
    return false;
  }

  /**
   Reads rounds until the declared length is covered.  What was read is in the output, and each of
   its bytes was written exactly once.
   */
  method DecodeRounds(raw: seq<byte>, output: array<byte>, length: nat)
    returns (ghost rounds: nat, inputPos: nat, ok: bool, ghost writes: seq<nat>)
    requires |raw| == BYTES_PER_BLOB && output.Length == BLOB_MAX_DATA_SIZE && AllZero(output[..])
    requires length <= BLOB_MAX_DATA_SIZE
    modifies output
    ensures ok ==> Progress(MaskFirst(raw), output[..], rounds) && length <= 127 * rounds - 4
    ensures ok ==> inputPos == 128 * rounds
    ensures ok ==> WrittenOnce(writes, 127 * rounds - 4)
    ensures !ok ==> Undecodable(raw)
  {
    hide Progress, Undecodable, RoundHeadersClear, MaskFirst;
    var outputPos;
    rounds, writes := 1, seq(BLOB_MAX_DATA_SIZE, i => 0);
    outputPos, inputPos, ok, writes := DecodeFirstRound(raw, output, writes);
    if !ok {
      BadRound(raw, 0);
      return;
    }
    var round := 1;
    while round < BLOB_ENCODING_ROUNDS && outputPos < length
      invariant outputPos == 127 * round - 4 && inputPos == 128 * round && rounds == round
      invariant Progress(MaskFirst(raw), output[..], round)
      invariant WrittenOnce(writes, 127 * round - 4)
    {
      outputPos, inputPos, ok, writes := DecodeNextRound(raw, output, round, outputPos, inputPos, writes);
      if !ok {
        BadRound(raw, round);
        return;
      }
      round, rounds := round + 1, rounds + 1;
    }
    ok := true;
  }

  method ReadLength(raw: seq<byte>) returns (length: nat)
    requires |raw| == BYTES_PER_BLOB
    ensures length < 0x100_0000 && raw[2..5] == LengthBytes(length)
  {
    length := DeclaredLength(raw[2], raw[3], raw[4]);
    LengthBytesOfDeclared(raw[2], raw[3], raw[4]);
  }

  method DecodeShastaBlob(raw: seq<byte>) returns (r: Result<seq<byte>, BlobError>)
    ensures r == DecodeBlob(raw)
  {
    if |raw| != BYTES_PER_BLOB {
      return Err(InvalidLength);
    }
    var length := ReadLength(raw);
    if raw[1] != 0 || length > BLOB_MAX_DATA_SIZE {
      BadHeader(raw, length);
      return Err(InvalidEncoding);
    }
    assert raw[1..5] == [raw[1]] + raw[2..5] == Preamble(length);
    var output := new byte[BLOB_MAX_DATA_SIZE](i => 0);
    ghost var rounds, writes;
    var inputPos, ok;
    rounds, inputPos, ok, writes := DecodeRounds(raw, output, length);
    if !ok {
      return Err(InvalidEncoding);
    }
    var payloadDirty := FirstNonZero(output[..], length);
    var blobDirty := FirstNonZero(raw, inputPos);
    if payloadDirty || blobDirty {
      BadTail(raw, output[..], rounds, length);
      return Err(InvalidEncoding);
    }
    r := Ok(output[..length]);
    assert output[..][..length] == output[..length];
    AcceptedCarries(raw, output[..], rounds, length);
    DecodeBlobIs(raw, r.value);
  }

  // ---------- What the codec guarantees ----------

  /** The decoder as a function; DecodeShastaBlob computes it. */
  ghost function DecodeBlob(raw: seq<byte>): Result<seq<byte>, BlobError> {
    if |raw| != BYTES_PER_BLOB then Err(InvalidLength)
    else if Undecodable(raw) then Err(InvalidEncoding)
    else var payload :| Carries(raw, payload); Ok(payload)
  }

  lemma ContentInjective(p: seq<byte>, q: seq<byte>)
    requires |p| == |q| <= BLOB_MAX_DATA_SIZE && Content(p) == Content(q)
    ensures p == q
  {
    assert p == Content(p)[4..4 + |p|];
    assert q == Content(q)[4..4 + |q|];
  }

  lemma SameLength(raw: seq<byte>, p: seq<byte>, q: seq<byte>)
    requires Carries(raw, p) && Carries(raw, q)
    ensures |p| == |q|
  {
    CarriedHeader(raw, p);
    CarriedHeader(raw, q);
    assert LengthBytes(|p|) == Preamble(|p|)[1..] && LengthBytes(|q|) == Preamble(|q|)[1..];
    LengthBytesInjective(|p|, |q|);
  }

  lemma CarriesUnique(raw: seq<byte>, p: seq<byte>, q: seq<byte>)
    requires Carries(raw, p) && Carries(raw, q)
    ensures p == q
  {
    SameLength(raw, p, q);
    CarriedRounds(raw, p, BLOB_ENCODING_ROUNDS);
    CarriedRounds(raw, q, BLOB_ENCODING_ROUNDS);
    var n := 127 * BLOB_ENCODING_ROUNDS;
    assert Content(p)[..n] == Content(p) && Content(q)[..n] == Content(q);
    ContentInjective(p, q);
  }

  lemma DecodeBlobIs(raw: seq<byte>, payload: seq<byte>)
    ensures DecodeBlob(raw) == Ok(payload) <==> Carries(raw, payload)
  {
    if Carries(raw, payload) && DecodeBlob(raw).Ok? {
      CarriesUnique(raw, payload, DecodeBlob(raw).value);
    }
  }

  /** Decoding the printed blob of any payload that fits gives the payload back. */
  lemma PayloadRoundTrip(payload: seq<byte>)
    requires |payload| <= BLOB_MAX_DATA_SIZE
    ensures DecodeBlob(EncodeBlob(payload)) == Ok(payload)
  {
    var blob := EncodeBlob(payload);
    PackRoundsMatch(Content(payload), BLOB_ENCODING_ROUNDS);
    UnpackPackRound(Chunk(Content(payload), 0));
    assert SixBit(Group(blob, 0)[0]) && Group(blob, 0)[0] == blob[0];
    SixBitIsLow(blob[0]);
    assert MaskFirst(blob) == blob;
    DecodeBlobIs(blob, payload);
  }

  lemma SixBitIsLow(e: byte)
    ensures SixBit(e) <==> LowBits(e) == e
  {
  }

  /** Printing what was decoded gives the blob back exactly when the ignored bits are clear. */
  lemma BlobRoundTrip(raw: seq<byte>)
    requires DecodeBlob(raw).Ok?
    ensures |DecodeBlob(raw).value| <= BLOB_MAX_DATA_SIZE
    ensures EncodeBlob(DecodeBlob(raw).value) == raw <==> SixBit(raw[0])
  {
    var payload := DecodeBlob(raw).value;
    DecodeBlobIs(raw, payload);
    SixBitIsLow(raw[0]);
    assert MaskFirst(raw)[0] == LowBits(raw[0]);
    assert SixBit(raw[0]) ==> MaskFirst(raw) == raw;
  }

  /** Two accepted blobs have the same payload exactly when they agree on all but two bits. */
  lemma SamePayload(a: seq<byte>, b: seq<byte>)
    requires DecodeBlob(a).Ok? && DecodeBlob(b).Ok?
    ensures DecodeBlob(a) == DecodeBlob(b) <==> LowBits(a[0]) == LowBits(b[0]) && a[1..] == b[1..]
  {
    var p, q := DecodeBlob(a).value, DecodeBlob(b).value;
    DecodeBlobIs(a, p);
    DecodeBlobIs(b, q);
    DecodeBlobIs(b, p);
    assert MaskFirst(a) == [LowBits(a[0])] + a[1..] && MaskFirst(b) == [LowBits(b[0])] + b[1..];
    assert MaskFirst(a)[0] == LowBits(a[0]) && MaskFirst(b)[0] == LowBits(b[0]);
    assert MaskFirst(a)[1..] == a[1..] && MaskFirst(b)[1..] == b[1..];
  }

  /** The ignored bits do lose information: a second blob of the empty payload. */
  lemma IgnoredBits()
    ensures var blob := EncodeBlob([]);
            var other := blob[0 := 0x40];
            other != blob && DecodeBlob(other) == Ok([]) == DecodeBlob(blob)
  {
    var blob := EncodeBlob([]);
    var other := blob[0 := 0x40];
    PayloadRoundTrip([]);
    DecodeBlobIs(blob, []);
    PackRoundsMatch(Content([]), BLOB_ENCODING_ROUNDS);
    assert Group(blob, 0)[0] == blob[0];
    assert Chunk(Content([]), 0)[31] == 0;
    assert blob[0] == LowBits(0) == 0 == LowBits(0x40);
    assert MaskFirst(other) == MaskFirst(blob);
    assert Carries(other, []);
    DecodeBlobIs(other, []);
  }
}
