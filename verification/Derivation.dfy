/**
 From one derivation source of a proposal to the blocks it stands for: decode its blobs, let a
 source without content of its own inherit, check the rest against the parent, and replace what
 fails a check by one inherited default block.
 */
module Derivation {
  import opened Wrappers
  import opened Words
  import opened Execution
  import opened BlobCodec

  const ANCHOR_GAS_LIMIT: u64 := 1_000_000
  const MAINNET_CHAIN_ID: u64 := 167000
  const MAX_MANIFEST_OFFSET: u64 := 131072 - 64

  type Address = nat

  datatype ManifestBlock = ManifestBlock(timestamp: u64, coinbase: Address, anchor: u64, gasLimit: u64,
                                         transactions: seq<Tx>)

  type Manifest = seq<ManifestBlock>

  /** The part of the parent header that derivation reads, and the parent's anchor. */
  datatype Parent = Parent(number: u64, time: u64, gasLimit: u64, anchor: u64)

  datatype Proposal = Proposal(timestamp: u64, proposer: Address, origin: u64)

  /**
   Chain rules.  parse stands for the payload framing, decompression and RLP decoding of the
   concatenated blob contents from an offset on.
   */
  datatype Rules = Rules(chainId: u64, forkTimestamp: u64, maxBlocks: nat,
                         parse: (seq<byte>, u64) -> Option<Manifest>)

  datatype Source = Source(forced: bool, hasBlobs: bool, offset: u64, blobs: seq<seq<byte>>)

  datatype DerivationError = MissingBlobData | BlobLength

  /** A source after its blobs were decoded: what it says, or why its host is at fault. */
  datatype Decoded = Decoded(forced: bool, content: Result<Manifest, DerivationError>)

  // ---------- Decoding a source ----------

  function DefaultBlock(): ManifestBlock {
    ManifestBlock(0, 0, 0, 0, [])
  }

  function DefaultManifest(): Manifest {
    [DefaultBlock()]
  }

  predicate IsDefault(m: Manifest) {
    m == DefaultManifest()
  }

  ghost function Contents(blobs: seq<seq<byte>>): Option<seq<byte>> {
    if blobs == [] then Some([])
    else
      var front := Contents(blobs[..|blobs| - 1]);
      var last := DecodeBlob(blobs[|blobs| - 1]);
      if front.Some? && last.Ok? then Some(front.value + last.value) else None
  }

  /** A wrong blob length is the host's fault; bad content is the proposal's and yields the default. */
  ghost function BlobManifest(blobs: seq<seq<byte>>, offset: u64, rules: Rules): Result<Manifest, DerivationError> {
    if blobs == [] then Err(MissingBlobData)
    else if exists i :: 0 <= i < |blobs| && |blobs[i]| != BYTES_PER_BLOB then Err(BlobLength)
    else
      var content := Contents(blobs);
      if content.None? then Ok(DefaultManifest())
      else
        var m := rules.parse(content.value, offset);
        if m.None? || |m.value| > rules.maxBlocks then Ok(DefaultManifest()) else Ok(m.value)
  }

  ghost function SourceContent(source: Source, rules: Rules): Result<Manifest, DerivationError> {
    if !source.hasBlobs || source.offset > MAX_MANIFEST_OFFSET then Ok(DefaultManifest())
    else BlobManifest(source.blobs, source.offset, rules)
  }

  ghost function Decode(source: Source, rules: Rules): Decoded {
    Decoded(source.forced, SourceContent(source, rules))
  }

  lemma {:induction false} ContentsFail(blobs: seq<seq<byte>>, i: nat)
    requires i < |blobs| && DecodeBlob(blobs[i]).Err?
    ensures Contents(blobs) == None
  {
    if i < |blobs| - 1 {
      ContentsFail(blobs[..|blobs| - 1], i);
    }
  }

  method DecodeBlobBacked(blobs: seq<seq<byte>>, offset: u64, rules: Rules)
    returns (r: Result<Manifest, DerivationError>)
    ensures r == BlobManifest(blobs, offset, rules)
  {
    if |blobs| == 0 {
      return Err(MissingBlobData);
    }
    for i := 0 to |blobs|
      invariant forall j :: 0 <= j < i ==> |blobs[j]| == BYTES_PER_BLOB
    {
      if |blobs[i]| != BYTES_PER_BLOB {
        return Err(BlobLength);
      }
    }
    var concatenated: seq<byte> := [];
    for i := 0 to |blobs|
      invariant Contents(blobs[..i]) == Some(concatenated)
    {
      var decoded := DecodeShastaBlob(blobs[i]);
      if decoded.Err? {
        ContentsFail(blobs, i);
        return Ok(DefaultManifest());
      }
      assert blobs[..i + 1][..i] == blobs[..i];
      concatenated := concatenated + decoded.value;
    }
    assert blobs[..|blobs|] == blobs;
    var m := rules.parse(concatenated, offset);
    if m.None? || |m.value| > rules.maxBlocks {
      return Ok(DefaultManifest());
    }
    return Ok(m.value);
  }

  // ---------- Inherited metadata ----------

  function TimestampWindow(chainId: u64): u64 {
    if chainId == MAINNET_CHAIN_ID then 12 * 512 else 12 * 128
  }

  function TimestampLowerBound(parentTime: u64, proposalTime: u64, rules: Rules): u64 {
    var window := TimestampWindow(rules.chainId);
    var lower := WrapAdd(parentTime, 1);
    var windowed := if proposalTime > window && lower < proposalTime - window then proposalTime - window else lower;
    if windowed < rules.forkTimestamp then rules.forkTimestamp else windowed
  }

  function EffectiveGasLimit(parentNumber: u64, parentGasLimit: u64): u64 {
    if parentNumber == 0 then parentGasLimit
    else if parentGasLimit < ANCHOR_GAS_LIMIT then 0
    else parentGasLimit - ANCHOR_GAS_LIMIT
  }

  function InheritedBlock(block: ManifestBlock, timestamp: u64, parent: Parent, proposal: Proposal): ManifestBlock {
    block.(timestamp := timestamp, coinbase := proposal.proposer, anchor := parent.anchor,
           gasLimit := EffectiveGasLimit(parent.number, parent.gasLimit))
  }

  /** The blocks of m with the metadata they inherit when the last block before them is at time. */
  function Inherited(m: Manifest, time: u64, parent: Parent, proposal: Proposal, rules: Rules): (r: Manifest)
    ensures |r| == |m|
  {
    if m == [] then []
    else
      var timestamp := TimestampLowerBound(time, proposal.timestamp, rules);
      [InheritedBlock(m[0], timestamp, parent, proposal)] + Inherited(m[1..], timestamp, parent, proposal, rules)
  }

  lemma InheritedStep(m: Manifest, index: nat, time: u64, parent: Parent, proposal: Proposal, rules: Rules)
    requires index < |m|
    ensures var timestamp := TimestampLowerBound(time, proposal.timestamp, rules);
            Inherited(m[index..], time, parent, proposal, rules)
            == [InheritedBlock(m[index], timestamp, parent, proposal)]
               + Inherited(m[index + 1..], timestamp, parent, proposal, rules)
  {
    assert m[index..][1..] == m[index + 1..];
  }

  method ApplyInheritedMetadata(blocks: array<ManifestBlock>, parent: Parent, proposal: Proposal, rules: Rules)
    modifies blocks
    ensures blocks[..] == Inherited(old(blocks[..]), parent.time, parent, proposal, rules)
  {
    ghost var was := blocks[..];
    ghost var goal := Inherited(was, parent.time, parent, proposal, rules);
    var parentTime := parent.time;
    var parentGasLimit := EffectiveGasLimit(parent.number, parent.gasLimit);
    var index := 0;
    assert was[0..] == was;
    while index < blocks.Length
      invariant 0 <= index <= blocks.Length
      invariant forall j :: index <= j < blocks.Length ==> blocks[j] == was[j]
      invariant goal == blocks[..index] + Inherited(was[index..], parentTime, parent, proposal, rules)
    {
      var timestamp := TimestampLowerBound(parentTime, proposal.timestamp, rules);
      InheritedStep(was, index, parentTime, parent, proposal, rules);
      ghost var done := blocks[..index];
      blocks[index] := blocks[index].(timestamp := timestamp, coinbase := proposal.proposer,
                                      anchor := parent.anchor, gasLimit := parentGasLimit);
      assert blocks[..index + 1] == done + [InheritedBlock(was[index], timestamp, parent, proposal)];
      parentTime := timestamp;
      index := index + 1;
    }
    assert blocks[..blocks.Length] == blocks[..];
  }

  // ---------- The three checks ----------

  function PreviousTime(m: Manifest, i: nat, parentTime: u64): u64
    requires i < |m|
  {
    if i == 0 then parentTime else m[i - 1].timestamp
  }

  function PreviousGas(m: Manifest, i: nat, gas: u64): u64
    requires i < |m|
  {
    if i == 0 then gas else m[i - 1].gasLimit
  }

  predicate TimestampFits(previous: u64, timestamp: u64, proposalTime: u64, rules: Rules) {
    TimestampLowerBound(previous, proposalTime, rules) <= timestamp <= proposalTime
  }

  ghost predicate TimestampsOk(m: Manifest, parentTime: u64, proposalTime: u64, rules: Rules) {
    forall i: nat {:trigger PreviousTime(m, i, parentTime)} :: i < |m| ==>
      TimestampFits(PreviousTime(m, i, parentTime), m[i].timestamp, proposalTime, rules)
  }

  lemma TimestampsSnoc(m: Manifest, block: ManifestBlock, parentTime: u64, proposalTime: u64, rules: Rules)
    requires TimestampsOk(m, parentTime, proposalTime, rules)
    requires TimestampFits(if |m| == 0 then parentTime else m[|m| - 1].timestamp, block.timestamp, proposalTime, rules)
    ensures TimestampsOk(m + [block], parentTime, proposalTime, rules)
  {
    var n := m + [block];
    forall i: nat | i < |n| ensures TimestampFits(PreviousTime(n, i, parentTime), n[i].timestamp, proposalTime, rules) {
      if i < |m| {
        assert TimestampFits(PreviousTime(m, i, parentTime), m[i].timestamp, proposalTime, rules);
      }
    }
  }

  method ValidateTimestamps(m: Manifest, parentTimestamp: u64, proposalTime: u64, rules: Rules) returns (ok: bool)
    ensures ok <==> TimestampsOk(m, parentTimestamp, proposalTime, rules)
  {
    var parentTime := parentTimestamp;
    for i := 0 to |m|
      invariant parentTime == if i == 0 then parentTimestamp else m[i - 1].timestamp
      invariant TimestampsOk(m[..i], parentTimestamp, proposalTime, rules)
    {
      var lower := TimestampLowerBound(parentTime, proposalTime, rules);
      if lower > proposalTime || m[i].timestamp < lower || m[i].timestamp > proposalTime {
        assert !TimestampFits(PreviousTime(m, i, parentTimestamp), m[i].timestamp, proposalTime, rules);
        return false;
      }
      TimestampsSnoc(m[..i], m[i], parentTimestamp, proposalTime, rules);
      assert m[..i + 1] == m[..i] + [m[i]];
      parentTime := m[i].timestamp;
    }
    assert m[..|m|] == m;
    return true;
  }

  function AnchorMaxOffset(chainId: u64): u64 {
    if chainId == MAINNET_CHAIN_ID then 512 else 128
  }

  function MinAnchor(origin: u64, chainId: u64): u64 {
    if origin > AnchorMaxOffset(chainId) then origin - AnchorMaxOffset(chainId) else 0
  }

  function Anchors(m: Manifest): (a: seq<u64>)
    ensures |a| == |m|
    ensures forall i :: 0 <= i < |m| ==> a[i] == m[i].anchor
  {
    seq(|m|, i requires 0 <= i < |m| => m[i].anchor)
  }

  /** Non-empty, not below the last anchor, inside the origin's window, never going back. */
  ghost predicate ProgressionOk(anchors: seq<u64>, lastAnchor: u64, origin: u64, chainId: u64) {
    && anchors != []
    && (forall i :: 0 <= i < |anchors| ==>
          lastAnchor <= anchors[i] && MinAnchor(origin, chainId) <= anchors[i] <= origin)
    && (forall i, j :: 0 <= i < j < |anchors| ==> anchors[i] <= anchors[j])
  }

  method ValidateAnchorProgression(anchors: seq<u64>, lastAnchor: u64, origin: u64, chainId: u64) returns (ok: bool)
    ensures ok <==> ProgressionOk(anchors, lastAnchor, origin, chainId)
  {
    if |anchors| == 0 {
      return false;
    }
    var minAnchor := MinAnchor(origin, chainId);
    var previous: Option<u64> := None;
    for i := 0 to |anchors|
      invariant previous == if i == 0 then None else Some(anchors[i - 1])
      invariant forall j :: 0 <= j < i ==> lastAnchor <= anchors[j] && minAnchor <= anchors[j] <= origin
      invariant forall j, k :: 0 <= j < k < i ==> anchors[j] <= anchors[k]
    {
      var anchor := anchors[i];
      if anchor < lastAnchor {
        return false;
      }
      if anchor < minAnchor || anchor > origin {
        return false;
      }
      if previous.Some? && anchor < previous.value {
        return false;
      }
      previous := Some(anchor);
    }
    return true;
  }

  ghost predicate AnchorsOk(m: Manifest, origin: u64, parentAnchor: u64, forced: bool, chainId: u64) {
    if forced then forall i :: 0 <= i < |m| ==> m[i].anchor == parentAnchor
    else
      && ProgressionOk(Anchors(m), parentAnchor, origin, chainId)
      && exists i :: 0 <= i < |m| && m[i].anchor > parentAnchor
  }

  method ValidateAnchorNumbers(m: Manifest, origin: u64, parentAnchor: u64, forced: bool, chainId: u64)
    returns (ok: bool)
    ensures ok <==> AnchorsOk(m, origin, parentAnchor, forced, chainId)
  {
    var anchors: seq<u64> := [];
    for i := 0 to |m|
      invariant anchors == Anchors(m[..i])
    {
      anchors := anchors + [m[i].anchor];
      assert anchors == Anchors(m[..i + 1]);
    }
    assert m[..|m|] == m;
    if forced {
      for i := 0 to |anchors|
        invariant forall j :: 0 <= j < i ==> anchors[j] == parentAnchor
      {
        if anchors[i] != parentAnchor {
          return false;
        }
      }
      return true;
    }
    var progressing := ValidateAnchorProgression(anchors, parentAnchor, origin, chainId);
    if !progressing {
      return false;
    }
    var highest := parentAnchor;
    for i := 0 to |anchors|
      invariant highest >= parentAnchor
      invariant forall j :: 0 <= j < i ==> anchors[j] <= highest
      invariant highest == parentAnchor || exists j :: 0 <= j < i && anchors[j] == highest
    {
      if anchors[i] > highest {
        highest := anchors[i];
      }
    }
    return highest > parentAnchor;
  }

  /** A block may move its parent's limit by 200 parts in a million, rounded down,
      and only within 10 million .. 45 million. */
  function GasUpperBound(g: u64): u64 {
    var upper := g * 1_000_200 / 1_000_000;
    if upper > 45_000_000 then 45_000_000 else upper
  }

  function GasLowerBound(g: u64): u64 {
    var lower := g * 999_800 / 1_000_000;
    var floored := if lower < 10_000_000 then 10_000_000 else lower;
    if floored > GasUpperBound(g) then GasUpperBound(g) else floored
  }

  predicate GasLimitFits(previous: u64, gasLimit: u64) {
    GasLowerBound(previous) <= gasLimit <= GasUpperBound(previous)
  }

  ghost predicate GasLimitsOk(m: Manifest, gas: u64) {
    forall i: nat {:trigger PreviousGas(m, i, gas)} :: i < |m| ==>
      GasLimitFits(PreviousGas(m, i, gas), m[i].gasLimit)
  }

  lemma GasLimitsSnoc(m: Manifest, block: ManifestBlock, gas: u64)
    requires GasLimitsOk(m, gas)
    requires GasLimitFits(if |m| == 0 then gas else m[|m| - 1].gasLimit, block.gasLimit)
    ensures GasLimitsOk(m + [block], gas)
  {
    var n := m + [block];
    forall i: nat | i < |n| ensures GasLimitFits(PreviousGas(n, i, gas), n[i].gasLimit) {
      if i < |m| {
        assert GasLimitFits(PreviousGas(m, i, gas), m[i].gasLimit);
      }
    }
  }

  method ValidateGasLimits(m: Manifest, parentNumber: u64, parentGasLimit: u64) returns (ok: bool)
    ensures ok <==> GasLimitsOk(m, EffectiveGasLimit(parentNumber, parentGasLimit))
  {
    ok := ValidateGasLimitsFrom(m, EffectiveGasLimit(parentNumber, parentGasLimit));
  }

  method ValidateGasLimitsFrom(m: Manifest, start: u64) returns (ok: bool)
    ensures ok <==> GasLimitsOk(m, start)
  {
    var effective := start;
    for i := 0 to |m|
      invariant effective == if i == 0 then start else m[i - 1].gasLimit
      invariant GasLimitsOk(m[..i], start)
    {
      if !GasLimitFits(effective, m[i].gasLimit) {
        assert !GasLimitFits(PreviousGas(m, i, start), m[i].gasLimit);
        return false;
      }
      GasLimitsSnoc(m[..i], m[i], start);
      assert m[..i + 1] == m[..i] + [m[i]];
      effective := m[i].gasLimit;
    }
    assert m[..|m|] == m;
    return true;
  }

  ghost predicate SourceOk(m: Manifest, forced: bool, parent: Parent, proposal: Proposal, rules: Rules) {
    && m != []
    && TimestampsOk(m, parent.time, proposal.timestamp, rules)
    && AnchorsOk(m, proposal.origin, parent.anchor, forced, rules.chainId)
    && GasLimitsOk(m, EffectiveGasLimit(parent.number, parent.gasLimit))
  }

  method ValidateSourceManifest(m: Manifest, forced: bool, parent: Parent, proposal: Proposal, rules: Rules)
    returns (ok: bool)
    ensures ok <==> SourceOk(m, forced, parent, proposal, rules)
  {
    if |m| == 0 {
      return false;
    }
    ok := ValidateTimestamps(m, parent.time, proposal.timestamp, rules);
    if ok {
      ok := ValidateAnchorNumbers(m, proposal.origin, parent.anchor, forced, rules.chainId);
    }
    if ok {
      ok := ValidateGasLimits(m, parent.number, parent.gasLimit);
    }
  }

  // ---------- Preparing a source ----------

  /** The one block a source falls back to. */
  function InheritedDefault(parent: Parent, proposal: Proposal, rules: Rules): Manifest {
    Inherited(DefaultManifest(), parent.time, parent, proposal, rules)
  }

  /** What a decoded source proposes, before it is checked. */
  function Proposed(content: Manifest, forced: bool, parent: Parent, proposal: Proposal, rules: Rules): Manifest {
    var m := if forced && |content| != 1 then DefaultManifest() else content;
    if forced || IsDefault(m) then Inherited(m, parent.time, parent, proposal, rules) else m
  }

  ghost function Prepared(source: Decoded, parent: Parent, proposal: Proposal, rules: Rules)
    : Result<Manifest, DerivationError>
  {
    match source.content
    case Err(e) => Err(e)
    case Ok(content) =>
      var m := Proposed(content, source.forced, parent, proposal, rules);
      Ok(if SourceOk(m, source.forced, parent, proposal, rules) then m else InheritedDefault(parent, proposal, rules))
  }

  method InheritInto(m: Manifest, parent: Parent, proposal: Proposal, rules: Rules) returns (r: Manifest)
    ensures r == Inherited(m, parent.time, parent, proposal, rules)
  {
    var blocks := new ManifestBlock[|m|](i requires 0 <= i < |m| => m[i]);
    assert blocks[..] == m;
    ApplyInheritedMetadata(blocks, parent, proposal, rules);
    r := blocks[..];
  }

  method PrepareSourceManifest(source: Source, parent: Parent, proposal: Proposal, rules: Rules)
    returns (r: Result<Manifest, DerivationError>)
    ensures r == Prepared(Decode(source, rules), parent, proposal, rules)
  {
    var manifest := DefaultManifest();
    if source.hasBlobs && source.offset <= MAX_MANIFEST_OFFSET {
      var decoded := DecodeBlobBacked(source.blobs, source.offset, rules);
      if decoded.Err? {
        return Err(decoded.error);
      }
      manifest := decoded.value;
    }
    if source.forced && |manifest| != 1 {
      manifest := DefaultManifest();
    }
    if source.forced || IsDefault(manifest) {
      manifest := InheritInto(manifest, parent, proposal, rules);
    }
    var ok := ValidateSourceManifest(manifest, source.forced, parent, proposal, rules);
    if !ok {
      manifest := InheritInto(DefaultManifest(), parent, proposal, rules);
    }
    return Ok(manifest);
  }
}
