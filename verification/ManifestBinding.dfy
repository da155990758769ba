/**
 The binding of a guest input: its carry describes the proposal, its blocks are those derived from
 the proposal's sources, each body is what the transaction filter leaves, and the checkpoints that
 the anchor transactions write are linked to L1.
 */
module ManifestBinding {
  import opened Wrappers
  import opened Words
  import opened Headers
  import opened Environment
  import opened Derivation
  import opened DerivationFold
  import opened AnchorLinkage
  import BlockReplay
  import Carries
  import Execution
  import TxFilter

  // ---------- One block ----------

  /** The filter on a derived block's transactions, behind the block's own anchor, from its own witness state. */
  ghost function FilterOutcome(replay: Replay, manifestTxs: seq<Execution.Tx>, chainId: u64, m: Machine)
    : Option<TxFilter.Outcome>
  {
    if replay.block.transactions == [] then None
    else
      match BlockReplay.StartOf(replay, chainId, m)
      case None => None
      case Some(start) =>
        var candidates := [replay.block.transactions[0]] + TxFilter.Eligible(start.env, manifestTxs);
        match TxFilter.Filter(start.env, start.pools, candidates, start.witnessError)
        case Err(_) => None
        case Ok(o) => Some(o)
  }

  /** What the filter leaves of the transactions. */
  ghost function FilteredBody(replay: Replay, manifestTxs: seq<Execution.Tx>, chainId: u64, m: Machine)
    : Option<seq<Execution.Tx>>
  {
    match FilterOutcome(replay, manifestTxs, chainId, m)
    case None => None
    case Some(o) => Some(o.kept)
  }

  method FilterManifestTransactions(replay: Replay, manifestTxs: seq<Execution.Tx>, chainId: u64, m: Machine)
    returns (r: Option<seq<Execution.Tx>>)
    ensures r == FilteredBody(replay, manifestTxs, chainId, m)
  {
    if |replay.block.transactions| == 0 {
      return None;
    }
    match BlockReplay.StartOf(replay, chainId, m)
    case None => return None;
    case Some(start) =>
      var candidates := TxFilter.CandidateTransactions(start.env, replay.block.transactions[0], manifestTxs);
      var x := new Execution.BlockExecution(start.env, start.pools, start.witnessError);
      var kept := TxFilter.CommitFiltered(x, candidates);
      match kept
      case Err(_) => return None;
      case Ok(txs) => return Some(txs);
  }

  ghost predicate BodyFits(replay: Replay, expected: ManifestBlock, chainId: u64, m: Machine) {
    var body := FilteredBody(replay, expected.transactions, chainId, m);
    body.Some? && m.txRoot(body.value) == replay.block.header.txRoot
  }

  /** The header carries the derived metadata and whatever else the proposal and the parent fix. */
  predicate HeaderFits(gi: GuestInput, header: Header, expected: ManifestBlock, parent: Header,
                       grandparent: Option<Header>, m: Machine)
  {
    && m.headerRulesOk(gi.chainId, header, parent, grandparent)
    && header.time == expected.timestamp
    && header.coinbase == expected.coinbase
    && header.gasLimit == WrapAdd(expected.gasLimit, ANCHOR_GAS_LIMIT)
    && header.extra == m.extraData(gi.basefeeSharing, gi.proposalId)
    && header.mixDigest == m.mixHash(parent, header.number)
  }

  /** The checkpoint that a block's anchor transaction writes, when the block fits. */
  ghost function BoundCheckpoint(gi: GuestInput, raw: RawBlock, expected: ManifestBlock, parent: Header,
                                 grandparent: Option<Header>, m: Machine): Option<Checkpoint>
  {
    match m.decode(raw)
    case None => None
    case Some(replay) =>
      if !HeaderFits(gi, replay.block.header, expected, parent, grandparent, m)
         || !BodyFits(replay, expected, gi.chainId, m) then None
      else
        match m.anchorCheckpoint(gi.chainId, replay.block.transactions[0], replay.block.header)
        case None => None
        case Some(cp) => if cp.number <= UINT48_MAX && cp.number == expected.anchor then Some(cp) else None
  }

  method ValidateBlockBinding(gi: GuestInput, raw: RawBlock, expected: ManifestBlock, parent: Header,
                              grandparent: Option<Header>, m: Machine)
    returns (r: Option<Checkpoint>)
    ensures r == BoundCheckpoint(gi, raw, expected, parent, grandparent, m)
  {
    match m.decode(raw)
    case None => return None;
    case Some(replay) =>
      var header := replay.block.header;
      if |replay.block.transactions| == 0 {
        return None;
      }
      if !m.headerRulesOk(gi.chainId, header, parent, grandparent) {
        return None;
      }
      var body := FilterManifestTransactions(replay, expected.transactions, gi.chainId, m);
      if body.None? || m.txRoot(body.value) != header.txRoot {
        return None;
      }
      if header.time != expected.timestamp {
        return None;
      }
      if header.coinbase != expected.coinbase {
        return None;
      }
      if header.gasLimit != WrapAdd(expected.gasLimit, ANCHOR_GAS_LIMIT) {
        return None;
      }
      if header.extra != m.extraData(gi.basefeeSharing, gi.proposalId) {
        return None;
      }
      if header.mixDigest != m.mixHash(parent, header.number) {
        return None;
      }
      match m.anchorCheckpoint(gi.chainId, replay.block.transactions[0], header)
      case None => return None;
      case Some(cp) =>
        if cp.number > UINT48_MAX {
          return None;
        }
        if cp.number != expected.anchor {
          return None;
        }
        return Some(cp);
  }

  // ---------- All blocks ----------

  /** The header that block i is bound to: the proposal's parent, then each block's own predecessor. */
  ghost function ParentAt(gi: GuestInput, raws: seq<RawBlock>, i: nat, m: Machine): Header
    requires i <= |raws|
  {
    if i == 0 || m.decode(raws[i - 1]).None? then gi.parent else m.decode(raws[i - 1]).value.block.header
  }

  ghost function GrandparentAt(gi: GuestInput, raws: seq<RawBlock>, i: nat, m: Machine): Option<Header>
    requires i <= |raws|
  {
    if i == 0 then gi.grandparent else Some(ParentAt(gi, raws, i - 1, m))
  }

  ghost function CheckpointAt(gi: GuestInput, raws: seq<RawBlock>, blocks: Manifest, i: nat, m: Machine): Option<Checkpoint>
    requires i < |raws| == |blocks|
  {
    BoundCheckpoint(gi, raws[i], blocks[i], ParentAt(gi, raws, i, m), GrandparentAt(gi, raws, i, m), m)
  }

  /** The checkpoints of the first n blocks. */
  ghost function Checkpoints(gi: GuestInput, raws: seq<RawBlock>, blocks: Manifest, n: nat, m: Machine)
    : (r: Option<seq<Checkpoint>>)
    requires n <= |raws| == |blocks|
    ensures r.Some? ==> |r.value| == n
    ensures r.Some? ==> forall i :: 0 <= i < n ==> CheckpointAt(gi, raws, blocks, i, m) == Some(r.value[i])
    ensures r.None? ==> exists i :: 0 <= i < n && CheckpointAt(gi, raws, blocks, i, m) == None
  {
    if n == 0 then Some([])
    else
      match Checkpoints(gi, raws, blocks, n - 1, m)
      case None => None
      case Some(front) =>
        match CheckpointAt(gi, raws, blocks, n - 1, m)
        case None => None
        case Some(cp) => Some(front + [cp])
  }

  lemma CheckpointsStop(gi: GuestInput, raws: seq<RawBlock>, blocks: Manifest, i: nat, m: Machine)
    requires i < |raws| == |blocks| && CheckpointAt(gi, raws, blocks, i, m) == None
    ensures Checkpoints(gi, raws, blocks, |raws|, m) == None
  {
  }

  lemma CheckpointsSnoc(gi: GuestInput, raws: seq<RawBlock>, blocks: Manifest, i: nat, front: seq<Checkpoint>, cp: Checkpoint,
                        m: Machine)
    requires i < |raws| == |blocks|
    requires Checkpoints(gi, raws, blocks, i, m) == Some(front) && CheckpointAt(gi, raws, blocks, i, m) == Some(cp)
    ensures Checkpoints(gi, raws, blocks, i + 1, m) == Some(front + [cp])
    ensures m.decode(raws[i]).Some?
    ensures ParentAt(gi, raws, i + 1, m) == m.decode(raws[i]).value.block.header
  {
  }

  method BindBlocks(gi: GuestInput, raws: seq<RawBlock>, blocks: Manifest, m: Machine)
    returns (r: Option<seq<Checkpoint>>)
    requires |raws| == |blocks|
    ensures r == Checkpoints(gi, raws, blocks, |raws|, m)
  {
    var parent, grandparent := gi.parent, gi.grandparent;
    var checkpoints: seq<Checkpoint> := [];
    for index := 0 to |raws|
      invariant parent == ParentAt(gi, raws, index, m) && grandparent == GrandparentAt(gi, raws, index, m)
      invariant Checkpoints(gi, raws, blocks, index, m) == Some(checkpoints)
    {
      var bound := ValidateBlockBinding(gi, raws[index], blocks[index], parent, grandparent, m);
      assert bound == CheckpointAt(gi, raws, blocks, index, m);
      match bound
      case None =>
        CheckpointsStop(gi, raws, blocks, index, m);
        return None;
      case Some(cp) =>
        CheckpointsSnoc(gi, raws, blocks, index, checkpoints, cp, m);
        checkpoints := checkpoints + [cp];
        grandparent := Some(parent);
        parent := m.decode(raws[index]).value.block.header;
    }
    return Some(checkpoints);
  }

  // ---------- The whole binding ----------

  /** The widths that decoding enforces; a list is shorter than 2^63, as every slice is. */
  predicate GuestInputFits(gi: GuestInput) {
    && gi.proposalId <= UINT48_MAX
    && gi.proposal.timestamp <= UINT48_MAX
    && gi.proposal.origin <= UINT48_MAX
    && |gi.l1Ancestors| <= U64_RANGE / 2
  }

  function SourcesOf(gi: GuestInput): (s: seq<Source>)
    requires |gi.dataSources| == |gi.heads|
    ensures |s| == |gi.heads|
  {
    seq(|gi.heads|, i requires 0 <= i < |gi.heads| =>
      Source(gi.heads[i].forced, gi.heads[i].hasBlobs, gi.heads[i].offset, gi.dataSources[i]))
  }

  function ParentOf(gi: GuestInput, lastAnchor: u64): Parent {
    Parent(gi.parent.number, gi.parent.time, gi.parent.gasLimit, lastAnchor)
  }

  function RulesOf(gi: GuestInput, config: (u64, nat), m: Machine): Rules {
    Rules(gi.chainId, config.0, config.1, m.parse)
  }

  function AnchoringOf(gi: GuestInput, raws: seq<RawBlock>, taiko: Taiko, lastAnchor: u64, m: Machine): Anchoring {
    Anchoring(gi.proposal.origin, gi.originHash, gi.chainId, lastAnchor, m.parentCheckpoint(taiko, raws, lastAnchor))
  }

  /** What the proposal stands for: its sources, decoded and derived from its parent. */
  ghost function DerivationOf(gi: GuestInput, lastAnchor: u64, rules: Rules): Result<Derived, DerivationError>
    requires |gi.dataSources| == |gi.heads|
  {
    Derive(DecodeAll(SourcesOf(gi), rules), ParentOf(gi, lastAnchor), gi.proposal, rules)
  }

  /** The blocks are those of the derivation, and their checkpoints are linked. */
  ghost predicate BlocksBound(gi: GuestInput, d: Derived, raws: seq<RawBlock>, taiko: Taiko, lastAnchor: u64, m: Machine) {
    && |d.blocks| == |raws|
    && SourceAwareOk(Anchors(d.blocks), d.spans, lastAnchor, gi.proposal.origin, gi.chainId)
    && Checkpoints(gi, raws, d.blocks, |raws|, m).Some?
    && LinkageOk(gi.l1Header, gi.l1Ancestors, Checkpoints(gi, raws, d.blocks, |raws|, m).value, d.spans,
                 AnchoringOf(gi, raws, taiko, lastAnchor, m), m.hashOf)
  }

  ghost predicate ManifestOk(gi: GuestInput, parentBlockHash: Word, raws: seq<RawBlock>, taiko: Taiko, m: Machine) {
    && gi.heads != []
    && |gi.dataSources| == |gi.heads|
    && m.hashOf(gi.parent) == parentBlockHash
    && m.lastAnchor(taiko).Some?
    && m.derivationConfig(gi.chainId, gi.proposal.timestamp).Some?
    && var lastAnchor := m.lastAnchor(taiko).value;
       var rules := RulesOf(gi, m.derivationConfig(gi.chainId, gi.proposal.timestamp).value, m);
       var derived := DerivationOf(gi, lastAnchor, rules);
       derived.Ok? && BlocksBound(gi, derived.value, raws, taiko, lastAnchor, m)
  }

  method ValidateManifestBinding(gi: GuestInput, parentBlockHash: Word, raws: seq<RawBlock>, taiko: Taiko, m: Machine)
    returns (ok: bool)
    ensures ok <==> ManifestOk(gi, parentBlockHash, raws, taiko, m)
  {
    if |gi.heads| == 0 {
      return false;
    }
    if |gi.dataSources| != |gi.heads| {
      return false;
    }
    if m.hashOf(gi.parent) != parentBlockHash {
      return false;
    }
    if m.lastAnchor(taiko).None? {
      return false;
    }
    var lastAnchor := m.lastAnchor(taiko).value;
    var config := m.derivationConfig(gi.chainId, gi.proposal.timestamp);
    if config.None? {
      return false;
    }
    var rules := RulesOf(gi, config.value, m);
    var derived := DeriveProposal(SourcesOf(gi), ParentOf(gi, lastAnchor), gi.proposal, rules, |raws|);
    if derived.Err? {
      return false;
    }
    var d := derived.value;
    assert DerivationOf(gi, lastAnchor, rules) == Ok(d);
    var checkpoints := BindBlocks(gi, raws, d.blocks, m);
    if checkpoints.None? {
      return false;
    }
    ok := ValidateAnchorL1Linkage(gi.l1Header, gi.l1Ancestors, checkpoints.value, d.spans,
                                  AnchoringOf(gi, raws, taiko, lastAnchor, m), m.hashOf);
  }

  // ---------- The carry ----------

  /** carryRestOk covers the proposal hashes, the prover, the end blocks and the blob commitments. */
  predicate CarryDescribes(carry: Carries.Carry, gi: GuestInput, raws: seq<RawBlock>, taiko: Taiko, m: Machine) {
    && gi.chainId != 0
    && carry.chainId == gi.chainId
    && carry.input.proposalId == gi.proposalId
    && carry.input.transition == Carries.Transition(gi.proposal.proposer, gi.proposal.timestamp)
    && m.carryRestOk(carry, raws, taiko)
  }

  ghost predicate GuestInputOk(carry: Carries.Carry, raws: seq<RawBlock>, taiko: Taiko, ancestors: ProposalAncestors,
                               m: Machine)
  {
    && m.guestInput(taiko, raws, ancestors).Some?
    && var gi := m.guestInput(taiko, raws, ancestors).value;
       && GuestInputFits(gi)
       && CarryDescribes(carry, gi, raws, taiko, m)
       && ManifestOk(gi, carry.input.parentBlockHash, raws, taiko, m)
  }

  method ValidateGuestInput(carry: Carries.Carry, raws: seq<RawBlock>, taiko: Taiko, ancestors: ProposalAncestors, m: Machine)
    returns (ok: bool)
    ensures ok <==> GuestInputOk(carry, raws, taiko, ancestors, m)
  {
    match m.guestInput(taiko, raws, ancestors)
    case None => return false;
    case Some(gi) =>
      if !GuestInputFits(gi) {
        return false;
      }
      if !CarryDescribes(carry, gi, raws, taiko, m) {
        return false;
      }
      ok := ValidateManifestBinding(gi, carry.input.parentBlockHash, raws, taiko, m);
  }
}
