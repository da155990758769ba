/**
 What the binding of a guest input accepts, field by field: which blocks are bound to which derived
 blocks, and everything that ties a request to its proposal.
 */
module BindingMeaning {
  import opened Wrappers
  import opened Words
  import opened Headers
  import opened Environment
  import opened Derivation
  import opened DerivationFold
  import opened AnchorLinkage
  import opened ManifestBinding
  import opened Requests
  import BlockReplay
  import Carries
  import Execution
  import TxFilter

  // ---------- One block ----------

  /** What the filter leaves behind the block's own anchor, on the state that the block's witness opens. */
  ghost predicate Leaves(replay: Replay, manifestTxs: seq<Execution.Tx>, chainId: u64, m: Machine, kept: seq<Execution.Tx>) {
    var header := replay.block.header;
    var start := m.start(chainId, replay.(block := replay.block.(header := header.(root := 0, receiptsRoot := 0, difficulty := 0))));
    && replay.block.transactions != []
    && start.Some?
    && var env := start.value.env.(unzen := m.unzen(chainId, header.time), taiko := true);
       var outcome := TxFilter.Filter(env, start.value.pools,
                                      [replay.block.transactions[0]] + TxFilter.Eligible(env, manifestTxs),
                                      start.value.witnessError);
       outcome.Ok? && outcome.value.kept == kept
  }

  lemma LeavesMeaning(replay: Replay, manifestTxs: seq<Execution.Tx>, chainId: u64, m: Machine, kept: seq<Execution.Tx>)
    ensures FilteredBody(replay, manifestTxs, chainId, m) == Some(kept) <==> Leaves(replay, manifestTxs, chainId, m, kept)
  {
  }

  /** The header's own body root is that of what the filter leaves. */
  ghost predicate CommitsToFiltered(replay: Replay, manifestTxs: seq<Execution.Tx>, chainId: u64, m: Machine) {
    exists kept :: Leaves(replay, manifestTxs, chainId, m, kept) && m.txRoot(kept) == replay.block.header.txRoot
  }

  /** The block carries the derived block's metadata, its body and its anchor's checkpoint. */
  ghost predicate Fits(gi: GuestInput, replay: Replay, expected: ManifestBlock, parent: Header, grandparent: Option<Header>,
                       m: Machine, cp: Checkpoint)
  {
    var header, transactions := replay.block.header, replay.block.transactions;
    && transactions != []
    && m.headerRulesOk(gi.chainId, header, parent, grandparent)
    && header.time == expected.timestamp
    && header.coinbase == expected.coinbase
    && header.gasLimit == (expected.gasLimit + 1_000_000) % 0x1_0000_0000_0000_0000
    && header.extra == m.extraData(gi.basefeeSharing, gi.proposalId)
    && header.mixDigest == m.mixHash(parent, header.number)
    && CommitsToFiltered(replay, expected.transactions, gi.chainId, m)
    && m.anchorCheckpoint(gi.chainId, transactions[0], header) == Some(cp)
    && cp.number == expected.anchor <= 0xffff_ffff_ffff
  }

  lemma BoundMeaning(gi: GuestInput, raw: RawBlock, expected: ManifestBlock, parent: Header, grandparent: Option<Header>,
                     m: Machine, cp: Checkpoint)
    ensures BoundCheckpoint(gi, raw, expected, parent, grandparent, m) == Some(cp) <==>
            m.decode(raw).Some? && Fits(gi, m.decode(raw).value, expected, parent, grandparent, m, cp)
  {
    hide FilteredBody, Leaves;
    if m.decode(raw).Some? {
      var replay := m.decode(raw).value;
      forall kept
        ensures FilteredBody(replay, expected.transactions, gi.chainId, m) == Some(kept) <==>
                Leaves(replay, expected.transactions, gi.chainId, m, kept)
      {
        LeavesMeaning(replay, expected.transactions, gi.chainId, m, kept);
      }
      assert FilteredBody(replay, expected.transactions, gi.chainId, m).Some? ==> replay.block.transactions != [] by {
        BodyHasAnchor(replay, expected.transactions, gi.chainId, m);
      }
    }
  }

  lemma BodyHasAnchor(replay: Replay, manifestTxs: seq<Execution.Tx>, chainId: u64, m: Machine)
    ensures FilteredBody(replay, manifestTxs, chainId, m).Some? ==> replay.block.transactions != []
  {
  }

  // ---------- All blocks ----------

  /** Block i fits derived block i on the header before it; the first stands on the proposal's parent. */
  ghost predicate FitsAt(gi: GuestInput, raws: seq<RawBlock>, blocks: Manifest, checkpoints: seq<Checkpoint>, i: nat, m: Machine)
    requires i < |raws| == |blocks| == |checkpoints|
  {
    && m.decode(raws[i]).Some?
    && (i > 0 ==> m.decode(raws[i - 1]).Some?)
    && (i > 1 ==> m.decode(raws[i - 2]).Some?)
    && var parent := if i == 0 then gi.parent else m.decode(raws[i - 1]).value.block.header;
       var grandparent :=
         if i == 0 then gi.grandparent
         else if i == 1 then Some(gi.parent)
         else Some(m.decode(raws[i - 2]).value.block.header);
       Fits(gi, m.decode(raws[i]).value, blocks[i], parent, grandparent, m, checkpoints[i])
  }

  ghost predicate AllFit(gi: GuestInput, raws: seq<RawBlock>, blocks: Manifest, checkpoints: seq<Checkpoint>, m: Machine) {
    && |raws| == |blocks| == |checkpoints|
    && forall i: nat :: i < |raws| ==> FitsAt(gi, raws, blocks, checkpoints, i, m)
  }

  lemma {:induction false} CheckpointsFrom(gi: GuestInput, raws: seq<RawBlock>, blocks: Manifest, checkpoints: seq<Checkpoint>,
                                           n: nat, m: Machine)
    requires n <= |raws| == |blocks| == |checkpoints|
    requires forall i: nat :: i < |raws| ==> CheckpointAt(gi, raws, blocks, i, m) == Some(checkpoints[i])
    ensures Checkpoints(gi, raws, blocks, n, m) == Some(checkpoints[..n])
  {
    hide CheckpointAt;
    if n > 0 {
      CheckpointsFrom(gi, raws, blocks, checkpoints, n - 1, m);
      assert checkpoints[..n] == checkpoints[..n - 1] + [checkpoints[n - 1]];
    }
  }

  lemma FitsAtMeaning(gi: GuestInput, raws: seq<RawBlock>, blocks: Manifest, checkpoints: seq<Checkpoint>, i: nat, m: Machine)
    requires i < |raws| == |blocks| == |checkpoints|
    requires forall j :: 0 <= j < i ==> m.decode(raws[j]).Some?
    ensures FitsAt(gi, raws, blocks, checkpoints, i, m) <==> CheckpointAt(gi, raws, blocks, i, m) == Some(checkpoints[i])
  {
    hide Fits, BoundCheckpoint;
    BoundMeaning(gi, raws[i], blocks[i], ParentAt(gi, raws, i, m), GrandparentAt(gi, raws, i, m), m, checkpoints[i]);
  }

  /** The blocks are bound, with these checkpoints, exactly when each of them fits. */
  lemma AllBoundMeaning(gi: GuestInput, raws: seq<RawBlock>, blocks: Manifest, checkpoints: seq<Checkpoint>, m: Machine)
    requires |raws| == |blocks|
    ensures Checkpoints(gi, raws, blocks, |raws|, m) == Some(checkpoints) <==> AllFit(gi, raws, blocks, checkpoints, m)
  {
    hide Fits, BoundCheckpoint;
    if Checkpoints(gi, raws, blocks, |raws|, m) == Some(checkpoints) {
      forall i: nat | i < |raws| ensures m.decode(raws[i]).Some? {
        assert CheckpointAt(gi, raws, blocks, i, m) == Some(checkpoints[i]);
        BoundDecodes(gi, raws[i], blocks[i], ParentAt(gi, raws, i, m), GrandparentAt(gi, raws, i, m), m);
      }
      forall i: nat | i < |raws| ensures FitsAt(gi, raws, blocks, checkpoints, i, m) {
        FitsAtMeaning(gi, raws, blocks, checkpoints, i, m);
      }
    }
    if AllFit(gi, raws, blocks, checkpoints, m) {
      forall i: nat | i < |raws| ensures m.decode(raws[i]).Some? {
        assert FitsAt(gi, raws, blocks, checkpoints, i, m);
      }
      forall i: nat | i < |raws| ensures CheckpointAt(gi, raws, blocks, i, m) == Some(checkpoints[i]) {
        FitsAtMeaning(gi, raws, blocks, checkpoints, i, m);
      }
      CheckpointsFrom(gi, raws, blocks, checkpoints, |raws|, m);
      assert checkpoints[..|raws|] == checkpoints;
    }
  }

  lemma BoundDecodes(gi: GuestInput, raw: RawBlock, expected: ManifestBlock, parent: Header, grandparent: Option<Header>,
                     m: Machine)
    requires BoundCheckpoint(gi, raw, expected, parent, grandparent, m).Some?
    ensures m.decode(raw).Some?
  {
  }

  // ---------- The whole guest input ----------

  /** The decoded guest input of a request, its decoded sources, their derivation, and the blocks' checkpoints. */
  datatype Binding = Binding(ancestors: ProposalAncestors, gi: GuestInput, lastAnchor: u64, rules: Rules,
                             sources: seq<Decoded>, derived: Derived, checkpoints: seq<Checkpoint>)

  /** gi is the request's guest input, the carry is about its proposal, and its parent header is the carry's. */
  ghost predicate InputBound(c: Content, b: Binding, m: Machine) {
    && c.guestInput.Some? && |c.views| == |c.raws|
    && m.guestInput(c.guestInput.value, c.raws, b.ancestors) == Some(b.gi)
    && b.gi.proposalId <= 0xffff_ffff_ffff
    && b.gi.proposal.timestamp <= 0xffff_ffff_ffff
    && b.gi.proposal.origin <= 0xffff_ffff_ffff
    && |b.gi.l1Ancestors| <= 0x8000_0000_0000_0000
    && b.gi.chainId != 0
    && c.carry.chainId == b.gi.chainId
    && c.carry.input.proposalId == b.gi.proposalId
    && c.carry.input.transition.proposer == b.gi.proposal.proposer
    && c.carry.input.transition.timestamp == b.gi.proposal.timestamp
    && m.carryRestOk(c.carry, c.raws, c.guestInput.value)
    && m.hashOf(b.gi.parent) == c.carry.input.parentBlockHash
    && m.lastAnchor(c.guestInput.value) == Some(b.lastAnchor)
  }

  ghost predicate SourceBoundAt(b: Binding, i: nat)
    requires i < |b.gi.heads| == |b.gi.dataSources| == |b.sources|
  {
    var head := b.gi.heads[i];
    && b.sources[i].forced == head.forced
    && b.sources[i].content
       == SourceContent(Source(head.forced, head.hasBlobs, head.offset, b.gi.dataSources[i]), b.rules)
  }

  /** The sources are those of the proposal, decoded under its chain's rules. */
  ghost predicate SourcesBound(b: Binding, m: Machine) {
    && b.gi.heads != [] && |b.gi.dataSources| == |b.gi.heads| == |b.sources|
    && m.derivationConfig(b.gi.chainId, b.gi.proposal.timestamp) == Some((b.rules.forkTimestamp, b.rules.maxBlocks))
    && b.rules == Rules(b.gi.chainId, b.rules.forkTimestamp, b.rules.maxBlocks, m.parse)
    && forall i: nat :: i < |b.sources| ==> SourceBoundAt(b, i)
  }

  /** What derivation starts from: the parent header's context, and the last anchor. */
  function StartContext(b: Binding): Parent {
    Parent(b.gi.parent.number, b.gi.parent.time, b.gi.parent.gasLimit, b.lastAnchor)
  }

  /** The derived blocks are those of the sources, with acceptable anchors. */
  ghost predicate DerivedBound(b: Binding) {
    && Derive(b.sources, StartContext(b), b.gi.proposal, b.rules) == Ok(b.derived)
    && SourceAwareOk(Anchors(b.derived.blocks), b.derived.spans, b.lastAnchor, b.gi.proposal.origin, b.gi.chainId)
  }

  /** Every block fits its derived block and left its checkpoint. */
  ghost predicate ChecksBound(c: Content, b: Binding, m: Machine) {
    AllFit(b.gi, c.raws, b.derived.blocks, b.checkpoints, m)
  }

  /** What the checkpoints are linked against. */
  function LinkedTo(c: Content, b: Binding, m: Machine): Anchoring
    requires c.guestInput.Some?
  {
    Anchoring(b.gi.proposal.origin, b.gi.originHash, b.gi.chainId, b.lastAnchor,
              m.parentCheckpoint(c.guestInput.value, c.raws, b.lastAnchor))
  }

  ghost predicate LinksBound(c: Content, b: Binding, m: Machine) {
    && c.guestInput.Some?
    && LinkageOk(b.gi.l1Header, b.gi.l1Ancestors, b.checkpoints, b.derived.spans, LinkedTo(c, b, m), m.hashOf)
  }

  ghost predicate BoundBy(c: Content, b: Binding, m: Machine) {
    InputBound(c, b, m) && SourcesBound(b, m) && DerivedBound(b) && ChecksBound(c, b, m) && LinksBound(c, b, m)
  }

  lemma SourcesMeaning(b: Binding, m: Machine)
    requires b.gi.heads != [] && |b.gi.dataSources| == |b.gi.heads|
    ensures SourcesBound(b, m) <==>
            && m.derivationConfig(b.gi.chainId, b.gi.proposal.timestamp) == Some((b.rules.forkTimestamp, b.rules.maxBlocks))
            && b.rules == RulesOf(b.gi, (b.rules.forkTimestamp, b.rules.maxBlocks), m)
            && b.sources == DecodeAll(SourcesOf(b.gi), b.rules)
  {
    hide SourceContent;
    var decoded := DecodeAll(SourcesOf(b.gi), b.rules);
    if |b.sources| == |b.gi.heads| {
      forall i: nat | i < |b.sources| ensures SourceBoundAt(b, i) <==> b.sources[i] == decoded[i] {
      }
      if forall i: nat :: i < |b.sources| ==> SourceBoundAt(b, i) {
        forall i: nat | i < |b.sources| ensures b.sources[i] == decoded[i] {
          assert SourceBoundAt(b, i);
        }
      }
    }
  }

  lemma OkIsBound(c: Content, ancestors: ProposalAncestors, m: Machine) returns (b: Binding)
    requires c.guestInput.Some? && |c.views| == |c.raws|
    requires GuestInputOk(c.carry, c.raws, c.guestInput.value, ancestors, m)
    ensures b.ancestors == ancestors && BoundBy(c, b, m)
  {
    hide Checkpoints, LinkageOk, SourceAwareOk, AllFit, SourcesBound;
    var taiko := c.guestInput.value;
    var gi, lastAnchor := m.guestInput(taiko, c.raws, ancestors).value, m.lastAnchor(taiko).value;
    var rules := RulesOf(gi, m.derivationConfig(gi.chainId, gi.proposal.timestamp).value, m);
    var derived := DerivationOf(gi, lastAnchor, rules).value;
    b := Binding(ancestors, gi, lastAnchor, rules, DecodeAll(SourcesOf(gi), rules), derived,
                 Checkpoints(gi, c.raws, derived.blocks, |c.raws|, m).value);
    SourcesMeaning(b, m);
    AllBoundMeaning(gi, c.raws, derived.blocks, b.checkpoints, m);
  }

  lemma BoundIsOk(c: Content, b: Binding, m: Machine)
    requires BoundBy(c, b, m)
    ensures GuestInputOk(c.carry, c.raws, c.guestInput.value, b.ancestors, m)
  {
    hide Checkpoints, LinkageOk, SourceAwareOk;
    SourcesMeaning(b, m);
    AllBoundMeaning(b.gi, c.raws, b.derived.blocks, b.checkpoints, m);
    assert DerivationOf(b.gi, b.lastAnchor, b.rules) == Ok(b.derived);
  }

  /** A guest input is accepted exactly when some derivation of its own sources binds the request. */
  lemma GuestInputMeaning(c: Content, ancestors: ProposalAncestors, m: Machine)
    requires c.guestInput.Some? && |c.views| == |c.raws|
    ensures GuestInputOk(c.carry, c.raws, c.guestInput.value, ancestors, m) <==>
            exists b: Binding :: b.ancestors == ancestors && BoundBy(c, b, m)
  {
    hide GuestInputOk, BoundBy;
    if GuestInputOk(c.carry, c.raws, c.guestInput.value, ancestors, m) {
      var b := OkIsBound(c, ancestors, m);
    }
    if exists b: Binding :: b.ancestors == ancestors && BoundBy(c, b, m) {
      var b: Binding :| b.ancestors == ancestors && BoundBy(c, b, m);
      BoundIsOk(c, b, m);
    }
  }
}
