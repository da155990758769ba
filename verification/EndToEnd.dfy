/**
 What a signed aggregate stands for, from end to end: its blocks are those derived from the
 proposals' sources, their bodies are what the filter leaves, their checkpoints are linked to L1,
 and each proposal is derived from the very context that the one before it left.
 */
module EndToEnd {
  import opened Wrappers
  import opened Words
  import opened Headers
  import opened Carries
  import opened Hashing
  import opened BlockReplay
  import opened Environment
  import opened ManifestBinding
  import opened Requests
  import opened SigningService
  import opened SigningProperties
  import opened DerivationContent
  import opened DerivationFold
  import opened BindingMeaning
  import opened RequestMeaning
  import AnchorLinkage
  import Derivation
  import DerivationProperties
  import Execution
  import UnzenReplay

  // ---------- What validation bound a request to ----------

  lemma AcceptedIsBound(c: Content, m: Machine) returns (b: Binding)
    requires Accepted(c, m)
    ensures BoundBy(c, b, m)
  {
    hide BoundBy, GuestInputOk;
    var ancestors :| GuestInputOk(c.carry, c.raws, c.guestInput.value, ancestors, m);
    b := OkIsBound(c, ancestors, m);
  }

  // ---------- Each block is the derived one ----------

  /**
   Block i of a request is derived block i: the header carries its metadata and obeys the rules on the
   headers before it, the body is exactly what the filter leaves of its transactions, and its anchor
   transaction writes its anchor's checkpoint.
   */
  ghost predicate BlockDerived(c: Content, b: Binding, i: nat, m: Machine)
    requires i < |c.raws| == |b.derived.blocks| && |b.checkpoints| == |c.raws|
  {
    && m.decode(c.raws[i]).Some?
    && (i > 0 ==> m.decode(c.raws[i - 1]).Some?)
    && (i > 1 ==> m.decode(c.raws[i - 2]).Some?)
    && var replay, expected := m.decode(c.raws[i]).value, b.derived.blocks[i];
       var header, body := replay.block.header, replay.block.transactions;
       var parent := if i == 0 then b.gi.parent else m.decode(c.raws[i - 1]).value.block.header;
       var grandparent :=
         if i == 0 then b.gi.grandparent
         else if i == 1 then Some(b.gi.parent)
         else Some(m.decode(c.raws[i - 2]).value.block.header);
       && header.time == expected.timestamp
       && header.coinbase == expected.coinbase
       && header.gasLimit == (expected.gasLimit + 1_000_000) % 0x1_0000_0000_0000_0000
       && header.extra == m.extraData(b.gi.basefeeSharing, b.gi.proposalId)
       && header.mixDigest == m.mixHash(parent, header.number)
       && m.headerRulesOk(b.gi.chainId, header, parent, grandparent)
       && body != []
       && Leaves(replay, expected.transactions, b.gi.chainId, m, body)
       && m.anchorCheckpoint(b.gi.chainId, body[0], header) == Some(b.checkpoints[i])
       && b.checkpoints[i].number == expected.anchor <= 0xffff_ffff_ffff
  }

  lemma FilteredIsBody(replay: Replay, manifestTxs: seq<Execution.Tx>, chainId: u64, m: Machine)
    requires InjectiveRoot(m.txRoot) && CommitsToFiltered(replay, manifestTxs, chainId, m)
    requires m.txRoot(replay.block.transactions) == replay.block.header.txRoot
    ensures Leaves(replay, manifestTxs, chainId, m, replay.block.transactions)
  {
    hide Leaves;
    var kept :| Leaves(replay, manifestTxs, chainId, m, kept) && m.txRoot(kept) == replay.block.header.txRoot;
    assert SameRoot(m.txRoot, kept, replay.block.transactions);
  }

  lemma BlockIsDerived(c: Content, b: Binding, i: nat, m: Machine)
    requires InjectiveRoot(m.txRoot) && ChecksBound(c, b, m) && ProveOk(c, m) && i < |c.raws|
    ensures BlockDerived(c, b, i, m)
  {
    hide Leaves, CommitsToFiltered, Executed, AnchorContinues, ViewsOk;
    assert BlockOk(m, c.carry.chainId, c.raws[i], c.views[i]);
    assert FitsAt(b.gi, c.raws, b.derived.blocks, b.checkpoints, i, m);
    FilteredIsBody(m.decode(c.raws[i]).value, b.derived.blocks[i].transactions, b.gi.chainId, m);
  }

  // ---------- Each Unzen block runs exactly as the filter ran it ----------

  lemma FilteredNeverTruncated(replay: Replay, manifestTxs: seq<Execution.Tx>, start: Start, chainId: u64, m: Machine)
    requires InjectiveRoot(m.txRoot) && IsUnzen(replay, chainId, m) && StartOf(replay, chainId, m) == Some(start)
    requires FilteredBody(replay, manifestTxs, chainId, m) == Some(replay.block.transactions)
    requires replay.block.transactions != [] && !start.env.isBlob(replay.block.transactions[0])
    requires m.requestsOk(chainId, Stripped(replay))
    ensures var final := FilterOutcome(replay, manifestTxs, chainId, m).value.final;
            UnzenOutcome(Stripped(replay), chainId, start, m) ==
            if replay.block.header.difficulty == final.blockZk then Ok(final) else Err(UnzenReplay.DifficultyMismatch)
  {
    var body := replay.block.transactions;
    forall a, b | m.txRoot(a) == m.txRoot(b) ensures a == b {
      assert SameRoot(m.txRoot, a, b);
    }
    UnzenReplay.BoundBlockReplays(start.env, start.pools, body, manifestTxs, m.txRoot, m.txRoot(body),
                                  Some(replay.block.header.difficulty));
  }

  /**
   An Unzen block replays in full, to the pools that the filter ended in, and its header's difficulty
   is the zk gas that the filter counted.
   */
  ghost predicate RunsAsFiltered(replay: Replay, manifestTxs: seq<Execution.Tx>, chainId: u64, m: Machine) {
    IsUnzen(replay, chainId, m) ==>
      && FilterOutcome(replay, manifestTxs, chainId, m).Some?
      && StartOf(replay, chainId, m).Some?
      && var final := FilterOutcome(replay, manifestTxs, chainId, m).value.final;
         && replay.block.header.difficulty == final.blockZk
         && UnzenOutcome(Stripped(replay), chainId, StartOf(replay, chainId, m).value, m) == Ok(final)
  }

  lemma ExecutedRunsAsFiltered(replay: Replay, manifestTxs: seq<Execution.Tx>, chainId: u64, m: Machine)
    requires InjectiveRoot(m.txRoot)
    requires Leaves(replay, manifestTxs, chainId, m, replay.block.transactions)
    requires replay.block.transactions != [] && Executed(Stripped(replay), chainId, m).Some?
    ensures RunsAsFiltered(replay, manifestTxs, chainId, m)
  {
    LeavesMeaning(replay, manifestTxs, chainId, m, replay.block.transactions);
    if IsUnzen(replay, chainId, m) {
      var start := StartOf(replay, chainId, m).value;
      assert StartOf(Stripped(replay), chainId, m) == Some(start);
      NoBlobAtFront(start.env, replay.block.transactions);
      FilteredNeverTruncated(replay, manifestTxs, start, chainId, m);
    }
  }

  lemma NoBlobAtFront(env: Execution.Env, body: seq<Execution.Tx>)
    requires body != [] && UnzenReplay.FirstBlob(env, body, 0) == None
    ensures !env.isBlob(body[0])
  {
  }

  lemma BlockRunsAsFiltered(c: Content, b: Binding, i: nat, m: Machine)
    requires InjectiveRoot(m.txRoot) && InputBound(c, b, m) && ChecksBound(c, b, m) && ProveOk(c, m) && i < |c.raws|
    ensures m.decode(c.raws[i]).Some?
    ensures RunsAsFiltered(m.decode(c.raws[i]).value, b.derived.blocks[i].transactions, c.carry.chainId, m)
  {
    hide Executed, FilteredBody, RunsAsFiltered;
    assert BlockOk(m, c.carry.chainId, c.raws[i], c.views[i]);
    BlockIsDerived(c, b, i, m);
    ExecutedRunsAsFiltered(m.decode(c.raws[i]).value, b.derived.blocks[i].transactions, c.carry.chainId, m);
  }

  // ---------- Each checkpoint is linked to L1 ----------

  /** A checkpoint is the parent L2 state's own, or the copy of the L1 header at its number below the origin. */
  ghost predicate CheckpointLinked(c: Content, b: Binding, i: nat, m: Machine)
    requires c.guestInput.Some? && i < |b.checkpoints|
  {
    || m.parentCheckpoint(c.guestInput.value, c.raws, b.lastAnchor) == Some(b.checkpoints[i])
    || (&& Linked(b.gi.l1Ancestors, m.hashOf)
        && AnchorLinkage.EndsAt(b.gi.l1Ancestors, b.gi.proposal.origin, b.gi.originHash, m.hashOf)
        && AnchorLinkage.Below(b.checkpoints[i], b.gi.l1Ancestors, b.gi.proposal.origin, m.hashOf))
  }

  lemma CheckpointIsLinked(c: Content, b: Binding, i: nat, m: Machine)
    requires LinksBound(c, b, m) && GuestInputFits(b.gi)
    requires i < |b.checkpoints| && b.checkpoints[i].number <= UINT48_MAX
    ensures CheckpointLinked(c, b, i, m)
  {
    var on := LinkedTo(c, b, m);
    AnchorLinkage.EveryCheckpointAccountedFor(b.gi.l1Header, b.gi.l1Ancestors, b.checkpoints, b.derived.spans, on, m.hashOf, i);
    if on.parentCheckpoint != Some(b.checkpoints[i]) {
      AnchorLinkage.OnPathIsBelow(b.checkpoints[i], b.gi.l1Ancestors, on.origin, on.originHash, m.hashOf);
    }
  }

  // ---------- Each proposal starts where the one before it ended ----------

  /** The header that derivation starts from is the one that the first block was executed on. */
  lemma StartsOnParent(c: Content, b: Binding, m: Machine)
    requires Injective(m.hashOf) && InputBound(c, b, m) && ProveOk(c, m)
    ensures Decodes(c, m) && Extends(b.gi.parent, HeadersOf(c, m)[0], c.carry.chainId, m)
  {
    RequestIsOneChain(c, m);
    HashNamesParent(c, m, 0, b.gi.parent);
  }

  /** And the anchor that it starts from is the one that the first block's own event reports. */
  lemma StartsAtEventAnchor(c: Content, b: Binding, m: Machine)
    requires InputBound(c, b, m) && ProveOk(c, m)
    ensures |c.raws| > 0 && BlockAnchors(m, c.carry.chainId, c.raws[0]).Some?
    ensures BlockAnchors(m, c.carry.chainId, c.raws[0]).value.0 == b.lastAnchor
  {
    assert AnchorContinues(c, 0, m);
  }

  /** The context that a request's derivation leaves, but for the anchor, which the L2 state keeps. */
  ghost predicate Meets(a: Binding, b: Binding) {
    var left := AdvanceAll(StartContext(a), a.derived.blocks);
    left.number == b.gi.parent.number && left.time == b.gi.parent.time && left.gasLimit == b.gi.parent.gasLimit
  }

  lemma LastNumber(c: Content, b: Binding, m: Machine)
    requires Injective(m.hashOf) && InputBound(c, b, m) && ProveOk(c, m)
    ensures Decodes(c, m) && |c.raws| > 0
    ensures var last := HeadersOf(c, m)[|c.raws| - 1];
            last.number == b.gi.parent.number + |c.raws| && m.hashOf(last) == c.carry.input.checkpoint.hash
  {
    StartsOnParent(c, b, m);
    RequestIsOneChain(c, m);
    ChainNumbers(HeadersOf(c, m), c.carry.chainId, m, |c.raws| - 1);
  }

  lemma LeftBehind(b: Binding, last: Header)
    requires b.derived.blocks != [] && last.number == b.gi.parent.number + |b.derived.blocks|
    requires var expected := b.derived.blocks[|b.derived.blocks| - 1];
             last.time == expected.timestamp && last.gasLimit == WrapAdd(expected.gasLimit, Derivation.ANCHOR_GAS_LIMIT)
    ensures var left := AdvanceAll(StartContext(b), b.derived.blocks);
            left.number == last.number && left.time == last.time && left.gasLimit == last.gasLimit
  {
    DerivationProperties.ContextAfter(StartContext(b), b.derived.blocks);
  }

  lemma LastHeader(c: Content, b: Binding, m: Machine)
    requires Injective(m.hashOf) && InjectiveRoot(m.txRoot)
    requires InputBound(c, b, m) && ChecksBound(c, b, m) && ProveOk(c, m)
    ensures Decodes(c, m) && |c.raws| > 0
    ensures var last := HeadersOf(c, m)[|c.raws| - 1];
            var left := AdvanceAll(StartContext(b), b.derived.blocks);
            && left.number == last.number && left.time == last.time && left.gasLimit == last.gasLimit
            && m.hashOf(last) == c.carry.input.checkpoint.hash
  {
    hide ProveOk;
    LastNumber(c, b, m);
    BlockIsDerived(c, b, |c.raws| - 1, m);
    LeftBehind(b, HeadersOf(c, m)[|c.raws| - 1]);
  }

  lemma ParentIsLast(a: Content, ba: Binding, c: Content, bc: Binding, m: Machine)
    requires Injective(m.hashOf) && InputBound(a, ba, m) && ProveOk(a, m)
    requires InputBound(c, bc, m) && Continues(a.carry, c.carry)
    ensures Decodes(a, m) && |a.raws| > 0 && bc.gi.parent == HeadersOf(a, m)[|a.raws| - 1]
  {
    hide ProveOk;
    LastNumber(a, ba, m);
    assert SameHash(m.hashOf, HeadersOf(a, m)[|a.raws| - 1], bc.gi.parent);
  }

  lemma ContextsMeet(a: Content, ba: Binding, c: Content, bc: Binding, m: Machine)
    requires Injective(m.hashOf) && InjectiveRoot(m.txRoot)
    requires InputBound(a, ba, m) && ChecksBound(a, ba, m) && ProveOk(a, m)
    requires InputBound(c, bc, m) && Continues(a.carry, c.carry)
    ensures Meets(ba, bc)
  {
    hide ProveOk, ChecksBound;
    LastHeader(a, ba, m);
    ParentIsLast(a, ba, c, bc, m);
  }

  // ---------- The host has no choice ----------

  lemma AnchorsAreNumbers(c: Content, b: Binding, m: Machine)
    requires ChecksBound(c, b, m)
    ensures AnchorLinkage.Numbers(b.checkpoints) == Derivation.Anchors(b.derived.blocks)
  {
    forall i | 0 <= i < |b.checkpoints| ensures b.checkpoints[i].number == b.derived.blocks[i].anchor {
      assert FitsAt(b.gi, c.raws, b.derived.blocks, b.checkpoints, i, m);
    }
  }

  /** The two requests are about one proposal, on one parent block and one parent L2 state. */
  ghost predicate SameProposal(a: Content, ba: Binding, c: Content, bc: Binding, m: Machine) {
    && a.guestInput.Some? && c.guestInput.Some?
    && ba.gi.chainId == bc.gi.chainId && ba.gi.proposal == bc.gi.proposal && ba.gi.originHash == bc.gi.originHash
    && ba.rules == bc.rules && ba.sources == bc.sources
    && a.carry.input.parentBlockHash == c.carry.input.parentBlockHash
    && ba.lastAnchor == bc.lastAnchor
    && m.parentCheckpoint(a.guestInput.value, a.raws, ba.lastAnchor)
       == m.parentCheckpoint(c.guestInput.value, c.raws, bc.lastAnchor)
  }

  /** Then whatever headers and L1 paths the host sends, the derived blocks and their checkpoints are the same. */
  lemma BindingDetermined(a: Content, ba: Binding, c: Content, bc: Binding, m: Machine)
    requires Injective(m.hashOf) && SameProposal(a, ba, c, bc, m)
    requires InputBound(a, ba, m) && DerivedBound(ba) && ChecksBound(a, ba, m) && LinksBound(a, ba, m)
    requires InputBound(c, bc, m) && DerivedBound(bc) && ChecksBound(c, bc, m) && LinksBound(c, bc, m)
    ensures ba.derived == bc.derived && ba.checkpoints == bc.checkpoints
  {
    assert SameHash(m.hashOf, ba.gi.parent, bc.gi.parent);
    AnchorsAreNumbers(a, ba, m);
    AnchorsAreNumbers(c, bc, m);
    AnchorLinkage.CheckpointsDetermined(ba.gi.l1Header, ba.gi.l1Ancestors, ba.checkpoints,
                                        bc.gi.l1Header, bc.gi.l1Ancestors, bc.checkpoints, ba.derived.spans,
                                        LinkedTo(a, ba, m), m.hashOf);
  }

  // ---------- Over every run ----------

  /** The request's blocks replay, and its anchor events lead on from the last anchor. */
  ghost predicate Replayed(c: Content, m: Machine) {
    exists results :: Proves(c, results, m)
  }

  ghost predicate RequestDerived(c: Content, b: Binding, m: Machine) {
    && BoundBy(c, b, m)
    && HasParts(b.sources, StartContext(b), b.gi.proposal, b.rules, b.derived)
    && ViewsLead(c.views, c.carry) && Replayed(c, m)
    && |b.derived.blocks| == |c.raws| == |b.checkpoints|
    && forall i: nat :: i < |c.raws| ==>
         && BlockDerived(c, b, i, m)
         && CheckpointLinked(c, b, i, m)
         && RunsAsFiltered(m.decode(c.raws[i]).value, b.derived.blocks[i].transactions, c.carry.chainId, m)
  }

  lemma BlocksAreDerived(c: Content, b: Binding, m: Machine)
    requires InjectiveRoot(m.txRoot) && InputBound(c, b, m) && ChecksBound(c, b, m) && LinksBound(c, b, m) && ProveOk(c, m)
    ensures forall i: nat :: i < |c.raws| ==>
              && BlockDerived(c, b, i, m)
              && CheckpointLinked(c, b, i, m)
              && RunsAsFiltered(m.decode(c.raws[i]).value, b.derived.blocks[i].transactions, c.carry.chainId, m)
  {
    forall i: nat | i < |c.raws|
      ensures && BlockDerived(c, b, i, m)
              && CheckpointLinked(c, b, i, m)
              && RunsAsFiltered(m.decode(c.raws[i]).value, b.derived.blocks[i].transactions, c.carry.chainId, m)
    {
      hide ProveOk, LinksBound, RunsAsFiltered;
      BlockIsDerived(c, b, i, m);
      BlockRunsAsFiltered(c, b, i, m);
      CheckpointIsLinked(c, b, i, m);
    }
  }

  lemma RequestIsDerived(c: Content, m: Machine) returns (b: Binding)
    requires InjectiveRoot(m.txRoot) && Accepted(c, m) && ProveOk(c, m)
    ensures RequestDerived(c, b, m)
  {
    hide GuestInputOk, SourcesBound, LinksBound, ProveOk, RunsAsFiltered, BlockDerived, Proves, ViewsLead, HasParts;
    b := AcceptedIsBound(c, m);
    BlocksAreDerived(c, b, m);
    ProveMeaning(c, m);
    DerivationMeaning(b.sources, StartContext(b), b.gi.proposal, b.rules, b.derived);
  }

  /**
   What it takes to be signed, and all it takes: a request whose carry fits its widths can be validated
   and proved exactly when its chain is known, its views lead from the carry's parent block to its
   checkpoint, its blocks replay, and a derivation of its proposal's sources binds it.
   */
  lemma SignableMeaning(c: Content, m: Machine)
    ensures Accepted(c, m) && ProveOk(c, m) <==>
            && c.carry.input.proposalId <= 0xffff_ffff_ffff
            && c.carry.input.transition.timestamp <= 0xffff_ffff_ffff
            && c.carry.input.checkpoint.number <= 0xffff_ffff_ffff
            && m.knownChain(c.carry.chainId)
            && ViewsLead(c.views, c.carry)
            && Replayed(c, m)
            && exists b :: BoundBy(c, b, m)
  {
    hide ProveOk, GuestInputOk, BoundBy, ViewsLead, ViewsOk, Proves;
    ProveMeaning(c, m);
    ViewsMeaning(c.views, c.carry);
    if Accepted(c, m) && ProveOk(c, m) {
      var b := AcceptedIsBound(c, m);
    }
    if Replayed(c, m) && ProveOk(c, m) && exists b :: BoundBy(c, b, m) {
      var b :| BoundBy(c, b, m);
      BoundHasInput(c, b, m);
      BoundIsOk(c, b, m);
      RequestDecodes(c, m);
    }
  }

  lemma BoundHasInput(c: Content, b: Binding, m: Machine)
    requires BoundBy(c, b, m)
    ensures c.guestInput.Some? && |c.views| == |c.raws|
  {
  }

  ghost predicate MeetsAt(bindings: seq<Binding>, k: nat)
    requires 0 < k < |bindings|
  {
    Meets(bindings[k - 1], bindings[k])
  }

  /** Every request is derived, and each from the context that the one before it left. */
  ghost predicate DerivedRun(contents: seq<Content>, bindings: seq<Binding>, m: Machine) {
    && |bindings| == |contents|
    && (forall k: nat :: k < |contents| ==> RequestDerived(contents[k], bindings[k], m))
    && (forall k: nat :: 0 < k < |contents| ==> MeetsAt(bindings, k))
  }

  lemma {:induction false} BindAll(contents: seq<Content>, m: Machine, n: nat) returns (bindings: seq<Binding>)
    requires InjectiveRoot(m.txRoot) && n <= |contents|
    requires forall k :: 0 <= k < |contents| ==> Accepted(contents[k], m) && ProveOk(contents[k], m)
    ensures |bindings| == n && forall k: nat :: k < n ==> RequestDerived(contents[k], bindings[k], m)
  {
    hide Accepted, ProveOk, RequestDerived;
    bindings := [];
    if n > 0 {
      var front := BindAll(contents, m, n - 1);
      var last := RequestIsDerived(contents[n - 1], m);
      bindings := front + [last];
    }
  }

  lemma RunIsDerived(contents: seq<Content>, bindings: seq<Binding>, m: Machine)
    requires Injective(m.hashOf) && InjectiveRoot(m.txRoot) && CarriesOk(CarriesIn(contents)) && |bindings| == |contents|
    requires forall k: nat :: k < |contents| ==> RequestDerived(contents[k], bindings[k], m)
    requires forall k :: 0 <= k < |contents| ==> ProveOk(contents[k], m)
    ensures DerivedRun(contents, bindings, m)
  {
    hide InputBound, SourcesBound, DerivedBound, ChecksBound, LinksBound, ProveOk;
    forall k: nat | 0 < k < |contents| ensures MeetsAt(bindings, k) {
      assert RequestDerived(contents[k - 1], bindings[k - 1], m) && RequestDerived(contents[k], bindings[k], m);
      assert Continues(CarriesIn(contents)[k - 1], CarriesIn(contents)[k]);
      ContextsMeet(contents[k - 1], bindings[k - 1], contents[k], bindings[k], m);
    }
  }

  /**
   Over every run of any instances: behind each signed aggregate stand requests that the same
   instance proved before, whose blocks are one executed chain, and each of these blocks is the one
   derived from its proposal, with the filter's body and a checkpoint linked to L1.
   */
  lemma SignedAggregateIsDerived(h: seq<Event>, m: Machine, i: nat)
    returns (contents: seq<Content>, headers: seq<Header>, bindings: seq<Binding>)
    requires Ideal(m.hash) && Injective(m.hashOf) && InjectiveRoot(m.txRoot) && Run(h, m)
    requires i < |h| && h[i].Aggregated?
    ensures CarriesIn(contents) == CarriesOf(h[i].proofs)
    ensures forall k :: 0 <= k < |contents| ==> Proved(h[i].instance, contents[k]) in h[..i]
    ensures OneRun(contents, headers, m)
    ensures DerivedRun(contents, bindings, m)
  {
    hide GuestInputOk, RequestDerived;
    contents, headers := SignedAggregateIsOneChain(h, m, i);
    forall k | 0 <= k < |contents|
      ensures Accepted(contents[k], m) && ProveOk(contents[k], m) && Proved(h[i].instance, contents[k]) in h[..i]
    {
      assert Backs(contents[k], h, i, k, m);
      ProvedWasAccepted(h, m, i, h[i].instance, contents[k]);
    }
    bindings := BindAll(contents, m, |contents|);
    AggregateWasOk(h, m, i);
    RunIsDerived(contents, bindings, m);
  }

  // ---------- Time moves forward through the whole aggregate ----------

  ghost predicate TimesAscend(headers: seq<Header>) {
    forall i, j :: 0 <= i < j < |headers| ==> headers[i].time < headers[j].time
  }

  lemma RequestTimesAscend(c: Content, b: Binding, m: Machine, ceiling: nat)
    requires DerivedBound(b) && |b.derived.blocks| == |c.raws| == |b.checkpoints| && Decodes(c, m)
    requires forall i: nat :: i < |c.raws| ==> BlockDerived(c, b, i, m)
    requires b.gi.parent.time <= ceiling && b.gi.proposal.timestamp <= ceiling && b.rules.forkTimestamp <= ceiling
    requires ceiling + |c.raws| < U64_RANGE
    ensures TimesAscend(HeadersOf(c, m))
    ensures forall i :: 0 <= i < |c.raws| ==> b.gi.parent.time < HeadersOf(c, m)[i].time <= ceiling + |c.raws|
  {
    DerivationProperties.DerivedMonotone(b.sources, StartContext(b), b.gi.proposal, b.rules);
    DerivationProperties.DerivedCeiling(b.sources, StartContext(b), b.gi.proposal, b.rules, ceiling);
    forall i: nat | i < |c.raws| ensures HeadersOf(c, m)[i].time == b.derived.blocks[i].timestamp {
      assert BlockDerived(c, b, i, m);
    }
  }

  lemma JoinTimes(a: seq<Header>, b: seq<Header>)
    requires TimesAscend(a) && TimesAscend(b) && a != []
    requires forall i :: 0 <= i < |b| ==> a[|a| - 1].time < b[i].time
    ensures TimesAscend(a + b)
  {
    forall i | 0 <= i < |a| ensures a[i].time <= a[|a| - 1].time {
    }
  }

  /**
   The headers behind a signed aggregate have strictly increasing timestamps, across proposals too,
   while the blocks counted on top of the first parent's time and the forks' times do not reach 2^64.
   */
  lemma {:induction false} AggregateTimesAscend(contents: seq<Content>, bindings: seq<Binding>, m: Machine, ceiling: nat)
    requires Injective(m.hashOf) && AllProved(contents, m) && CarriesOk(CarriesIn(contents)) && |bindings| == |contents|
    requires forall k: nat :: k < |contents| ==> RequestDerived(contents[k], bindings[k], m)
    requires forall k: nat :: k < |contents| ==> bindings[k].rules.forkTimestamp <= ceiling
    requires bindings[0].gi.parent.time <= ceiling && UINT48_MAX <= ceiling
    requires ceiling + |AllHeaders(contents, m)| < U64_RANGE
    ensures TimesAscend(AllHeaders(contents, m))
    ensures forall i :: 0 <= i < |AllHeaders(contents, m)| ==>
              AllHeaders(contents, m)[i].time <= ceiling + |AllHeaders(contents, m)|
  {
    hide SourcesBound, DerivedBound, ChecksBound, LinksBound, ProveOk, BlockDerived, CheckpointLinked, RunsAsFiltered,
      HasParts, ViewsLead, Replayed, FitsWidths, TimesAscend, OneChain, Extends, HasParent;
    var n := |contents| - 1;
    var before := contents[..n];
    assert RequestDerived(contents[n], bindings[n], m);
    if n == 0 {
      assert before == [];
      assert AllHeaders(contents, m) == [] + HeadersOf(contents[0], m) == HeadersOf(contents[0], m);
      RequestTimesAscend(contents[0], bindings[0], m, ceiling);
    } else {
      var front := AllHeaders(before, m);
      assert CarriesIn(before) == CarriesIn(contents)[..n];
      CarriesPrefix(CarriesIn(contents), n);
      AggregateTimesAscend(before, bindings[..n], m, ceiling);
      assert Continues(CarriesIn(contents)[n - 1], CarriesIn(contents)[n]);
      assert RequestDerived(contents[n - 1], bindings[n - 1], m);
      ParentIsLast(contents[n - 1], bindings[n - 1], contents[n], bindings[n], m);
      LastOfAll(before, m);
      RequestTimesAscend(contents[n], bindings[n], m, ceiling + |front|);
      JoinTimes(front, HeadersOf(contents[n], m));
    }
  }

  lemma LastOfAll(contents: seq<Content>, m: Machine)
    requires AllProved(contents, m) && contents != []
    ensures var last := contents[|contents| - 1];
            && |last.raws| > 0 && AllHeaders(contents, m) != []
            && AllHeaders(contents, m)[|AllHeaders(contents, m)| - 1] == HeadersOf(last, m)[|last.raws| - 1]
  {
  }
}
