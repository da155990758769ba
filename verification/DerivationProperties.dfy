/** What holds of every derivation, whatever the proposal contains. */
module DerivationProperties {
  import opened Wrappers
  import opened Words
  import opened Derivation
  import opened DerivationFold

  // ---------- Timestamps of one source ----------

  ghost predicate StrictlyIncreasing(m: Manifest) {
    forall i, j :: 0 <= i < j < |m| ==> m[i].timestamp < m[j].timestamp
  }

  lemma LowerBoundAbove(previous: u64, proposalTime: u64, rules: Rules)
    requires previous + 1 < U64_RANGE
    ensures TimestampLowerBound(previous, proposalTime, rules) > previous
  {
    WrapAddExact(previous, 1);
  }

  /** Above a timestamp that met its own bound, the window and the fork no longer bind. */
  lemma LowerBoundAfter(first: u64, previous: u64, proposalTime: u64, rules: Rules)
    requires first + 1 < U64_RANGE && previous + 1 < U64_RANGE
    requires TimestampLowerBound(first, proposalTime, rules) <= previous
    ensures TimestampLowerBound(previous, proposalTime, rules) == previous + 1
  {
    WrapAddExact(first, 1);
    WrapAddExact(previous, 1);
  }

  lemma IncreasingSnoc(front: Manifest, block: ManifestBlock)
    requires StrictlyIncreasing(front)
    requires front == [] || front[|front| - 1].timestamp < block.timestamp
    ensures StrictlyIncreasing(front + [block])
  {
  }

  lemma {:induction false} TimestampsMeanIncreasing(m: Manifest, parentTime: u64, proposalTime: u64, rules: Rules)
    requires m != [] && parentTime + 1 < U64_RANGE && proposalTime + 1 < U64_RANGE
    requires TimestampsOk(m, parentTime, proposalTime, rules)
    ensures TimestampLowerBound(parentTime, proposalTime, rules) <= m[0].timestamp
    ensures StrictlyIncreasing(m)
    ensures m[|m| - 1].timestamp <= proposalTime
  {
    var last := |m| - 1;
    assert TimestampFits(PreviousTime(m, last, parentTime), m[last].timestamp, proposalTime, rules);
    if last > 0 {
      var front := m[..last];
      TimestampsFront(m, last, parentTime, proposalTime, rules);
      TimestampsMeanIncreasing(front, parentTime, proposalTime, rules);
      assert front[last - 1] == m[last - 1];
      LowerBoundAbove(m[last - 1].timestamp, proposalTime, rules);
      IncreasingSnoc(front, m[last]);
      assert m == front + [m[last]];
    }
  }

  lemma TimestampsFront(m: Manifest, n: nat, parentTime: u64, proposalTime: u64, rules: Rules)
    requires n <= |m| && TimestampsOk(m, parentTime, proposalTime, rules)
    ensures TimestampsOk(m[..n], parentTime, proposalTime, rules)
  {
    forall i: nat | i < n
      ensures TimestampFits(PreviousTime(m[..n], i, parentTime), m[..n][i].timestamp, proposalTime, rules)
    {
      assert TimestampFits(PreviousTime(m, i, parentTime), m[i].timestamp, proposalTime, rules);
    }
  }

  /** The loop's moving lower bound amounts to one bound at each end and strict growth. */
  lemma TimestampsMeaning(m: Manifest, parentTime: u64, proposalTime: u64, rules: Rules)
    requires m != [] && parentTime + 1 < U64_RANGE && proposalTime + 1 < U64_RANGE
    ensures TimestampsOk(m, parentTime, proposalTime, rules) <==>
            && TimestampLowerBound(parentTime, proposalTime, rules) <= m[0].timestamp
            && StrictlyIncreasing(m)
            && m[|m| - 1].timestamp <= proposalTime
  {
    var lower := TimestampLowerBound(parentTime, proposalTime, rules);
    if TimestampsOk(m, parentTime, proposalTime, rules) {
      TimestampsMeanIncreasing(m, parentTime, proposalTime, rules);
    } else if lower <= m[0].timestamp && StrictlyIncreasing(m) && m[|m| - 1].timestamp <= proposalTime {
      forall i: nat | i < |m|
        ensures TimestampFits(PreviousTime(m, i, parentTime), m[i].timestamp, proposalTime, rules)
      {
        assert i < |m| - 1 ==> m[i].timestamp < m[|m| - 1].timestamp;
        if i > 0 {
          assert m[i - 1].timestamp < m[i].timestamp && (i > 1 ==> m[0].timestamp < m[i - 1].timestamp);
          LowerBoundAfter(parentTime, m[i - 1].timestamp, proposalTime, rules);
        }
      }
      assert false;
    }
  }

  lemma {:induction false} IncreasingSpan(m: Manifest)
    requires m != [] && StrictlyIncreasing(m)
    ensures m[|m| - 1].timestamp - m[0].timestamp >= |m| - 1
  {
    var last := |m| - 1;
    if last > 0 {
      var front := m[..last];
      assert forall i, j :: 0 <= i < j < |front| ==> front[i].timestamp == m[i].timestamp < m[j].timestamp == front[j].timestamp;
      IncreasingSpan(front);
      assert m[last - 1].timestamp < m[last].timestamp;
    }
  }

  /** So a source cannot hold more blocks than there are seconds in its window. */
  lemma BlockCountBound(m: Manifest, parentTime: u64, proposalTime: u64, rules: Rules)
    requires m != [] && parentTime + 1 < U64_RANGE && proposalTime + 1 < U64_RANGE
    requires TimestampsOk(m, parentTime, proposalTime, rules)
    ensures |m| <= proposalTime - TimestampLowerBound(parentTime, proposalTime, rules) + 1
    ensures proposalTime > TimestampWindow(rules.chainId) ==> |m| <= TimestampWindow(rules.chainId) + 1
  {
    TimestampsMeaning(m, parentTime, proposalTime, rules);
    IncreasingSpan(m);
  }

  // ---------- Gas limits ----------

  lemma GasBoundsOrdered(g: u64)
    ensures GasLowerBound(g) <= GasUpperBound(g) <= 45_000_000
    ensures GasUpperBound(g) * 1_000_000 <= g * 1_000_200
    ensures 10_000_000 <= g <= 45_000_000 ==> 10_000_000 <= GasLowerBound(g) <= g <= GasUpperBound(g)
  {
  }

  /** How a block's gas limit follows the one before it: within the bounds, or inherited. */
  predicate GasFollows(previous: u64, gasLimit: u64) {
    gasLimit == previous || GasLimitFits(previous, gasLimit)
  }

  lemma GasFollowsFacts(previous: u64, gasLimit: u64)
    requires GasFollows(previous, gasLimit)
    ensures gasLimit * 1_000_000 <= previous * 1_000_200
    ensures gasLimit <= previous || gasLimit <= 45_000_000
    ensures 10_000_000 <= previous <= 45_000_000 ==> 10_000_000 <= gasLimit <= 45_000_000
  {
    GasBoundsOrdered(previous);
  }

  function Power(b: nat, n: nat): nat {
    if n == 0 then 1 else b * Power(b, n - 1)
  }

  lemma PowerStep(g: nat, h: nat, k: nat, p: nat, q: nat)
    requires h * 1_000_000 <= g * 1_000_200
    requires k * p <= h * q
    ensures k * (1_000_000 * p) <= g * (1_000_200 * q)
  {
    assert k * (1_000_000 * p) == 1_000_000 * (k * p) <= 1_000_000 * (h * q);
    assert 1_000_000 * (h * q) == (h * 1_000_000) * q <= (g * 1_000_200) * q by {
      MultiplyMonotone(h * 1_000_000, g * 1_000_200, q);
    }
    assert (g * 1_000_200) * q == g * (1_000_200 * q);
  }

  lemma MultiplyMonotone(a: nat, b: nat, q: nat)
    requires a <= b
    ensures a * q <= b * q
  {
  }

  // ---------- The chain of derived blocks: time and anchor ----------

  /** One derived block after a block with the given time and anchor. */
  predicate Follows(time: u64, anchor: u64, block: ManifestBlock, proposalTime: u64, rules: Rules) {
    var lower := TimestampLowerBound(time, proposalTime, rules);
    && lower <= block.timestamp
    && (block.timestamp <= proposalTime || block.timestamp == lower)
    && anchor <= block.anchor
  }

  ghost predicate Chained(time: u64, anchor: u64, blocks: Manifest, proposalTime: u64, rules: Rules)
    decreases |blocks|
  {
    blocks == [] ||
    (Follows(time, anchor, blocks[0], proposalTime, rules) &&
     Chained(blocks[0].timestamp, blocks[0].anchor, blocks[1..], proposalTime, rules))
  }

  lemma {:induction false} ChainedAppend(time: u64, anchor: u64, a: Manifest, b: Manifest, proposalTime: u64, rules: Rules)
    requires Chained(time, anchor, a, proposalTime, rules)
    requires if a == [] then Chained(time, anchor, b, proposalTime, rules)
             else Chained(a[|a| - 1].timestamp, a[|a| - 1].anchor, b, proposalTime, rules)
    ensures Chained(time, anchor, a + b, proposalTime, rules)
    decreases |a|
  {
    if a == [] {
      assert a + b == b;
    } else {
      ChainedAppend(a[0].timestamp, a[0].anchor, a[1..], b, proposalTime, rules);
      assert (a + b)[1..] == a[1..] + b && (a + b)[0] == a[0];
    }
  }

  /** A checked source, from its block i on, is chained. */
  lemma {:induction false} CheckedChained(m: Manifest, i: nat, forced: bool, parent: Parent, proposal: Proposal, rules: Rules)
    requires i < |m| && SourceOk(m, forced, parent, proposal, rules)
    ensures Chained(PreviousTime(m, i, parent.time), if i == 0 then parent.anchor else m[i - 1].anchor, m[i..],
                    proposal.timestamp, rules)
    decreases |m| - i
  {
    assert TimestampFits(PreviousTime(m, i, parent.time), m[i].timestamp, proposal.timestamp, rules);
    AnchorStep(m, i, forced, parent.anchor, proposal.origin, rules.chainId);
    assert m[i..][0] == m[i] && m[i..][1..] == m[i + 1..];
    if i + 1 < |m| {
      CheckedChained(m, i + 1, forced, parent, proposal, rules);
    }
  }

  lemma AnchorStep(m: Manifest, i: nat, forced: bool, parentAnchor: u64, origin: u64, chainId: u64)
    requires i < |m| && AnchorsOk(m, origin, parentAnchor, forced, chainId)
    ensures (if i == 0 then parentAnchor else m[i - 1].anchor) <= m[i].anchor
  {
    if !forced {
      assert Anchors(m)[i] == m[i].anchor && (i > 0 ==> Anchors(m)[i - 1] == m[i - 1].anchor);
    }
  }

  lemma PreparedChained(source: Decoded, parent: Parent, proposal: Proposal, rules: Rules)
    requires Prepared(source, parent, proposal, rules).Ok?
    ensures var m := Prepared(source, parent, proposal, rules).value;
            && Chained(parent.time, parent.anchor, m, proposal.timestamp, rules)
            && GasChained(EffectiveGasLimit(parent.number, parent.gasLimit), m)
  {
    PreparedShape(source, parent, proposal, rules);
    var m := Prepared(source, parent, proposal, rules).value;
    if SourceOk(m, source.forced, parent, proposal, rules) {
      CheckedChained(m, 0, source.forced, parent, proposal, rules);
      CheckedGasChained(m, 0, EffectiveGasLimit(parent.number, parent.gasLimit));
      assert m[0..] == m;
    } else {
      InheritedHead(DefaultManifest(), parent, proposal, rules);
      assert m[1..] == [];
    }
  }

  /** The context that a list of blocks leaves behind is its last block's, with the anchor's gas added. */
  lemma {:induction false} ContextAfter(parent: Parent, m: Manifest)
    ensures var next := AdvanceAll(parent, m);
            && next.number == (parent.number + |m|) % U64_RANGE
            && (m == [] ==> next == parent)
            && (m != [] ==>
                  var last := m[|m| - 1];
                  && next.time == last.timestamp && next.anchor == last.anchor
                  && next.gasLimit == WrapAdd(last.gasLimit, ANCHOR_GAS_LIMIT))
    decreases |m|
  {
    if m != [] {
      ContextAfter(Advance(parent, m[0]), m[1..]);
      WrapTwice(parent.number, 1, |m| - 1);
    }
  }

  lemma WrapTwice(a: nat, b: nat, c: nat)
    ensures ((a + b) % U64_RANGE + c) % U64_RANGE == (a + b + c) % U64_RANGE
  {
    var q := (a + b) / U64_RANGE;
    assert a + b + c == q * U64_RANGE + ((a + b) % U64_RANGE + c);
  }

  lemma DeriveSplit(sources: seq<Decoded>, parent: Parent, proposal: Proposal, rules: Rules)
    returns (m: Manifest, after: Parent, rest: Manifest)
    requires sources != [] && Derive(sources, parent, proposal, rules).Ok?
    ensures Prepared(sources[0], parent, proposal, rules) == Ok(m) && after == AdvanceAll(parent, m)
    ensures Derive(sources[1..], after, proposal, rules).Ok?
    ensures rest == Derive(sources[1..], after, proposal, rules).value.blocks
    ensures Derive(sources, parent, proposal, rules).value.blocks == m + rest
  {
    m := Prepared(sources[0], parent, proposal, rules).value;
    after := AdvanceAll(parent, m);
    rest := Derive(sources[1..], after, proposal, rules).value.blocks;
  }

  /** Every derivation yields one chain that starts at the proposal's parent. */
  lemma {:induction false} FoldChained(sources: seq<Decoded>, parent: Parent, proposal: Proposal, rules: Rules)
    requires Derive(sources, parent, proposal, rules).Ok?
    ensures Chained(parent.time, parent.anchor, Derive(sources, parent, proposal, rules).value.blocks,
                    proposal.timestamp, rules)
    decreases |sources|
  {
    if sources != [] {
      var m, after, rest := DeriveSplit(sources, parent, proposal, rules);
      PreparedChained(sources[0], parent, proposal, rules);
      ContextAfter(parent, m);
      FoldChained(sources[1..], after, proposal, rules);
      ChainedAppend(parent.time, parent.anchor, m, rest, proposal.timestamp, rules);
    }
  }

  function Max(a: int, b: int): int {
    if a < b then b else a
  }

  /** No timestamp can wrap while n blocks are derived. */
  predicate TimeHeadroom(time: u64, proposalTime: u64, rules: Rules, n: nat) {
    Max(time, Max(proposalTime, rules.forkTimestamp)) + n < U64_RANGE
  }

  lemma {:induction false} ChainIncreases(time: u64, anchor: u64, blocks: Manifest, proposalTime: u64, rules: Rules)
    requires Chained(time, anchor, blocks, proposalTime, rules) && TimeHeadroom(time, proposalTime, rules, |blocks|)
    ensures forall i :: 0 <= i < |blocks| ==> time < blocks[i].timestamp
    ensures StrictlyIncreasing(blocks)
    decreases |blocks|
  {
    if blocks != [] {
      WrapAddExact(time, 1);
      var head, rest := blocks[0], blocks[1..];
      ChainIncreases(head.timestamp, head.anchor, rest, proposalTime, rules);
      assert forall i :: 1 <= i < |blocks| ==> blocks[i] == rest[i - 1];
    }
  }

  /** Each block moves the time at most one second past the latest of what came before. */
  lemma {:induction false} ChainCeiling(time: u64, anchor: u64, blocks: Manifest, proposalTime: u64, rules: Rules, ceiling: nat)
    requires Chained(time, anchor, blocks, proposalTime, rules)
    requires time <= ceiling && proposalTime <= ceiling && rules.forkTimestamp <= ceiling && ceiling + |blocks| < U64_RANGE
    ensures forall i :: 0 <= i < |blocks| ==> blocks[i].timestamp <= ceiling + |blocks|
    decreases |blocks|
  {
    if blocks != [] {
      WrapAddExact(time, 1);
      var head, rest := blocks[0], blocks[1..];
      ChainCeiling(head.timestamp, head.anchor, rest, proposalTime, rules, ceiling + 1);
      assert forall i :: 1 <= i < |blocks| ==> blocks[i] == rest[i - 1];
    }
  }

  /** Over the whole proposal no timestamp passes the ceiling by more than the number of blocks. */
  lemma DerivedCeiling(sources: seq<Decoded>, parent: Parent, proposal: Proposal, rules: Rules, ceiling: nat)
    requires Derive(sources, parent, proposal, rules).Ok?
    requires parent.time <= ceiling && proposal.timestamp <= ceiling && rules.forkTimestamp <= ceiling
    requires ceiling + |Derive(sources, parent, proposal, rules).value.blocks| < U64_RANGE
    ensures var blocks := Derive(sources, parent, proposal, rules).value.blocks;
            forall i :: 0 <= i < |blocks| ==> blocks[i].timestamp <= ceiling + |blocks|
  {
    FoldChained(sources, parent, proposal, rules);
    ChainCeiling(parent.time, parent.anchor, Derive(sources, parent, proposal, rules).value.blocks, proposal.timestamp,
                 rules, ceiling);
  }

  ghost predicate AnchorsAscend(anchor: u64, blocks: Manifest) {
    && (forall i :: 0 <= i < |blocks| ==> anchor <= blocks[i].anchor)
    && (forall i, j :: 0 <= i < j < |blocks| ==> blocks[i].anchor <= blocks[j].anchor)
  }

  lemma {:induction false} ChainAscends(time: u64, anchor: u64, blocks: Manifest, proposalTime: u64, rules: Rules)
    requires Chained(time, anchor, blocks, proposalTime, rules)
    ensures AnchorsAscend(anchor, blocks)
    decreases |blocks|
  {
    if blocks != [] {
      var head, rest := blocks[0], blocks[1..];
      ChainAscends(head.timestamp, head.anchor, rest, proposalTime, rules);
      assert forall i :: 1 <= i < |blocks| ==> blocks[i] == rest[i - 1];
    }
  }

  /** Over the whole proposal anchors never move back, and time moves forward unless it can wrap. */
  lemma DerivedMonotone(sources: seq<Decoded>, parent: Parent, proposal: Proposal, rules: Rules)
    requires Derive(sources, parent, proposal, rules).Ok?
    ensures var blocks := Derive(sources, parent, proposal, rules).value.blocks;
            && AnchorsAscend(parent.anchor, blocks)
            && (TimeHeadroom(parent.time, proposal.timestamp, rules, |blocks|) ==>
                  && StrictlyIncreasing(blocks)
                  && forall i :: 0 <= i < |blocks| ==> parent.time < blocks[i].timestamp)
  {
    FoldChained(sources, parent, proposal, rules);
    var blocks := Derive(sources, parent, proposal, rules).value.blocks;
    ChainAscends(parent.time, parent.anchor, blocks, proposal.timestamp, rules);
    if TimeHeadroom(parent.time, proposal.timestamp, rules, |blocks|) {
      ChainIncreases(parent.time, parent.anchor, blocks, proposal.timestamp, rules);
    }
  }

  // ---------- The chain of derived blocks: gas limits ----------

  ghost predicate GasChained(gas: u64, blocks: Manifest)
    decreases |blocks|
  {
    blocks == [] || (GasFollows(gas, blocks[0].gasLimit) && GasChained(blocks[0].gasLimit, blocks[1..]))
  }

  lemma {:induction false} GasChainedAppend(gas: u64, a: Manifest, b: Manifest)
    requires GasChained(gas, a) && GasChained(if a == [] then gas else a[|a| - 1].gasLimit, b)
    ensures GasChained(gas, a + b)
    decreases |a|
  {
    if a == [] {
      assert a + b == b;
    } else {
      GasChainedAppend(a[0].gasLimit, a[1..], b);
      assert (a + b)[1..] == a[1..] + b && (a + b)[0] == a[0];
    }
  }

  lemma {:induction false} CheckedGasChained(m: Manifest, i: nat, gas: u64)
    requires i < |m| && GasLimitsOk(m, gas)
    ensures GasChained(PreviousGas(m, i, gas), m[i..])
    decreases |m| - i
  {
    assert GasLimitFits(PreviousGas(m, i, gas), m[i].gasLimit);
    assert m[i..][0] == m[i] && m[i..][1..] == m[i + 1..];
    if i + 1 < |m| {
      CheckedGasChained(m, i + 1, gas);
    }
  }

  /** No block number and no block gas limit can wrap while n blocks are derived. */
  predicate GasHeadroom(parent: Parent, n: nat) {
    && parent.number + n < U64_RANGE
    && EffectiveGasLimit(parent.number, parent.gasLimit) + ANCHOR_GAS_LIMIT < U64_RANGE
  }

  lemma GasStep(parent: Parent, block: ManifestBlock, n: nat)
    requires n > 0 && GasHeadroom(parent, n)
    requires GasFollows(EffectiveGasLimit(parent.number, parent.gasLimit), block.gasLimit)
    ensures var next := Advance(parent, block);
            && GasHeadroom(next, n - 1)
            && next.number == parent.number + 1
            && EffectiveGasLimit(next.number, next.gasLimit) == block.gasLimit
  {
    GasFollowsFacts(EffectiveGasLimit(parent.number, parent.gasLimit), block.gasLimit);
    WrapAddExact(parent.number, 1);
    WrapAddExact(block.gasLimit, ANCHOR_GAS_LIMIT);
  }

  /** The effective limit that a list of blocks leaves behind is its last block's own. */
  lemma {:induction false} GasAfter(parent: Parent, m: Manifest, n: nat)
    requires |m| <= n && GasHeadroom(parent, n)
    requires GasChained(EffectiveGasLimit(parent.number, parent.gasLimit), m)
    ensures var next := AdvanceAll(parent, m);
            && GasHeadroom(next, n - |m|)
            && next.number == parent.number + |m|
            && (m != [] ==> EffectiveGasLimit(next.number, next.gasLimit) == m[|m| - 1].gasLimit)
    decreases |m|
  {
    if m != [] {
      GasStep(parent, m[0], n);
      GasAfter(Advance(parent, m[0]), m[1..], n - 1);
    }
  }

  lemma {:induction false} FoldGasChained(sources: seq<Decoded>, parent: Parent, proposal: Proposal, rules: Rules)
    requires Derive(sources, parent, proposal, rules).Ok?
    requires GasHeadroom(parent, |Derive(sources, parent, proposal, rules).value.blocks|)
    ensures GasChained(EffectiveGasLimit(parent.number, parent.gasLimit),
                       Derive(sources, parent, proposal, rules).value.blocks)
    decreases |sources|
  {
    if sources != [] {
      var m, after, rest := DeriveSplit(sources, parent, proposal, rules);
      PreparedChained(sources[0], parent, proposal, rules);
      GasAfter(parent, m, |m + rest|);
      FoldGasChained(sources[1..], after, proposal, rules);
      GasChainedAppend(EffectiveGasLimit(parent.number, parent.gasLimit), m, rest);
    }
  }

  /** Limits stay within 10 .. 45 million once they are there, and n blocks cannot raise the limit by
      more than 200 parts in a million, n times over. */
  ghost predicate GasBounded(gas: u64, blocks: Manifest) {
    && (10_000_000 <= gas <= 45_000_000 ==>
          forall i :: 0 <= i < |blocks| ==> 10_000_000 <= blocks[i].gasLimit <= 45_000_000)
    && (blocks != [] ==>
          blocks[|blocks| - 1].gasLimit * Power(1_000_000, |blocks|) <= gas * Power(1_000_200, |blocks|))
  }

  lemma {:induction false} ChainGas(gas: u64, blocks: Manifest)
    requires GasChained(gas, blocks)
    ensures GasBounded(gas, blocks)
    decreases |blocks|
  {
    if blocks != [] {
      var head, rest := blocks[0], blocks[1..];
      GasFollowsFacts(gas, head.gasLimit);
      ChainGas(head.gasLimit, rest);
      assert forall i :: 1 <= i < |blocks| ==> blocks[i] == rest[i - 1];
      var p, q := Power(1_000_000, |rest|), Power(1_000_200, |rest|);
      PowerStep(gas, head.gasLimit, if rest == [] then head.gasLimit else rest[|rest| - 1].gasLimit, p, q);
    }
  }

  /** Over the whole proposal: gas limits are bounded in both ways, whatever the timestamps do. */
  lemma DerivedGas(sources: seq<Decoded>, parent: Parent, proposal: Proposal, rules: Rules)
    requires Derive(sources, parent, proposal, rules).Ok?
    requires GasHeadroom(parent, |Derive(sources, parent, proposal, rules).value.blocks|)
    ensures GasBounded(EffectiveGasLimit(parent.number, parent.gasLimit),
                       Derive(sources, parent, proposal, rules).value.blocks)
  {
    FoldGasChained(sources, parent, proposal, rules);
    ChainGas(EffectiveGasLimit(parent.number, parent.gasLimit), Derive(sources, parent, proposal, rules).value.blocks);
  }

  /** Over the whole proposal: what the next proposal inherits is the last block's own time and anchor, ... */
  lemma DerivedContext(sources: seq<Decoded>, parent: Parent, proposal: Proposal, rules: Rules)
    requires Derive(sources, parent, proposal, rules).Ok? && Derive(sources, parent, proposal, rules).value.blocks != []
    ensures var blocks := Derive(sources, parent, proposal, rules).value.blocks;
            var next, last := AdvanceAll(parent, blocks), blocks[|blocks| - 1];
            next.time == last.timestamp && next.anchor == last.anchor
  {
    ContextAfter(parent, Derive(sources, parent, proposal, rules).value.blocks);
  }

  /** ... its number, and as effective gas limit the last block's own limit. */
  lemma DerivedGasContext(sources: seq<Decoded>, parent: Parent, proposal: Proposal, rules: Rules)
    requires Derive(sources, parent, proposal, rules).Ok? && Derive(sources, parent, proposal, rules).value.blocks != []
    requires GasHeadroom(parent, |Derive(sources, parent, proposal, rules).value.blocks|)
    ensures var blocks := Derive(sources, parent, proposal, rules).value.blocks;
            var next, last := AdvanceAll(parent, blocks), blocks[|blocks| - 1];
            && next.number == parent.number + |blocks|
            && EffectiveGasLimit(next.number, next.gasLimit) == last.gasLimit
  {
    FoldGasChained(sources, parent, proposal, rules);
    var blocks := Derive(sources, parent, proposal, rules).value.blocks;
    GasAfter(parent, blocks, |blocks|);
  }
}
