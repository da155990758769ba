/**
 What becomes of the content that a source brings: when it is kept, what takes its place when it is
 not, and how the derived list is made of one such part per source.  The conditions are stated here
 on numbers alone, without the bounds that the checks compute.
 */
module DerivationContent {
  import opened Wrappers
  import opened Words
  import opened BlobCodec
  import opened Execution
  import opened Derivation
  import opened DerivationFold
  import DerivationProperties

  // ---------- The content of the blobs ----------

  ghost function Joined(pieces: seq<seq<byte>>): seq<byte> {
    if pieces == [] then [] else pieces[0] + Joined(pieces[1..])
  }

  ghost predicate AllCarry(blobs: seq<seq<byte>>, pieces: seq<seq<byte>>) {
    |pieces| == |blobs| && forall i :: 0 <= i < |blobs| ==> Carries(blobs[i], pieces[i])
  }

  lemma {:induction false} JoinedSnoc(pieces: seq<seq<byte>>, last: seq<byte>)
    ensures Joined(pieces + [last]) == Joined(pieces) + last
  {
    if pieces == [] {
      assert [last][1..] == [] && last + [] == last;
    } else {
      JoinedSnoc(pieces[1..], last);
      assert (pieces + [last])[1..] == pieces[1..] + [last];
      assert pieces[0] + (Joined(pieces[1..]) + last) == pieces[0] + Joined(pieces[1..]) + last;
    }
  }

  lemma {:induction false} ContentsJoined(blobs: seq<seq<byte>>, pieces: seq<seq<byte>>)
    requires AllCarry(blobs, pieces)
    ensures Contents(blobs) == Some(Joined(pieces))
  {
    hide DecodeBlob, Carries;
    if blobs != [] {
      var n := |blobs| - 1;
      ContentsJoined(blobs[..n], pieces[..n]);
      DecodeBlobIs(blobs[n], pieces[n]);
      JoinedSnoc(pieces[..n], pieces[n]);
      assert pieces == pieces[..n] + [pieces[n]];
    }
  }

  /** The blobs' pieces in order, read from the offset on, when that gives a list of at most maxBlocks blocks. */
  lemma BlobsAreRead(source: Source, rules: Rules, pieces: seq<seq<byte>>)
    requires source.hasBlobs && source.offset <= 131008 && source.blobs != [] && AllCarry(source.blobs, pieces)
    ensures var m := rules.parse(Joined(pieces), source.offset);
            SourceContent(source, rules) ==
            Ok(if m.Some? && |m.value| <= rules.maxBlocks then m.value else [ManifestBlock(0, 0, 0, 0, [])])
  {
    forall i | 0 <= i < |source.blobs| ensures |source.blobs[i]| == BYTES_PER_BLOB {
      assert Carries(source.blobs[i], pieces[i]);
    }
    ContentsJoined(source.blobs, pieces);
  }

  ghost predicate CarriesNothing(raw: seq<byte>) {
    forall piece :: !Carries(raw, piece)
  }

  lemma NotCarried(raw: seq<byte>)
    requires CarriesNothing(raw)
    ensures DecodeBlob(raw).Err?
  {
    hide DecodeBlob, Carries;
    if DecodeBlob(raw).Ok? {
      DecodeBlobIs(raw, DecodeBlob(raw).value);
    }
  }

  /** Without blobs to read, or with content that no blob carries, the source says nothing of its own. */
  lemma NothingToRead(source: Source, rules: Rules)
    requires || !source.hasBlobs || source.offset > 131008
             || (&& source.blobs != [] && (forall i :: 0 <= i < |source.blobs| ==> |source.blobs[i]| == 131072)
                 && exists i :: 0 <= i < |source.blobs| && CarriesNothing(source.blobs[i]))
    ensures SourceContent(source, rules) == Ok([ManifestBlock(0, 0, 0, 0, [])])
  {
    hide DecodeBlob, Carries;
    if source.hasBlobs && source.offset <= 131008 {
      var i :| 0 <= i < |source.blobs| && CarriesNothing(source.blobs[i]);
      NotCarried(source.blobs[i]);
      ContentsFail(source.blobs, i);
    }
  }

  /** Missing blobs and blobs of a wrong length are errors, and the only ones. */
  lemma HostAtFault(source: Source, rules: Rules)
    ensures SourceContent(source, rules).Err? <==>
            && source.hasBlobs && source.offset <= 131008
            && (source.blobs == [] || exists i :: 0 <= i < |source.blobs| && |source.blobs[i]| != 131072)
  {
  }

  // ---------- The three checks, on numbers ----------

  /** In the proposal's window of 6144 seconds on mainnet, 1536 elsewhere; after the block before and the fork. */
  predicate InTime(before: u64, timestamp: u64, proposalTime: u64, rules: Rules) {
    && timestamp >= (before + 1) % 0x1_0000_0000_0000_0000
    && timestamp >= rules.forkTimestamp
    && timestamp + (if rules.chainId == 167000 then 6144 else 1536) >= proposalTime
    && timestamp <= proposalTime
  }

  lemma InTimeMeaning(before: u64, timestamp: u64, proposalTime: u64, rules: Rules)
    ensures TimestampFits(before, timestamp, proposalTime, rules) <==> InTime(before, timestamp, proposalTime, rules)
  {
  }

  /** At most 200 parts in a million above the limit before, and at most 45 million. */
  predicate WithinRise(before: u64, limit: nat) {
    limit * 1_000_000 <= before * 1_000_200 && limit <= 45_000_000
  }

  /** At most 200 parts in a million below, and at least 10 million; or the highest limit there is, if that is lower. */
  predicate InGasRange(before: u64, limit: nat) {
    && WithinRise(before, limit)
    && ((before * 999_800 < (limit + 1) * 1_000_000 && limit >= 10_000_000) || !WithinRise(before, limit + 1))
  }

  lemma InGasRangeMeaning(before: u64, limit: u64)
    ensures GasLimitFits(before, limit) <==> InGasRange(before, limit)
  {
    var upper, lower := before * 1_000_200 / 1_000_000, before * 999_800 / 1_000_000;
    FloorMeaning(before * 1_000_200, limit);
    FloorMeaning(before * 1_000_200, limit + 1);
    FloorMeaning(before * 999_800, limit + 1);
  }

  lemma FloorMeaning(a: nat, q: nat)
    ensures q <= a / 1_000_000 <==> q * 1_000_000 <= a
  {
  }

  /** Kept anchors for a forced source; else in the origin's window, never back, and past the parent's at some block. */
  ghost predicate AnchorsProgress(m: Manifest, forced: bool, lastAnchor: u64, origin: u64, chainId: u64) {
    if forced then forall i :: 0 <= i < |m| ==> m[i].anchor == lastAnchor
    else
      && (forall i :: 0 <= i < |m| ==>
            lastAnchor <= m[i].anchor <= origin <= m[i].anchor + if chainId == 167000 then 512 else 128)
      && (forall i, j :: 0 <= i < j < |m| ==> m[i].anchor <= m[j].anchor)
      && (exists i :: 0 <= i < |m| && m[i].anchor > lastAnchor)
  }

  /** The gas that blocks on the parent may start from: without what the anchor adds, which block 0 has not. */
  function BaseGas(parent: Parent): u64 {
    if parent.number == 0 then parent.gasLimit
    else if parent.gasLimit >= 1_000_000 then parent.gasLimit - 1_000_000
    else 0
  }

  ghost predicate TimeAt(m: Manifest, i: nat, parent: Parent, proposal: Proposal, rules: Rules)
    requires i < |m|
  {
    InTime(if i == 0 then parent.time else m[i - 1].timestamp, m[i].timestamp, proposal.timestamp, rules)
  }

  ghost predicate GasAt(m: Manifest, i: nat, parent: Parent)
    requires i < |m|
  {
    InGasRange(if i == 0 then BaseGas(parent) else m[i - 1].gasLimit, m[i].gasLimit)
  }

  ghost predicate Passes(m: Manifest, forced: bool, parent: Parent, proposal: Proposal, rules: Rules) {
    && m != []
    && (forall i: nat :: i < |m| ==> TimeAt(m, i, parent, proposal, rules) && GasAt(m, i, parent))
    && AnchorsProgress(m, forced, parent.anchor, proposal.origin, rules.chainId)
  }

  lemma ProgressMeaning(m: Manifest, forced: bool, lastAnchor: u64, origin: u64, chainId: u64)
    requires m != []
    ensures AnchorsOk(m, origin, lastAnchor, forced, chainId) <==> AnchorsProgress(m, forced, lastAnchor, origin, chainId)
  {
    if !forced {
      assert Anchors(m) != [];
      if AnchorsProgress(m, forced, lastAnchor, origin, chainId) {
        assert ProgressionOk(Anchors(m), lastAnchor, origin, chainId);
      }
      if ProgressionOk(Anchors(m), lastAnchor, origin, chainId) {
        forall i | 0 <= i < |m|
          ensures lastAnchor <= m[i].anchor <= origin <= m[i].anchor + if chainId == 167000 then 512 else 128
        {
          assert Anchors(m)[i] == m[i].anchor;
        }
        forall i, j | 0 <= i < j < |m| ensures m[i].anchor <= m[j].anchor {
          assert Anchors(m)[i] <= Anchors(m)[j];
        }
      }
    }
  }

  /** The checks of a source are these conditions. */
  lemma ChecksMeaning(m: Manifest, forced: bool, parent: Parent, proposal: Proposal, rules: Rules)
    ensures SourceOk(m, forced, parent, proposal, rules) <==> Passes(m, forced, parent, proposal, rules)
  {
    forall i: nat | i < |m|
      ensures TimestampFits(PreviousTime(m, i, parent.time), m[i].timestamp, proposal.timestamp, rules)
              <==> TimeAt(m, i, parent, proposal, rules)
      ensures GasLimitFits(PreviousGas(m, i, EffectiveGasLimit(parent.number, parent.gasLimit)), m[i].gasLimit)
              <==> GasAt(m, i, parent)
    {
      InTimeMeaning(PreviousTime(m, i, parent.time), m[i].timestamp, proposal.timestamp, rules);
      InGasRangeMeaning(PreviousGas(m, i, EffectiveGasLimit(parent.number, parent.gasLimit)), m[i].gasLimit);
    }
    if m != [] {
      ProgressMeaning(m, forced, parent.anchor, proposal.origin, rules.chainId);
    }
  }

  // ---------- A prepared source ----------

  function Latest(a: int, b: int): int {
    if a < b then b else a
  }

  /** The earliest time that a block after the parent may have. */
  function EarliestTime(parent: Parent, proposal: Proposal, rules: Rules): int {
    Latest((parent.time + 1) % 0x1_0000_0000_0000_0000,
           Latest(proposal.timestamp - (if rules.chainId == 167000 then 6144 else 1536), rules.forkTimestamp))
  }

  /** The block that says nothing but transactions: everything else comes from the parent and the proposal. */
  ghost predicate IsInherited(m: Manifest, transactions: seq<Tx>, parent: Parent, proposal: Proposal, rules: Rules) {
    && |m| == 1
    && m[0].timestamp == EarliestTime(parent, proposal, rules)
    && m[0].coinbase == proposal.proposer
    && m[0].anchor == parent.anchor
    && m[0].gasLimit == BaseGas(parent)
    && m[0].transactions == transactions
  }

  lemma InheritedIs(m: Manifest, parent: Parent, proposal: Proposal, rules: Rules)
    requires |m| == 1
    ensures IsInherited(Inherited(m, parent.time, parent, proposal, rules), m[0].transactions, parent, proposal, rules)
  {
    InheritedHead(m, parent, proposal, rules);
  }

  /** A normal source with content of its own is that content when it passes, and else one empty inherited block. */
  lemma NormalContentCounts(source: Decoded, content: Manifest, parent: Parent, proposal: Proposal, rules: Rules)
    requires !source.forced && source.content == Ok(content) && content != [ManifestBlock(0, 0, 0, 0, [])]
    ensures Passes(content, false, parent, proposal, rules) ==> Prepared(source, parent, proposal, rules) == Ok(content)
    ensures !Passes(content, false, parent, proposal, rules) ==>
              && Prepared(source, parent, proposal, rules).Ok?
              && IsInherited(Prepared(source, parent, proposal, rules).value, [], parent, proposal, rules)
  {
    ChecksMeaning(content, false, parent, proposal, rules);
    InheritedIs(DefaultManifest(), parent, proposal, rules);
  }

  /** There is room for one more second, and the parent's own gas limit is one that a block may have. */
  predicate RoomForOne(parent: Parent, proposal: Proposal, rules: Rules) {
    && EarliestTime(parent, proposal, rules) <= proposal.timestamp
    && (10_000_000 <= BaseGas(parent) <= 45_000_000 || BaseGas(parent) < 5_000)
  }

  lemma UnchangedLimit(gas: u64)
    ensures InGasRange(gas, gas) <==> 10_000_000 <= gas <= 45_000_000 || gas < 5_000
  {
  }

  lemma InheritedPasses(m: Manifest, transactions: seq<Tx>, parent: Parent, proposal: Proposal, rules: Rules)
    requires IsInherited(m, transactions, parent, proposal, rules)
    ensures Passes(m, true, parent, proposal, rules) <==> RoomForOne(parent, proposal, rules)
  {
    UnchangedLimit(BaseGas(parent));
    if Passes(m, true, parent, proposal, rules) {
      assert TimeAt(m, 0, parent, proposal, rules) && GasAt(m, 0, parent);
    }
  }

  /** A forced source of one block keeps that block's transactions when there is room, and nothing else of it, ever. */
  lemma ForcedContentCounts(source: Decoded, content: Manifest, parent: Parent, proposal: Proposal, rules: Rules)
    requires source.forced && source.content == Ok(content)
    ensures Prepared(source, parent, proposal, rules).Ok?
    ensures IsInherited(Prepared(source, parent, proposal, rules).value,
                        if |content| == 1 && RoomForOne(parent, proposal, rules) then content[0].transactions else [],
                        parent, proposal, rules)
  {
    var one := if |content| == 1 then content else DefaultManifest();
    var m := Inherited(one, parent.time, parent, proposal, rules);
    InheritedIs(one, parent, proposal, rules);
    InheritedIs(DefaultManifest(), parent, proposal, rules);
    InheritedPasses(m, one[0].transactions, parent, proposal, rules);
    ChecksMeaning(m, true, parent, proposal, rules);
  }

  /** What a source stands for on a parent. */
  ghost predicate StandsFor(source: Decoded, parent: Parent, proposal: Proposal, rules: Rules, part: Manifest) {
    && source.content.Ok?
    && var content := source.content.value;
       if source.forced then
         IsInherited(part, if |content| == 1 && RoomForOne(parent, proposal, rules) then content[0].transactions else [],
                     parent, proposal, rules)
       else if content != [ManifestBlock(0, 0, 0, 0, [])] && Passes(content, false, parent, proposal, rules) then
         part == content
       else
         IsInherited(part, [], parent, proposal, rules)
  }

  lemma OneInherited(a: Manifest, b: Manifest, transactions: seq<Tx>, parent: Parent, proposal: Proposal, rules: Rules)
    requires IsInherited(a, transactions, parent, proposal, rules) && IsInherited(b, transactions, parent, proposal, rules)
    ensures a == b
  {
    assert a == [a[0]] && b == [b[0]];
  }

  lemma StandsForOne(source: Decoded, parent: Parent, proposal: Proposal, rules: Rules, a: Manifest, b: Manifest)
    requires StandsFor(source, parent, proposal, rules, a) && StandsFor(source, parent, proposal, rules, b)
    ensures a == b
  {
    var content := source.content.value;
    var transactions :=
      if source.forced && |content| == 1 && RoomForOne(parent, proposal, rules) then content[0].transactions else [];
    if IsInherited(a, transactions, parent, proposal, rules) && IsInherited(b, transactions, parent, proposal, rules) {
      OneInherited(a, b, transactions, parent, proposal, rules);
    }
  }

  lemma PreparedStandsFor(source: Decoded, parent: Parent, proposal: Proposal, rules: Rules, part: Manifest)
    ensures Prepared(source, parent, proposal, rules) == Ok(part) <==> StandsFor(source, parent, proposal, rules, part)
  {
    if source.content.Ok? {
      var content := source.content.value;
      if source.forced {
        ForcedContentCounts(source, content, parent, proposal, rules);
      } else if content != [ManifestBlock(0, 0, 0, 0, [])] {
        NormalContentCounts(source, content, parent, proposal, rules);
      } else {
        InheritedIs(DefaultManifest(), parent, proposal, rules);
      }
      if StandsFor(source, parent, proposal, rules, part) {
        StandsForOne(source, parent, proposal, rules, part, Prepared(source, parent, proposal, rules).value);
      }
    }
  }

  // ---------- A whole derivation ----------

  /** The context after a part: its last block's, with the anchor's gas and that many blocks further on. */
  predicate LeadsTo(before: Parent, part: Manifest, after: Parent) {
    && part != []
    && var last := part[|part| - 1];
       after == Parent((before.number + |part|) % 0x1_0000_0000_0000_0000, last.timestamp,
                       (last.gasLimit + 1_000_000) % 0x1_0000_0000_0000_0000, last.anchor)
  }

  function AllParts(parts: seq<Manifest>): Manifest {
    if parts == [] then [] else parts[0] + AllParts(parts[1..])
  }

  ghost predicate PartAt(sources: seq<Decoded>, parts: seq<Manifest>, contexts: seq<Parent>, i: nat, proposal: Proposal,
                         rules: Rules)
    requires i < |sources| == |parts| && |contexts| == |parts| + 1
  {
    && StandsFor(sources[i], contexts[i], proposal, rules, parts[i])
    && LeadsTo(contexts[i], parts[i], contexts[i + 1])
  }

  /** One part per source, each on the context that the part before it left, the first on the parent. */
  ghost predicate Parts(sources: seq<Decoded>, parts: seq<Manifest>, contexts: seq<Parent>, parent: Parent,
                        proposal: Proposal, rules: Rules)
  {
    && |parts| == |sources| && |contexts| == |parts| + 1 && contexts[0] == parent
    && forall i: nat :: i < |sources| ==> PartAt(sources, parts, contexts, i, proposal, rules)
  }

  predicate MadeOf(d: Derived, sources: seq<Decoded>, parts: seq<Manifest>) {
    && |parts| == |sources| == |d.spans|
    && d.blocks == AllParts(parts)
    && forall i :: 0 <= i < |sources| ==> d.spans[i] == Span(sources[i].forced, |parts[i]|)
  }

  lemma AdvanceLeads(before: Parent, part: Manifest, after: Parent)
    requires part != []
    ensures LeadsTo(before, part, after) <==> after == AdvanceAll(before, part)
  {
    DerivationProperties.ContextAfter(before, part);
  }

  lemma PartsCons(source: Decoded, sources: seq<Decoded>, part: Manifest, parts: seq<Manifest>, parent: Parent,
                  contexts: seq<Parent>, proposal: Proposal, rules: Rules)
    requires contexts != [] && StandsFor(source, parent, proposal, rules, part) && LeadsTo(parent, part, contexts[0])
    requires Parts(sources, parts, contexts, contexts[0], proposal, rules)
    ensures Parts([source] + sources, [part] + parts, [parent] + contexts, parent, proposal, rules)
  {
    var allSources, allParts, allContexts := [source] + sources, [part] + parts, [parent] + contexts;
    forall i: nat | i < |allSources| ensures PartAt(allSources, allParts, allContexts, i, proposal, rules) {
      if i > 0 {
        assert PartAt(sources, parts, contexts, i - 1, proposal, rules);
      }
    }
  }

  lemma PartsTail(sources: seq<Decoded>, parts: seq<Manifest>, contexts: seq<Parent>, parent: Parent, proposal: Proposal,
                  rules: Rules)
    requires sources != [] && Parts(sources, parts, contexts, parent, proposal, rules)
    ensures StandsFor(sources[0], parent, proposal, rules, parts[0]) && LeadsTo(parent, parts[0], contexts[1])
    ensures Parts(sources[1..], parts[1..], contexts[1..], contexts[1], proposal, rules)
  {
    assert PartAt(sources, parts, contexts, 0, proposal, rules);
    var s, p, c := sources[1..], parts[1..], contexts[1..];
    forall i: nat | i < |s| ensures PartAt(s, p, c, i, proposal, rules) {
      assert PartAt(sources, parts, contexts, i + 1, proposal, rules);
    }
  }

  /** The parts of a derivation, ... */
  lemma {:induction false} DerivedParts(sources: seq<Decoded>, parent: Parent, proposal: Proposal, rules: Rules, d: Derived)
    returns (parts: seq<Manifest>, contexts: seq<Parent>)
    requires Derive(sources, parent, proposal, rules) == Ok(d)
    ensures Parts(sources, parts, contexts, parent, proposal, rules) && MadeOf(d, sources, parts)
    decreases |sources|
  {
    hide StandsFor, Prepared, LeadsTo;
    if sources == [] {
      parts, contexts := [], [parent];
    } else {
      var part := Prepared(sources[0], parent, proposal, rules).value;
      var after := AdvanceAll(parent, part);
      PreparedStandsFor(sources[0], parent, proposal, rules, part);
      PreparedShape(sources[0], parent, proposal, rules);
      AdvanceLeads(parent, part, after);
      var rest := Derive(sources[1..], after, proposal, rules).value;
      var tail, more := DerivedParts(sources[1..], after, proposal, rules, rest);
      parts, contexts := [part] + tail, [parent] + more;
      PartsCons(sources[0], sources[1..], part, tail, parent, more, proposal, rules);
      assert [sources[0]] + sources[1..] == sources;
      assert parts[1..] == tail;
    }
  }

  /** ... which determine it. */
  lemma {:induction false} PartsDerive(sources: seq<Decoded>, parts: seq<Manifest>, contexts: seq<Parent>, parent: Parent,
                                       proposal: Proposal, rules: Rules, d: Derived)
    requires Parts(sources, parts, contexts, parent, proposal, rules) && MadeOf(d, sources, parts)
    ensures Derive(sources, parent, proposal, rules) == Ok(d)
    decreases |sources|
  {
    hide StandsFor, Prepared, LeadsTo;
    if sources != [] {
      PartsTail(sources, parts, contexts, parent, proposal, rules);
      PreparedStandsFor(sources[0], parent, proposal, rules, parts[0]);
      PreparedShape(sources[0], parent, proposal, rules);
      AdvanceLeads(parent, parts[0], contexts[1]);
      var rest := Derived(AllParts(parts[1..]), d.spans[1..]);
      PartsDerive(sources[1..], parts[1..], contexts[1..], contexts[1], proposal, rules, rest);
      assert d.spans == [Span(sources[0].forced, |parts[0]|)] + d.spans[1..];
    }
  }

  ghost predicate HasParts(sources: seq<Decoded>, parent: Parent, proposal: Proposal, rules: Rules, d: Derived) {
    exists parts, contexts :: Parts(sources, parts, contexts, parent, proposal, rules) && MadeOf(d, sources, parts)
  }

  /**
   A derivation succeeds with a result exactly when the result is made of one part per source, each
   standing for its source on the context that the part before it left.
   */
  lemma DerivationMeaning(sources: seq<Decoded>, parent: Parent, proposal: Proposal, rules: Rules, d: Derived)
    ensures Derive(sources, parent, proposal, rules) == Ok(d) <==> HasParts(sources, parent, proposal, rules, d)
  {
    if Derive(sources, parent, proposal, rules) == Ok(d) {
      var parts, contexts := DerivedParts(sources, parent, proposal, rules, d);
    }
    if HasParts(sources, parent, proposal, rules, d) {
      var parts, contexts :| Parts(sources, parts, contexts, parent, proposal, rules) && MadeOf(d, sources, parts);
      PartsDerive(sources, parts, contexts, parent, proposal, rules, d);
    }
  }

  /** And it fails only where the host is at fault. */
  lemma {:induction false} DerivationFails(sources: seq<Decoded>, parent: Parent, proposal: Proposal, rules: Rules)
    ensures Derive(sources, parent, proposal, rules).Err? <==> exists i :: 0 <= i < |sources| && sources[i].content.Err?
    decreases |sources|
  {
    if sources != [] && sources[0].content.Ok? {
      var after := AdvanceAll(parent, Prepared(sources[0], parent, proposal, rules).value);
      DerivationFails(sources[1..], after, proposal, rules);
      assert forall i :: 0 < i < |sources| ==> sources[i] == sources[1..][i - 1];
      if exists i :: 0 <= i < |sources| && sources[i].content.Err? {
        var i :| 0 <= i < |sources| && sources[i].content.Err?;
        assert sources[1..][i - 1].content.Err?;
      }
    }
  }
}
