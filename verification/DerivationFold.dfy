/**
 The derivation of a whole proposal: a fold over its sources that carries the parent context
 along, and the check of all derived anchors at the end.
 */
module DerivationFold {
  import opened Wrappers
  import opened Words
  import opened Derivation

  datatype Span = Span(forced: bool, count: nat)

  datatype Derived = Derived(blocks: Manifest, spans: seq<Span>)

  datatype FoldError = NoSources | BadSource(error: DerivationError) | CountMismatch | AnchorsRejected

  function Advance(parent: Parent, block: ManifestBlock): Parent {
    Parent(WrapAdd(parent.number, 1), block.timestamp, WrapAdd(block.gasLimit, ANCHOR_GAS_LIMIT), block.anchor)
  }

  function AdvanceAll(parent: Parent, blocks: Manifest): Parent
    decreases |blocks|
  {
    if blocks == [] then parent else AdvanceAll(Advance(parent, blocks[0]), blocks[1..])
  }

  ghost function DecodeAll(sources: seq<Source>, rules: Rules): (d: seq<Decoded>)
    ensures |d| == |sources|
    ensures forall i :: 0 <= i < |d| ==> d[i] == Decode(sources[i], rules)
  {
    seq(|sources|, i requires 0 <= i < |sources| => Decode(sources[i], rules))
  }

  ghost function Derive(sources: seq<Decoded>, parent: Parent, proposal: Proposal, rules: Rules)
    : Result<Derived, DerivationError>
    decreases |sources|
  {
    if sources == [] then Ok(Derived([], []))
    else
      match Prepared(sources[0], parent, proposal, rules)
      case Err(e) => Err(e)
      case Ok(m) =>
        Joined(Derived(m, [Span(sources[0].forced, |m|)]),
               Derive(sources[1..], AdvanceAll(parent, m), proposal, rules))
  }

  function Joined(front: Derived, rest: Result<Derived, DerivationError>): Result<Derived, DerivationError> {
    match rest
    case Ok(d) => Ok(Derived(front.blocks + d.blocks, front.spans + d.spans))
    case Err(e) => Err(e)
  }

  lemma JoinedAssociative(a: Derived, b: Derived, rest: Result<Derived, DerivationError>)
    ensures Joined(a, Joined(b, rest)) == Joined(Derived(a.blocks + b.blocks, a.spans + b.spans), rest)
  {
    if rest.Ok? {
      assert a.blocks + (b.blocks + rest.value.blocks) == (a.blocks + b.blocks) + rest.value.blocks;
      assert a.spans + (b.spans + rest.value.spans) == (a.spans + b.spans) + rest.value.spans;
    }
  }

  /** Every block of a prepared source becomes the parent of the next. */
  method AppendSource(m: Manifest, blocks: Manifest, parent: Parent) returns (allBlocks: Manifest, last: Parent)
    ensures allBlocks == blocks + m
    ensures last == AdvanceAll(parent, m)
  {
    allBlocks, last := blocks, parent;
    assert m[0..] == m && blocks + m[..0] == blocks;
    for b := 0 to |m|
      invariant allBlocks == blocks + m[..b]
      invariant AdvanceAll(parent, m) == AdvanceAll(last, m[b..])
    {
      assert m[b..][1..] == m[b + 1..] && m[..b + 1] == m[..b] + [m[b]];
      allBlocks := allBlocks + [m[b]];
      last := Advance(last, m[b]);
    }
    assert m[..|m|] == m;
  }

  method DeriveBlocks(sources: seq<Source>, start: Parent, proposal: Proposal, rules: Rules)
    returns (r: Result<Derived, DerivationError>)
    ensures r == Derive(DecodeAll(sources, rules), start, proposal, rules)
  {
    ghost var decoded := DecodeAll(sources, rules);
    ghost var goal := Derive(decoded, start, proposal, rules);
    var parent := start;
    var blocks, spans := [], [];
    assert decoded[0..] == decoded;
    JoinedEmpty(goal);
    for s := 0 to |sources|
      invariant goal == Joined(Derived(blocks, spans), Derive(decoded[s..], parent, proposal, rules))
    {
      assert decoded[s..][1..] == decoded[s + 1..] && decoded[s..][0] == Decode(sources[s], rules);
      var prepared := PrepareSourceManifest(sources[s], parent, proposal, rules);
      if prepared.Err? {
        return Err(prepared.error);
      }
      ghost var before := Derived(blocks, spans);
      var span := Span(sources[s].forced, |prepared.value|);
      spans := spans + [span];
      blocks, parent := AppendSource(prepared.value, blocks, parent);
      JoinedAssociative(before, Derived(prepared.value, [span]), Derive(decoded[s + 1..], parent, proposal, rules));
    }
    assert blocks + [] == blocks && spans + [] == spans;
    return Ok(Derived(blocks, spans));
  }

  lemma JoinedEmpty(rest: Result<Derived, DerivationError>)
    ensures Joined(Derived([], []), rest) == rest
  {
    if rest.Ok? {
      assert [] + rest.value.blocks == rest.value.blocks && [] + rest.value.spans == rest.value.spans;
    }
  }

  // ---------- The check of all anchors ----------

  ghost function Total(spans: seq<Span>): nat {
    if spans == [] then 0 else Total(spans[..|spans| - 1]) + spans[|spans| - 1].count
  }

  /** The parent L2 state vouches for the anchors: all equal the last one, out of the window. */
  ghost predicate Stalled(anchors: seq<u64>, lastAnchor: u64, origin: u64, chainId: u64) {
    && anchors != []
    && (forall i :: 0 <= i < |anchors| ==> anchors[i] == lastAnchor)
    && WrapSub(origin, lastAnchor) > AnchorMaxOffset(chainId)
  }

  method ShouldBypassStalledAnchors(anchors: seq<u64>, lastAnchor: u64, origin: u64, chainId: u64)
    returns (bypass: bool)
    ensures bypass <==> Stalled(anchors, lastAnchor, origin, chainId)
  {
    if |anchors| == 0 {
      return false;
    }
    var first := anchors[0];
    if first != lastAnchor || WrapSub(origin, first) <= AnchorMaxOffset(chainId) {
      return false;
    }
    for i := 0 to |anchors|
      invariant forall j :: 0 <= j < i ==> anchors[j] == first
    {
      if anchors[i] != first {
        return false;
      }
    }
    return true;
  }

  /** Every source before the last is a non-empty forced one, the last a non-empty normal one. */
  ghost predicate SpansOk(spans: seq<Span>) {
    && spans != []
    && (forall i :: 0 <= i < |spans| ==> spans[i].count > 0)
    && (forall i :: 0 <= i < |spans| ==> spans[i].forced == (i < |spans| - 1))
  }

  ghost predicate SourceAwareOk(anchors: seq<u64>, spans: seq<Span>, lastAnchor: u64, origin: u64, chainId: u64) {
    && SpansOk(spans)
    && Total(spans) == |anchors|
    && (var prefix := Total(spans[..|spans| - 1]);
        && (forall i :: 0 <= i < prefix ==> anchors[i] == lastAnchor)
        && (Stalled(anchors, lastAnchor, origin, chainId)
            || ProgressionOk(anchors[prefix..], lastAnchor, origin, chainId)))
  }

  lemma {:induction false} TotalMonotone(spans: seq<Span>, i: nat)
    requires i <= |spans|
    ensures Total(spans[..i]) <= Total(spans)
  {
    if i < |spans| {
      TotalMonotone(spans[..|spans| - 1], i);
      assert spans[..|spans| - 1][..i] == spans[..i];
    } else {
      assert spans[..i] == spans;
    }
  }

  method ValidateSourceAwareAnchors(anchors: seq<u64>, spans: seq<Span>, lastAnchor: u64, origin: u64, chainId: u64)
    returns (ok: bool)
    ensures ok <==> SourceAwareOk(anchors, spans, lastAnchor, origin, chainId)
  {
    if |anchors| == 0 {
      assert SpansOk(spans) ==> Total(spans) > 0;
      return false;
    }
    if |spans| == 0 {
      return false;
    }
    var normal := spans[|spans| - 1];
    if normal.forced {
      return false;
    }
    if normal.count == 0 {
      return false;
    }
    var cursor := 0;
    for s := 0 to |spans| - 1
      invariant cursor == Total(spans[..s]) <= |anchors|
      invariant forall i :: 0 <= i < s ==> spans[i].forced && spans[i].count > 0
      invariant forall i :: 0 <= i < cursor ==> anchors[i] == lastAnchor
    {
      var span := spans[s];
      assert spans[..s + 1][..s] == spans[..s];
      if !span.forced {
        return false;
      }
      if span.count == 0 {
        return false;
      }
      var end := cursor + span.count;
      TotalMonotone(spans[..|spans| - 1], s + 1);
      assert spans[..|spans| - 1][..s + 1] == spans[..s + 1];
      if end > |anchors| {
        return false;
      }
      for i := cursor to end
        invariant forall j :: cursor <= j < i ==> anchors[j] == lastAnchor
      {
        if anchors[i] != lastAnchor {
          return false;
        }
      }
      cursor := end;
    }
    var end := cursor + normal.count;
    if end != |anchors| {
      return false;
    }
    var bypass := ShouldBypassStalledAnchors(anchors, lastAnchor, origin, chainId);
    if bypass {
      return true;
    }
    assert anchors[cursor..end] == anchors[cursor..];
    ok := ValidateAnchorProgression(anchors[cursor..end], lastAnchor, origin, chainId);
  }

  method DeriveProposal(sources: seq<Source>, parent: Parent, proposal: Proposal, rules: Rules, witnesses: nat)
    returns (r: Result<Derived, FoldError>)
    ensures r.Ok? <==>
            && sources != []
            && Derive(DecodeAll(sources, rules), parent, proposal, rules).Ok?
            && var d := Derive(DecodeAll(sources, rules), parent, proposal, rules).value;
               && |d.blocks| == witnesses
               && SourceAwareOk(Anchors(d.blocks), d.spans, parent.anchor, proposal.origin, rules.chainId)
    ensures r.Ok? ==> r.value == Derive(DecodeAll(sources, rules), parent, proposal, rules).value
  {
    if |sources| == 0 {
      return Err(NoSources);
    }
    var derived := DeriveBlocks(sources, parent, proposal, rules);
    if derived.Err? {
      return Err(BadSource(derived.error));
    }
    var d := derived.value;
    if |d.blocks| != witnesses {
      return Err(CountMismatch);
    }
    var ok := ValidateSourceAwareAnchors(Anchors(d.blocks), d.spans, parent.anchor, proposal.origin, rules.chainId);
    if !ok {
      return Err(AnchorsRejected);
    }
    return Ok(d);
  }

  // ---------- What the fold guarantees: the shape of every source ----------

  /** A prepared source passes all three checks or is exactly the inherited default block. */
  lemma PreparedShape(source: Decoded, parent: Parent, proposal: Proposal, rules: Rules)
    requires Prepared(source, parent, proposal, rules).Ok?
    ensures var m := Prepared(source, parent, proposal, rules).value;
            && (SourceOk(m, source.forced, parent, proposal, rules) || m == InheritedDefault(parent, proposal, rules))
            && m != []
            && (source.forced ==> |m| == 1 && m[0].anchor == parent.anchor)
            && (source.forced ==> m[0].coinbase == proposal.proposer)
  {
    var content := source.content.value;
    var m := Proposed(content, source.forced, parent, proposal, rules);
    InheritedHead(DefaultManifest(), parent, proposal, rules);
    if source.forced {
      InheritedHead(if |content| != 1 then DefaultManifest() else content, parent, proposal, rules);
    }
  }

  lemma InheritedHead(m: Manifest, parent: Parent, proposal: Proposal, rules: Rules)
    requires |m| == 1
    ensures var i := Inherited(m, parent.time, parent, proposal, rules);
            && |i| == 1
            && i[0].timestamp == TimestampLowerBound(parent.time, proposal.timestamp, rules)
            && i[0].coinbase == proposal.proposer
            && i[0].anchor == parent.anchor
            && i[0].gasLimit == EffectiveGasLimit(parent.number, parent.gasLimit)
            && i[0].transactions == m[0].transactions
  {
  }

  /**
   How the derived list splits by source: each part was checked against, or inherited from, the
   parent that the parts before it lead to.
   */
  ghost predicate Explained(sources: seq<Decoded>, parent: Parent, proposal: Proposal, rules: Rules, d: Derived)
    decreases |sources|
  {
    if sources == [] then d == Derived([], [])
    else
      && d.spans != []
      && d.spans[0].forced == sources[0].forced
      && 0 < d.spans[0].count <= |d.blocks|
      && (var m := d.blocks[..d.spans[0].count];
          && (SourceOk(m, sources[0].forced, parent, proposal, rules)
              || m == InheritedDefault(parent, proposal, rules))
          && (sources[0].forced ==> |m| == 1 && m[0].anchor == parent.anchor)
          && Explained(sources[1..], AdvanceAll(parent, m), proposal, rules,
                       Derived(d.blocks[d.spans[0].count..], d.spans[1..])))
  }

  lemma {:induction false} FoldExplained(sources: seq<Decoded>, parent: Parent, proposal: Proposal, rules: Rules)
    requires Derive(sources, parent, proposal, rules).Ok?
    ensures Explained(sources, parent, proposal, rules, Derive(sources, parent, proposal, rules).value)
    decreases |sources|
  {
    if sources != [] {
      PreparedShape(sources[0], parent, proposal, rules);
      var m := Prepared(sources[0], parent, proposal, rules).value;
      FoldExplained(sources[1..], AdvanceAll(parent, m), proposal, rules);
      var tail := Derive(sources[1..], AdvanceAll(parent, m), proposal, rules).value;
      var d := Derive(sources, parent, proposal, rules).value;
      assert d.blocks == m + tail.blocks && d.spans == [Span(sources[0].forced, |m|)] + tail.spans;
      assert d.blocks[..|m|] == m && d.blocks[|m|..] == tail.blocks && d.spans[1..] == tail.spans;
    }
  }
}
