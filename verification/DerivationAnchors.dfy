/**
 The check of all anchors at the end of a derivation accepts what the fold itself produced, for
 every list of sources of the right shape, with one exception that its wrapping subtraction makes.
 */
module DerivationAnchors {
  import opened Wrappers
  import opened Words
  import opened Derivation
  import opened DerivationFold

  /** Forced sources first, then exactly one normal source. */
  ghost predicate ForcedThenNormal(sources: seq<Decoded>) {
    && sources != []
    && forall i :: 0 <= i < |sources| ==> sources[i].forced == (i < |sources| - 1)
  }

  /** The origin lies behind the last anchor, yet so far that the wrapped distance looks small. */
  predicate WrapsIntoWindow(lastAnchor: u64, origin: u64, chainId: u64) {
    origin < lastAnchor && origin + U64_RANGE - lastAnchor <= AnchorMaxOffset(chainId)
  }

  // ---------- The spans mirror the sources ----------

  lemma {:induction false} TotalCons(s: Span, rest: seq<Span>)
    ensures Total([s] + rest) == s.count + Total(rest)
    decreases |rest|
  {
    var all := [s] + rest;
    if rest == [] {
      assert all[..0] == [];
    } else {
      assert all[..|all| - 1] == [s] + rest[..|rest| - 1];
      TotalCons(s, rest[..|rest| - 1]);
    }
  }

  /** One span per source, with its kind; together they cover the derived blocks exactly. */
  ghost predicate Mirrors(sources: seq<Decoded>, d: Derived) {
    && |d.spans| == |sources|
    && (forall i :: 0 <= i < |sources| ==> d.spans[i].forced == sources[i].forced && d.spans[i].count > 0)
    && Total(d.spans) == |d.blocks|
  }

  lemma MirrorsCons(source: Decoded, m: Manifest, rest: seq<Decoded>, tail: Derived)
    requires m != [] && Mirrors(rest, tail)
    ensures Mirrors([source] + rest, Derived(m + tail.blocks, [Span(source.forced, |m|)] + tail.spans))
  {
    TotalCons(Span(source.forced, |m|), tail.spans);
  }

  lemma {:induction false} SpansMirror(sources: seq<Decoded>, parent: Parent, proposal: Proposal, rules: Rules)
    requires Derive(sources, parent, proposal, rules).Ok?
    ensures Mirrors(sources, Derive(sources, parent, proposal, rules).value)
    decreases |sources|
  {
    if sources != [] {
      PreparedShape(sources[0], parent, proposal, rules);
      hide Prepared;
      var m := Prepared(sources[0], parent, proposal, rules).value;
      var after := AdvanceAll(parent, m);
      SpansMirror(sources[1..], after, proposal, rules);
      MirrorsCons(sources[0], m, sources[1..], Derive(sources[1..], after, proposal, rules).value);
      assert sources == [sources[0]] + sources[1..];
    }
  }

  // ---------- The anchors the fold produces ----------

  /** The anchors of the final source: they progress past the last one, or there is one block that stays. */
  ghost predicate FinalAnchors(m: Manifest, lastAnchor: u64, origin: u64, chainId: u64) {
    || (ProgressionOk(Anchors(m), lastAnchor, origin, chainId) && exists i :: 0 <= i < |m| && m[i].anchor > lastAnchor)
    || (|m| == 1 && m[0].anchor == lastAnchor)
  }

  /** n single forced blocks that keep the anchor, then the final source. */
  ghost predicate FoldShape(d: Derived, n: nat, anchor: u64, origin: u64, chainId: u64) {
    && |d.spans| == n + 1
    && Total(d.spans[..n]) == n <= |d.blocks|
    && (forall i :: 0 <= i < n ==> d.blocks[i].anchor == anchor)
    && FinalAnchors(d.blocks[n..], anchor, origin, chainId)
  }

  lemma FinalSourceShape(source: Decoded, parent: Parent, proposal: Proposal, rules: Rules)
    requires !source.forced && Prepared(source, parent, proposal, rules).Ok?
    ensures var m := Prepared(source, parent, proposal, rules).value;
            FoldShape(Derived(m, [Span(false, |m|)]), 0, parent.anchor, proposal.origin, rules.chainId)
  {
    PreparedShape(source, parent, proposal, rules);
    InheritedHead(DefaultManifest(), parent, proposal, rules);
    var m := Prepared(source, parent, proposal, rules).value;
    assert m[0..] == m && [Span(false, |m|)][..0] == [];
  }

  lemma PrependForced(block: ManifestBlock, tail: Derived, n: nat, origin: u64, chainId: u64)
    requires FoldShape(tail, n, block.anchor, origin, chainId)
    ensures FoldShape(Derived([block] + tail.blocks, [Span(true, 1)] + tail.spans), n + 1, block.anchor, origin, chainId)
  {
    var blocks, spans := [block] + tail.blocks, [Span(true, 1)] + tail.spans;
    TotalCons(Span(true, 1), tail.spans[..n]);
    assert spans[..n + 1] == [Span(true, 1)] + tail.spans[..n];
    assert blocks[n + 1..] == tail.blocks[n..];
    assert forall i :: 0 < i < n + 1 ==> blocks[i] == tail.blocks[i - 1];
  }

  lemma DeriveOne(source: Decoded, parent: Parent, proposal: Proposal, rules: Rules)
    requires Derive([source], parent, proposal, rules).Ok?
    ensures Prepared(source, parent, proposal, rules).Ok?
    ensures var m := Prepared(source, parent, proposal, rules).value;
            Derive([source], parent, proposal, rules).value == Derived(m, [Span(source.forced, |m|)])
  {
    var m := Prepared(source, parent, proposal, rules).value;
    assert [source][1..] == [];
    assert Derive([], AdvanceAll(parent, m), proposal, rules) == Ok(Derived([], []));
    assert m + [] == m && [Span(source.forced, |m|)] + [] == [Span(source.forced, |m|)];
  }

  /** A forced source puts one block, at the parent's anchor, in front of what the others derive. */
  lemma DeriveForced(sources: seq<Decoded>, parent: Parent, proposal: Proposal, rules: Rules)
    returns (block: ManifestBlock, after: Parent)
    requires sources != [] && sources[0].forced && Derive(sources, parent, proposal, rules).Ok?
    ensures block.anchor == parent.anchor == after.anchor
    ensures Derive(sources[1..], after, proposal, rules).Ok?
    ensures var tail := Derive(sources[1..], after, proposal, rules).value;
            Derive(sources, parent, proposal, rules).value
            == Derived([block] + tail.blocks, [Span(true, 1)] + tail.spans)
  {
    PreparedShape(sources[0], parent, proposal, rules);
    var m := Prepared(sources[0], parent, proposal, rules).value;
    block, after := m[0], AdvanceAll(parent, m);
    assert m == [block] && m[1..] == [];
    assert after == AdvanceAll(Advance(parent, block), []) == Advance(parent, block);
  }

  lemma {:induction false} FoldAnchors(sources: seq<Decoded>, parent: Parent, proposal: Proposal, rules: Rules)
    requires ForcedThenNormal(sources) && Derive(sources, parent, proposal, rules).Ok?
    ensures FoldShape(Derive(sources, parent, proposal, rules).value, |sources| - 1, parent.anchor, proposal.origin,
                      rules.chainId)
    decreases |sources|
  {
    if |sources| == 1 {
      assert sources == [sources[0]];
      DeriveOne(sources[0], parent, proposal, rules);
      FinalSourceShape(sources[0], parent, proposal, rules);
    } else {
      var block, after := DeriveForced(sources, parent, proposal, rules);
      ForcedThenNormalRest(sources);
      FoldAnchors(sources[1..], after, proposal, rules);
      PrependForced(block, Derive(sources[1..], after, proposal, rules).value, |sources| - 2, proposal.origin,
                    rules.chainId);
    }
  }

  lemma ForcedThenNormalRest(sources: seq<Decoded>)
    requires ForcedThenNormal(sources) && |sources| > 1
    ensures ForcedThenNormal(sources[1..])
  {
  }

  // ---------- The check, on numbers ----------

  /** How many blocks the first n spans cover. */
  ghost function CountOf(spans: seq<Span>, n: nat): nat
    requires n <= |spans|
  {
    if n == 0 then 0 else CountOf(spans, n - 1) + spans[n - 1].count
  }

  lemma {:induction false} TotalIsCount(spans: seq<Span>, n: nat)
    requires n <= |spans|
    ensures Total(spans[..n]) == CountOf(spans, n)
  {
    if n > 0 {
      TotalIsCount(spans, n - 1);
      assert spans[..n][..n - 1] == spans[..n - 1];
    }
  }

  /** Every anchor stays, while the origin has left the last anchor's window; the distance is unsigned. */
  ghost predicate AllStay(anchors: seq<u64>, lastAnchor: u64, origin: u64, chainId: u64) {
    && (forall i :: 0 <= i < |anchors| ==> anchors[i] == lastAnchor)
    && (origin - lastAnchor) % 0x1_0000_0000_0000_0000 > if chainId == 167000 then 512 else 128
  }

  /** From the given position on, the anchors never go back and stay in the origin's window. */
  ghost predicate MoveOnFrom(anchors: seq<u64>, start: nat, lastAnchor: u64, origin: u64, chainId: u64) {
    && (forall i :: start <= i < |anchors| ==>
          lastAnchor <= anchors[i] <= origin <= (anchors[i] as int) + if chainId == 167000 then 512 else 128)
    && (forall i, j :: start <= i < j < |anchors| ==> anchors[i] <= anchors[j])
  }

  lemma MoveOnMeaning(anchors: seq<u64>, start: nat, lastAnchor: u64, origin: u64, chainId: u64)
    requires start < |anchors|
    ensures ProgressionOk(anchors[start..], lastAnchor, origin, chainId)
            <==> MoveOnFrom(anchors, start, lastAnchor, origin, chainId)
  {
    var rest := anchors[start..];
    assert rest != [] && forall i :: 0 <= i < |rest| ==> rest[i] == anchors[start + i];
    if ProgressionOk(rest, lastAnchor, origin, chainId) {
      forall i | start <= i < |anchors|
        ensures lastAnchor <= anchors[i] <= origin <= (anchors[i] as int) + if chainId == 167000 then 512 else 128
      {
        assert rest[i - start] == anchors[i];
      }
      forall i, j | start <= i < j < |anchors| ensures anchors[i] <= anchors[j] {
        assert rest[i - start] <= rest[j - start];
      }
    }
  }

  lemma AllStayMeaning(anchors: seq<u64>, lastAnchor: u64, origin: u64, chainId: u64)
    requires anchors != []
    ensures Stalled(anchors, lastAnchor, origin, chainId) <==> AllStay(anchors, lastAnchor, origin, chainId)
  {
  }

  /** Non-empty spans, forced ones and then one that is not. */
  ghost predicate ForcedThenLast(spans: seq<Span>) {
    && spans != []
    && (forall i :: 0 <= i < |spans| ==> spans[i].count > 0 && (spans[i].forced <==> i < |spans| - 1))
  }

  lemma SpansMeaning(spans: seq<Span>)
    ensures SpansOk(spans) <==> ForcedThenLast(spans)
    ensures ForcedThenLast(spans) ==> CountOf(spans, |spans|) > CountOf(spans, |spans| - 1)
    ensures spans != [] ==> Total(spans) == CountOf(spans, |spans|)
    ensures spans != [] ==> Total(spans[..|spans| - 1]) == CountOf(spans, |spans| - 1)
  {
    if spans != [] {
      TotalIsCount(spans, |spans|);
      TotalIsCount(spans, |spans| - 1);
      assert spans[..|spans|] == spans;
    }
  }

  /**
   The final check, for any anchors and spans: non-empty forced spans and then one non-empty normal span
   cover the anchors exactly, the forced blocks stay, and the normal ones move on unless all blocks stay.
   */
  lemma SourceAwareMeaning(anchors: seq<u64>, spans: seq<Span>, lastAnchor: u64, origin: u64, chainId: u64)
    ensures SourceAwareOk(anchors, spans, lastAnchor, origin, chainId) <==>
            && ForcedThenLast(spans)
            && CountOf(spans, |spans|) == |anchors|
            && (var forcedBlocks := CountOf(spans, |spans| - 1);
                && (forall i :: 0 <= i < forcedBlocks ==> anchors[i] == lastAnchor)
                && (AllStay(anchors, lastAnchor, origin, chainId)
                    || MoveOnFrom(anchors, forcedBlocks, lastAnchor, origin, chainId)))
  {
    SpansMeaning(spans);
    hide SpansOk, Stalled, AllStay, ProgressionOk, MoveOnFrom, Total, CountOf;
    if ForcedThenLast(spans) && CountOf(spans, |spans|) == |anchors| {
      AllStayMeaning(anchors, lastAnchor, origin, chainId);
      MoveOnMeaning(anchors, CountOf(spans, |spans| - 1), lastAnchor, origin, chainId);
    }
  }

  // ---------- The check accepts them ----------

  lemma OneStayingBlock(anchors: seq<u64>, n: nat, lastAnchor: u64, origin: u64, chainId: u64)
    requires |anchors| == n + 1 && forall i :: 0 <= i < |anchors| ==> anchors[i] == lastAnchor
    ensures (Stalled(anchors, lastAnchor, origin, chainId) || ProgressionOk(anchors[n..], lastAnchor, origin, chainId))
            <==> !WrapsIntoWindow(lastAnchor, origin, chainId)
  {
    WrapSubExact(origin, lastAnchor);
    assert anchors[n..] == [lastAnchor];
    assert ProgressionOk([lastAnchor], lastAnchor, origin, chainId)
           <==> MinAnchor(origin, chainId) <= lastAnchor <= origin by {
      assert [lastAnchor][0] == lastAnchor;
    }
  }

  lemma FinalAnchorsAccepted(blocks: Manifest, n: nat, lastAnchor: u64, origin: u64, chainId: u64)
    requires n <= |blocks| && forall i :: 0 <= i < n ==> blocks[i].anchor == lastAnchor
    requires FinalAnchors(blocks[n..], lastAnchor, origin, chainId)
    ensures (Stalled(Anchors(blocks), lastAnchor, origin, chainId)
             || ProgressionOk(Anchors(blocks)[n..], lastAnchor, origin, chainId))
            <==> !WrapsIntoWindow(lastAnchor, origin, chainId)
  {
    var m := blocks[n..];
    assert Anchors(blocks)[n..] == Anchors(m);
    if ProgressionOk(Anchors(m), lastAnchor, origin, chainId) && exists i :: 0 <= i < |m| && m[i].anchor > lastAnchor {
      var i :| 0 <= i < |m| && m[i].anchor > lastAnchor;
      assert Anchors(m)[i] == m[i].anchor <= origin;
    } else {
      forall i | 0 <= i < |blocks| ensures Anchors(blocks)[i] == lastAnchor {
        if i >= n {
          assert blocks[i] == m[i - n];
        }
      }
      OneStayingBlock(Anchors(blocks), n, lastAnchor, origin, chainId);
    }
  }

  lemma SpansShape(sources: seq<Decoded>, parent: Parent, proposal: Proposal, rules: Rules)
    requires Derive(sources, parent, proposal, rules).Ok?
    ensures var d := Derive(sources, parent, proposal, rules).value;
            (SpansOk(d.spans) <==> ForcedThenNormal(sources)) && Total(d.spans) == |d.blocks|
  {
    SpansMirror(sources, parent, proposal, rules);
    var d := Derive(sources, parent, proposal, rules).value;
    if SpansOk(d.spans) {
      assert forall i :: 0 <= i < |sources| ==> d.spans[i].forced == sources[i].forced;
    }
  }

  lemma FoldShapeAccepted(d: Derived, n: nat, anchor: u64, origin: u64, chainId: u64)
    requires FoldShape(d, n, anchor, origin, chainId) && SpansOk(d.spans) && Total(d.spans) == |d.blocks|
    ensures SourceAwareOk(Anchors(d.blocks), d.spans, anchor, origin, chainId) <==> !WrapsIntoWindow(anchor, origin, chainId)
  {
    FinalAnchorsAccepted(d.blocks, n, anchor, origin, chainId);
    assert forall i :: 0 <= i < n ==> Anchors(d.blocks)[i] == d.blocks[i].anchor;
  }

  /**
   For every proposal whose sources decode: the final check accepts exactly when the sources are
   forced ones followed by one normal one and the origin does not wrap into the anchor window.
   */
  lemma DerivedAnchorsAccepted(sources: seq<Decoded>, parent: Parent, proposal: Proposal, rules: Rules)
    requires Derive(sources, parent, proposal, rules).Ok?
    ensures var d := Derive(sources, parent, proposal, rules).value;
            SourceAwareOk(Anchors(d.blocks), d.spans, parent.anchor, proposal.origin, rules.chainId)
            <==> ForcedThenNormal(sources) && !WrapsIntoWindow(parent.anchor, proposal.origin, rules.chainId)
  {
    SpansShape(sources, parent, proposal, rules);
    if ForcedThenNormal(sources) {
      FoldAnchors(sources, parent, proposal, rules);
      FoldShapeAccepted(Derive(sources, parent, proposal, rules).value, |sources| - 1, parent.anchor, proposal.origin,
                        rules.chainId);
    }
  }

  /** Block numbers of 48 bits never meet the exception. */
  lemma DerivedAnchorsAcceptedAt48Bits(sources: seq<Decoded>, parent: Parent, proposal: Proposal, rules: Rules)
    requires Derive(sources, parent, proposal, rules).Ok? && ForcedThenNormal(sources)
    requires parent.anchor <= UINT48_MAX && proposal.origin <= UINT48_MAX
    ensures var d := Derive(sources, parent, proposal, rules).value;
            SourceAwareOk(Anchors(d.blocks), d.spans, parent.anchor, proposal.origin, rules.chainId)
  {
    DerivedAnchorsAccepted(sources, parent, proposal, rules);
  }

  /**
   The exception is met by every proposal, on every chain, whose origin wraps into the window: one
   normal source without blobs derives its inherited block, and the check refuses it.
   */
  lemma WrappedOriginRefused(parent: Parent, proposal: Proposal, rules: Rules)
    requires WrapsIntoWindow(parent.anchor, proposal.origin, rules.chainId)
    ensures var r := Derive(DecodeAll([Source(false, false, 0, [])], rules), parent, proposal, rules);
            && r.Ok?
            && r.value.blocks == InheritedDefault(parent, proposal, rules)
            && !SourceAwareOk(Anchors(r.value.blocks), r.value.spans, parent.anchor, proposal.origin, rules.chainId)
  {
    var source := Decode(Source(false, false, 0, []), rules);
    assert DecodeAll([Source(false, false, 0, [])], rules) == [source];
    assert source.content == Ok(DefaultManifest());
    DeriveOne(source, parent, proposal, rules);
    DerivedAnchorsAccepted([source], parent, proposal, rules);
  }
}
