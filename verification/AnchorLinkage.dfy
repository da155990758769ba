/**
 The link from the checkpoints that the L2 anchor transactions wrote to L1: one pass over the L1
 ancestor headers that checks their linkage and consumes the checkpoints on the way.
 */
module AnchorLinkage {
  import opened Wrappers
  import opened Words
  import opened Headers
  import opened DerivationFold

  function CheckpointOf(h: Header, hashOf: HeaderHash): Checkpoint {
    Checkpoint(h.number, hashOf(h), h.root)
  }

  // ---------- The single pass ----------

  /** The checkpoints from next on that belong to header h are consumed; one that differs stops the pass. */
  function Consume(cps: seq<Checkpoint>, next: nat, h: Header, hashOf: HeaderHash): (r: Option<nat>)
    requires next <= |cps|
    ensures r.Some? ==>
              && next <= r.value <= |cps|
              && (forall k :: next <= k < r.value ==> cps[k] == CheckpointOf(h, hashOf))
              && (r.value < |cps| ==> cps[r.value].number != h.number)
    ensures r.None? ==>
              exists k :: next <= k < |cps| && cps[k].number == h.number && cps[k] != CheckpointOf(h, hashOf)
    decreases |cps| - next
  {
    if next == |cps| || cps[next].number != h.number then Some(next)
    else if cps[next] != CheckpointOf(h, hashOf) then None
    else Consume(cps, next + 1, h, hashOf)
  }

  /** How many checkpoints a pass over all headers consumes. */
  ghost function Scan(cps: seq<Checkpoint>, headers: seq<Header>, hashOf: HeaderHash): (r: Option<nat>)
    ensures r.Some? ==> r.value <= |cps|
  {
    if headers == [] then Some(0)
    else
      var last := |headers| - 1;
      match Scan(cps, headers[..last], hashOf)
      case None => None
      case Some(next) => Consume(cps, next, headers[last], hashOf)
  }

  ghost predicate EndsAt(headers: seq<Header>, origin: u64, originHash: Word, hashOf: HeaderHash) {
    && headers != []
    && headers[|headers| - 1].number == origin
    && hashOf(headers[|headers| - 1]) == originHash
  }

  ghost predicate MergeOk(cps: seq<Checkpoint>, headers: seq<Header>, origin: u64, originHash: Word, hashOf: HeaderHash) {
    && EndsAt(headers, origin, originHash, hashOf)
    && Linked(headers, hashOf)
    && Scan(cps, headers, hashOf) == Some(|cps|)
  }

  lemma {:induction false} ScanStops(cps: seq<Checkpoint>, headers: seq<Header>, n: nat, hashOf: HeaderHash)
    requires n <= |headers| && Scan(cps, headers[..n], hashOf).None?
    ensures Scan(cps, headers, hashOf).None?
  {
    if n < |headers| {
      assert headers[..|headers| - 1][..n] == headers[..n];
      ScanStops(cps, headers[..|headers| - 1], n, hashOf);
    } else {
      assert headers[..n] == headers;
    }
  }

  lemma ScanSnoc(cps: seq<Checkpoint>, headers: seq<Header>, i: nat, next: nat, hashOf: HeaderHash)
    requires i < |headers| && Scan(cps, headers[..i], hashOf) == Some(next)
    ensures Scan(cps, headers[..i + 1], hashOf) == Consume(cps, next, headers[i], hashOf)
    ensures Consume(cps, next, headers[i], hashOf).None? ==> Scan(cps, headers, hashOf).None?
  {
    assert headers[..i + 1][..i] == headers[..i];
    if Scan(cps, headers[..i + 1], hashOf).None? {
      ScanStops(cps, headers, i + 1, hashOf);
    }
  }

  /** The inner loop: the checkpoints of one header. */
  method ConsumeHeader(cps: seq<Checkpoint>, start: nat, h: Header, hashOf: HeaderHash)
    returns (ok: bool, cpIndex: nat)
    requires start <= |cps|
    ensures Consume(cps, start, h, hashOf) == if ok then Some(cpIndex) else None
  {
    cpIndex := start;
    while cpIndex < |cps| && cps[cpIndex].number == h.number
      invariant cpIndex <= |cps| && Consume(cps, start, h, hashOf) == Consume(cps, cpIndex, h, hashOf)
    {
      var cp := cps[cpIndex];
      if cp.hash != hashOf(h) || cp.root != h.root {
        return false, cpIndex;
      }
      cpIndex := cpIndex + 1;
    }
    return true, cpIndex;
  }

  method MergeCheckpoints(cps: seq<Checkpoint>, headers: seq<Header>, origin: u64, originHash: Word, hashOf: HeaderHash)
    returns (ok: bool)
    ensures ok <==> MergeOk(cps, headers, origin, originHash, hashOf)
  {
    if |headers| == 0 {
      return false;
    }
    var cpIndex := 0;
    var previous: Option<u64> := None;
    var previousHash: Word := 0;
    for i := 0 to |headers|
      invariant previous == if i == 0 then None else Some(headers[i - 1].number)
      invariant i > 0 ==> previousHash == hashOf(headers[i - 1])
      invariant Linked(headers[..i], hashOf)
      invariant Scan(cps, headers[..i], hashOf) == Some(cpIndex)
    {
      var header := headers[i];
      LinkedSnoc(headers, i, hashOf);
      if previous.Some? {
        if header.number != WrapAdd(previous.value, 1) {
          return false;
        }
        if header.parentHash != previousHash {
          return false;
        }
      }
      ScanSnoc(cps, headers, i, cpIndex, hashOf);
      var matched;
      matched, cpIndex := ConsumeHeader(cps, cpIndex, header, hashOf);
      if !matched {
        return false;
      }
      previous, previousHash := Some(header.number), hashOf(header);
    }
    assert headers[..|headers|] == headers;
    return previous == Some(origin) && previousHash == originHash && cpIndex == |cps|;
  }

  // ---------- What the pass accepts ----------

  /** How many headers after the first the given number stands, modulo 2^64. */
  function Position(number: u64, headers: seq<Header>): u64
    requires headers != []
  {
    WrapSub(number, headers[0].number)
  }

  /** The header at the checkpoint's position is the one it copies. */
  predicate OnPath(cp: Checkpoint, headers: seq<Header>, hashOf: HeaderHash)
    requires headers != []
  {
    && Position(cp.number, headers) < |headers|
    && cp == CheckpointOf(headers[Position(cp.number, headers)], hashOf)
  }

  ghost predicate AllOnPath(cps: seq<Checkpoint>, headers: seq<Header>, hashOf: HeaderHash)
    requires headers != []
  {
    && (forall k :: 0 <= k < |cps| ==> OnPath(cps[k], headers, hashOf))
    && (forall j, k :: 0 <= j < k < |cps| ==> Position(cps[j].number, headers) <= Position(cps[k].number, headers))
  }

  /** The header at each position carries the number of that position. */
  ghost predicate Numbered(headers: seq<Header>) {
    |headers| <= U64_RANGE &&
    forall i {:trigger headers[i]} :: 0 <= i < |headers| ==> Position(headers[i].number, headers) == i
  }

  lemma PathIsNumbered(headers: seq<Header>, hashOf: HeaderHash)
    requires 0 < |headers| <= U64_RANGE && Linked(headers, hashOf)
    ensures Numbered(headers)
  {
    var n := |headers| - 1;
    forall i | 0 <= i <= n ensures Position(headers[i].number, headers) == i {
      LinkedNumbers(headers, hashOf, i);
      LinkedNumbers(headers, hashOf, 0);
      WrapSubExact(headers[n].number, n - i);
      WrapSubExact(headers[n].number, n);
      WrapSubExact(headers[i].number, headers[0].number);
    }
  }

  lemma PositionUnique(number: u64, headers: seq<Header>, i: nat)
    requires i < |headers| && Numbered(headers)
    ensures number == headers[i].number <==> Position(number, headers) == i
  {
    WrapSubExact(number, headers[0].number);
    WrapSubExact(headers[i].number, headers[0].number);
  }

  lemma {:induction false} ScanSound(cps: seq<Checkpoint>, headers: seq<Header>, n: nat, hashOf: HeaderHash)
    requires n <= |headers| && headers != [] && Numbered(headers) && Scan(cps, headers[..n], hashOf).Some?
    ensures AllOnPath(cps[..Scan(cps, headers[..n], hashOf).value], headers, hashOf)
    ensures forall k :: 0 <= k < Scan(cps, headers[..n], hashOf).value ==> Position(cps[k].number, headers) < n
  {
    if n > 0 {
      assert headers[..n][..n - 1] == headers[..n - 1];
      ScanSound(cps, headers, n - 1, hashOf);
      var next, end := Scan(cps, headers[..n - 1], hashOf).value, Scan(cps, headers[..n], hashOf).value;
      forall k | 0 <= k < end
        ensures OnPath(cps[k], headers, hashOf)
        ensures k < next ==> Position(cps[k].number, headers) < n - 1
        ensures k >= next ==> Position(cps[k].number, headers) == n - 1
      {
        if k < next {
          assert OnPath(cps[..next][k], headers, hashOf);
        } else {
          PositionUnique(cps[k].number, headers, n - 1);
        }
      }
      forall j, k | 0 <= j < k < end ensures Position(cps[j].number, headers) <= Position(cps[k].number, headers) {
        if k < next {
          assert Position(cps[..next][j].number, headers) <= Position(cps[..next][k].number, headers);
        }
      }
    }
  }

  lemma {:induction false} ScanComplete(cps: seq<Checkpoint>, headers: seq<Header>, n: nat, hashOf: HeaderHash)
    requires headers != [] && n <= |headers| && Numbered(headers) && AllOnPath(cps, headers, hashOf)
    ensures Scan(cps, headers[..n], hashOf).Some?
    ensures var next := Scan(cps, headers[..n], hashOf).value;
            next < |cps| ==> Position(cps[next].number, headers) >= n
  {
    if n > 0 {
      ScanComplete(cps, headers, n - 1, hashOf);
      assert headers[..n][..n - 1] == headers[..n - 1];
      var next := Scan(cps, headers[..n - 1], hashOf).value;
      var r := Consume(cps, next, headers[n - 1], hashOf);
      forall k | next <= k < |cps| ensures Position(cps[k].number, headers) >= n - 1
        ensures cps[k].number == headers[n - 1].number <==> Position(cps[k].number, headers) == n - 1
      {
        assert k > next ==> Position(cps[next].number, headers) <= Position(cps[k].number, headers);
        PositionUnique(cps[k].number, headers, n - 1);
      }
      assert r.Some?;
    }
  }

  /**
   The single pass accepts exactly the non-empty, contiguous, hash-linked header lists that end at
   the origin, with checkpoints that do not go back along the path and that each copy the header
   at their own number.  A list longer than 2^64 cannot be held.
   */
  lemma MergeMeaning(cps: seq<Checkpoint>, headers: seq<Header>, origin: u64, originHash: Word, hashOf: HeaderHash)
    requires |headers| <= U64_RANGE
    ensures MergeOk(cps, headers, origin, originHash, hashOf) <==>
            && EndsAt(headers, origin, originHash, hashOf)
            && Linked(headers, hashOf)
            && AllOnPath(cps, headers, hashOf)
  {
    if EndsAt(headers, origin, originHash, hashOf) && Linked(headers, hashOf) {
      PathIsNumbered(headers, hashOf);
      assert headers[..|headers|] == headers;
      if Scan(cps, headers, hashOf) == Some(|cps|) {
        ScanSound(cps, headers, |headers|, hashOf);
        assert cps[..|cps|] == cps;
      }
      if AllOnPath(cps, headers, hashOf) {
        ScanComplete(cps, headers, |headers|, hashOf);
      }
    }
  }

  // ---------- The same with plain block numbers ----------

  /** The header that stands as far below the origin as the checkpoint's number does is its copy. */
  predicate Below(cp: Checkpoint, headers: seq<Header>, origin: u64, hashOf: HeaderHash) {
    && 0 <= origin - cp.number < |headers|
    && var copied := headers[|headers| - 1 - (origin - cp.number)];
       cp.number == copied.number && cp.hash == hashOf(copied) && cp.root == copied.root
  }

  ghost predicate Ascending(cps: seq<Checkpoint>) {
    forall j, k :: 0 <= j < k < |cps| ==> cps[j].number <= cps[k].number
  }

  /** Where a position lies, counted back from the origin. */
  lemma PositionFromOrigin(number: u64, headers: seq<Header>, origin: u64, originHash: Word, hashOf: HeaderHash)
    requires |headers| <= U64_RANGE && EndsAt(headers, origin, originHash, hashOf) && Linked(headers, hashOf)
    ensures Position(number, headers) < |headers| <==> WrapSub(origin, number) < |headers|
    ensures Position(number, headers) < |headers| ==>
              Position(number, headers) == |headers| - 1 - WrapSub(origin, number)
  {
    LinkedNumbers(headers, hashOf, 0);
    WrapSubExact(origin, |headers| - 1);
    WrapSubExact(number, headers[0].number);
    WrapSubExact(origin, number);
  }

  lemma OnPathIsBelow(cp: Checkpoint, headers: seq<Header>, origin: u64, originHash: Word, hashOf: HeaderHash)
    requires |headers| <= U64_RANGE && EndsAt(headers, origin, originHash, hashOf) && Linked(headers, hashOf)
    requires cp.number <= origin || |headers| <= U64_RANGE + origin - cp.number
    ensures OnPath(cp, headers, hashOf) <==> Below(cp, headers, origin, hashOf)
    ensures OnPath(cp, headers, hashOf) ==> Position(cp.number, headers) == |headers| - 1 - (origin - cp.number)
  {
    PositionFromOrigin(cp.number, headers, origin, originHash, hashOf);
    WrapSubExact(origin, cp.number);
  }

  /**
   With the 48-bit numbers that decoding enforces, on paths of any length that fits a 63-bit count,
   each checkpoint copies the header at its plain number and the numbers do not go back.
   */
  lemma MergeMeaningAt48Bits(cps: seq<Checkpoint>, headers: seq<Header>, origin: u64, originHash: Word, hashOf: HeaderHash)
    requires |headers| <= U64_RANGE / 2 && origin <= UINT48_MAX
    requires forall k :: 0 <= k < |cps| ==> cps[k].number <= UINT48_MAX
    ensures MergeOk(cps, headers, origin, originHash, hashOf) <==>
            && EndsAt(headers, origin, originHash, hashOf)
            && Linked(headers, hashOf)
            && (forall k :: 0 <= k < |cps| ==> Below(cps[k], headers, origin, hashOf))
            && Ascending(cps)
  {
    MergeMeaning(cps, headers, origin, originHash, hashOf);
    if EndsAt(headers, origin, originHash, hashOf) && Linked(headers, hashOf) {
      forall k | 0 <= k < |cps|
        ensures OnPath(cps[k], headers, hashOf) <==> Below(cps[k], headers, origin, hashOf)
        ensures OnPath(cps[k], headers, hashOf) ==>
                  Position(cps[k].number, headers) == |headers| - 1 - (origin - cps[k].number)
      {
        OnPathIsBelow(cps[k], headers, origin, originHash, hashOf);
      }
    }
  }

  lemma AscendingWithin(cps: seq<Checkpoint>, headers: seq<Header>, origin: u64, originHash: Word,
                                           hashOf: HeaderHash)
    requires |headers| <= origin + 1 && MergeOk(cps, headers, origin, originHash, hashOf)
    ensures Ascending(cps)
  {
    MergeMeaning(cps, headers, origin, originHash, hashOf);
    LinkedNumbers(headers, hashOf, 0);
    WrapSubExact(origin, |headers| - 1);
    forall k | 0 <= k < |cps| ensures cps[k].number == headers[0].number + Position(cps[k].number, headers) {
      assert OnPath(cps[k], headers, hashOf);
      WrapSubExact(cps[k].number, headers[0].number);
    }
  }

  /** The two headers around block 0 of a path that passes below it. */
  lemma DescendingAccepted(headers: seq<Header>, origin: u64, originHash: Word, hashOf: HeaderHash)
    returns (cps: seq<Checkpoint>)
    requires origin + 1 < |headers| <= U64_RANGE && EndsAt(headers, origin, originHash, hashOf) && Linked(headers, hashOf)
    ensures MergeOk(cps, headers, origin, originHash, hashOf) && !Ascending(cps)
  {
    var zero := |headers| - 1 - origin;
    LinkedNumbers(headers, hashOf, zero);
    LinkedNumbers(headers, hashOf, zero - 1);
    WrapSubExact(origin, origin);
    WrapSubExact(origin, origin + 1);
    cps := [CheckpointOf(headers[zero - 1], hashOf), CheckpointOf(headers[zero], hashOf)];
    PathIsNumbered(headers, hashOf);
    assert OnPath(cps[0], headers, hashOf) && OnPath(cps[1], headers, hashOf);
    MergeMeaning(cps, headers, origin, originHash, hashOf);
    assert cps[0].number > cps[1].number;
  }

  /**
   Without the 48-bit widths, accepted numbers can go back exactly on the paths that pass below
   block 0.
   */
  lemma NumbersGoBackBelowZero(headers: seq<Header>, origin: u64, originHash: Word, hashOf: HeaderHash)
    requires |headers| <= U64_RANGE && EndsAt(headers, origin, originHash, hashOf) && Linked(headers, hashOf)
    ensures (exists cps :: MergeOk(cps, headers, origin, originHash, hashOf) && !Ascending(cps)) <==> |headers| > origin + 1
  {
    if |headers| > origin + 1 {
      var cps := DescendingAccepted(headers, origin, originHash, hashOf);
    } else {
      forall cps | MergeOk(cps, headers, origin, originHash, hashOf) ensures Ascending(cps) {
        AscendingWithin(cps, headers, origin, originHash, hashOf);
      }
    }
  }

  // ---------- Uniqueness ----------

  /** Ancestor lists accepted for one origin are suffixes of one another. */
  lemma AncestorsAgree(a: seq<Header>, b: seq<Header>, origin: u64, originHash: Word, hashOf: HeaderHash)
    requires Injective(hashOf) && |a| <= |b|
    requires EndsAt(a, origin, originHash, hashOf) && Linked(a, hashOf)
    requires EndsAt(b, origin, originHash, hashOf) && Linked(b, hashOf)
    ensures a == b[|b| - |a|..]
  {
    forall i | 0 <= i < |a| ensures a[i] == b[|b| - |a| + i] {
      LinkedFromTheEnd(a, b, hashOf, |a| - 1 - i);
    }
  }

  /** So one origin leaves at most one checkpoint for each L1 block number, on paths of any length. */
  lemma OneCheckpointPerNumber(cpsA: seq<Checkpoint>, a: seq<Header>, cpsB: seq<Checkpoint>, b: seq<Header>,
                               origin: u64, originHash: Word, hashOf: HeaderHash, j: nat, k: nat)
    requires Injective(hashOf) && |a| <= U64_RANGE && |b| <= U64_RANGE
    requires MergeOk(cpsA, a, origin, originHash, hashOf) && MergeOk(cpsB, b, origin, originHash, hashOf)
    requires j < |cpsA| && k < |cpsB| && cpsA[j].number == cpsB[k].number
    ensures cpsA[j] == cpsB[k]
  {
    MergeMeaning(cpsA, a, origin, originHash, hashOf);
    MergeMeaning(cpsB, b, origin, originHash, hashOf);
    assert OnPath(cpsA[j], a, hashOf) && OnPath(cpsB[k], b, hashOf);
    PositionFromOrigin(cpsA[j].number, a, origin, originHash, hashOf);
    PositionFromOrigin(cpsB[k].number, b, origin, originHash, hashOf);
    LinkedFromTheEnd(a, b, hashOf, WrapSub(origin, cpsA[j].number));
  }

  // ---------- The whole check ----------

  function Numbers(cps: seq<Checkpoint>): (n: seq<u64>)
    ensures |n| == |cps|
    ensures forall i :: 0 <= i < |cps| ==> n[i] == cps[i].number
  {
    seq(|cps|, i requires 0 <= i < |cps| => cps[i].number)
  }

  ghost function ForcedTotal(spans: seq<Span>): nat {
    if spans == [] then 0
    else
      var last := spans[|spans| - 1];
      ForcedTotal(spans[..|spans| - 1]) + if last.forced then last.count else 0
  }

  ghost function ForcedPrefix(spans: seq<Span>): nat {
    if spans == [] then 0 else ForcedTotal(spans[..|spans| - 1])
  }

  method ForcedInclusionPrefixCount(spans: seq<Span>) returns (count: nat)
    ensures count == ForcedPrefix(spans)
  {
    count := 0;
    var prefix := spans[..if |spans| > 0 then |spans| - 1 else 0];
    for i := 0 to |prefix|
      invariant count == ForcedTotal(prefix[..i])
    {
      assert prefix[..i + 1][..i] == prefix[..i];
      if prefix[i].forced {
        count := count + prefix[i].count;
      }
    }
    assert prefix[..|prefix|] == prefix;
  }

  /**
   What the check is made against: the proposal's L1 origin, the chain, the host's last anchor, and
   the checkpoint that the parent L2 state holds for it, or None when it cannot be read there.
   */
  datatype Anchoring = Anchoring(origin: u64, originHash: Word, chainId: u64, lastAnchor: u64,
                                 parentCheckpoint: Option<Checkpoint>)

  ghost predicate OutOfWindow(cps: seq<Checkpoint>, on: Anchoring) {
    Stalled(Numbers(cps), on.lastAnchor, on.origin, on.chainId)
  }

  ghost predicate LinkageOk(l1Header: Header, headers: seq<Header>, cps: seq<Checkpoint>, spans: seq<Span>, on: Anchoring,
                            hashOf: HeaderHash)
  {
    && l1Header.number == on.origin
    && hashOf(l1Header) == on.originHash
    && if OutOfWindow(cps, on)
       then on.parentCheckpoint.Some? && forall k :: 0 <= k < |cps| ==> cps[k] == on.parentCheckpoint.value
       else
         var prefix := ForcedPrefix(spans);
         && prefix <= |cps|
         && (prefix > 0 ==> on.parentCheckpoint.Some?)
         && (forall k :: 0 <= k < prefix ==> cps[k] == on.parentCheckpoint.value)
         && MergeOk(cps[prefix..], headers, on.origin, on.originHash, hashOf)
  }

  method ValidateAnchorL1Linkage(l1Header: Header, headers: seq<Header>, cps: seq<Checkpoint>, spans: seq<Span>,
                                 on: Anchoring, hashOf: HeaderHash)
    returns (ok: bool)
    ensures ok <==> LinkageOk(l1Header, headers, cps, spans, on, hashOf)
  {
    if l1Header.number != on.origin {
      return false;
    }
    if hashOf(l1Header) != on.originHash {
      return false;
    }
    var bypass := ShouldBypassStalledAnchors(Numbers(cps), on.lastAnchor, on.origin, on.chainId);
    if bypass {
      if on.parentCheckpoint.None? {
        return false;
      }
      ok := AllEqual(cps, on.parentCheckpoint.value);
      return;
    }
    var startIndex := ForcedInclusionPrefixCount(spans);
    if startIndex > |cps| {
      return false;
    }
    if startIndex > 0 {
      if on.parentCheckpoint.None? {
        return false;
      }
      var same := AllEqual(cps[..startIndex], on.parentCheckpoint.value);
      if !same {
        assert exists k :: 0 <= k < startIndex && cps[..startIndex][k] != on.parentCheckpoint.value;
        return false;
      }
      assert forall k :: 0 <= k < startIndex ==> cps[k] == cps[..startIndex][k];
    }
    ok := MergeCheckpoints(cps[startIndex..], headers, on.origin, on.originHash, hashOf);
  }

  method AllEqual(cps: seq<Checkpoint>, expected: Checkpoint) returns (same: bool)
    ensures same <==> forall k :: 0 <= k < |cps| ==> cps[k] == expected
  {
    for i := 0 to |cps|
      invariant forall k :: 0 <= k < i ==> cps[k] == expected
    {
      if cps[i] != expected {
        return false;
      }
    }
    return true;
  }

  /**
   Every checkpoint that the whole check accepts is the parent L2 state's own, or lies on the
   L1 path that ends at the origin.
   */
  lemma EveryCheckpointAccountedFor(l1Header: Header, headers: seq<Header>, cps: seq<Checkpoint>, spans: seq<Span>,
                                    on: Anchoring, hashOf: HeaderHash, k: nat)
    requires LinkageOk(l1Header, headers, cps, spans, on, hashOf)
    requires k < |cps| && |headers| <= U64_RANGE
    ensures || on.parentCheckpoint == Some(cps[k])
            || (&& Linked(headers, hashOf) && EndsAt(headers, on.origin, on.originHash, hashOf)
                && OnPath(cps[k], headers, hashOf))
  {
    var prefix := ForcedPrefix(spans);
    if !OutOfWindow(cps, on) && k >= prefix {
      MergedOnPath(cps[prefix..], headers, on, hashOf, k - prefix);
    }
  }

  /** The last anchor stays while the origin has left its window; the distance is unsigned. */
  ghost predicate Stays(cps: seq<Checkpoint>, on: Anchoring) {
    && cps != []
    && (forall k :: 0 <= k < |cps| ==> cps[k].number == on.lastAnchor)
    && (on.origin - on.lastAnchor) % 0x1_0000_0000_0000_0000 > if on.chainId == 167000 then 512 else 128
  }

  /** How many blocks the forced spans before the last span count. */
  ghost function ForcedBlocks(spans: seq<Span>, n: nat): nat
    requires n <= |spans|
  {
    if n == 0 then 0 else ForcedBlocks(spans, n - 1) + if spans[n - 1].forced then spans[n - 1].count else 0
  }

  lemma {:induction false} ForcedTotalIs(spans: seq<Span>, n: nat)
    requires n <= |spans|
    ensures ForcedTotal(spans[..n]) == ForcedBlocks(spans, n)
  {
    if n > 0 {
      ForcedTotalIs(spans, n - 1);
      assert spans[..n][..n - 1] == spans[..n - 1];
    }
  }

  /** How far up the path a checkpoint's number lies, modulo 2^64. */
  function Height(cp: Checkpoint, headers: seq<Header>): nat
    requires headers != []
  {
    (cp.number - headers[0].number) % 0x1_0000_0000_0000_0000
  }

  /** Each of the checkpoints from start on copies the path's header at its number, and they never go down. */
  ghost predicate CopiedFrom(cps: seq<Checkpoint>, start: nat, headers: seq<Header>, hashOf: HeaderHash)
    requires headers != []
  {
    && (forall k :: start <= k < |cps| ==>
          && Height(cps[k], headers) < |headers|
          && var copied := headers[Height(cps[k], headers)];
             cps[k].number == copied.number && cps[k].hash == hashOf(copied) && cps[k].root == copied.root)
    && (forall j, k :: start <= j < k < |cps| ==> Height(cps[j], headers) <= Height(cps[k], headers))
  }

  lemma CopiedMeaning(cps: seq<Checkpoint>, start: nat, headers: seq<Header>, hashOf: HeaderHash)
    requires headers != [] && start <= |cps|
    ensures AllOnPath(cps[start..], headers, hashOf) <==> CopiedFrom(cps, start, headers, hashOf)
  {
    var rest := cps[start..];
    assert forall k :: 0 <= k < |cps| ==> Height(cps[k], headers) == Position(cps[k].number, headers);
    if AllOnPath(rest, headers, hashOf) {
      forall k | start <= k < |cps| ensures OnPath(cps[k], headers, hashOf) {
        assert rest[k - start] == cps[k];
      }
      forall j, k | start <= j < k < |cps| ensures Height(cps[j], headers) <= Height(cps[k], headers) {
        assert rest[j - start] == cps[j] && rest[k - start] == cps[k];
      }
    }
    if CopiedFrom(cps, start, headers, hashOf) {
      assert forall k :: 0 <= k < |rest| ==> rest[k] == cps[start + k];
    }
  }

  /**
   The whole check accepts exactly this: the L1 header is the origin's; when all anchors stay, every
   checkpoint is the parent state's own; otherwise those of the forced blocks are, and all others copy
   the headers of a linked path that ends at the origin.
   */
  lemma LinkageMeaning(l1Header: Header, headers: seq<Header>, cps: seq<Checkpoint>, spans: seq<Span>, on: Anchoring,
                       hashOf: HeaderHash)
    requires |headers| <= U64_RANGE
    ensures LinkageOk(l1Header, headers, cps, spans, on, hashOf) <==>
            && l1Header.number == on.origin
            && hashOf(l1Header) == on.originHash
            && (Stays(cps, on) ==> forall k :: 0 <= k < |cps| ==> on.parentCheckpoint == Some(cps[k]))
            && (!Stays(cps, on) ==>
                  var forcedBlocks := if spans == [] then 0 else ForcedBlocks(spans, |spans| - 1);
                  && forcedBlocks <= |cps|
                  && (forall k :: 0 <= k < forcedBlocks ==> on.parentCheckpoint == Some(cps[k]))
                  && headers != [] && headers[|headers| - 1].number == on.origin
                  && hashOf(headers[|headers| - 1]) == on.originHash
                  && (forall i :: 0 < i < |headers| ==>
                        && headers[i].number == (headers[i - 1].number + 1) % 0x1_0000_0000_0000_0000
                        && headers[i].parentHash == hashOf(headers[i - 1]))
                  && CopiedFrom(cps, forcedBlocks, headers, hashOf))
  {
    hide Stays, OutOfWindow, CopiedFrom, Linked, MergeOk;
    StaysMeaning(cps, on);
    LinkedMeaning(headers, hashOf);
    if Stays(cps, on) {
      ParentsOwn(cps, |cps|, on);
    } else {
      MovingMeaning(headers, cps, spans, on, hashOf);
      if ForcedPrefix(spans) <= |cps| {
        ParentsOwn(cps, ForcedPrefix(spans), on);
      }
    }
  }

  lemma ParentsOwn(cps: seq<Checkpoint>, n: nat, on: Anchoring)
    requires n <= |cps|
    ensures (forall k :: 0 <= k < n ==> on.parentCheckpoint == Some(cps[k])) <==>
            n == 0 || (on.parentCheckpoint.Some? && forall k :: 0 <= k < n ==> cps[k] == on.parentCheckpoint.value)
  {
    if forall k :: 0 <= k < n ==> on.parentCheckpoint == Some(cps[k]) {
      assert n > 0 ==> on.parentCheckpoint == Some(cps[0]);
    }
  }

  lemma MovingMeaning(headers: seq<Header>, cps: seq<Checkpoint>, spans: seq<Span>, on: Anchoring, hashOf: HeaderHash)
    requires |headers| <= U64_RANGE
    ensures ForcedPrefix(spans) == if spans == [] then 0 else ForcedBlocks(spans, |spans| - 1)
    ensures ForcedPrefix(spans) <= |cps| ==>
              (MergeOk(cps[ForcedPrefix(spans)..], headers, on.origin, on.originHash, hashOf) <==>
                 && headers != [] && headers[|headers| - 1].number == on.origin
                 && hashOf(headers[|headers| - 1]) == on.originHash
                 && Linked(headers, hashOf)
                 && CopiedFrom(cps, ForcedPrefix(spans), headers, hashOf))
  {
    hide CopiedFrom, AllOnPath, MergeOk, Linked;
    if spans != [] {
      ForcedTotalIs(spans, |spans| - 1);
    }
    var prefix := ForcedPrefix(spans);
    if prefix <= |cps| {
      MergeMeaning(cps[prefix..], headers, on.origin, on.originHash, hashOf);
      if headers != [] {
        CopiedMeaning(cps, prefix, headers, hashOf);
      }
    }
  }

  lemma StaysMeaning(cps: seq<Checkpoint>, on: Anchoring)
    ensures Stays(cps, on) <==> OutOfWindow(cps, on)
    ensures Stays(cps, on) ==> cps != []
  {
    assert cps == [] <==> Numbers(cps) == [];
    if OutOfWindow(cps, on) {
      forall k | 0 <= k < |cps| ensures cps[k].number == on.lastAnchor {
        assert Numbers(cps)[k] == on.lastAnchor;
      }
    }
  }

  lemma MergedOnPath(cps: seq<Checkpoint>, headers: seq<Header>, on: Anchoring, hashOf: HeaderHash, k: nat)
    requires MergeOk(cps, headers, on.origin, on.originHash, hashOf) && |headers| <= U64_RANGE && k < |cps|
    ensures Linked(headers, hashOf) && EndsAt(headers, on.origin, on.originHash, hashOf) && OnPath(cps[k], headers, hashOf)
  {
    MergeMeaning(cps, headers, on.origin, on.originHash, hashOf);
  }

  /**
   The host cannot choose the checkpoints: for one proposal and one parent L2 state, the anchors'
   block numbers leave a single accepted list, whatever header paths the host sends.
   */
  lemma CheckpointsDetermined(l1HeaderA: Header, a: seq<Header>, cpsA: seq<Checkpoint>,
                              l1HeaderB: Header, b: seq<Header>, cpsB: seq<Checkpoint>,
                              spans: seq<Span>, on: Anchoring, hashOf: HeaderHash)
    requires Injective(hashOf) && |a| <= U64_RANGE && |b| <= U64_RANGE
    requires LinkageOk(l1HeaderA, a, cpsA, spans, on, hashOf) && LinkageOk(l1HeaderB, b, cpsB, spans, on, hashOf)
    requires Numbers(cpsA) == Numbers(cpsB)
    ensures l1HeaderA == l1HeaderB && cpsA == cpsB
  {
    var prefix := ForcedPrefix(spans);
    assert SameHash(hashOf, l1HeaderA, l1HeaderB);
    forall k | 0 <= k < |cpsA| ensures cpsA[k] == cpsB[k] {
      assert Numbers(cpsA)[k] == Numbers(cpsB)[k];
      if !OutOfWindow(cpsA, on) && k >= prefix {
        OneCheckpointPerNumber(cpsA[prefix..], a, cpsB[prefix..], b, on.origin, on.originHash, hashOf,
                               k - prefix, k - prefix);
      }
    }
  }

  lemma {:induction false} ForcedTotalWhenAllForced(spans: seq<Span>)
    requires forall i :: 0 <= i < |spans| ==> spans[i].forced
    ensures ForcedTotal(spans) == Total(spans)
  {
    if spans != [] {
      ForcedTotalWhenAllForced(spans[..|spans| - 1]);
    }
  }

  /** After a derivation that was accepted, the forced prefix never exceeds the checkpoints. */
  lemma ForcedPrefixFits(cps: seq<Checkpoint>, spans: seq<Span>, lastAnchor: u64, origin: u64, chainId: u64)
    requires SourceAwareOk(Numbers(cps), spans, lastAnchor, origin, chainId)
    ensures ForcedPrefix(spans) == Total(spans[..|spans| - 1]) < |cps|
    ensures forall k :: 0 <= k < ForcedPrefix(spans) ==> cps[k].number == lastAnchor
  {
    ForcedTotalWhenAllForced(spans[..|spans| - 1]);
    assert forall k :: 0 <= k < |cps| ==> Numbers(cps)[k] == cps[k].number;
  }
}
