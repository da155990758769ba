/** The ancestor headers that accompany a replayed block, and the chain context built from them. */
module Witness {
  import opened Wrappers
  import opened Words
  import opened Headers

  // ---------- Decoding: oldest first on the wire, parent first in memory ----------

  function Reversed<T>(s: seq<T>): (r: seq<T>)
    ensures |r| == |s|
    ensures forall i :: 0 <= i < |s| ==> r[i] == s[|s| - 1 - i]
  {
    seq(|s|, i requires 0 <= i < |s| => s[|s| - 1 - i])
  }

  method ReverseHeaders(headers: array<Header>)
    modifies headers
    ensures headers[..] == Reversed(old(headers[..]))
  {
    var i, j := 0, headers.Length - 1;
    while i < j
      invariant 0 <= i <= headers.Length && j == headers.Length - 1 - i
      invariant forall k :: 0 <= k < i ==> headers[k] == old(headers[headers.Length - 1 - k])
      invariant forall k :: j < k < headers.Length ==> headers[k] == old(headers[headers.Length - 1 - k])
      invariant forall k :: i <= k <= j ==> headers[k] == old(headers[k])
      decreases j - i
    {
      headers[i], headers[j] := headers[j], headers[i];
      i, j := i + 1, j - 1;
    }
  }

  predicate AllFull(raws: seq<Option<Header>>) {
    forall i :: 0 <= i < |raws| ==> raws[i].Some?
  }

  /** raws holds None where the wire carried something other than a full header. */
  method DecodeWitnessHeaders(raws: seq<Option<Header>>) returns (r: Option<seq<Header>>)
    ensures r.Some? <==> raws != [] && AllFull(raws)
    ensures r.Some? ==> |r.value| == |raws| && forall i :: 0 <= i < |raws| ==> Some(r.value[i]) == raws[|raws| - 1 - i]
  {
    if |raws| == 0 {
      return None;
    }
    var decoded: seq<Header> := [];
    for i := 0 to |raws|
      invariant |decoded| == i && forall k :: 0 <= k < i ==> raws[k] == Some(decoded[k])
    {
      match raws[i]
      case None => return None;
      case Some(h) => decoded := decoded + [h];
    }
    var headers := new Header[|decoded|](i requires 0 <= i < |decoded| => decoded[i]);
    assert headers[..] == decoded;
    ReverseHeaders(headers);
    return Some(headers[..]);
  }

  // ---------- The witness check ----------

  /**
   The ancestors, parent first, read backwards and followed by the block's own header, form one
   linked list; the block is not the genesis block.
   */
  ghost predicate WitnessOk(block: Header, ancestors: seq<Header>, hashOf: HeaderHash) {
    && ancestors != []
    && block.number != 0
    && Linked(Reversed(ancestors) + [block], hashOf)
  }

  predicate PrecededAt(ancestors: seq<Header>, i: nat, hashOf: HeaderHash)
    requires 0 < i < |ancestors|
  {
    Succeeds(ancestors[i], ancestors[i - 1], hashOf)
  }

  lemma WitnessOkUnfolded(block: Header, ancestors: seq<Header>, hashOf: HeaderHash)
    requires ancestors != [] && block.number != 0
    ensures WitnessOk(block, ancestors, hashOf) <==>
            && Succeeds(ancestors[0], block, hashOf)
            && forall i: nat :: 0 < i < |ancestors| ==> PrecededAt(ancestors, i, hashOf)
  {
    var list, n := Reversed(ancestors) + [block], |ancestors|;
    assert LinkedAt(list, n, hashOf) == Succeeds(ancestors[0], block, hashOf);
    if Linked(list, hashOf) {
      forall i: nat | 0 < i < n ensures PrecededAt(ancestors, i, hashOf) {
        assert LinkedAt(list, n - i, hashOf);
      }
    } else {
      var i: nat :| 0 < i <= n && !LinkedAt(list, i, hashOf);
      if i < n {
        assert !PrecededAt(ancestors, n - i, hashOf);
      }
    }
  }

  method ValidateReplayWitness(block: Header, ancestors: seq<Header>, hashOf: HeaderHash) returns (ok: bool)
    ensures ok <==> WitnessOk(block, ancestors, hashOf)
  {
    if |ancestors| == 0 {
      return false;
    }
    if block.number == 0 {
      return false;
    }
    WitnessOkUnfolded(block, ancestors, hashOf);
    if WrapAdd(ancestors[0].number, 1) != block.number {
      return false;
    }
    if hashOf(ancestors[0]) != block.parentHash {
      return false;
    }
    for index := 1 to |ancestors|
      invariant forall i: nat :: 0 < i < index ==> PrecededAt(ancestors, i, hashOf)
    {
      var newer, older := ancestors[index - 1], ancestors[index];
      if newer.number != WrapAdd(older.number, 1) {
        assert !PrecededAt(ancestors, index, hashOf);
        return false;
      }
      if newer.parentHash != hashOf(older) {
        assert !PrecededAt(ancestors, index, hashOf);
        return false;
      }
    }
    return true;
  }

  /** What the check accepts: every ancestor is the one before it in number and hash, down from the block. */
  lemma WitnessMeaning(block: Header, ancestors: seq<Header>, hashOf: HeaderHash)
    ensures WitnessOk(block, ancestors, hashOf) <==>
            && ancestors != [] && block.number != 0
            && (ancestors[0].number + 1) % 0x1_0000_0000_0000_0000 == block.number
            && hashOf(ancestors[0]) == block.parentHash
            && forall i :: 0 < i < |ancestors| ==>
                 && (ancestors[i].number + 1) % 0x1_0000_0000_0000_0000 == ancestors[i - 1].number
                 && hashOf(ancestors[i]) == ancestors[i - 1].parentHash
  {
    if ancestors != [] && block.number != 0 {
      WitnessOkUnfolded(block, ancestors, hashOf);
      forall i: nat | 0 < i < |ancestors|
        ensures PrecededAt(ancestors, i, hashOf) <==>
                && (ancestors[i].number + 1) % 0x1_0000_0000_0000_0000 == ancestors[i - 1].number
                && hashOf(ancestors[i]) == ancestors[i - 1].parentHash
      {
      }
    }
  }

  /** Refusing block 0 is what makes the parent's number exact. */
  lemma ParentNumberExact(block: Header, ancestors: seq<Header>, hashOf: HeaderHash)
    requires WitnessOk(block, ancestors, hashOf)
    ensures ancestors[0].number + 1 == block.number && hashOf(ancestors[0]) == block.parentHash
  {
    WitnessOkUnfolded(block, ancestors, hashOf);
    WrapAddExact(ancestors[0].number, 1);
  }

  /** Whatever ancestors a host sends for one block, they agree as far as both lists reach. */
  lemma WitnessesAgree(block: Header, a: seq<Header>, b: seq<Header>, hashOf: HeaderHash, i: nat)
    requires Injective(hashOf) && WitnessOk(block, a, hashOf) && WitnessOk(block, b, hashOf)
    requires i < |a| && i < |b|
    ensures a[i] == b[i]
  {
    LinkedFromTheEnd(Reversed(a) + [block], Reversed(b) + [block], hashOf, i + 1);
  }

  // ---------- The chain context ----------

  ghost function HashIndex(ancestors: seq<Header>, hashOf: HeaderHash): map<Word, Header> {
    if ancestors == [] then map[]
    else
      var last := ancestors[|ancestors| - 1];
      HashIndex(ancestors[..|ancestors| - 1], hashOf)[hashOf(last) := last]
  }

  ghost function NumberIndex(ancestors: seq<Header>, hashOf: HeaderHash): map<u64, Word> {
    if ancestors == [] then map[]
    else
      var last := ancestors[|ancestors| - 1];
      NumberIndex(ancestors[..|ancestors| - 1], hashOf)[last.number := hashOf(last)]
  }

  function Find(byHash: map<Word, Header>, hash: Word, number: u64): Option<Header> {
    if hash !in byHash || byHash[hash].number != number then None else Some(byHash[hash])
  }

  function FindByNumber(byHash: map<Word, Header>, byNumber: map<u64, Word>, number: u64): Option<Header> {
    if number !in byNumber then None else Find(byHash, byNumber[number], number)
  }

  class ChainContext {
    const current: Header
    var headersByHash: map<Word, Header>
    var hashesByNumber: map<u64, Word>

    constructor (block: Header, ancestors: seq<Header>, hashOf: HeaderHash)
      ensures current == block
      ensures headersByHash == HashIndex(ancestors, hashOf)
      ensures hashesByNumber == NumberIndex(ancestors, hashOf)
    {
      current := block;
      headersByHash, hashesByNumber := map[], map[];
      new;
      for i := 0 to |ancestors|
        invariant headersByHash == HashIndex(ancestors[..i], hashOf)
        invariant hashesByNumber == NumberIndex(ancestors[..i], hashOf)
      {
        assert ancestors[..i + 1][..i] == ancestors[..i];
        AddHeader(hashOf(ancestors[i]), ancestors[i]);
      }
      assert ancestors[..|ancestors|] == ancestors;
    }

    method AddHeader(hash: Word, header: Header)
      modifies this
      ensures headersByHash == old(headersByHash)[hash := header]
      ensures hashesByNumber == old(hashesByNumber)[header.number := hash]
    {
      headersByHash := headersByHash[hash := header];
      hashesByNumber := hashesByNumber[header.number := hash];
    }

    method GetHeader(hash: Word, number: u64) returns (r: Option<Header>)
      ensures r == Find(headersByHash, hash, number)
    {
      if hash !in headersByHash {
        return None;
      }
      var header := headersByHash[hash];
      if header.number != number {
        return None;
      }
      return Some(header);
    }

    method GetHeaderByNumber(number: u64) returns (r: Option<Header>)
      ensures r == FindByNumber(headersByHash, hashesByNumber, number)
    {
      if number !in hashesByNumber {
        return None;
      }
      r := GetHeader(hashesByNumber[number], number);
    }
  }

  lemma {:induction false} HashIndexMeaning(ancestors: seq<Header>, hashOf: HeaderHash, h: Header)
    requires Injective(hashOf)
    ensures hashOf(h) in HashIndex(ancestors, hashOf) <==> h in ancestors
    ensures h in ancestors ==> HashIndex(ancestors, hashOf)[hashOf(h)] == h
  {
    if ancestors != [] {
      var front, last := ancestors[..|ancestors| - 1], ancestors[|ancestors| - 1];
      HashIndexMeaning(front, hashOf, h);
      assert ancestors == front + [last];
      assert SameHash(hashOf, h, last) ==> h == last;
    }
  }

  /** How many blocks back a number lies, modulo 2^64. */
  function Back(block: Header, number: u64): u64 {
    WrapSub(block.number, number)
  }

  /** Ancestors numbered downwards from the block: each number is indexed by its own header. */
  lemma {:induction false} NumberIndexMeaning(block: Header, ancestors: seq<Header>, hashOf: HeaderHash, number: u64)
    requires forall i :: 0 <= i < |ancestors| ==> Back(block, ancestors[i].number) == i + 1
    ensures number in NumberIndex(ancestors, hashOf) <==> 1 <= Back(block, number) <= |ancestors|
    ensures number in NumberIndex(ancestors, hashOf) ==>
              NumberIndex(ancestors, hashOf)[number] == hashOf(ancestors[Back(block, number) - 1])
  {
    if ancestors != [] {
      var last := |ancestors| - 1;
      NumberIndexMeaning(block, ancestors[..last], hashOf, number);
      WrapSubExact(block.number, number);
      WrapSubExact(block.number, ancestors[last].number);
    }
  }

  lemma AncestorNumber(block: Header, ancestors: seq<Header>, hashOf: HeaderHash, i: nat)
    requires WitnessOk(block, ancestors, hashOf) && i < |ancestors| < U64_RANGE
    ensures Back(block, ancestors[i].number) == i + 1
  {
    var list := Reversed(ancestors) + [block];
    LinkedNumbers(list, hashOf, |ancestors| - 1 - i);
    assert list[|ancestors| - 1 - i] == ancestors[i];
    WrapSubExact(block.number, i + 1);
    WrapSubExact(block.number, ancestors[i].number);
  }

  /**
   After the witness check, looking a block up by its number finds exactly the ancestor that many
   blocks back, and nothing outside the witness.
   */
  lemma LookupFindsAncestor(block: Header, ancestors: seq<Header>, hashOf: HeaderHash, number: u64)
    requires Injective(hashOf) && WitnessOk(block, ancestors, hashOf) && |ancestors| < U64_RANGE
    ensures FindByNumber(HashIndex(ancestors, hashOf), NumberIndex(ancestors, hashOf), number) ==
            if 1 <= Back(block, number) <= |ancestors| then Some(ancestors[Back(block, number) - 1]) else None
  {
    forall i | 0 <= i < |ancestors| ensures Back(block, ancestors[i].number) == i + 1 {
      AncestorNumber(block, ancestors, hashOf, i);
    }
    NumberIndexMeaning(block, ancestors, hashOf, number);
    if 1 <= Back(block, number) <= |ancestors| {
      var found := ancestors[Back(block, number) - 1];
      HashIndexMeaning(ancestors, hashOf, found);
      WrapSubExact(block.number, number);
      WrapSubExact(block.number, found.number);
    }
  }

  /**
   Looking a hash up together with a number finds exactly the ancestor that has both; any other
   number for a known hash finds nothing.
   */
  lemma FindMeaning(ancestors: seq<Header>, hashOf: HeaderHash, hash: Word, number: u64, h: Header)
    requires Injective(hashOf)
    ensures Find(HashIndex(ancestors, hashOf), hash, number) == Some(h) <==>
            h in ancestors && hashOf(h) == hash && h.number == number
  {
    HashIndexMeaning(ancestors, hashOf, h);
    if hash in HashIndex(ancestors, hashOf) {
      IndexedByHash(ancestors, hashOf, hash);
    }
  }

  lemma {:induction false} IndexedByHash(ancestors: seq<Header>, hashOf: HeaderHash, hash: Word)
    requires hash in HashIndex(ancestors, hashOf)
    ensures hashOf(HashIndex(ancestors, hashOf)[hash]) == hash && HashIndex(ancestors, hashOf)[hash] in ancestors
  {
    var last := ancestors[|ancestors| - 1];
    if hash != hashOf(last) {
      IndexedByHash(ancestors[..|ancestors| - 1], hashOf, hash);
    }
  }
}
