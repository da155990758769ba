/** Block headers and their hash, which is a parameter of the model. */
module Headers {
  import opened Words

  // A 32-byte word or a 20-byte address.  Words carry no bound, so that an injective hash exists.
  type Word = nat

  /** The header fields that are checked; rest stands for all others. */
  datatype Header = Header(number: u64, parentHash: Word, root: Word, receiptsRoot: Word, txRoot: Word, time: u64,
                           coinbase: Word, gasLimit: u64, extra: Word, mixDigest: Word, difficulty: nat, rest: nat)

  /** A block as another chain commits to it: its number, its hash and its state root. */
  datatype Checkpoint = Checkpoint(number: u64, hash: Word, root: Word)

  type HeaderHash = Header -> Word

  predicate SameHash(hashOf: HeaderHash, a: Header, b: Header) {
    hashOf(a) == hashOf(b)
  }

  ghost predicate Injective(hashOf: HeaderHash) {
    forall a, b :: SameHash(hashOf, a, b) ==> a == b
  }

  predicate Succeeds(older: Header, newer: Header, hashOf: HeaderHash) {
    newer.number == WrapAdd(older.number, 1) && newer.parentHash == hashOf(older)
  }

  predicate LinkedAt(headers: seq<Header>, i: nat, hashOf: HeaderHash)
    requires 0 < i < |headers|
  {
    Succeeds(headers[i - 1], headers[i], hashOf)
  }

  /** Oldest first: each header follows the one before it in number and in hash. */
  ghost predicate Linked(headers: seq<Header>, hashOf: HeaderHash) {
    forall i: nat :: 0 < i < |headers| ==> LinkedAt(headers, i, hashOf)
  }

  lemma LinkedMeaning(headers: seq<Header>, hashOf: HeaderHash)
    ensures Linked(headers, hashOf) <==> forall i :: 0 < i < |headers| ==>
              && headers[i].number == (headers[i - 1].number + 1) % 0x1_0000_0000_0000_0000
              && headers[i].parentHash == hashOf(headers[i - 1])
  {
    forall i: nat | 0 < i < |headers|
      ensures LinkedAt(headers, i, hashOf) <==>
              && headers[i].number == (headers[i - 1].number + 1) % 0x1_0000_0000_0000_0000
              && headers[i].parentHash == hashOf(headers[i - 1])
    {
    }
  }

  /** Numbers count back from the last header, modulo 2^64. */
  lemma {:induction false} LinkedNumbers(headers: seq<Header>, hashOf: HeaderHash, i: nat)
    requires i < |headers| <= U64_RANGE && Linked(headers, hashOf)
    ensures headers[i].number == WrapSub(headers[|headers| - 1].number, |headers| - 1 - i)
    decreases |headers| - i
  {
    WrapSubExact(headers[|headers| - 1].number, |headers| - 1 - i);
    if i + 1 < |headers| {
      LinkedNumbers(headers, hashOf, i + 1);
      assert LinkedAt(headers, i + 1, hashOf);
      WrapAddExact(headers[i].number, 1);
      WrapSubExact(headers[|headers| - 1].number, |headers| - 2 - i);
    }
  }

  /** Two linked lists that end in the same hash agree from the end, as far as both reach. */
  lemma {:induction false} LinkedFromTheEnd(a: seq<Header>, b: seq<Header>, hashOf: HeaderHash, back: nat)
    requires Injective(hashOf) && Linked(a, hashOf) && Linked(b, hashOf)
    requires back < |a| && back < |b|
    requires hashOf(a[|a| - 1]) == hashOf(b[|b| - 1])
    ensures a[|a| - 1 - back] == b[|b| - 1 - back]
  {
    assert SameHash(hashOf, a[|a| - 1 - back], b[|b| - 1 - back]) by {
      if back > 0 {
        LinkedFromTheEnd(a, b, hashOf, back - 1);
        assert LinkedAt(a, |a| - back, hashOf);
        assert LinkedAt(b, |b| - back, hashOf);
      }
    }
  }

  lemma LinkedSnoc(headers: seq<Header>, i: nat, hashOf: HeaderHash)
    requires i < |headers| && Linked(headers[..i], hashOf)
    ensures Linked(headers[..i + 1], hashOf) <==> i > 0 ==> Succeeds(headers[i - 1], headers[i], hashOf)
    ensures Linked(headers, hashOf) ==> i > 0 ==> Succeeds(headers[i - 1], headers[i], hashOf)
  {
    var longer := headers[..i + 1];
    forall j: nat | 0 < j < i ensures LinkedAt(longer, j, hashOf) {
      assert LinkedAt(headers[..i], j, hashOf);
    }
    if i > 0 {
      assert LinkedAt(longer, i, hashOf) == LinkedAt(headers, i, hashOf);
    }
  }
}
