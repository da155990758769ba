/**
 The word lists that are hashed and signed.  The hash itself is a parameter, ideal where a lemma
 says so: injective on lists of words.
 */
module Hashing {
  import opened Wrappers
  import opened Words
  import opened Headers
  import opened Carries

  type Hash = seq<Word> -> Word

  predicate SameImage(hash: Hash, a: seq<Word>, b: seq<Word>) {
    hash(a) == hash(b)
  }

  ghost predicate Ideal(hash: Hash) {
    forall a, b :: SameImage(hash, a, b) ==> a == b
  }

  // "VERIFY_PROOF", left-aligned in a word
  const VERIFY_PROOF: Word := 0x5645524946595f50524f4f46_0000000000000000000000000000000000000000

  function U48Word(value: u64): Word {
    value % 0x1_0000_0000_0000
  }

  // ---------- Subproofs ----------

  function CheckpointWords(cp: Checkpoint): seq<Word> {
    [U48Word(cp.number), cp.hash, cp.root]
  }

  function TransitionWords(input: TransitionInput, hash: Hash): seq<Word> {
    [input.proposalId, input.proposalHash, input.parentProposalHash, input.parentBlockHash, input.actualProver,
     input.transition.proposer, U48Word(input.transition.timestamp), hash(CheckpointWords(input.checkpoint)),
     U48Word(input.checkpoint.number), input.checkpoint.hash, input.checkpoint.root]
  }

  function SubproofWords(c: Carry, hash: Hash): seq<Word> {
    [VERIFY_PROOF, c.chainId, c.verifier, hash(TransitionWords(c.input, hash))]
  }

  function SubproofHash(c: Carry, hash: Hash): Word {
    hash(SubproofWords(c, hash))
  }

  /** c with the two masked fields cut to 48 bits. */
  function Masked(c: Carry): Carry {
    c.(input := c.input.(
      transition := c.input.transition.(timestamp := U48Word(c.input.transition.timestamp)),
      checkpoint := c.input.checkpoint.(number := U48Word(c.input.checkpoint.number))))
  }

  lemma MaskedIdentity(c: Carry)
    requires FitsWidths(c)
    ensures Masked(c) == c
  {
  }

  /** The subproof hash tells two carries apart exactly up to the bits it masks. */
  lemma SubproofHashMeaning(a: Carry, b: Carry, hash: Hash)
    requires Ideal(hash)
    ensures SubproofHash(a, hash) == SubproofHash(b, hash) <==> Masked(a) == Masked(b)
  {
    if SubproofHash(a, hash) == SubproofHash(b, hash) {
      var u, v := SubproofWords(a, hash), SubproofWords(b, hash);
      assert SameImage(hash, u, v);
      assert u[1] == v[1] && u[2] == v[2] && u[3] == v[3];
      var s, t := TransitionWords(a.input, hash), TransitionWords(b.input, hash);
      assert SameImage(hash, s, t);
      assert s[0] == t[0] && s[1] == t[1] && s[2] == t[2] && s[3] == t[3] && s[4] == t[4] && s[5] == t[5];
      assert s[6] == t[6] && s[8] == t[8] && s[9] == t[9] && s[10] == t[10];
    }
    if Masked(a) == Masked(b) {
      assert CheckpointWords(a.input.checkpoint) == CheckpointWords(b.input.checkpoint);
      assert TransitionWords(a.input, hash) == TransitionWords(b.input, hash);
    }
  }

  /** Within the widths that decoding enforces, it is injective. */
  lemma SubproofHashInjective(a: Carry, b: Carry, hash: Hash)
    requires Ideal(hash) && FitsWidths(a) && FitsWidths(b)
    requires SubproofHash(a, hash) == SubproofHash(b, hash)
    ensures a == b
  {
    SubproofHashMeaning(a, b, hash);
    MaskedIdentity(a);
    MaskedIdentity(b);
  }

  /** Outside them it is not: 2^48 seconds later gives the same hash. */
  lemma SubproofHashCollides(c: Carry, hash: Hash)
    requires c.input.transition.timestamp + 0x1_0000_0000_0000 < U64_RANGE
    ensures var later := c.input.transition.timestamp + 0x1_0000_0000_0000;
            var other := c.(input := c.input.(transition := c.input.transition.(timestamp := later)));
            other != c && SubproofHash(other, hash) == SubproofHash(c, hash)
  {
    var later := c.input.transition.timestamp + 0x1_0000_0000_0000;
    assert U48Word(later) == U48Word(c.input.transition.timestamp);
  }

  /**
   A reader of a subproof hash's nested preimages.  It goes by position alone, as the contract that
   checks the proof does, and follows the two nested hashes.
   */
  function ReadCarry(subproof: seq<Word>, transition: seq<Word>, checkpoint: seq<Word>, hash: Hash): Option<Carry> {
    if |subproof| != 4 || |transition| != 11 || |checkpoint| != 3 then None
    else if subproof[0] != 0x5645524946595f50524f4f460000000000000000000000000000000000000000 then None
    else if subproof[3] != hash(transition) || transition[7] != hash(checkpoint) || transition[8..] != checkpoint then None
    else if subproof[1] >= U64_RANGE || transition[0] >= U64_RANGE then None
    else if transition[6] > 0xffff_ffff_ffff || checkpoint[0] > 0xffff_ffff_ffff then None
    else
      Some(Carry(subproof[1], subproof[2],
                 TransitionInput(transition[0], transition[1], transition[2], transition[3], transition[4],
                                 Transition(transition[5], transition[6]),
                                 Checkpoint(checkpoint[0], checkpoint[1], checkpoint[2]))))
  }

  /** Whatever is signed for a carry reads back as the carry with the two masked fields cut. */
  lemma SubproofReadsBack(c: Carry, hash: Hash)
    ensures SubproofHash(c, hash) == hash(SubproofWords(c, hash))
    ensures ReadCarry(SubproofWords(c, hash), TransitionWords(c.input, hash), CheckpointWords(c.input.checkpoint), hash) ==
            Some(c.(input := c.input.(
              transition := c.input.transition.(timestamp := c.input.transition.timestamp % 0x1_0000_0000_0000),
              checkpoint := c.input.checkpoint.(number := c.input.checkpoint.number % 0x1_0000_0000_0000))))
  {
    assert TransitionWords(c.input, hash)[8..] == CheckpointWords(c.input.checkpoint);
  }

  // ---------- Commitments ----------

  datatype Step = Step(proposer: Address, timestamp: u64, blockHash: Word)

  datatype Commitment = Commitment(firstProposalId: u64, firstParentBlockHash: Word, lastProposalHash: Word,
                                   actualProver: Address, endBlockNumber: u64, endStateRoot: Word, steps: seq<Step>)

  function StepOf(c: Carry): Step {
    Step(c.input.transition.proposer, c.input.transition.timestamp, c.input.checkpoint.hash)
  }

  function CommitmentOf(carries: seq<Carry>): Commitment
    requires carries != []
  {
    var first, last := carries[0].input, carries[|carries| - 1].input;
    Commitment(first.proposalId, first.parentBlockHash, last.proposalHash, first.actualProver,
               last.checkpoint.number, last.checkpoint.root,
               seq(|carries|, i requires 0 <= i < |carries| => StepOf(carries[i])))
  }

  method BuildCommitment(carries: seq<Carry>) returns (r: Option<Commitment>)
    ensures r.Some? <==> CarriesOk(carries)
    ensures r.Some? ==> r.value == CommitmentOf(carries)
  {
    var ok := ValidateCarries(carries);
    if !ok {
      return None;
    }
    var last := carries[|carries| - 1];
    var steps: seq<Step> := [];
    for i := 0 to |carries|
      invariant |steps| == i && forall j :: 0 <= j < i ==> steps[j] == StepOf(carries[j])
    {
      steps := steps + [StepOf(carries[i])];
    }
    var first := carries[0].input;
    return Some(Commitment(first.proposalId, first.parentBlockHash, last.input.proposalHash, first.actualProver,
                           last.input.checkpoint.number, last.input.checkpoint.root, steps));
  }

  function StepWords(s: Step): seq<Word> {
    [s.proposer, s.timestamp, s.blockHash]
  }

  function StepsWords(steps: seq<Step>): (w: seq<Word>)
    ensures |w| == 3 * |steps|
  {
    if steps == [] then [] else StepsWords(steps[..|steps| - 1]) + StepWords(steps[|steps| - 1])
  }

  function HeadWords(c: Commitment): seq<Word> {
    [0x20, c.firstProposalId, c.firstParentBlockHash, c.lastProposalHash, c.actualProver, c.endBlockNumber,
     c.endStateRoot, 0xe0, |c.steps|]
  }

  function CommitmentWords(c: Commitment): (w: seq<Word>)
    ensures |w| == 9 + 3 * |c.steps|
  {
    HeadWords(c) + StepsWords(c.steps)
  }

  method HashCommitment(c: Commitment, hash: Hash) returns (r: Word)
    ensures r == hash(CommitmentWords(c))
  {
    var values := HeadWords(c);
    assert c.steps[..0] == [] && values == HeadWords(c) + StepsWords([]);
    for i := 0 to |c.steps|
      invariant values == HeadWords(c) + StepsWords(c.steps[..i])
    {
      assert c.steps[..i + 1][..i] == c.steps[..i];
      values := values + StepWords(c.steps[i]);
    }
    assert c.steps[..|c.steps|] == c.steps;
    return hash(values);
  }

  /**
   An ABI decoder for the commitment: it finds the tuple and the array by following the byte
   offsets in the words, and knows nothing of the encoder's layout.
   */
  function ParseCommitment(w: seq<Word>): Option<Commitment> {
    if |w| == 0 || w[0] % 32 != 0 then None
    else
      var tuple := w[0] / 32;
      if tuple + 7 > |w| || w[tuple + 6] % 32 != 0 then None
      else
        var elements := tuple + w[tuple + 6] / 32;
        if elements >= |w| || elements + 1 + 3 * w[elements] > |w| then None
        else if w[tuple] >= U64_RANGE || w[tuple + 4] >= U64_RANGE then None
        else
          match ParseSteps(w[elements + 1..], w[elements])
          case None => None
          case Some(steps) =>
            Some(Commitment(w[tuple], w[tuple + 1], w[tuple + 2], w[tuple + 3], w[tuple + 4], w[tuple + 5], steps))
  }

  function ParseSteps(w: seq<Word>, n: nat): Option<seq<Step>>
    requires 3 * n <= |w|
  {
    if n == 0 then Some([])
    else if w[3 * n - 2] >= U64_RANGE then None
    else
      match ParseSteps(w, n - 1)
      case None => None
      case Some(steps) => Some(steps + [Step(w[3 * n - 3], w[3 * n - 2], w[3 * n - 1])])
  }

  lemma {:induction false} ParseStepsBack(steps: seq<Step>, n: nat)
    requires n <= |steps|
    ensures ParseSteps(StepsWords(steps), n) == Some(steps[..n])
  {
    if n > 0 {
      ParseStepsBack(steps, n - 1);
      StepWordsAt(steps, n - 1);
      assert steps[..n] == steps[..n - 1] + [steps[n - 1]];
    }
  }

  lemma {:induction false} StepWordsAt(steps: seq<Step>, i: nat)
    requires i < |steps|
    ensures var w := StepsWords(steps);
            w[3 * i] == steps[i].proposer && w[3 * i + 1] == steps[i].timestamp && w[3 * i + 2] == steps[i].blockHash
  {
    if i < |steps| - 1 {
      StepWordsAt(steps[..|steps| - 1], i);
    }
  }

  /** Following the ABI offsets gives the commitment back. */
  lemma CommitmentRoundTrip(c: Commitment)
    ensures ParseCommitment(CommitmentWords(c)) == Some(c)
  {
    var w := CommitmentWords(c);
    assert w[..9] == HeadWords(c) && w[9..] == StepsWords(c.steps);
    ParseStepsBack(c.steps, |c.steps|);
    assert c.steps[..|c.steps|] == c.steps;
  }

  lemma CommitmentWordsInjective(a: Commitment, b: Commitment)
    requires CommitmentWords(a) == CommitmentWords(b)
    ensures a == b
  {
    CommitmentRoundTrip(a);
    CommitmentRoundTrip(b);
  }

  // ---------- Aggregates ----------

  function AggregateWords(carries: seq<Carry>, instance: Address, hash: Hash): seq<Word>
    requires carries != []
  {
    [VERIFY_PROOF, carries[0].chainId, carries[0].verifier, hash(CommitmentWords(CommitmentOf(carries))), instance]
  }

  function AggregateHash(carries: seq<Carry>, instance: Address, hash: Hash): Word
    requires carries != []
  {
    hash(AggregateWords(carries, instance, hash))
  }

  method HashAggregation(carries: seq<Carry>, instance: Address, hash: Hash) returns (r: Option<Word>)
    ensures r.Some? <==> CarriesOk(carries)
    ensures r.Some? ==> r.value == AggregateHash(carries, instance, hash)
  {
    var commitment := BuildCommitment(carries);
    if commitment.None? {
      return None;
    }
    var commitmentHash := HashCommitment(commitment.value, hash);
    return Some(hash([VERIFY_PROOF, carries[0].chainId, carries[0].verifier, commitmentHash, instance]));
  }

  /** A reader of an aggregate hash's nested preimages, by position and through the ABI offsets. */
  function ReadAggregate(aggregate: seq<Word>, commitment: seq<Word>, hash: Hash): Option<(Word, Address, Commitment, Address)> {
    if |aggregate| != 5 then None
    else if aggregate[0] != 0x5645524946595f50524f4f460000000000000000000000000000000000000000 then None
    else if aggregate[3] != hash(commitment) then None
    else
      match ParseCommitment(commitment)
      case None => None
      case Some(c) => Some((aggregate[1], aggregate[2], c, aggregate[4]))
  }

  /** Whatever is signed for a list of carries reads back as their commitment, under their chain, verifier and instance. */
  lemma AggregateReadsBack(carries: seq<Carry>, instance: Address, hash: Hash)
    requires carries != []
    ensures AggregateHash(carries, instance, hash) == hash(AggregateWords(carries, instance, hash))
    ensures ReadAggregate(AggregateWords(carries, instance, hash), CommitmentWords(CommitmentOf(carries)), hash) ==
            Some((carries[0].chainId, carries[0].verifier, CommitmentOf(carries), instance))
  {
    CommitmentRoundTrip(CommitmentOf(carries));
  }

  /** The commitment itself takes its ends from the first and the last carry, and one step from each. */
  lemma CommitmentMeaning(carries: seq<Carry>, c: Commitment)
    requires carries != []
    ensures c == CommitmentOf(carries) <==>
            && c.firstProposalId == carries[0].input.proposalId
            && c.firstParentBlockHash == carries[0].input.parentBlockHash
            && c.actualProver == carries[0].input.actualProver
            && c.lastProposalHash == carries[|carries| - 1].input.proposalHash
            && c.endBlockNumber == carries[|carries| - 1].input.checkpoint.number
            && c.endStateRoot == carries[|carries| - 1].input.checkpoint.root
            && |c.steps| == |carries|
            && forall i :: 0 <= i < |carries| ==>
                 && c.steps[i].proposer == carries[i].input.transition.proposer
                 && c.steps[i].timestamp == carries[i].input.transition.timestamp
                 && c.steps[i].blockHash == carries[i].input.checkpoint.hash
  {
    var d := CommitmentOf(carries);
    if |c.steps| == |carries|
       && forall i :: 0 <= i < |carries| ==>
            && c.steps[i].proposer == carries[i].input.transition.proposer
            && c.steps[i].timestamp == carries[i].input.transition.timestamp
            && c.steps[i].blockHash == carries[i].input.checkpoint.hash {
      forall i | 0 <= i < |carries| ensures c.steps[i] == d.steps[i] {
      }
      assert c.steps == d.steps;
    }
  }

  /**
   No signed or nested word list of one kind can be one of another kind: 3 words for checkpoints,
   4 for subproofs, 5 for aggregates, 11 for transitions, 12 or more for commitments.
   */
  lemma DomainsDisjoint(cp: Checkpoint, c: Carry, input: TransitionInput, carries: seq<Carry>, instance: Address, hash: Hash)
    requires Ideal(hash) && carries != []
    ensures var hashes := [hash(CheckpointWords(cp)), SubproofHash(c, hash), AggregateHash(carries, instance, hash),
                           hash(TransitionWords(input, hash)), hash(CommitmentWords(CommitmentOf(carries)))];
            forall i, j :: 0 <= i < j < 5 ==> hashes[i] != hashes[j]
  {
    var words := [CheckpointWords(cp), SubproofWords(c, hash), AggregateWords(carries, instance, hash),
                  TransitionWords(input, hash), CommitmentWords(CommitmentOf(carries))];
    var hashes := [hash(words[0]), hash(words[1]), hash(words[2]), hash(words[3]), hash(words[4])];
    forall i, j | 0 <= i < j < 5 ensures hashes[i] != hashes[j] {
      assert |words[4]| >= 12;
      DifferentLengths(words[i], words[j], hash);
    }
  }

  lemma DifferentLengths(a: seq<Word>, b: seq<Word>, hash: Hash)
    requires Ideal(hash) && |a| != |b|
    ensures hash(a) != hash(b)
  {
    assert !SameImage(hash, a, b);
  }

  lemma SubproofIsNoAggregate(c: Carry, carries: seq<Carry>, instance: Address, hash: Hash)
    requires Ideal(hash) && carries != []
    ensures SubproofHash(c, hash) != AggregateHash(carries, instance, hash)
  {
    DifferentLengths(SubproofWords(c, hash), AggregateWords(carries, instance, hash), hash);
  }

  /**
   One aggregate hash stands for one run of proposals: same length, instance, chain, verifier and
   prover, and at every position the same id, proposer, timestamp, parent block and last block.
   */
  lemma AggregateHashCommits(a: seq<Carry>, b: seq<Carry>, instanceA: Address, instanceB: Address, hash: Hash)
    requires Ideal(hash) && CarriesOk(a) && CarriesOk(b)
    requires AggregateHash(a, instanceA, hash) == AggregateHash(b, instanceB, hash)
    ensures instanceA == instanceB && |a| == |b|
    ensures forall i :: 0 <= i < |a| ==>
              && a[i].chainId == b[i].chainId && a[i].verifier == b[i].verifier
              && a[i].input.proposalId == b[i].input.proposalId
              && a[i].input.actualProver == b[i].input.actualProver
              && a[i].input.transition == b[i].input.transition
              && a[i].input.parentBlockHash == b[i].input.parentBlockHash
              && a[i].input.checkpoint.hash == b[i].input.checkpoint.hash
    ensures a[|a| - 1].input.checkpoint == b[|a| - 1].input.checkpoint
    ensures a[|a| - 1].input.proposalHash == b[|a| - 1].input.proposalHash
  {
    var u, v := AggregateWords(a, instanceA, hash), AggregateWords(b, instanceB, hash);
    assert SameImage(hash, u, v);
    assert u[1] == v[1] && u[2] == v[2] && u[3] == v[3] && u[4] == v[4];
    var c, d := CommitmentOf(a), CommitmentOf(b);
    assert SameImage(hash, CommitmentWords(c), CommitmentWords(d));
    CommitmentWordsInjective(c, d);
    assert |c.steps| == |a| && |d.steps| == |b|;
    forall i | 0 <= i < |a|
      ensures && a[i].chainId == b[i].chainId && a[i].verifier == b[i].verifier
              && a[i].input.proposalId == b[i].input.proposalId
              && a[i].input.actualProver == b[i].input.actualProver
              && a[i].input.transition == b[i].input.transition
              && a[i].input.parentBlockHash == b[i].input.parentBlockHash
              && a[i].input.checkpoint.hash == b[i].input.checkpoint.hash
    {
      assert c.steps[i] == d.steps[i];
      ConsecutiveIds(a, i);
      ConsecutiveIds(b, i);
      if i > 0 {
        assert Continues(a[i - 1], a[i]) && Continues(b[i - 1], b[i]) && c.steps[i - 1] == d.steps[i - 1];
      }
    }
    assert c.steps[|a| - 1] == d.steps[|a| - 1];
  }

  // ---------- Ideal hashes exist ----------

  function PowerOfTwo(n: nat): (p: nat)
    ensures p > 0
  {
    if n == 0 then 1 else 2 * PowerOfTwo(n - 1)
  }

  function Number(ws: seq<Word>): nat {
    if ws == [] then 0 else PowerOfTwo(ws[0]) * (2 * Number(ws[1..]) + 1)
  }

  lemma Halved(n: nat, odd: nat)
    requires n > 0
    ensures PowerOfTwo(n) * odd == 2 * (PowerOfTwo(n - 1) * odd)
  {
  }

  lemma {:induction false} OddPartUnique(a: nat, b: nat, x: nat, y: nat)
    requires PowerOfTwo(a) * (2 * x + 1) == PowerOfTwo(b) * (2 * y + 1)
    ensures a == b && x == y
  {
    if a > 0 {
      Halved(a, 2 * x + 1);
      if b > 0 {
        Halved(b, 2 * y + 1);
        OddPartUnique(a - 1, b - 1, x, y);
      } else {
        OddIsNotEven(y, PowerOfTwo(a - 1) * (2 * x + 1));
      }
    } else if b > 0 {
      Halved(b, 2 * y + 1);
      OddIsNotEven(x, PowerOfTwo(b - 1) * (2 * y + 1));
    }
  }

  lemma OddIsNotEven(x: nat, half: nat)
    ensures 2 * x + 1 != 2 * half
  {
  }

  lemma {:induction false} NumberInjective(a: seq<Word>, b: seq<Word>)
    requires Number(a) == Number(b)
    ensures a == b
    decreases |a|
  {
    if a != [] && b != [] {
      OddPartUnique(a[0], b[0], Number(a[1..]), Number(b[1..]));
      NumberInjective(a[1..], b[1..]);
      assert a == [a[0]] + a[1..] && b == [b[0]] + b[1..];
    }
  }

  /** The assumption can be met: words carry no bound here. */
  lemma IdealHashExists()
    ensures Ideal(Number)
  {
    forall a, b | SameImage(Number, a, b) ensures a == b {
      NumberInjective(a, b);
    }
  }
}
