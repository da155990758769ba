/** What Aggregate signs, and what its request decoder lets through, on the proofs' own fields. */
module AggregateMeaning {
  import opened Wrappers
  import opened Words
  import opened Headers
  import opened Carries
  import opened Hashing
  import opened Environment
  import opened SigningService

  /** Exactly the runs of proposals each of which the instance itself signed, under its own id. */
  lemma AggregatedMeaning(proofs: seq<AggregateProof>, instanceId: nat, instance: Address, issued: set<Signed>, hash: Hash)
    ensures AggregateOk(proofs, instanceId, instance, issued, hash) <==>
            && RunOfProposals(CarriesOf(proofs))
            && forall i :: 0 <= i < |proofs| ==>
                 && proofs[i].inputHash == SubproofHash(proofs[i].carry, hash)
                 && proofs[i].instanceId == instanceId
                 && proofs[i].instance == instance
                 && proofs[i].signature == Signed(instance, SubproofHash(proofs[i].carry, hash))
                 && proofs[i].signature in issued
  {
    CarriesMeaning(CarriesOf(proofs));
    hide CarriesOk, RunOfProposals, SubproofHash;
    forall i | 0 <= i < |proofs|
      ensures ProofOk(proofs[i], instanceId, instance, issued, hash) <==>
              && proofs[i].inputHash == SubproofHash(proofs[i].carry, hash)
              && proofs[i].instanceId == instanceId
              && proofs[i].instance == instance
              && proofs[i].signature == Signed(instance, SubproofHash(proofs[i].carry, hash))
              && proofs[i].signature in issued
    {
    }
  }

  /** The decoded parts of one proof: its input is the hash of its carry. */
  ghost predicate DecodesTo(raw: RawProof, p: AggregateProof, hash: Hash) {
    && raw.input == Some(p.inputHash)
    && raw.carry == Some(p.carry)
    && raw.proof == Some((p.instanceId, p.instance, p.signature))
    && p.inputHash == SubproofHash(p.carry, hash)
  }

  ghost predicate AllDecode(raws: seq<RawProof>, proofs: seq<AggregateProof>, hash: Hash) {
    |raws| == |proofs| && forall i :: 0 <= i < |raws| ==> DecodesTo(raws[i], proofs[i], hash)
  }

  lemma DecodedMeaning(raw: RawProof, p: AggregateProof, hash: Hash)
    ensures DecodesTo(raw, p, hash) <==> RawProofOk(raw, hash) && p == DecodedProof(raw)
  {
    if raw.input.Some? && raw.carry.Some? && raw.proof.Some? {
      var (instanceId, instance, signature) := raw.proof.value;
      assert raw.input == Some(raw.input.value) && raw.carry == Some(raw.carry.value);
      assert raw.proof == Some((instanceId, instance, signature));
    }
  }

  /** A request for an aggregate passes exactly when it decodes to one run of proposals of one instance on a known chain. */
  lemma AggregateRequestMeaning(raws: seq<RawProof>, m: Machine)
    ensures AggregateRequestOk(raws, m) <==> exists proofs: seq<AggregateProof> ::
              && AllDecode(raws, proofs, m.hash)
              && RunOfProposals(CarriesOf(proofs))
              && m.knownChain(proofs[0].carry.chainId)
              && forall i :: 0 <= i < |proofs| ==>
                   proofs[i].instanceId == proofs[0].instanceId && proofs[i].instance == proofs[0].instance
  {
    hide RunOfProposals, CarriesOk, SubproofHash;
    if AggregateRequestOk(raws, m) {
      var proofs := DecodedProofs(raws, m.hash);
      forall i | 0 <= i < |raws| ensures DecodesTo(raws[i], proofs[i], m.hash) {
        DecodedMeaning(raws[i], proofs[i], m.hash);
      }
      CarriesMeaning(CarriesOf(proofs));
      assert AllDecode(raws, proofs, m.hash);
    }
    forall proofs: seq<AggregateProof> | AllDecode(raws, proofs, m.hash) && RunOfProposals(CarriesOf(proofs))
      ensures raws != [] && (forall i :: 0 <= i < |raws| ==> RawProofOk(raws[i], m.hash))
      ensures CarriesOk(CarriesOf(proofs)) && proofs == DecodedProofs(raws, m.hash)
    {
      CarriesMeaning(CarriesOf(proofs));
      NotEmpty(proofs);
      forall i | 0 <= i < |raws| ensures RawProofOk(raws[i], m.hash) && proofs[i] == DecodedProof(raws[i]) {
        DecodedMeaning(raws[i], proofs[i], m.hash);
      }
    }
  }

  lemma NotEmpty(proofs: seq<AggregateProof>)
    requires RunOfProposals(CarriesOf(proofs))
    ensures proofs != []
  {
  }
}
