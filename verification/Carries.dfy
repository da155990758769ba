/** Proof carry data, and the rule by which a list of carries forms one run of proposals. */
module Carries {
  import opened Words
  import opened Headers

  type Address = nat

  datatype Transition = Transition(proposer: Address, timestamp: u64)

  datatype TransitionInput = TransitionInput(proposalId: u64, proposalHash: Word, parentProposalHash: Word,
                                             parentBlockHash: Word, actualProver: Address, transition: Transition,
                                             checkpoint: Checkpoint)

  datatype Carry = Carry(chainId: u64, verifier: Address, input: TransitionInput)

  predicate FitsWidths(c: Carry) {
    && c.input.proposalId <= UINT48_MAX
    && c.input.transition.timestamp <= UINT48_MAX
    && c.input.checkpoint.number <= UINT48_MAX
  }

  /** next is the proposal right after previous, and continues from its last block. */
  predicate Continues(previous: Carry, next: Carry) {
    && next.input.proposalId == previous.input.proposalId + 1
    && next.input.parentProposalHash == previous.input.proposalHash
    && next.chainId == previous.chainId
    && next.verifier == previous.verifier
    && next.input.parentBlockHash == previous.input.checkpoint.hash
  }

  ghost predicate CarriesOk(carries: seq<Carry>) {
    && carries != []
    && (forall i :: 0 <= i < |carries| ==>
          FitsWidths(carries[i]) && carries[i].input.actualProver == carries[0].input.actualProver)
    && (forall i :: 0 < i < |carries| ==> Continues(carries[i - 1], carries[i]))
  }

  /** The id after proposalId, unless it would not fit 48 bits. */
  function CheckedIncrement(proposalId: u64): (r: (u64, bool))
    ensures r.1 <==> proposalId + 1 <= UINT48_MAX
    ensures r.1 ==> r.0 == proposalId + 1
  {
    if proposalId >= UINT48_MAX then (0, false) else (proposalId + 1, true)
  }

  method ValidateCarries(carries: seq<Carry>) returns (ok: bool)
    ensures ok <==> CarriesOk(carries)
  {
    if |carries| == 0 {
      return false;
    }
    var expectedProver := carries[0].input.actualProver;
    for i := 0 to |carries|
      invariant forall j :: 0 <= j < i ==> FitsWidths(carries[j]) && carries[j].input.actualProver == expectedProver
    {
      if !FitsWidths(carries[i]) {
        return false;
      }
      if carries[i].input.actualProver != expectedProver {
        return false;
      }
    }
    for i := 1 to |carries|
      invariant forall j :: 0 < j < i ==> Continues(carries[j - 1], carries[j])
    {
      var previous, next := carries[i - 1], carries[i];
      var (expectedId, fits) := CheckedIncrement(previous.input.proposalId);
      if !fits || expectedId != next.input.proposalId {
        return false;
      }
      if previous.input.proposalHash != next.input.parentProposalHash {
        return false;
      }
      if previous.chainId != next.chainId {
        return false;
      }
      if previous.verifier != next.verifier {
        return false;
      }
      if previous.input.checkpoint.hash != next.input.parentBlockHash {
        return false;
      }
    }
    return true;
  }

  /** The ids of an accepted list are consecutive, on one chain and one verifier. */
  lemma {:induction false} ConsecutiveIds(carries: seq<Carry>, i: nat)
    requires CarriesOk(carries) && i < |carries|
    ensures carries[i].input.proposalId == carries[0].input.proposalId + i <= UINT48_MAX
    ensures carries[i].chainId == carries[0].chainId && carries[i].verifier == carries[0].verifier
  {
    if i > 0 {
      ConsecutiveIds(carries, i - 1);
      assert Continues(carries[i - 1], carries[i]);
    }
  }

  /**
   One run of proposals: one chain, one verifier and one prover, ids that count up from the first, all
   fields in their widths, and hashes that link.
   */
  ghost predicate RunOfProposals(carries: seq<Carry>) {
    && carries != []
    && (forall i :: 0 <= i < |carries| ==>
          && carries[i].chainId == carries[0].chainId
          && carries[i].verifier == carries[0].verifier
          && carries[i].input.actualProver == carries[0].input.actualProver
          && carries[i].input.proposalId == carries[0].input.proposalId + i <= 0xffff_ffff_ffff
          && carries[i].input.transition.timestamp <= 0xffff_ffff_ffff
          && carries[i].input.checkpoint.number <= 0xffff_ffff_ffff)
    && (forall i :: 0 < i < |carries| ==>
          && carries[i].input.parentProposalHash == carries[i - 1].input.proposalHash
          && carries[i].input.parentBlockHash == carries[i - 1].input.checkpoint.hash)
  }

  lemma RunAt(carries: seq<Carry>, i: nat)
    requires RunOfProposals(carries) && i < |carries|
    ensures carries[i].chainId == carries[0].chainId && carries[i].verifier == carries[0].verifier
    ensures carries[i].input.actualProver == carries[0].input.actualProver && FitsWidths(carries[i])
    ensures carries[i].input.proposalId == carries[0].input.proposalId + i
    ensures i > 0 ==>
              && carries[i].input.parentProposalHash == carries[i - 1].input.proposalHash
              && carries[i].input.parentBlockHash == carries[i - 1].input.checkpoint.hash
  {
  }

  lemma RunIsOk(carries: seq<Carry>)
    requires RunOfProposals(carries)
    ensures CarriesOk(carries)
  {
    RunAt(carries, 0);
    hide RunOfProposals, FitsWidths;
    forall i | 0 <= i < |carries|
      ensures FitsWidths(carries[i]) && carries[i].input.actualProver == carries[0].input.actualProver
    {
      RunAt(carries, i);
    }
    forall i | 0 < i < |carries| ensures Continues(carries[i - 1], carries[i]) {
      RunAt(carries, i - 1);
      RunAt(carries, i);
    }
  }

  lemma OkIsRun(carries: seq<Carry>)
    requires CarriesOk(carries)
    ensures RunOfProposals(carries)
  {
    forall i | 0 <= i < |carries|
      ensures carries[i].chainId == carries[0].chainId
      ensures carries[i].verifier == carries[0].verifier
      ensures carries[i].input.actualProver == carries[0].input.actualProver
      ensures carries[i].input.proposalId == carries[0].input.proposalId + i <= 0xffff_ffff_ffff
      ensures carries[i].input.transition.timestamp <= 0xffff_ffff_ffff
      ensures carries[i].input.checkpoint.number <= 0xffff_ffff_ffff
    {
      ConsecutiveIds(carries, i);
    }
    forall i | 0 < i < |carries|
      ensures carries[i].input.parentProposalHash == carries[i - 1].input.proposalHash
      ensures carries[i].input.parentBlockHash == carries[i - 1].input.checkpoint.hash
    {
      assert Continues(carries[i - 1], carries[i]);
    }
  }

  /** The pairwise check accepts exactly these lists. */
  lemma CarriesMeaning(carries: seq<Carry>)
    ensures CarriesOk(carries) <==> RunOfProposals(carries)
  {
    hide CarriesOk, RunOfProposals;
    if CarriesOk(carries) {
      OkIsRun(carries);
    }
    if RunOfProposals(carries) {
      RunIsOk(carries);
    }
  }
}
