/**
 The signing service: Prove replays a sealed request and signs its carry, Aggregate checks signed
 carries and signs their commitment.  Signatures are ideal: one recovers its signer exactly when
 that signer issued it for that hash.
 */
module SigningService {
  import opened Wrappers
  import opened Words
  import opened Headers
  import opened Carries
  import opened Hashing
  import opened Witness
  import opened BlockReplay
  import opened Environment
  import opened Requests
  import ManifestBinding

  // ---------- Anchor events ----------

  predicate IsAnchored(log: Log, address: Address, topic: Word) {
    log.address == address && log.topics != [] && log.topics[0] == topic
  }

  predicate WellFormed(log: Log) {
    |log.topics| == 1 && log.dataLength == 96 && log.word0 <= UINT48_MAX && log.word1 <= UINT48_MAX
  }

  ghost function AnchoredLogs(logs: seq<Log>, address: Address, topic: Word): seq<Log> {
    if logs == [] then []
    else
      var front, last := AnchoredLogs(logs[..|logs| - 1], address, topic), logs[|logs| - 1];
      if IsAnchored(last, address, topic) then front + [last] else front
  }

  /** The previous and the new anchor, when there is exactly one event and it is well-formed. */
  ghost function AnchoredEvent(logs: seq<Log>, address: Address, topic: Word): Option<(u64, u64)> {
    var events := AnchoredLogs(logs, address, topic);
    if |events| == 1 && WellFormed(events[0]) then Some((events[0].word0, events[0].word1)) else None
  }

  lemma {:induction false} AnchoredPrefix(logs: seq<Log>, n: nat, address: Address, topic: Word)
    requires n <= |logs|
    ensures AnchoredLogs(logs[..n], address, topic) <= AnchoredLogs(logs, address, topic)
  {
    if n < |logs| {
      AnchoredPrefix(logs[..|logs| - 1], n, address, topic);
      assert logs[..|logs| - 1][..n] == logs[..n];
    } else {
      assert logs[..n] == logs;
    }
  }

  method ReplayAnchoredEvent(logs: seq<Log>, address: Address, topic: Word) returns (r: Option<(u64, u64)>)
    ensures r == AnchoredEvent(logs, address, topic)
  {
    r := None;
    for i := 0 to |logs|
      invariant |AnchoredLogs(logs[..i], address, topic)| == if r.Some? then 1 else 0
      invariant r.Some? ==> r == AnchoredEvent(logs[..i], address, topic)
    {
      var log := logs[i];
      assert logs[..i + 1][..i] == logs[..i];
      if IsAnchored(log, address, topic) {
        AnchoredPrefix(logs, i + 1, address, topic);
        if r.Some? {
          return None;
        }
        if |log.topics| != 1 {
          return None;
        }
        if log.dataLength != 96 {
          return None;
        }
        if log.word0 > UINT48_MAX {
          return None;
        }
        if log.word1 > UINT48_MAX {
          return None;
        }
        r := Some((log.word0, log.word1));
      }
    }
    assert logs[..|logs|] == logs;
  }

  ghost function AnchorTransition(receipts: seq<Receipt>, chainId: u64, m: Machine): Option<(u64, u64)> {
    if receipts == [] || !receipts[0].succeeded || m.anchorAddress(chainId).None? then None
    else AnchoredEvent(receipts[0].logs, m.anchorAddress(chainId).value, m.anchoredTopic)
  }

  method ReplayAnchorTransition(receipts: seq<Receipt>, chainId: u64, m: Machine) returns (r: Option<(u64, u64)>)
    ensures r == AnchorTransition(receipts, chainId, m)
  {
    if |receipts| == 0 {
      return None;
    }
    if !receipts[0].succeeded {
      return None;
    }
    match m.anchorAddress(chainId)
    case None => return None;
    case Some(address) => r := ReplayAnchoredEvent(receipts[0].logs, address, m.anchoredTopic);
  }

  // ---------- One replayed block ----------

  /** The body is the one that the header commits to; bodyRestOk covers ommers and withdrawals. */
  predicate BodyOk(m: Machine, b: Block) {
    m.txRoot(b.transactions) == b.header.txRoot && m.bodyRestOk(b)
  }

  ghost predicate Replays(m: Machine, chainId: u64, replay: Replay, result: ExecResult) {
    && WitnessOk(replay.block.header, replay.ancestors, m.hashOf)
    && BodyOk(m, replay.block)
    && Executed(Stripped(replay), chainId, m) == Some(result)
    && result.stateRoot == replay.block.header.root
    && result.receiptsRoot == replay.block.header.receiptsRoot
  }

  ghost predicate BlockOk(m: Machine, chainId: u64, raw: RawBlock, view: BlockView) {
    && m.decode(raw).Some?
    && var replay := m.decode(raw).value;
       && view == ViewOf(replay.block.header, m.hashOf)
       && Executed(Stripped(replay), chainId, m).Some?
       && Replays(m, chainId, replay, Executed(Stripped(replay), chainId, m).value)
  }

  /** The anchors that the block's own execution reports. */
  ghost function BlockAnchors(m: Machine, chainId: u64, raw: RawBlock): Option<(u64, u64)> {
    match m.decode(raw)
    case None => None
    case Some(replay) =>
      match Executed(Stripped(replay), chainId, m)
      case None => None
      case Some(result) => AnchorTransition(result.receipts, chainId, m)
  }

  method MatchesView(block: Block, view: BlockView, hashOf: HeaderHash) returns (ok: bool)
    ensures ok <==> view == ViewOf(block.header, hashOf)
  {
    if block.header.number != view.number {
      return false;
    }
    if hashOf(block.header) != view.hash {
      return false;
    }
    if block.header.parentHash != view.parentHash {
      return false;
    }
    if block.header.root != view.stateRoot {
      return false;
    }
    return block.header.receiptsRoot == view.receiptsRoot;
  }

  method ReplayOne(m: Machine, chainId: u64, raw: RawBlock, view: BlockView) returns (r: Option<ExecResult>)
    ensures r.Some? <==> BlockOk(m, chainId, raw, view)
    ensures r.Some? ==> BlockAnchors(m, chainId, raw) == AnchorTransition(r.value.receipts, chainId, m)
  {
    match m.decode(raw)
    case None => return None;
    case Some(replay) =>
      var sameView := MatchesView(replay.block, view, m.hashOf);
      if !sameView {
        return None;
      }
      var witnessed := ValidateReplayWitness(replay.block.header, replay.ancestors, m.hashOf);
      if !witnessed {
        return None;
      }
      if !BodyOk(m, replay.block) {
        return None;
      }
      var executed := Execute(Stripped(replay), chainId, m);
      match executed
      case None => return None;
      case Some(result) =>
        if result.stateRoot != replay.block.header.root {
          return None;
        }
        if result.receiptsRoot != replay.block.header.receiptsRoot {
          return None;
        }
        return Some(result);
  }

  // ---------- A whole request ----------

  /** The anchor that block i must report as its previous one. */
  ghost function PreviousAnchor(c: Content, i: nat, m: Machine): Option<u64>
    requires i <= |c.raws|
  {
    if i == 0 then (if c.guestInput.Some? then m.lastAnchor(c.guestInput.value) else None)
    else
      match BlockAnchors(m, c.carry.chainId, c.raws[i - 1])
      case None => None
      case Some(a) => Some(a.1)
  }

  ghost predicate AnchorContinues(c: Content, i: nat, m: Machine)
    requires i < |c.raws|
  {
    var a := BlockAnchors(m, c.carry.chainId, c.raws[i]);
    a.Some? && PreviousAnchor(c, i, m) == Some(a.value.0)
  }

  ghost predicate ProveOk(c: Content, m: Machine) {
    && c.views != []
    && |c.views| == |c.raws|
    && m.knownChain(c.carry.chainId)
    && (forall i :: 0 <= i < |c.raws| ==> BlockOk(m, c.carry.chainId, c.raws[i], c.views[i]))
    && (c.guestInput.Some? ==> forall i: nat :: i < |c.raws| ==> AnchorContinues(c, i, m))
    && ViewsOk(c.views, c.carry)
  }

  method ReplayAll(c: Content, m: Machine) returns (ok: bool)
    requires c.views != [] && |c.views| == |c.raws|
    ensures ok <==>
            && (forall i :: 0 <= i < |c.raws| ==> BlockOk(m, c.carry.chainId, c.raws[i], c.views[i]))
            && (c.guestInput.Some? ==> forall i: nat :: i < |c.raws| ==> AnchorContinues(c, i, m))
  {
    hide Executed, BlockOk;
    var previousAnchor: u64 := 0;
    for index := 0 to |c.raws|
      invariant forall i :: 0 <= i < index ==> BlockOk(m, c.carry.chainId, c.raws[i], c.views[i])
      invariant c.guestInput.Some? ==> forall i: nat :: i < index ==> AnchorContinues(c, i, m)
      invariant c.guestInput.Some? && index > 0 ==> PreviousAnchor(c, index, m) == Some(previousAnchor)
    {
      var result := ReplayOne(m, c.carry.chainId, c.raws[index], c.views[index]);
      if result.None? {
        return false;
      }
      if c.guestInput.Some? {
        ghost var continues := AnchorContinues(c, index, m);
        var expected := previousAnchor;
        if index == 0 {
          match m.lastAnchor(c.guestInput.value) {
            case None =>
              assert !continues;
              return false;
            case Some(last) => expected := last;
          }
        }
        var event := ReplayAnchorTransition(result.value.receipts, c.carry.chainId, m);
        if event.None? || event.value.0 != expected {
          assert !continues;
          return false;
        }
        previousAnchor := event.value.1;
      }
    }
    return true;
  }

  method ReplayRequest(c: Content, m: Machine) returns (ok: bool)
    ensures ok <==> ProveOk(c, m)
  {
    if |c.views| == 0 || |c.raws| == 0 {
      return false;
    }
    if |c.views| != |c.raws| {
      return false;
    }
    if !m.knownChain(c.carry.chainId) {
      return false;
    }
    ok := ReplayAll(c, m);
    if ok {
      ok := ValidateBlockViews(c.views, c.carry);
    }
  }

  // ---------- Signatures and the record of what was signed ----------

  /** A signature, as good as its signer and the hash it was made for. */
  datatype Signed = Signed(signer: Address, hash: Word)

  datatype AggregateProof = AggregateProof(inputHash: Word, instanceId: nat, instance: Address, signature: Signed,
                                           carry: Carry)

  datatype Event =
    | Proved(instance: Address, content: Content)
    | Aggregated(instance: Address, instanceId: nat, proofs: seq<AggregateProof>)

  function CarriesOf(proofs: seq<AggregateProof>): (c: seq<Carry>)
    ensures |c| == |proofs|
    ensures forall i :: 0 <= i < |proofs| ==> c[i] == proofs[i].carry
  {
    seq(|proofs|, i requires 0 <= i < |proofs| => proofs[i].carry)
  }

  function Recover(issued: set<Signed>, hash: Word, signature: Signed): Option<Address> {
    if signature in issued && signature.hash == hash then Some(signature.signer) else None
  }

  predicate ProofOk(p: AggregateProof, instanceId: nat, instance: Address, issued: set<Signed>, hash: Hash) {
    && p.inputHash == SubproofHash(p.carry, hash)
    && p.instanceId == instanceId
    && p.instance == instance
    && Recover(issued, p.inputHash, p.signature) == Some(instance)
  }

  ghost predicate AggregateOk(proofs: seq<AggregateProof>, instanceId: nat, instance: Address, issued: set<Signed>, hash: Hash) {
    && CarriesOk(CarriesOf(proofs))
    && forall i :: 0 <= i < |proofs| ==> ProofOk(proofs[i], instanceId, instance, issued, hash)
  }

  /** The signature an event leaves behind. */
  ghost function SignatureOf(e: Event, hash: Hash): Option<Signed> {
    match e
    case Proved(instance, content) => Some(Signed(instance, SubproofHash(content.carry, hash)))
    case Aggregated(instance, _, proofs) =>
      if proofs == [] then None else Some(Signed(instance, AggregateHash(CarriesOf(proofs), instance, hash)))
  }

  ghost function Issued(history: seq<Event>, hash: Hash): set<Signed> {
    if history == [] then {}
    else
      var s := SignatureOf(history[|history| - 1], hash);
      Issued(history[..|history| - 1], hash) + if s.Some? then {s.value} else {}
  }

  /** What may happen next after the events of a history. */
  ghost predicate Legal(history: seq<Event>, e: Event, m: Machine) {
    match e
    case Proved(_, content) => Accepted(content, m) && ProveOk(content, m)
    case Aggregated(instance, instanceId, proofs) =>
      AggregateOk(proofs, instanceId, instance, Issued(history, m.hash), m.hash)
  }

  /** The histories of all runs, of any number of instances, interleaved in any way. */
  ghost predicate Run(history: seq<Event>, m: Machine) {
    forall i: nat :: i < |history| ==> LegalAt(history, i, m)
  }

  ghost predicate LegalAt(history: seq<Event>, i: nat, m: Machine)
    requires i < |history|
  {
    Legal(history[..i], history[i], m)
  }

  lemma RunExtended(history: seq<Event>, e: Event, m: Machine)
    requires Run(history, m) && Legal(history, e, m)
    ensures Run(history + [e], m)
  {
    hide ManifestBinding.GuestInputOk;
    var longer := history + [e];
    forall i: nat | i < |longer| ensures LegalAt(longer, i, m) {
      assert longer[..i] == history[..i];
      if i < |history| {
        assert LegalAt(history, i, m);
      } else {
        assert history[..i] == history;
      }
    }
  }

  /** Everything that was signed, by all instances that share it. */
  class Ledger {
    const machine: Machine
    var issued: set<Signed>
    ghost var history: seq<Event>

    ghost predicate Valid()
      reads this
    {
      Run(history, machine) && issued == Issued(history, machine.hash)
    }

    constructor (m: Machine)
      ensures Valid() && machine == m && history == []
    {
      machine, issued, history := m, {}, [];
    }

    method Sign(signature: Signed, ghost event: Event)
      requires Valid() && Legal(history, event, machine) && SignatureOf(event, machine.hash) == Some(signature)
      modifies this
      ensures Valid() && history == old(history) + [event] && issued == old(issued) + {signature}
    {
      hide ManifestBinding.GuestInputOk;
      RunExtended(history, event, machine);
      issued := issued + {signature};
      history := history + [event];
      assert history[..|history| - 1] == old(history);
    }
  }

  class ReplayService {
    const ledger: Ledger
    const instanceId: nat
    const instance: Address
    const aggregateEnabled: bool

    constructor (ledger: Ledger, instanceId: nat, instance: Address, aggregateEnabled: bool)
      ensures this.ledger == ledger && this.instanceId == instanceId && this.instance == instance
      ensures this.aggregateEnabled == aggregateEnabled
    {
      this.ledger, this.instanceId, this.instance := ledger, instanceId, instance;
      this.aggregateEnabled := aggregateEnabled;
    }

    /** Signs exactly the requests that are unchanged since validation and that replay. */
    method Prove(req: ValidatedRequest) returns (r: Option<Signed>)
      requires ledger.Valid() && req.SealIntact(ledger.machine)
      modifies ledger
      ensures ledger.Valid()
      ensures r.Some? <==> req.validated && req.Current() == req.Sealed() && ProveOk(req.Current(), ledger.machine)
      ensures r.Some? ==> r.value == Signed(instance, SubproofHash(req.carry, ledger.machine.hash))
      ensures ledger.history == old(ledger.history) + if r.Some? then [Proved(instance, req.Current())] else []
    {
      hide ManifestBinding.GuestInputOk;
      var bound := req.ValidateSigningBinding();
      if !bound {
        return None;
      }
      var content := Content(req.carry, req.blocks, req.rawBlocks, req.guestInput);
      var ok := ReplayRequest(content, ledger.machine);
      if !ok {
        return None;
      }
      var signature := Signed(instance, SubproofHash(req.carry, ledger.machine.hash));
      ledger.Sign(signature, Proved(instance, content));
      return Some(signature);
    }

    /** Signs exactly the non-empty runs of carries that this instance itself signed. */
    method Aggregate(proofs: seq<AggregateProof>, validated: bool) returns (r: Option<Signed>)
      requires ledger.Valid()
      modifies ledger
      ensures ledger.Valid()
      ensures r.Some? <==>
              && aggregateEnabled && validated
              && AggregateOk(proofs, instanceId, instance, old(ledger.issued), ledger.machine.hash)
      ensures r.Some? ==>
                proofs != [] && r.value == Signed(instance, AggregateHash(CarriesOf(proofs), instance, ledger.machine.hash))
      ensures ledger.history == old(ledger.history) + if r.Some? then [Aggregated(instance, instanceId, proofs)] else []
    {
      hide ManifestBinding.GuestInputOk;
      if !aggregateEnabled {
        return None;
      }
      if !validated {
        return None;
      }
      var carries: seq<Carry> := [];
      for i := 0 to |proofs|
        invariant carries == CarriesOf(proofs[..i])
      {
        carries := carries + [proofs[i].carry];
        assert carries == CarriesOf(proofs[..i + 1]);
      }
      assert proofs[..|proofs|] == proofs;
      if |proofs| > 0 && (proofs[0].instanceId != instanceId || proofs[0].instance != instance) {
        assert !ProofOk(proofs[0], instanceId, instance, ledger.issued, ledger.machine.hash);
        return None;
      }
      var aggregationHash := HashAggregation(carries, instance, ledger.machine.hash);
      if aggregationHash.None? {
        return None;
      }
      var ok := ValidateAggregateSignatures(proofs);
      if !ok {
        return None;
      }
      var signature := Signed(instance, aggregationHash.value);
      ledger.Sign(signature, Aggregated(instance, instanceId, proofs));
      return Some(signature);
    }

    method ValidateAggregateSignatures(proofs: seq<AggregateProof>) returns (ok: bool)
      ensures ok <==> forall i :: 0 <= i < |proofs| ==>
                        ProofOk(proofs[i], instanceId, instance, ledger.issued, ledger.machine.hash)
    {
      for index := 0 to |proofs|
        invariant forall i :: 0 <= i < index ==>
                    ProofOk(proofs[i], instanceId, instance, ledger.issued, ledger.machine.hash)
      {
        var proof := proofs[index];
        if proof.inputHash != SubproofHash(proof.carry, ledger.machine.hash) {
          return false;
        }
        if proof.instanceId != instanceId {
          return false;
        }
        if proof.instance != instance {
          return false;
        }
        match Recover(ledger.issued, proof.inputHash, proof.signature)
        case None => return false;
        case Some(recovered) =>
          if recovered != instance {
            return false;
          }
      }
      return true;
    }
  }

  // ---------- Decoding an aggregate request ----------

  /** One undecoded proof; a part that is missing or malformed is None. */
  datatype RawProof = RawProof(input: Option<Word>, carry: Option<Carry>, proof: Option<(nat, Address, Signed)>)

  predicate RawProofOk(p: RawProof, hash: Hash) {
    p.input.Some? && p.carry.Some? && p.proof.Some? && p.input.value == SubproofHash(p.carry.value, hash)
  }

  function DecodedProof(p: RawProof): AggregateProof
    requires p.input.Some? && p.carry.Some? && p.proof.Some?
  {
    var (instanceId, instance, signature) := p.proof.value;
    AggregateProof(p.input.value, instanceId, instance, signature, p.carry.value)
  }

  function DecodedProofs(raws: seq<RawProof>, hash: Hash): (p: seq<AggregateProof>)
    requires forall i :: 0 <= i < |raws| ==> RawProofOk(raws[i], hash)
    ensures |p| == |raws|
    ensures forall i :: 0 <= i < |raws| ==> RawProofOk(raws[i], hash) && p[i] == DecodedProof(raws[i])
  {
    seq(|raws|, i requires 0 <= i < |raws| && RawProofOk(raws[i], hash) => DecodedProof(raws[i]))
  }

  ghost predicate AggregateRequestOk(raws: seq<RawProof>, m: Machine) {
    && raws != []
    && (forall i :: 0 <= i < |raws| ==> RawProofOk(raws[i], m.hash))
    && var proofs := DecodedProofs(raws, m.hash);
       && CarriesOk(CarriesOf(proofs))
       && m.knownChain(proofs[0].carry.chainId)
       && forall i :: 0 <= i < |proofs| ==>
            proofs[i].instanceId == proofs[0].instanceId && proofs[i].instance == proofs[0].instance
  }

  method ValidateAggregateRequest(raws: seq<RawProof>, m: Machine) returns (r: Option<seq<AggregateProof>>)
    ensures r.Some? <==> AggregateRequestOk(raws, m)
    ensures r.Some? ==> r.value == DecodedProofs(raws, m.hash)
  {
    if |raws| == 0 {
      return None;
    }
    var proofs: seq<AggregateProof> := [];
    for index := 0 to |raws|
      invariant |proofs| == index
      invariant forall i :: 0 <= i < index ==> RawProofOk(raws[i], m.hash) && proofs[i] == DecodedProof(raws[i])
    {
      var item := raws[index];
      if item.input.None? || item.carry.None? {
        return None;
      }
      if item.input.value != SubproofHash(item.carry.value, m.hash) {
        return None;
      }
      if item.proof.None? {
        return None;
      }
      proofs := proofs + [DecodedProof(item)];
    }
    assert proofs == DecodedProofs(raws, m.hash);
    var carriesOk := ValidateCarries(CarriesOf(proofs));
    if !carriesOk {
      return None;
    }
    if !m.knownChain(proofs[0].carry.chainId) {
      return None;
    }
    for index := 1 to |proofs|
      invariant forall i :: 0 <= i < index ==>
                  proofs[i].instanceId == proofs[0].instanceId && proofs[i].instance == proofs[0].instance
    {
      if proofs[index].instanceId != proofs[0].instanceId {
        return None;
      }
      if proofs[index].instance != proofs[0].instance {
        return None;
      }
    }
    return Some(proofs);
  }
}
